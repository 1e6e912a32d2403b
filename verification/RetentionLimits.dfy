/** The retention settings (media/retention.py): what the file and the panel may set, the caps they
    come to, and which settings make a sweep delete everything. */
module RetentionLimits {
  import opened Common
  import opened Retention

  /** A stored field: nothing (or anything else Python takes for false), a number, or what arithmetic
      raises on. */
  datatype Value = Falsy | Number(n: real) | Wrong

  /** `RetentionConfig.data`. */
  type Data = map<string, map<string, Value>>

  datatype Limit = Unlimited | Limit(n: int) | Raises

  const FIELDS := ["max_mb", "max_days"]

  /** `int(x)`: towards zero. */
  function Trunc(x: real): int {
    if x >= 0.0 then x.Floor else -((-x).Floor)
  }

  function FieldOf(data: Data, category: string, field: string): Value {
    if category in data && field in data[category] then data[category][field] else Falsy
  }

  function LimitOf(v: Value, unit: real): Limit {
    match v
    case Falsy => Unlimited
    case Number(n) => if n == 0.0 then Unlimited else Limit(Trunc(n * unit))
    case Wrong => Raises
  }

  /** `max_bytes`. */
  function MaxBytes(data: Data, category: string): Limit {
    LimitOf(FieldOf(data, category, "max_mb"), 1048576.0)
  }

  /** `max_age_sec`. */
  function MaxAge(data: Data, category: string): Limit {
    LimitOf(FieldOf(data, category, "max_days"), 86400.0)
  }

  /** The caps a sweep of the category works with, unless reading them raises. */
  function CapsOf(data: Data, category: string): Option<Caps> {
    var bytes, age := MaxBytes(data, category), MaxAge(data, category);
    if bytes.Raises? || age.Raises? then None
    else Some(Caps(if bytes.Limit? then Some(bytes.n) else None, if age.Limit? then Some(age.n as real) else None))
  }

  // --- the file --------------------------------------------------------------

  datatype Stored = NotADict | Fields(values: map<string, Value>)

  /** retention.json; missing, damaged and no object are the same. */
  datatype File = Unusable | Overrides(entries: map<string, Stored>)

  /** `load`. */
  function Load(defaults: Data, file: File): Data {
    map c | c in defaults ::
      if file.Overrides? && c in file.entries && file.entries[c].Fields? then defaults[c] + file.entries[c].values
      else defaults[c]
  }

  // --- the panel -------------------------------------------------------------

  /** A patch for one category; each value as `to_float` reads it, None for what is no finite number. */
  datatype Patch = NoDict | Patch(values: map<string, Option<real>>)

  /** Positive, or no cap. */
  function Cleaned(number: Option<real>): Value {
    if number.Some? && number.value > 0.0 then Number(number.value) else Falsy
  }

  function Patched(before: map<string, Value>, patch: Patch): map<string, Value> {
    if patch.NoDict? then before else PatchedFields(before, patch, FIELDS)
  }

  function PatchedFields(before: map<string, Value>, patch: Patch, fields: seq<string>): map<string, Value>
    requires patch.Patch?
  {
    before + map f | f in fields && f in patch.values :: Cleaned(patch.values[f])
  }

  /** `update`. */
  function Update(data: Data, patch: map<string, Patch>): Data {
    map c | c in data :: if c in patch then Patched(data[c], patch[c]) else data[c]
  }

  /** The patch for the categories in `done` only. */
  function UpdateOnly(data: Data, patch: map<string, Patch>, done: set<string>): Data {
    map c | c in data :: if c in done && c in patch then Patched(data[c], patch[c]) else data[c]
  }

  lemma OneMore(data: Data, patch: map<string, Patch>, done: set<string>, c: string)
    requires c in patch && c !in done
    ensures UpdateOnly(data, patch, done + {c})
      == if c in data then UpdateOnly(data, patch, done)[c := Patched(UpdateOnly(data, patch, done)[c], patch[c])]
         else UpdateOnly(data, patch, done)
  {
    hide Patched;
  }

  lemma NoneAndAll(data: Data, patch: map<string, Patch>)
    ensures UpdateOnly(data, patch, {}) == data && UpdateOnly(data, patch, patch.Keys) == Update(data, patch)
  {
    hide Patched;
  }

  class RetentionConfig {
    var data: Data

    /** `update`: in place, category by category and field by field. */
    method ApplyPatch(patch: map<string, Patch>)
      modifies this
      ensures data == Update(old(data), patch)
    {
      hide UpdateOnly, Update, Patched;
      var rest := patch.Keys;
      NoneAndAll(data, patch);
      assert patch.Keys - rest == {};
      while rest != {}
        invariant rest <= patch.Keys && data.Keys == old(data).Keys
        invariant data == UpdateOnly(old(data), patch, patch.Keys - rest)
      {
        var c :| c in rest;
        OneMore(old(data), patch, patch.Keys - rest, c);
        assert patch.Keys - (rest - {c}) == (patch.Keys - rest) + {c};
        rest := rest - {c};
        if c in data {
          if patch[c].Patch? {
            ApplyFields(c, patch[c]);
          } else {
            NotPatched(data[c], patch[c]);
            assert data == data[c := data[c]];
          }
        }
      }
      assert patch.Keys - rest == patch.Keys;
    }

    method ApplyFields(category: string, patch: Patch)
      requires category in data && patch.Patch?
      modifies this
      ensures data == old(data)[category := Patched(old(data)[category], patch)]
    {
      ghost var before := data[category];
      NoField(before, patch);
      assert data == data[category := before];
      for k := 0 to |FIELDS|
        invariant category in data
        invariant data == old(data)[category := PatchedFields(before, patch, FIELDS[..k])]
      {
        OneField(before, patch, k);
        if FIELDS[k] in patch.values {
          data := data[category := data[category][FIELDS[k] := Cleaned(patch.values[FIELDS[k]])]];
        }
      }
      assert FIELDS[..|FIELDS|] == FIELDS;
    }
  }

  lemma NoField(before: map<string, Value>, patch: Patch)
    requires patch.Patch?
    ensures PatchedFields(before, patch, FIELDS[..0]) == before
  {
  }

  lemma AddField(before: map<string, Value>, patch: Patch, fields: seq<string>, f: string)
    requires patch.Patch?
    ensures PatchedFields(before, patch, fields + [f])
            == if f in patch.values then PatchedFields(before, patch, fields)[f := Cleaned(patch.values[f])]
               else PatchedFields(before, patch, fields)
  {
    hide Cleaned;
  }

  lemma OneField(before: map<string, Value>, patch: Patch, k: nat)
    requires patch.Patch? && k < |FIELDS|
    ensures var f := FIELDS[k];
            PatchedFields(before, patch, FIELDS[..k + 1])
            == if f in patch.values then PatchedFields(before, patch, FIELDS[..k])[f := Cleaned(patch.values[f])]
               else PatchedFields(before, patch, FIELDS[..k])
  {
    hide PatchedFields, Cleaned;
    assert FIELDS[..k + 1] == FIELDS[..k] + [FIELDS[k]];
    AddField(before, patch, FIELDS[..k], FIELDS[k]);
  }

  lemma NotPatched(before: map<string, Value>, patch: Patch)
    requires patch.NoDict?
    ensures Patched(before, patch) == before
  {
  }

  // --- what the settings can come to -----------------------------------------

  predicate Sane(l: Limit) {
    l.Unlimited? || (l.Limit? && l.n >= 0)
  }

  /** No cap of any category is negative or raises. */
  ghost predicate AllSane(data: Data) {
    forall c: string :: Sane(MaxBytes(data, c)) && Sane(MaxAge(data, c))
  }

  lemma CleanedIsSane(number: Option<real>, unit: real)
    requires unit > 0.0
    ensures Sane(LimitOf(Cleaned(number), unit))
  {
    if number.Some? && number.value > 0.0 {
      assert number.value * unit >= 0.0;
    }
  }

  /** A field the panel sets is a sane cap afterwards whatever was there; one it does not set is as
      it was. */
  lemma UpdatedField(data: Data, patch: map<string, Patch>, category: string, field: string)
    requires category in data && field in FIELDS
    ensures FieldOf(Update(data, patch), category, field) ==
      if category in patch && patch[category].Patch? && field in patch[category].values
      then Cleaned(patch[category].values[field]) else FieldOf(data, category, field)
  {
  }

  lemma UpdateStaysSane(data: Data, patch: map<string, Patch>)
    requires AllSane(data)
    ensures AllSane(Update(data, patch))
  {
    forall c: string ensures Sane(MaxBytes(Update(data, patch), c)) && Sane(MaxAge(Update(data, patch), c)) {
      if c in data {
        assert Sane(MaxBytes(data, c)) && Sane(MaxAge(data, c));
        UpdatedField(data, patch, c, "max_mb");
        UpdatedField(data, patch, c, "max_days");
        if c in patch && patch[c].Patch? {
          if "max_mb" in patch[c].values {
            CleanedIsSane(patch[c].values["max_mb"], 1048576.0);
          }
          if "max_days" in patch[c].values {
            CleanedIsSane(patch[c].values["max_days"], 86400.0);
          }
        }
      }
    }
  }

  function UpdateAll(data: Data, patches: seq<map<string, Patch>>): Data {
    if patches == [] then data else Update(UpdateAll(data, patches[..|patches| - 1]), patches[|patches| - 1])
  }

  /** No run of panel edits ever yields a negative cap or one that raises. */
  lemma {:induction false} PanelNeverNegative(data: Data, patches: seq<map<string, Patch>>)
    requires AllSane(data)
    ensures AllSane(UpdateAll(data, patches))
  {
    hide AllSane, Update;
    if patches != [] {
      PanelNeverNegative(data, patches[..|patches| - 1]);
      UpdateStaysSane(UpdateAll(data, patches[..|patches| - 1]), patches[|patches| - 1]);
    }
  }

  lemma TruncNegative(x: real)
    ensures Trunc(x) < 0 <==> x <= -1.0
    ensures Trunc(x) <= 0 <==> x < 1.0
  {
  }

  // --- which caps delete everything ------------------------------------------

  ghost predicate Sized(entries: seq<Entry>, least: int) {
    forall i | 0 <= i < |entries| :: entries[i].size >= least
  }

  /** Made at some time before now. */
  ghost predicate Past(entries: seq<Entry>, now: real) {
    forall i | 0 <= i < |entries| :: entries[i].created.Some? && entries[i].created.value < now
  }

  predicate NegativeBytes(caps: Caps) {
    caps.maxBytes.Some? && caps.maxBytes.value < 0
  }

  predicate NoBytes(caps: Caps) {
    caps.maxBytes.Some? && caps.maxBytes.value <= 0
  }

  predicate NoAge(caps: Caps) {
    caps.maxAge.Some? && caps.maxAge.value <= 0.0
  }

  ghost predicate DeletesAll(entries: seq<Entry>, caps: Caps, now: real) {
    Kept(entries, caps, now, Sum(entries)) == []
  }

  lemma {:induction false} AllOverAge(entries: seq<Entry>, caps: Caps, now: real, total: int)
    requires forall i | 0 <= i < |entries| :: OverAge(caps, now, entries[i])
    ensures Kept(entries, caps, now, total) == []
  {
    if entries != [] {
      var n := |entries| - 1;
      AllOverAge(entries[..n], caps, now, total);
      AllOverAge(entries[..n], caps, now, total - entries[n].size);
    }
  }

  lemma OneEntry(e: Entry, caps: Caps, now: real)
    ensures DeletesAll([e], caps, now) <==> OverSize(caps, e.size) || OverAge(caps, now, e)
  {
    assert [e][..0] == [] && Sum([e]) == e.size;
    assert Kept([e][..0], caps, now, e.size) == [] && Kept([e][..0], caps, now, 0) == [];
  }

  /** Every sweep deletes everything, whatever the files and rows, exactly when the size cap is
      negative. */
  lemma DeletesAnythingIff(caps: Caps)
    ensures (forall entries, now | Sized(entries, 0) :: DeletesAll(entries, caps, now)) <==> NegativeBytes(caps)
  {
    if NegativeBytes(caps) {
      forall entries, now: real | Sized(entries, 0) ensures DeletesAll(entries, caps, now) {
        NegativeCapPrunesAll(entries, caps, now);
      }
    } else {
      var e := Entry(0, None, 0);
      OneEntry(e, caps, 0.0);
      assert Sized([e], 0) && !DeletesAll([e], caps, 0.0);
    }
  }

  /** An age no age cap but zero or a negative one is exceeded by. */
  function YoungEnough(caps: Caps): real {
    if caps.maxAge.Some? && caps.maxAge.value > 0.0 then caps.maxAge.value / 2.0 else 1.0
  }

  lemma YoungIsKept(caps: Caps, size: int)
    requires !NoAge(caps) && !OverSize(caps, size)
    ensures var e := Entry(size, Some(-YoungEnough(caps)), 0); Past([e], 0.0) && !DeletesAll([e], caps, 0.0)
  {
    OneEntry(Entry(size, Some(-YoungEnough(caps)), 0), caps, 0.0);
  }

  /** It does so to everything made before it, as rows and files are, exactly when the size cap is
      negative or the age cap zero or less. */
  lemma DeletesThePastIff(caps: Caps)
    ensures (forall entries, now | Sized(entries, 0) && Past(entries, now) :: DeletesAll(entries, caps, now))
      <==> NegativeBytes(caps) || NoAge(caps)
  {
    hide DeletesAll;
    if NegativeBytes(caps) || NoAge(caps) {
      forall entries, now: real | Sized(entries, 0) && Past(entries, now) ensures DeletesAll(entries, caps, now) {
        OldOrOversized(entries, caps, now);
      }
    } else {
      var e := Entry(0, Some(-YoungEnough(caps)), 0);
      YoungIsKept(caps, 0);
      assert Sized([e], 0) && Past([e], 0.0);
    }
  }

  lemma OldOrOversized(entries: seq<Entry>, caps: Caps, now: real)
    requires Sized(entries, 0) && Past(entries, now) && (NegativeBytes(caps) || NoAge(caps))
    ensures DeletesAll(entries, caps, now)
  {
    if NegativeBytes(caps) {
      NegativeCapPrunesAll(entries, caps, now);
    } else {
      AllOverAge(entries, caps, now, Sum(entries));
    }
  }

  lemma {:induction false} ZeroCapKeepsNothing(entries: seq<Entry>, caps: Caps, now: real)
    requires Sized(entries, 1) && NoBytes(caps)
    ensures DeletesAll(entries, caps, now)
  {
    if entries != [] {
      var n := |entries| - 1;
      SumNonnegative(entries[..n]);
      ZeroCapKeepsNothing(entries[..n], caps, now);
    }
  }

  /** It deletes everything that is not empty exactly when the size cap is no more than zero. */
  lemma DeletesNonEmptyIff(caps: Caps)
    ensures (forall entries, now | Sized(entries, 1) :: DeletesAll(entries, caps, now))
      <==> NoBytes(caps)
  {
    if NoBytes(caps) {
      forall entries, now: real | Sized(entries, 1) ensures DeletesAll(entries, caps, now) {
        ZeroCapKeepsNothing(entries, caps, now);
      }
    } else {
      var e := Entry(1, None, 0);
      OneEntry(e, caps, 0.0);
      assert Sized([e], 1) && !DeletesAll([e], caps, 0.0);
    }
  }

  /** It deletes everything that is not empty and was made before it exactly when either cap is zero
      or less. */
  lemma DeletesFilesIff(caps: Caps)
    ensures (forall entries, now | Sized(entries, 1) && Past(entries, now) :: DeletesAll(entries, caps, now))
      <==> NoBytes(caps) || NoAge(caps)
  {
    hide DeletesAll;
    if NoBytes(caps) || NoAge(caps) {
      forall entries, now: real | Sized(entries, 1) && Past(entries, now) ensures DeletesAll(entries, caps, now) {
        if NoBytes(caps) {
          ZeroCapKeepsNothing(entries, caps, now);
        } else {
          OldOrOversized(entries, caps, now);
        }
      }
    } else {
      var e := Entry(1, Some(-YoungEnough(caps)), 0);
      YoungIsKept(caps, 1);
      assert Sized([e], 1) && Past([e], 0.0);
    }
  }

  // --- which stored settings do ----------------------------------------------

  /** A category's field as the file has it, or else the default. */
  function StoredField(defaults: Data, file: File, category: string, field: string): Value {
    if file.Overrides? && category in file.entries && file.entries[category].Fields?
       && field in file.entries[category].values
    then file.entries[category].values[field] else FieldOf(defaults, category, field)
  }

  /** `load` takes any value the file has for a category it knows. */
  lemma LoadedField(defaults: Data, file: File, category: string, field: string)
    requires category in defaults
    ensures FieldOf(Load(defaults, file), category, field) == StoredField(defaults, file, category, field)
  {
  }

  /** A stored value that comes to a cap of zero or less: any but zero that is less than one unit. */
  predicate UnderOne(v: Value, unit: real) {
    v.Number? && v.n != 0.0 && v.n * unit < 1.0
  }

  lemma NegativeStored(v: Value, unit: real)
    requires unit > 0.0
    ensures LimitOf(v, unit).Limit? && LimitOf(v, unit).n < 0 <==> v.Number? && v.n * unit <= -1.0
    ensures LimitOf(v, unit).Limit? && LimitOf(v, unit).n <= 0 <==> UnderOne(v, unit)
  {
    match v
    case Number(n) =>
      TruncNegative(n * unit);
      assert n == 0.0 ==> n * unit == 0.0;
    case _ =>
  }

  /** Reading the caps raises exactly on values that arithmetic raises on. Otherwise, a sweep of a
      category deletes all rows and files made before it, whichever they are, exactly for a `max_mb`
      of minus one byte or less, or a `max_days` under one second that is not zero: `load` lets both
      through. If none of them is empty, a `max_mb` under one byte that is not zero does it as well. */
  lemma StoredSettingsDeleteThePastIff(defaults: Data, file: File, category: string)
    requires category in defaults
    ensures var caps := CapsOf(Load(defaults, file), category);
            var mb, days := StoredField(defaults, file, category, "max_mb"),
              StoredField(defaults, file, category, "max_days");
            && (caps.None? <==> mb.Wrong? || days.Wrong?)
            && (caps.Some? ==>
                  ((forall entries, now | Sized(entries, 0) && Past(entries, now) ::
                      DeletesAll(entries, caps.value, now))
                   <==> (mb.Number? && mb.n * 1048576.0 <= -1.0) || UnderOne(days, 86400.0)))
            && (caps.Some? ==>
                  ((forall entries, now | Sized(entries, 1) && Past(entries, now) ::
                      DeletesAll(entries, caps.value, now))
                   <==> UnderOne(mb, 1048576.0) || UnderOne(days, 86400.0)))
  {
    hide StoredField, Load, DeletesAll;
    LoadedField(defaults, file, category, "max_mb");
    LoadedField(defaults, file, category, "max_days");
    NegativeStored(StoredField(defaults, file, category, "max_mb"), 1048576.0);
    NegativeStored(StoredField(defaults, file, category, "max_days"), 86400.0);
    if CapsOf(Load(defaults, file), category).Some? {
      DeletesThePastIff(CapsOf(Load(defaults, file), category).value);
      DeletesFilesIff(CapsOf(Load(defaults, file), category).value);
    }
  }

  /** Which, if reading them does not raise, make it delete anything at all, timestamped or not: only
      a `max_mb` of minus one byte or less. */
  lemma StoredSettingsDeleteAnythingIff(defaults: Data, file: File, category: string)
    requires category in defaults && CapsOf(Load(defaults, file), category).Some?
    ensures var caps := CapsOf(Load(defaults, file), category).value;
            var mb := StoredField(defaults, file, category, "max_mb");
            (forall entries, now | Sized(entries, 0) :: DeletesAll(entries, caps, now))
            <==> mb.Number? && mb.n * 1048576.0 <= -1.0
  {
    hide StoredField, Load, DeletesAll;
    LoadedField(defaults, file, category, "max_mb");
    LoadedField(defaults, file, category, "max_days");
    NegativeStored(StoredField(defaults, file, category, "max_mb"), 1048576.0);
    DeletesAnythingIff(CapsOf(Load(defaults, file), category).value);
  }

  /** A positive number of the panel's that is under one unit: it comes to a cap of zero. */
  predicate TooSmall(number: Option<real>, unit: real) {
    number.Some? && number.value > 0.0 && UnderOne(Number(number.value), unit)
  }

  lemma TooSmallIs(number: Option<real>, unit: real)
    requires unit > 0.0
    ensures var l := LimitOf(Cleaned(number), unit); l.Limit? && l.n <= 0 <==> TooSmall(number, unit)
    ensures Sane(LimitOf(Cleaned(number), unit))
  {
    NegativeStored(Cleaned(number), unit);
    CleanedIsSane(number, unit);
  }

  /** A panel edit of the size cap can empty a category whatever the times: exactly with a positive
      `max_mb` short of one byte. */
  lemma PanelDeletesNonEmptyIff(data: Data, category: string, mb: Option<real>)
    requires category in data && !MaxAge(data, category).Raises?
    ensures var caps := CapsOf(Update(data, map[category := Patch(map["max_mb" := mb])]), category);
            caps.Some? &&
            ((forall entries, now | Sized(entries, 1) :: DeletesAll(entries, caps.value, now))
             <==> TooSmall(mb, 1048576.0))
  {
    hide DeletesAll;
    var patch := map[category := Patch(map["max_mb" := mb])];
    UpdatedField(data, patch, category, "max_mb");
    UpdatedField(data, patch, category, "max_days");
    TooSmallIs(mb, 1048576.0);
    DeletesNonEmptyIff(CapsOf(Update(data, patch), category).value);
  }

  /** One of the age cap, to caps that are not negative, deletes everything made before the sweep
      exactly with a positive `max_days` short of one second. */
  lemma PanelDeletesThePastIff(data: Data, category: string, days: Option<real>)
    requires category in data && Sane(MaxBytes(data, category))
    ensures var caps := CapsOf(Update(data, map[category := Patch(map["max_days" := days])]), category);
            caps.Some? &&
            ((forall entries, now | Sized(entries, 0) && Past(entries, now) :: DeletesAll(entries, caps.value, now))
             <==> TooSmall(days, 86400.0))
  {
    hide DeletesAll;
    var patch := map[category := Patch(map["max_days" := days])];
    UpdatedField(data, patch, category, "max_mb");
    UpdatedField(data, patch, category, "max_days");
    TooSmallIs(days, 86400.0);
    DeletesThePastIff(CapsOf(Update(data, patch), category).value);
  }

  /** One of both deletes every file made before the sweep exactly with either too small. */
  lemma PanelDeletesFilesIff(data: Data, category: string, mb: Option<real>, days: Option<real>)
    requires category in data
    ensures var patch := Patch(map["max_mb" := mb, "max_days" := days]);
            var caps := CapsOf(Update(data, map[category := patch]), category);
            caps.Some? &&
            ((forall entries, now | Sized(entries, 1) && Past(entries, now) :: DeletesAll(entries, caps.value, now))
             <==> TooSmall(mb, 1048576.0) || TooSmall(days, 86400.0))
  {
    hide DeletesAll;
    var patch := map[category := Patch(map["max_mb" := mb, "max_days" := days])];
    UpdatedField(data, patch, category, "max_mb");
    UpdatedField(data, patch, category, "max_days");
    TooSmallIs(mb, 1048576.0);
    TooSmallIs(days, 86400.0);
    DeletesFilesIff(CapsOf(Update(data, patch), category).value);
  }
}
