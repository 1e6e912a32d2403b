/** The retention sweeper (media/retention.py): one oldest-first pass folds a size cap and an age
    cap together; a directory sweep puts an age floor on top. */
module Retention {
  import opened Common

  /** One file or row: its size, when it was made, and what the caller knows it by. Sizes and items
      come from one scan, so they are paired here. */
  datatype Entry = Entry(size: int, created: Option<real>, item: nat)

  /** The caps of one category; None is no cap. */
  datatype Caps = Caps(maxBytes: Option<int>, maxAge: Option<real>)

  function Sum(entries: seq<Entry>): int {
    if entries == [] then 0 else Sum(entries[..|entries| - 1]) + entries[|entries| - 1].size
  }

  predicate OverSize(caps: Caps, total: int) {
    caps.maxBytes.Some? && total > caps.maxBytes.value
  }

  predicate OverAge(caps: Caps, now: real, e: Entry) {
    caps.maxAge.Some? && e.created.Some? && now - e.created.value > caps.maxAge.value
  }

  /** What a pass from the last entry back expires, in that order, given the running total. */
  function Expired(entries: seq<Entry>, caps: Caps, now: real, total: int): seq<Entry> {
    if entries == [] then [] else
      var rest, last := entries[..|entries| - 1], entries[|entries| - 1];
      if OverSize(caps, total) || OverAge(caps, now, last) then [last] + Expired(rest, caps, now, total - last.size)
      else Expired(rest, caps, now, total)
  }

  /** What it keeps, in the input's order. */
  function Kept(entries: seq<Entry>, caps: Caps, now: real, total: int): seq<Entry> {
    if entries == [] then [] else
      var rest, last := entries[..|entries| - 1], entries[|entries| - 1];
      if OverSize(caps, total) || OverAge(caps, now, last) then Kept(rest, caps, now, total - last.size)
      else Kept(rest, caps, now, total) + [last]
  }

  method Total(entries: seq<Entry>) returns (total: int)
    ensures total == Sum(entries)
  {
    total := 0;
    for k := 0 to |entries|
      invariant total == Sum(entries[..k])
    {
      assert entries[..k + 1][..k] == entries[..k];
      total := total + entries[k].size;
    }
    assert entries[..|entries|] == entries;
  }

  /** `_select_expired`. */
  method SelectExpired(entries: seq<Entry>, caps: Caps, now: real) returns (expired: seq<Entry>, freed: int)
    ensures expired == Expired(entries, caps, now, Sum(entries))
    ensures freed == Sum(expired)
  {
    var total := Total(entries);
    expired, freed := [], 0;
    var k := |entries|;
    assert entries[..k] == entries;
    while k > 0
      invariant 0 <= k <= |entries|
      invariant expired + Expired(entries[..k], caps, now, total) == Expired(entries, caps, now, Sum(entries))
      invariant freed == Sum(expired)
    {
      k := k - 1;
      assert entries[..k + 1][..k] == entries[..k];
      var overSize := caps.maxBytes.Some? && total > caps.maxBytes.value;
      var overAge := caps.maxAge.Some? && entries[k].created.Some?
        && now - entries[k].created.value > caps.maxAge.value;
      if overSize || overAge {
        assert (expired + [entries[k]])[..|expired|] == expired;
        expired := expired + [entries[k]];
        total := total - entries[k].size;
        freed := freed + entries[k].size;
      }
    }
  }

  // --- what must go ----------------------------------------------------------

  ghost predicate NewestFirst(entries: seq<Entry>) {
    && (forall i | 0 <= i < |entries| :: entries[i].created.Some?)
    && (forall i, j | 0 <= i < j < |entries| :: entries[i].created.value >= entries[j].created.value)
  }

  /** The newest `k` together are within both caps. */
  ghost predicate Fits(entries: seq<Entry>, k: nat, caps: Caps, now: real)
    requires k <= |entries|
  {
    !OverSize(caps, Sum(entries[..k])) && forall i | 0 <= i < k :: !OverAge(caps, now, entries[i])
  }

  function Reversed(entries: seq<Entry>): seq<Entry> {
    if entries == [] then [] else [entries[|entries| - 1]] + Reversed(entries[..|entries| - 1])
  }

  /** Within both caps nothing goes. */
  lemma {:induction false} NothingToDo(entries: seq<Entry>, caps: Caps, now: real, total: int)
    requires !OverSize(caps, total) && forall i | 0 <= i < |entries| :: !OverAge(caps, now, entries[i])
    ensures Expired(entries, caps, now, total) == [] && Kept(entries, caps, now, total) == entries
  {
    if entries != [] {
      NothingToDo(entries[..|entries| - 1], caps, now, total);
    }
  }

  /** Where the cut falls: everything before it is kept, everything after it goes, oldest first. */
  ghost predicate CutAt(entries: seq<Entry>, k: nat, caps: Caps, now: real)
    requires k <= |entries|
  {
    && Kept(entries, caps, now, Sum(entries)) == entries[..k]
    && Expired(entries, caps, now, Sum(entries)) == Reversed(entries[k..])
    && Fits(entries, k, caps, now)
    && forall j | k < j <= |entries| :: !Fits(entries, j, caps, now)
  }

  /** The last entry goes, and the pass goes on without it. */
  lemma LastGoes(entries: seq<Entry>, caps: Caps, now: real)
    requires entries != [] && (OverSize(caps, Sum(entries)) || OverAge(caps, now, entries[|entries| - 1]))
    ensures var rest := entries[..|entries| - 1];
            && Expired(entries, caps, now, Sum(entries))
              == [entries[|entries| - 1]] + Expired(rest, caps, now, Sum(rest))
            && Kept(entries, caps, now, Sum(entries)) == Kept(rest, caps, now, Sum(rest))
            && !Fits(entries, |entries|, caps, now)
  {
    hide OverSize, OverAge;
    assert entries[..|entries|] == entries;
  }

  lemma FitsPrefix(entries: seq<Entry>, n: nat, k: nat, caps: Caps, now: real)
    requires k <= n <= |entries|
    ensures Fits(entries[..n], k, caps, now) == Fits(entries, k, caps, now)
  {
    assert entries[..n][..k] == entries[..k];
  }

  lemma ReversedSuffix(entries: seq<Entry>, k: nat)
    requires k < |entries|
    ensures Reversed(entries[k..]) == [entries[|entries| - 1]] + Reversed(entries[..|entries| - 1][k..])
  {
    assert entries[k..][..|entries| - 1 - k] == entries[..|entries| - 1][k..];
  }

  /** The last entry goes, and the cut falls where it falls without it. */
  lemma CutBefore(entries: seq<Entry>, k: nat, caps: Caps, now: real)
    requires entries != [] && k < |entries|
    requires OverSize(caps, Sum(entries)) || OverAge(caps, now, entries[|entries| - 1])
    requires CutAt(entries[..|entries| - 1], k, caps, now)
    ensures CutAt(entries, k, caps, now)
  {
    hide OverSize, OverAge, Expired, Kept, Reversed, Fits, Sum;
    var n := |entries| - 1;
    LastGoes(entries, caps, now);
    ReversedSuffix(entries, k);
    assert entries[..n][..k] == entries[..k];
    FitsPrefix(entries, n, k, caps, now);
    forall j | k < j <= n ensures !Fits(entries, j, caps, now) {
      FitsPrefix(entries, n, j, caps, now);
    }
  }

  lemma RestNewestFirst(entries: seq<Entry>)
    requires entries != [] && NewestFirst(entries)
    ensures NewestFirst(entries[..|entries| - 1])
  {
  }

  /** Nothing older is within the age cap once the last entry is. */
  lemma NoneOlder(entries: seq<Entry>, caps: Caps, now: real)
    requires entries != [] && NewestFirst(entries) && !OverAge(caps, now, entries[|entries| - 1])
    ensures forall i | 0 <= i < |entries| :: !OverAge(caps, now, entries[i])
  {
  }

  lemma {:induction false} Cut(entries: seq<Entry>, caps: Caps, now: real) returns (k: nat)
    requires NewestFirst(entries) && (caps.maxBytes.Some? ==> caps.maxBytes.value >= 0)
    ensures k <= |entries| && CutAt(entries, k, caps, now)
  {
    k := |entries|;
    assert entries[..k] == entries && entries[k..] == [];
    if entries != [] {
      hide NewestFirst, OverAge, Sum;
      var n := |entries| - 1;
      if OverSize(caps, Sum(entries)) || OverAge(caps, now, entries[n]) {
        hide *;
        RestNewestFirst(entries);
        k := Cut(entries[..n], caps, now);
        CutBefore(entries, k, caps, now);
      } else {
        NoneOlder(entries, caps, now);
        NothingToDo(entries, caps, now, Sum(entries));
      }
    }
  }

  /** Exactly what must go: the newest entries are kept as long as they fit both caps, the rest
      expire oldest first; keeping one entry more, the newest expired, would break a cap. */
  lemma KeepsAsManyAsFit(entries: seq<Entry>, caps: Caps, now: real)
    requires NewestFirst(entries) && (caps.maxBytes.Some? ==> caps.maxBytes.value >= 0)
    ensures exists k: nat | k <= |entries| :: CutAt(entries, k, caps, now)
  {
    var k := Cut(entries, caps, now);
  }

  /** Nothing is invented and nothing lost. */
  lemma {:induction false} ExpiredOrKept(entries: seq<Entry>, caps: Caps, now: real, total: int)
    ensures multiset(Expired(entries, caps, now, total)) + multiset(Kept(entries, caps, now, total))
      == multiset(entries)
  {
    if entries != [] {
      var n := |entries| - 1;
      var rest, last := entries[..n], entries[n];
      assert entries == rest + [last];
      if OverSize(caps, total) || OverAge(caps, now, last) {
        assert Expired(entries, caps, now, total) == [last] + Expired(rest, caps, now, total - last.size);
        assert Kept(entries, caps, now, total) == Kept(rest, caps, now, total - last.size);
        hide *;
        ExpiredOrKept(rest, caps, now, total - last.size);
      } else {
        assert Expired(entries, caps, now, total) == Expired(rest, caps, now, total);
        assert Kept(entries, caps, now, total) == Kept(rest, caps, now, total) + [last];
        hide *;
        ExpiredOrKept(rest, caps, now, total);
      }
    }
  }

  /** In any order and with any timestamps missing, what is kept is within both caps. */
  lemma {:induction false} CapsHold(entries: seq<Entry>, caps: Caps, now: real, earlier: int)
    requires forall i | 0 <= i < |entries| :: entries[i].size >= 0
    requires earlier >= 0 && !OverSize(caps, earlier)
    ensures !OverSize(caps, earlier + Sum(Kept(entries, caps, now, earlier + Sum(entries))))
    ensures forall e | e in Kept(entries, caps, now, earlier + Sum(entries)) :: !OverAge(caps, now, e)
  {
    if entries != [] {
      var n := |entries| - 1;
      var rest, last := entries[..n], entries[n];
      var total := earlier + Sum(entries);
      SumNonnegative(rest);
      if OverSize(caps, total) || OverAge(caps, now, last) {
        CapsHold(rest, caps, now, earlier);
      } else {
        CapsHold(rest, caps, now, earlier + last.size);
        assert (Kept(rest, caps, now, total) + [last])[..|Kept(rest, caps, now, total)|]
          == Kept(rest, caps, now, total);
      }
    }
  }

  lemma {:induction false} SumNonnegative(entries: seq<Entry>)
    requires forall i | 0 <= i < |entries| :: entries[i].size >= 0
    ensures Sum(entries) >= 0
  {
    if entries != [] {
      SumNonnegative(entries[..|entries| - 1]);
    }
  }

  /** A negative size cap, which `update` turns away but `load` does not, prunes everything. */
  lemma {:induction false} NegativeCapPrunesAll(entries: seq<Entry>, caps: Caps, now: real)
    requires forall i | 0 <= i < |entries| :: entries[i].size >= 0
    requires caps.maxBytes.Some? && caps.maxBytes.value < 0
    ensures Kept(entries, caps, now, Sum(entries)) == []
  {
    if entries != [] {
      SumNonnegative(entries);
      NegativeCapPrunesAll(entries[..|entries| - 1], caps, now);
    }
  }

  // --- the media sweep -------------------------------------------------------

  datatype Row = Row(id: nat, category: string, ready: bool, createdAt: real, size: Option<int>)

  function InCategory(category: string): Row -> bool {
    (r: Row) => r.category == category && r.ready
  }

  function Age(r: Row): real {
    -r.createdAt
  }

  /** `media_for_retention`: newest first. */
  function ForRetention(rows: seq<Row>, category: string): seq<Row> {
    StableSort(Filter(rows, InCategory(category)), Age)
  }

  function EntryOf(r: Row): Entry {
    Entry(r.size.GetOr(0), Some(r.createdAt), r.id)
  }

  function Items(entries: seq<Entry>): set<nat> {
    set e | e in entries :: e.item
  }

  function NotIn(ids: set<nat>): Row -> bool {
    (r: Row) => r.id !in ids
  }

  class MediaRows {
    var rows: seq<Row>

    /** `delete_media`. */
    method DeleteMedia(id: nat)
      modifies this
      ensures rows == Filter(old(rows), NotIn({id}))
    {
      rows := Filter(rows, NotIn({id}));
    }

    /** `sweep_category`, the unlinking aside. */
    method SweepCategory(category: string, caps: Caps, now: real) returns (deleted: nat, freed: int)
      modifies this
      ensures var entries := Map(ForRetention(old(rows), category), EntryOf);
              var expired := Expired(entries, caps, now, Sum(entries));
              && rows == Filter(old(rows), NotIn(Items(expired)))
              && deleted == |expired| && freed == Sum(expired)
    {
      hide Expired, Sum, Filter, StableSort;
      var entries := Map(ForRetention(rows, category), EntryOf);
      var expired;
      expired, freed := SelectExpired(entries, caps, now);
      deleted := |expired|;
      FilterAll(rows, NotIn(Items(expired[..0])));
      for k := 0 to |expired|
        invariant rows == Filter(old(rows), NotIn(Items(expired[..k])))
      {
        assert expired[..k + 1] == expired[..k] + [expired[k]];
        FilterTwice(old(rows), NotIn(Items(expired[..k])), NotIn({expired[k].item}), NotIn(Items(expired[..k + 1])));
        DeleteMedia(expired[k].item);
      }
      assert expired[..|expired|] == expired;
    }
  }

  /** The rows come to the pass newest first, all with a timestamp, so `KeepsAsManyAsFit` applies. */
  lemma RetentionOrder(rows: seq<Row>, category: string)
    ensures NewestFirst(Map(ForRetention(rows, category), EntryOf))
  {
    hide Filter, StableSort;
    StableSortSpec(Filter(rows, InCategory(category)), Age);
  }

  // --- the directory sweep ---------------------------------------------------

  function Mtime(e: Entry): real {
    e.created.GetOr(0.0)
  }

  function Oldness(e: Entry): real {
    -Mtime(e)
  }

  /** Too young to be anything but in flight. A floor of zero is no floor. */
  predicate Young(e: Entry, now: real, minAge: real) {
    minAge != 0.0 && Mtime(e) > now - minAge
  }

  function Grown(now: real, minAge: real): Entry -> bool {
    (e: Entry) => !Young(e, now, minAge)
  }

  function InFlight(now: real, minAge: real): Entry -> bool {
    (e: Entry) => Young(e, now, minAge)
  }

  /** The files the caps want gone. */
  function Wanted(files: seq<Entry>, caps: Caps, now: real): seq<Entry> {
    var entries := StableSort(files, Oldness);
    Expired(entries, caps, now, Sum(entries))
  }

  /** `_sweep_directory_sync`, on the entries it scanned. */
  method SweepDirectory(files: seq<Entry>, caps: Caps, now: real, minAge: real) returns (doomed: seq<Entry>, freed: int)
    ensures doomed == Filter(Wanted(files, caps, now), Grown(now, minAge))
    ensures freed == Sum(doomed)
  {
    hide Expired, StableSort;
    var expired, total := SelectExpired(StableSort(files, Oldness), caps, now);
    doomed, freed := [], 0;
    for k := 0 to |expired|
      invariant doomed == Filter(expired[..k], Grown(now, minAge)) && freed == Sum(doomed)
    {
      FilterStep(expired, k, Grown(now, minAge));
      if minAge != 0.0 && Mtime(expired[k]) > now - minAge {
      } else {
        assert (doomed + [expired[k]])[..|doomed|] == doomed;
        doomed := doomed + [expired[k]];
        freed := freed + expired[k].size;
      }
    }
    assert expired[..|expired|] == expired;
  }

  lemma {:induction false} SumFilter(entries: seq<Entry>, p: Entry -> bool, q: Entry -> bool)
    requires forall e :: p(e) == !q(e)
    ensures Sum(Filter(entries, p)) + Sum(Filter(entries, q)) == Sum(entries)
  {
    if entries != [] {
      var n := |entries| - 1;
      SumFilter(entries[..n], p, q);
      SumSnoc(Filter(entries[..n], p), entries[n]);
      SumSnoc(Filter(entries[..n], q), entries[n]);
    }
  }

  lemma SumSnoc(entries: seq<Entry>, e: Entry)
    ensures Sum(entries + [e]) == Sum(entries) + e.size
  {
    assert (entries + [e])[..|entries|] == entries;
  }

  lemma {:induction false} SumParts(entries: seq<Entry>, caps: Caps, now: real, total: int)
    ensures Sum(Expired(entries, caps, now, total)) + Sum(Kept(entries, caps, now, total)) == Sum(entries)
  {
    if entries != [] {
      var n := |entries| - 1;
      SumParts(entries[..n], caps, now, total);
      SumParts(entries[..n], caps, now, total - entries[n].size);
      SumCons(entries[n], Expired(entries[..n], caps, now, total - entries[n].size));
      SumSnoc(Kept(entries[..n], caps, now, total), entries[n]);
    }
  }

  lemma {:induction false} SumCons(e: Entry, entries: seq<Entry>)
    ensures Sum([e] + entries) == e.size + Sum(entries)
  {
    if entries != [] {
      var n := |entries| - 1;
      SumCons(e, entries[..n]);
      assert ([e] + entries)[..n + 1] == [e] + entries[..n];
    }
  }

  lemma {:induction false} SumSort(entries: seq<Entry>)
    ensures Sum(StableSort(entries, Oldness)) == Sum(entries)
  {
    if entries != [] {
      var n := |entries| - 1;
      SumSort(entries[..n]);
      SumInsert(StableSort(entries[..n], Oldness), entries[n]);
    }
  }

  lemma {:induction false} SumInsert(entries: seq<Entry>, e: Entry)
    ensures Sum(Insert(entries, e, Oldness)) == Sum(entries) + e.size
  {
    if entries == [] {
      SumSnoc([], e);
    } else if Oldness(entries[|entries| - 1]) <= Oldness(e) {
      SumSnoc(entries, e);
    } else {
      var n := |entries| - 1;
      SumInsert(entries[..n], e);
      SumSnoc(Insert(entries[..n], e, Oldness), entries[n]);
    }
  }

  /** The in-flight floor: no young file is ever deleted, only files of the scan the caps want
      gone are, and what stays is over the size cap by at most the young files it wanted gone. */
  lemma FloorHolds(files: seq<Entry>, caps: Caps, now: real, minAge: real)
    requires forall i | 0 <= i < |files| :: files[i].size >= 0
    requires caps.maxBytes.Some? ==> caps.maxBytes.value >= 0
    ensures var wanted := Wanted(files, caps, now);
            var doomed := Filter(wanted, Grown(now, minAge));
            && (forall e | e in doomed :: e in files)
            && (forall e | e in wanted ::
                  e in doomed <==> minAge == 0.0 || e.created.GetOr(0.0) <= now - minAge)
            && (caps.maxBytes.Some? ==>
                  Sum(files) - Sum(doomed) <= caps.maxBytes.value + Sum(Filter(wanted, InFlight(now, minAge))))
            && multiset(wanted) == multiset(doomed) + multiset(Filter(wanted, InFlight(now, minAge)))
  {
    hide Expired, Kept, StableSort, Filter, Sum;
    var entries := StableSort(files, Oldness);
    var wanted := Wanted(files, caps, now);
    SumSort(files);
    SumIsZero();
    StableSortSpec(files, Oldness);
    SortMember(files, Oldness);
    forall i | 0 <= i < |entries| ensures entries[i].size >= 0 {
      assert entries[i] in entries;
    }
    CapsHold(entries, caps, now, 0);
    SumParts(entries, caps, now, Sum(entries));
    SumFilter(wanted, Grown(now, minAge), InFlight(now, minAge));
    FilterMember(wanted, Grown(now, minAge));
    ExpiredOrKept(entries, caps, now, Sum(entries));
    forall e | e in wanted ensures e in files {
      assert e in multiset(wanted);
      assert e in multiset(entries);
    }
    FilterSplit(wanted, (e: Entry) => true, Grown(now, minAge), InFlight(now, minAge));
    FilterAll(wanted, (e: Entry) => true);
  }

  lemma SumIsZero()
    ensures Sum([]) == 0
  {
  }

  // --- what a directory sweep keeps ------------------------------------------

  ghost predicate Stamped(files: seq<Entry>) {
    forall f | f in files :: f.created.Some?
  }

  /** The files come to the pass newest first, so `KeepsAsManyAsFit` applies to them too. */
  lemma DirectoryOrder(files: seq<Entry>)
    requires Stamped(files)
    ensures NewestFirst(StableSort(files, Oldness)) && multiset(StableSort(files, Oldness)) == multiset(files)
  {
    hide StableSort;
    StableSortSpec(files, Oldness);
    SortMember(files, Oldness);
    var sorted := StableSort(files, Oldness);
    forall i | 0 <= i < |sorted| ensures sorted[i].created.Some? {
      assert sorted[i] in sorted;
    }
    forall i, j | 0 <= i < j < |sorted| ensures sorted[i].created.value >= sorted[j].created.value {
      assert Oldness(sorted[i]) <= Oldness(sorted[j]);
      assert sorted[i] in sorted && sorted[j] in sorted;
    }
  }

  lemma {:induction false} ReversedIs(entries: seq<Entry>)
    ensures |Reversed(entries)| == |entries|
    ensures forall i | 0 <= i < |entries| :: Reversed(entries)[i] == entries[|entries| - 1 - i]
  {
    if entries != [] {
      ReversedIs(entries[..|entries| - 1]);
    }
  }

  /** Of files with a time, what stays is as many of the newest as fit both caps, and what the caps
      want gone is everything else, oldest first: none of it is newer than anything that stays, and
      with the newest of it what stays would break a cap. */
  lemma DirectoryKeepsNewest(files: seq<Entry>, caps: Caps, now: real) returns (kept: seq<Entry>)
    requires Stamped(files) && (caps.maxBytes.Some? ==> caps.maxBytes.value >= 0)
    ensures var wanted := Wanted(files, caps, now);
            && multiset(kept) + multiset(wanted) == multiset(files)
            && (forall e, f | e in wanted && f in kept && e.created.Some? && f.created.Some? ::
                  e.created.value <= f.created.value)
            && (forall i, j | 0 <= i < j < |wanted| :: wanted[i].created.Some? && wanted[j].created.Some?
                  && wanted[i].created.value <= wanted[j].created.value)
            && (caps.maxBytes.Some? ==> Sum(kept) <= caps.maxBytes.value)
            && (forall f | f in kept && caps.maxAge.Some? && f.created.Some? ::
                  now - f.created.value <= caps.maxAge.value)
            && (wanted != [] ==>
                  var e := wanted[|wanted| - 1];
                  || (caps.maxBytes.Some? && Sum(kept) + e.size > caps.maxBytes.value)
                  || (caps.maxAge.Some? && e.created.Some? && now - e.created.value > caps.maxAge.value))
  {
    hide *;
    var sorted := StableSort(files, Oldness);
    WantedIs(files, caps, now);
    DirectoryOrder(files);
    var k := Cut(sorted, caps, now);
    kept := sorted[..k];
    CutOrder(sorted, k, caps, now);
    CutCaps(sorted, k, caps, now);
    KeptAndGone(sorted, k, caps, now);
  }

  lemma WantedIs(files: seq<Entry>, caps: Caps, now: real)
    ensures var sorted := StableSort(files, Oldness);
            Wanted(files, caps, now) == Expired(sorted, caps, now, Sum(sorted))
  {
  }

  lemma KeptAndGone(sorted: seq<Entry>, k: nat, caps: Caps, now: real)
    requires k <= |sorted| && CutAt(sorted, k, caps, now)
    ensures multiset(sorted[..k]) + multiset(Expired(sorted, caps, now, Sum(sorted))) == multiset(sorted)
  {
    ExpiredOrKept(sorted, caps, now, Sum(sorted));
    hide Expired, Kept, Sum, Fits;
  }

  /** Where each expired entry stood. */
  lemma GoneAt(sorted: seq<Entry>, k: nat, caps: Caps, now: real)
    requires k <= |sorted| && CutAt(sorted, k, caps, now)
    ensures var gone := Expired(sorted, caps, now, Sum(sorted));
            |gone| == |sorted| - k && forall i | 0 <= i < |gone| :: gone[i] == sorted[|sorted| - 1 - i]
  {
    ReversedIs(sorted[k..]);
    hide Expired, Kept, Sum, Fits, Reversed;
  }

  lemma CutOrder(sorted: seq<Entry>, k: nat, caps: Caps, now: real)
    requires NewestFirst(sorted) && k <= |sorted| && CutAt(sorted, k, caps, now)
    ensures var kept, gone := sorted[..k], Expired(sorted, caps, now, Sum(sorted));
            && (forall e, f | e in gone && f in kept && e.created.Some? && f.created.Some? ::
                  e.created.value <= f.created.value)
            && (forall i, j | 0 <= i < j < |gone| :: gone[i].created.Some? && gone[j].created.Some?
                  && gone[i].created.value <= gone[j].created.value)
  {
    GoneAt(sorted, k, caps, now);
    hide Expired, CutAt, Sum;
    var kept, gone := sorted[..k], Expired(sorted, caps, now, Sum(sorted));
    forall e, f | e in gone && f in kept && e.created.Some? && f.created.Some?
      ensures e.created.value <= f.created.value
    {
      var i :| 0 <= i < |gone| && gone[i] == e;
      var j :| 0 <= j < k && sorted[j] == f;
      assert j < |sorted| - 1 - i;
    }
  }

  lemma CutCaps(sorted: seq<Entry>, k: nat, caps: Caps, now: real)
    requires NewestFirst(sorted) && k <= |sorted| && CutAt(sorted, k, caps, now)
    ensures var kept, gone := sorted[..k], Expired(sorted, caps, now, Sum(sorted));
            && (caps.maxBytes.Some? ==> Sum(kept) <= caps.maxBytes.value)
            && (forall f | f in kept && caps.maxAge.Some? && f.created.Some? ::
                  now - f.created.value <= caps.maxAge.value)
            && (gone != [] ==>
                  var e := gone[|gone| - 1];
                  || (caps.maxBytes.Some? && Sum(kept) + e.size > caps.maxBytes.value)
                  || (caps.maxAge.Some? && e.created.Some? && now - e.created.value > caps.maxAge.value))
  {
    GoneAt(sorted, k, caps, now);
    hide Expired, Kept, Sum, Reversed, NewestFirst;
    if k < |sorted| {
      assert !Fits(sorted, k + 1, caps, now);
      assert sorted[..k + 1] == sorted[..k] + [sorted[k]];
      SumSnoc(sorted[..k], sorted[k]);
    }
  }

  // --- what a media sweep keeps ----------------------------------------------

  function RowId(r: Row): nat {
    r.id
  }

  /** What a row counts for: its recorded size, nothing if there is none. */
  function Weight(rows: seq<Row>): int {
    if rows == [] then 0 else
      Weight(rows[..|rows| - 1]) + match rows[|rows| - 1].size case Some(n) => n case None => 0
  }

  lemma {:induction false} WeightIsSum(rows: seq<Row>)
    ensures Sum(Map(rows, EntryOf)) == Weight(rows)
  {
    if rows != [] {
      var n := |rows| - 1;
      WeightIsSum(rows[..n]);
      assert Map(rows, EntryOf)[..n] == Map(rows[..n], EntryOf);
    }
  }

  /** The rows of a category whose file is ready, newest first. */
  lemma CategoryRows(rows: seq<Row>, category: string)
    requires DistinctKeys(rows, RowId)
    ensures var listed := ForRetention(rows, category);
            && DistinctKeys(listed, RowId)
            && (forall r :: r in listed <==> r in rows && r.category == category && r.ready)
            && forall i, j | 0 <= i < j < |listed| :: listed[i].createdAt >= listed[j].createdAt
  {
    hide Filter, StableSort;
    var found := Filter(rows, InCategory(category));
    FilterMember(rows, InCategory(category));
    FilterDistinct(rows, InCategory(category), RowId);
    SortMember(found, Age);
    SortDistinct(found, Age, RowId);
    StableSortSpec(found, Age);
    var listed := ForRetention(rows, category);
    forall i, j | 0 <= i < j < |listed| ensures listed[i].createdAt >= listed[j].createdAt {
      assert Age(listed[i]) <= Age(listed[j]);
    }
  }

  lemma OnePlace(rows: seq<Row>, i: nat, j: nat)
    requires DistinctKeys(rows, RowId) && i < |rows| && j < |rows| && rows[i].id == rows[j].id
    ensures i == j
  {
    assert RowId(rows[i]) == RowId(rows[j]);
  }

  lemma CutItems(listed: seq<Row>, k: nat, caps: Caps, now: real)
    requires DistinctKeys(listed, RowId) && k <= |listed|
    requires CutAt(Map(listed, EntryOf), k, caps, now)
    ensures var entries := Map(listed, EntryOf);
            var gone := Items(Expired(entries, caps, now, Sum(entries)));
            forall i | 0 <= i < |listed| :: listed[i].id in gone <==> i >= k
  {
    var entries := Map(listed, EntryOf);
    GoneAt(entries, k, caps, now);
    hide Expired, CutAt, Sum, Items, DistinctKeys;
    ItemsBehind(listed, k, Expired(entries, caps, now, Sum(entries)));
  }

  lemma ItemsBehind(listed: seq<Row>, k: nat, expired: seq<Entry>)
    requires DistinctKeys(listed, RowId) && k <= |listed| == k + |expired|
    requires forall i | 0 <= i < |expired| :: expired[i].item == listed[|listed| - 1 - i].id
    ensures forall i | 0 <= i < |listed| :: listed[i].id in Items(expired) <==> i >= k
  {
    hide DistinctKeys;
    forall i | 0 <= i < |listed| && listed[i].id in Items(expired) ensures i >= k {
      var e :| e in expired && e.item == listed[i].id;
      var j :| 0 <= j < |expired| && expired[j] == e;
      OnePlace(listed, i, |listed| - 1 - j);
    }
    forall i | k <= i < |listed| ensures listed[i].id in Items(expired) {
      assert expired[|listed| - 1 - i] in expired;
    }
  }

  /** Everything a pass expires is one of the rows listed. */
  lemma GoneIsListed(listed: seq<Row>, k: nat, caps: Caps, now: real, id: nat)
    requires k <= |listed| && CutAt(Map(listed, EntryOf), k, caps, now)
    requires var entries := Map(listed, EntryOf); id in Items(Expired(entries, caps, now, Sum(entries)))
    ensures exists r :: r in listed && r.id == id
  {
    var entries := Map(listed, EntryOf);
    GoneAt(entries, k, caps, now);
    hide Expired, CutAt, Sum;
    var expired := Expired(entries, caps, now, Sum(entries));
    var e :| e in expired && e.item == id;
    var i :| 0 <= i < |expired| && expired[i] == e;
    assert listed[|listed| - 1 - i] in listed;
  }

  lemma SameId(rows: seq<Row>, r: Row, q: Row)
    requires DistinctKeys(rows, RowId) && r in rows && q in rows && r.id == q.id
    ensures r == q
  {
    var i :| 0 <= i < |rows| && rows[i] == r;
    var j :| 0 <= j < |rows| && rows[j] == q;
    OnePlace(rows, i, j);
  }

  /** Which rows a sweep leaves. */
  lemma SweptRows(rows: seq<Row>, category: string, k: nat, caps: Caps, now: real)
    requires DistinctKeys(rows, RowId) && k <= |ForRetention(rows, category)|
    requires CutAt(Map(ForRetention(rows, category), EntryOf), k, caps, now)
    ensures var listed := ForRetention(rows, category);
            var entries := Map(listed, EntryOf);
            var after := Filter(rows, NotIn(Items(Expired(entries, caps, now, Sum(entries)))));
            && (forall r | r in rows && !(r.category == category && r.ready) :: r in after)
            && (forall r :: r in listed[..k] <==> r in after && r.category == category && r.ready)
            && forall r | r in rows && r.category == category && r.ready && r !in after :: r in listed[k..]
  {
    hide Filter, ForRetention, CutAt, Expired, Sum, Items, Map;
    var listed := ForRetention(rows, category);
    var entries := Map(listed, EntryOf);
    var gone := Items(Expired(entries, caps, now, Sum(entries)));
    CategoryRows(rows, category);
    CutItems(listed, k, caps, now);
    FilterMember(rows, NotIn(gone));
    forall r | r in rows && r.id in gone ensures r.category == category && r.ready && r in listed {
      GoneIsListed(listed, k, caps, now, r.id);
      var q :| q in listed && q.id == r.id;
      SameId(rows, r, q);
    }
    forall r | r in listed ensures r.id in gone <==> r in listed[k..] && r !in listed[..k] {
      var i :| 0 <= i < |listed| && listed[i] == r;
      assert i >= k ==> listed[k..][i - k] == r;
      assert i < k ==> listed[..k][i] == r;
      forall j | 0 <= j < |listed| && listed[j] == r ensures j == i {
        OnePlace(listed, i, j);
      }
    }
    assert forall r | r in listed[..k] || r in listed[k..] :: r in listed;
  }

  /** What a sweep of a category leaves. `kept` are its rows that stay, newest first: as many of the
      newest as fit both caps. Rows of other categories, or whose file is not ready, stay whatever
      their age, and nothing that goes is newer than anything of the category that stays. */
  lemma MediaKeepsNewest(rows: seq<Row>, category: string, caps: Caps, now: real) returns (kept: seq<Row>)
    requires DistinctKeys(rows, RowId) && (caps.maxBytes.Some? ==> caps.maxBytes.value >= 0)
    ensures var listed := ForRetention(rows, category);
            var entries := Map(listed, EntryOf);
            var after := Filter(rows, NotIn(Items(Expired(entries, caps, now, Sum(entries)))));
            && |kept| <= |listed| && kept == listed[..|kept|]
            && (forall r | r in rows && !(r.category == category && r.ready) :: r in after)
            && (forall r :: r in kept <==> r in after && r.category == category && r.ready)
            && (forall r, q | r in rows && r.category == category && r.ready && r !in after && q in kept ::
                  r.createdAt <= q.createdAt)
            && (caps.maxBytes.Some? ==> Weight(kept) <= caps.maxBytes.value)
            && (forall r | r in kept && caps.maxAge.Some? :: now - r.createdAt <= caps.maxAge.value)
            && (|kept| < |listed| ==>
                  || (caps.maxBytes.Some? && Weight(listed[..|kept| + 1]) > caps.maxBytes.value)
                  || (caps.maxAge.Some? && now - listed[|kept|].createdAt > caps.maxAge.value))
  {
    var listed := ForRetention(rows, category);
    hide *;
    RetentionOrder(rows, category);
    var k := Cut(Map(listed, EntryOf), caps, now);
    kept := listed[..k];
    assert |Map(listed, EntryOf)| == |listed|;
    SweptRows(rows, category, k, caps, now);
    CategoryRows(rows, category);
    CutWeights(listed, k, caps, now);
    OlderBehind(listed, k);
  }

  lemma OlderBehind(listed: seq<Row>, k: nat)
    requires k <= |listed| && forall i, j | 0 <= i < j < |listed| :: listed[i].createdAt >= listed[j].createdAt
    ensures forall r, q | r in listed[k..] && q in listed[..k] :: r.createdAt <= q.createdAt
  {
    forall r, q | r in listed[k..] && q in listed[..k] ensures r.createdAt <= q.createdAt {
      var i :| 0 <= i < |listed| - k && listed[k..][i] == r;
      var j :| 0 <= j < k && listed[..k][j] == q;
      assert listed[k + i] == r && listed[j] == q;
    }
  }

  lemma CutWeights(listed: seq<Row>, k: nat, caps: Caps, now: real)
    requires k <= |listed| && CutAt(Map(listed, EntryOf), k, caps, now)
    ensures caps.maxBytes.Some? ==> Weight(listed[..k]) <= caps.maxBytes.value
    ensures forall r | r in listed[..k] && caps.maxAge.Some? :: now - r.createdAt <= caps.maxAge.value
    ensures k < |listed| ==>
      || (caps.maxBytes.Some? && Weight(listed[..k + 1]) > caps.maxBytes.value)
      || (caps.maxAge.Some? && now - listed[k].createdAt > caps.maxAge.value)
  {
    hide Sum, Expired, Kept, Reversed, Weight;
    var entries := Map(listed, EntryOf);
    assert Map(listed[..k], EntryOf) == entries[..k];
    WeightIsSum(listed[..k]);
    assert Fits(entries, k, caps, now);
    forall r | r in listed[..k] && caps.maxAge.Some? ensures now - r.createdAt <= caps.maxAge.value {
      var i :| 0 <= i < k && listed[..k][i] == r;
      assert !OverAge(caps, now, entries[i]);
    }
    if k < |listed| {
      assert Map(listed[..k + 1], EntryOf) == entries[..k + 1];
      WeightIsSum(listed[..k + 1]);
      assert !Fits(entries, k + 1, caps, now);
      forall i | 0 <= i < k && caps.maxAge.Some? ensures now - listed[i].createdAt <= caps.maxAge.value {
        assert !OverAge(caps, now, entries[i]);
      }
    }
  }
}
