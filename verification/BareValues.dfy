/** The repair of the device's malformed JSON (events/normalize.py): quote a bare token that stands
    as a value unless it is a JSON literal or number. */
module BareValues {
  import opened Common

  // --- the pattern -----------------------------------------------------------

  /** `\\s` on text: the white space of Unicode. */
  predicate IsSpace(c: char) {
    || c == ' ' || '\t' <= c <= '\r' || '\U{1C}' <= c <= '\U{1F}' || c == '\U{85}' || c == '\U{A0}' || c == '\U{1680}'
    || '\U{2000}' <= c <= '\U{200A}' || c == '\U{2028}' || c == '\U{2029}' || c == '\U{202F}' || c == '\U{205F}'
    || c == '\U{3000}'
  }

  predicate IsTokenStart(c: char) {
    'A' <= c <= 'Z' || 'a' <= c <= 'z' || c == '_' || '0' <= c <= '9'
  }

  predicate IsTokenChar(c: char) {
    IsTokenStart(c) || c == '.' || c == '-'
  }

  predicate IsTerminator(c: char) {
    c == ',' || c == '}' || c == ']'
  }

  /** Where a run of `p` from `from` ends. */
  function Span(s: string, p: char -> bool, from: nat): (k: nat)
    requires from <= |s|
    ensures from <= k <= |s|
    ensures forall j | from <= j < k :: p(s[j])
    ensures k < |s| ==> !p(s[k])
    decreases |s| - from
  {
    if from < |s| && p(s[from]) then Span(s, p, from + 1) else from
  }

  /** A match at the front of a text: the token is `[start..stop)`, the match `[0..len)`. */
  datatype BareValue = BareValue(start: nat, stop: nat, len: nat)

  /** `_BARE_VALUE` at the front of `s`: colon, space, token, space, terminator. */
  function MatchHere(s: string): (r: Option<BareValue>)
    ensures r.Some? ==> 1 <= r.value.start < r.value.stop < r.value.len <= |s|
  {
    if s == "" || s[0] != ':' then None else
      var a := Span(s, IsSpace, 1);
      if a == |s| || !IsTokenStart(s[a]) then None else
        var b := Span(s, IsTokenChar, a);
        var c := Span(s, IsSpace, b);
        if c == |s| || !IsTerminator(s[c]) || b == a then None else Some(BareValue(a, b, c + 1))
  }

  /** The pattern's language: some way of cutting a front of `s` into its five parts. */
  ghost predicate InPattern(s: string, a: nat, b: nat, c: nat) {
    && 1 <= a < b <= c < |s| && s[0] == ':'
    && (forall j | 1 <= j < a :: IsSpace(s[j]))
    && IsTokenStart(s[a]) && (forall j | a <= j < b :: IsTokenChar(s[j]))
    && (forall j | b <= j < c :: IsSpace(s[j])) && IsTerminator(s[c])
  }

  lemma Apart(c: char)
    ensures IsSpace(c) ==> !IsTokenChar(c) && !IsTerminator(c) && c != ':'
    ensures IsTerminator(c) ==> !IsTokenChar(c) && c != ':'
    ensures IsTokenChar(c) ==> c != ':'
  {
  }

  /** Greedy matching is all there is: at most one cut exists, and `MatchHere` finds it. */
  lemma MatchIff(s: string, a: nat, b: nat, c: nat)
    ensures MatchHere(s) == Some(BareValue(a, b, c + 1)) <==> InPattern(s, a, b, c)
  {
    if InPattern(s, a, b, c) {
      Apart(s[a]);
      Apart(s[b]);
      Apart(s[c]);
      assert Span(s, IsSpace, 1) == a;
      assert !IsTokenChar(s[b]);
      assert Span(s, IsTokenChar, a) == b;
      assert Span(s, IsSpace, b) == c;
    }
  }

  // --- the repair ------------------------------------------------------------

  predicate AllDigits(s: string) {
    forall i | 0 <= i < |s| :: '0' <= s[i] <= '9'
  }

  predicate IsInt(s: string) {
    s == "0" || (s != "" && '1' <= s[0] <= '9' && AllDigits(s))
  }

  predicate IsSignedInt(s: string) {
    IsInt(s) || (s != "" && s[0] == '-' && IsInt(s[1..]))
  }

  predicate IsFraction(s: string) {
    s == "" || (|s| > 1 && s[0] == '.' && AllDigits(s[1..]))
  }

  predicate IsExponent(s: string) {
    s == "" || (|s| > 1 && s[0] in "eE" && AllDigits(s[1..]))
      || (|s| > 2 && s[0] in "eE" && s[1] in "+-" && AllDigits(s[2..]))
  }

  /** `_JSON_NUMBER`, which must reach the end. */
  predicate IsNumber(token: string) {
    exists i, j | 0 <= i <= j <= |token| :: IsSignedInt(token[..i]) && IsFraction(token[i..j]) && IsExponent(token[j..])
  }

  /** A token that is JSON as it stands. */
  predicate IsJson(token: string) {
    token in ["true", "false", "null"] || IsNumber(token)
  }

  function Quoted(s: string, m: BareValue): string
    requires m.start <= m.stop <= m.len <= |s|
  {
    s[..m.start] + "\"" + s[m.start..m.stop] + "\"" + s[m.stop..m.len]
  }

  /** `fix`. */
  function Fixed(s: string, m: BareValue): string
    requires m.start <= m.stop <= m.len <= |s|
  {
    if IsJson(s[m.start..m.stop]) then s[..m.len] else Quoted(s, m)
  }

  /** `_repair_bare_values`: every match, left to right, rewritten by `fix`. */
  function Repair(s: string): string
    decreases |s|
  {
    if s == "" then "" else
      match MatchHere(s)
      case Some(m) => Fixed(s, m) + Repair(s[m.len..])
      case None => [s[0]] + Repair(s[1..])
  }

  // --- what the repair leaves alone ------------------------------------------

  predicate NoColon(s: string) {
    ':' !in s
  }

  lemma RepairPlain(s: string)
    requires s != "" && (s[0] != ':' || MatchHere(s).None?)
    ensures Repair(s) == [s[0]] + Repair(s[1..])
  {
  }

  lemma RepairMatch(s: string)
    requires MatchHere(s).Some?
    ensures Repair(s) == Fixed(s, MatchHere(s).value) + Repair(s[MatchHere(s).value.len..])
  {
    hide Fixed;
  }

  /** Text without a colon passes through. */
  lemma {:induction false} PassThrough(u: string, v: string)
    requires NoColon(u)
    ensures Repair(u + v) == u + Repair(v)
    decreases |u|
  {
    if u == "" {
      assert u + v == v;
    } else {
      hide *;
      NoColonTail(u);
      HeadAndTail(u, v);
      RepairPlain(u + v);
      PassThrough(u[1..], v);
      HeadAndTail(u, Repair(v));
    }
  }

  lemma HeadAndTail(u: string, v: string)
    requires u != ""
    ensures u + v != "" && (u + v)[0] == u[0] && (u + v)[1..] == u[1..] + v && [u[0]] + (u[1..] + v) == u + v
  {
  }

  lemma NoColonTail(u: string)
    requires u != "" && NoColon(u)
    ensures u[0] != ':' && NoColon(u[1..])
  {
  }

  lemma MatchRange(s: string)
    ensures MatchHere(s).Some? ==> var m := MatchHere(s).value; 1 <= m.start < m.stop < m.len <= |s|
  {
  }

  /** Whatever a match looks at lies before any further colon. */
  lemma MatchHasNoColon(s: string)
    requires MatchHere(s).Some?
    ensures NoColon(s[1..MatchHere(s).value.len])
  {
    var m := MatchHere(s).value;
    MatchIff(s, m.start, m.stop, m.len - 1);
    var t := s[1..m.len];
    forall j | 0 <= j < |t| ensures t[j] != ':' {
      assert t[j] == s[j + 1];
    }
  }

  lemma PatternFront(s: string, t: string, n: nat, a: nat, b: nat, c: nat)
    requires InPattern(s, a, b, c) && c < n <= |s| && n <= |t| && s[..n] == t[..n]
    ensures InPattern(t, a, b, c)
  {
    hide IsSpace, IsTokenStart, IsTokenChar, IsTerminator;
    forall j | 0 <= j < n ensures s[j] == t[j] {
      assert s[j] == s[..n][j] && t[j] == t[..n][j];
    }
  }

  /** A match depends on its own characters only. */
  lemma MatchFront(s: string, t: string, n: nat)
    requires MatchHere(s).Some? && MatchHere(s).value.len <= n <= |s| && n <= |t| && s[..n] == t[..n]
    ensures MatchHere(t) == MatchHere(s)
  {
    hide MatchHere, InPattern;
    MatchRange(s);
    var m := MatchHere(s).value;
    MatchIff(s, m.start, m.stop, m.len - 1);
    PatternFront(s, t, n, m.start, m.stop, m.len - 1);
    MatchIff(t, m.start, m.stop, m.len - 1);
  }

  function FirstColon(s: string): (k: nat)
    ensures k <= |s| && NoColon(s[..k]) && (k < |s| ==> s[k] == ':')
  {
    if s == "" || s[0] == ':' then 0 else 1 + FirstColon(s[1..])
  }

  /** Up to and including the first colon nothing changes. */
  lemma RepairFront(t: string)
    ensures var k := FirstColon(t);
            && |Repair(t)| >= k && Repair(t)[..k] == t[..k]
            && (k < |t| ==> |Repair(t)| > k && Repair(t)[k] == ':')
            && (k == |t| ==> Repair(t) == t)
  {
    var k := FirstColon(t);
    assert t == t[..k] + t[k..];
    PassThrough(t[..k], t[k..]);
    assert Repair(t) == t[..k] + Repair(t[k..]);
    if k < |t| {
      RepairKeepsColon(t[k..]);
    }
  }

  lemma RepairKeepsColon(s: string)
    requires s != "" && s[0] == ':'
    ensures Repair(s) != "" && Repair(s)[0] == ':'
  {
  }

  lemma MatchStopsAtColon(s: string, j: nat)
    requires MatchHere(s).Some? && 1 <= j < |s| && s[j] == ':'
    ensures MatchHere(s).value.len <= j
  {
    hide MatchHere;
    MatchHasNoColon(s);
    MatchRange(s);
    var t := s[1..MatchHere(s).value.len];
    assert j - 1 < |t| ==> t[j - 1] in t;
  }

  /** Two texts alike up to a colon, or altogether, have the same match behind a colon. */
  lemma SameMatch(t: string, r: string, k: nat)
    requires k <= |t| && k <= |r| && r[..k] == t[..k]
    requires k == |r| || r[k] == ':'
    requires MatchHere([':'] + r).Some?
    ensures MatchHere([':'] + t) == MatchHere([':'] + r)
  {
    hide *;
    var before, after := [':'] + t, [':'] + r;
    MatchRange(after);
    if k < |r| {
      assert after[k + 1] == r[k];
      MatchStopsAtColon(after, k + 1);
    }
    assert after[..k + 1] == [':'] + r[..k];
    assert before[..k + 1] == [':'] + t[..k];
    MatchFront(after, before, k + 1);
  }

  /** Where a colon starts no match, it starts none after the text behind it is repaired. */
  lemma NoNewMatch(t: string)
    requires MatchHere([':'] + t).None?
    ensures MatchHere([':'] + Repair(t)).None?
  {
    hide *;
    RepairFront(t);
    if MatchHere([':'] + Repair(t)).Some? {
      SameMatch(t, Repair(t), FirstColon(t));
    }
  }

  // --- idempotence -----------------------------------------------------------

  /** Replacing what follows a match keeps the match and its token. */
  lemma MatchKept(s: string, r: string)
    requires MatchHere(s).Some?
    ensures var m := MatchHere(s).value;
            && m.start <= m.stop <= m.len <= |s|
            && MatchHere(s[..m.len] + r) == MatchHere(s)
            && (s[..m.len] + r)[m.start..m.stop] == s[m.start..m.stop]
            && (s[..m.len] + r)[..m.len] == s[..m.len] && (s[..m.len] + r)[m.len..] == r
  {
    hide MatchHere;
    MatchRange(s);
    MatchFront(s, s[..MatchHere(s).value.len] + r, MatchHere(s).value.len);
  }

  /** A match whose token is JSON is left as it is, also the second time. */
  lemma JsonMatchStays(s: string)
    requires MatchHere(s).Some?
    requires var m := MatchHere(s).value; m.start <= m.stop <= m.len <= |s| && IsJson(s[m.start..m.stop])
    ensures var n := MatchHere(s).value.len; Repair(Repair(s)) == s[..n] + Repair(Repair(s[n..]))
  {
    hide *;
    var m := MatchHere(s).value;
    var r := Repair(s[m.len..]);
    RepairMatch(s);
    FixedJson(s, m);
    MatchKept(s, r);
    RepairMatch(s[..m.len] + r);
    FixedJson(s[..m.len] + r, m);
  }

  lemma FixedJson(s: string, m: BareValue)
    requires m.start <= m.stop <= m.len <= |s| && IsJson(s[m.start..m.stop])
    ensures Fixed(s, m) == s[..m.len]
  {
  }

  lemma FixedOther(s: string, m: BareValue)
    requires m.start <= m.stop <= m.len <= |s| && !IsJson(s[m.start..m.stop])
    ensures Fixed(s, m) == Quoted(s, m)
  {
  }

  /** A quoted token is not a match: the colon is followed by space and a quote. */
  lemma QuotedIsNoMatch(s: string, v: string)
    requires MatchHere(s).Some?
    ensures var m := MatchHere(s).value;
            && m.start <= m.stop <= m.len <= |s| && Quoted(s, m) != "" && MatchHere(Quoted(s, m) + v).None?
            && Quoted(s, m)[0] == ':' && NoColon(Quoted(s, m)[1..])
  {
    hide MatchHere;
    MatchRange(s);
    MatchHasNoColon(s);
    var m := MatchHere(s).value;
    MatchIff(s, m.start, m.stop, m.len - 1);
    var q := Quoted(s, m);
    assert q[..m.start] == s[..m.start] && q[m.start] == '"';
    forall j | 1 <= j < |q| ensures q[j] != ':' {
      if j < m.start {
        assert q[j] == s[1..m.len][j - 1];
      } else if m.start < j <= m.stop {
        assert q[j] == s[j - 1] && s[j - 1] == s[1..m.len][j - 2];
      } else if j > m.stop + 1 {
        assert q[j] == s[j - 2] && s[j - 2] == s[1..m.len][j - 3];
      }
    }
    if MatchHere(q + v).Some? {
      QuoteStops(q + v, m.start);
    }
  }

  /** No match reaches past space into a quote or anything else no token starts with. */
  lemma QuoteStops(t: string, k: nat)
    requires 1 <= k < |t| && !IsSpace(t[k]) && !IsTokenStart(t[k]) && forall j | 1 <= j < k :: IsSpace(t[j])
    ensures MatchHere(t).None?
  {
    if MatchHere(t).Some? {
      var m := MatchHere(t).value;
      hide MatchHere;
      MatchIff(t, m.start, m.stop, m.len - 1);
      Apart(t[m.start]);
    }
  }

  /** A colon that starts no match passes through with the text behind it. */
  lemma ColonPasses(q: string, v: string)
    requires q != "" && q[0] == ':' && NoColon(q[1..]) && MatchHere(q + v).None?
    ensures Repair(q + v) == q + Repair(v)
  {
    hide *;
    HeadAndTail(q, v);
    RepairPlain(q + v);
    PassThrough(q[1..], v);
    HeadAndTail(q, Repair(v));
  }

  lemma OtherMatchStays(s: string)
    requires MatchHere(s).Some?
    requires var m := MatchHere(s).value; m.start <= m.stop <= m.len <= |s| && !IsJson(s[m.start..m.stop])
    ensures Repair(Repair(s)) == Quoted(s, MatchHere(s).value) + Repair(Repair(s[MatchHere(s).value.len..]))
  {
    hide *;
    var m := MatchHere(s).value;
    var q, v := Quoted(s, m), Repair(s[m.len..]);
    RepairMatch(s);
    FixedOther(s, m);
    QuotedNotEmpty(s, m);
    QuotedIsNoMatch(s, v);
    ColonPasses(q, v);
  }

  lemma QuotedNotEmpty(s: string, m: BareValue)
    requires m.start <= m.stop <= m.len <= |s|
    ensures Quoted(s, m) != ""
  {
  }

  lemma PlainStays(s: string)
    requires s != "" && MatchHere(s).None?
    ensures Repair(Repair(s)) == [s[0]] + Repair(Repair(s[1..]))
  {
    hide Repair, MatchHere;
    var t := [s[0]] + Repair(s[1..]);
    RepairPlain(s);
    assert [s[0]] + s[1..] == s;
    if s[0] == ':' {
      NoNewMatch(s[1..]);
    }
    RepairPlain(t);
    assert t[1..] == Repair(s[1..]);
  }

  /** On every string, repairing twice is repairing once. */
  lemma {:induction false} Idempotent(s: string)
    ensures Repair(Repair(s)) == Repair(s)
    decreases |s|
  {
    if s != "" {
      hide Repair, MatchHere, Quoted, Fixed, IsJson;
      MatchRange(s);
      match MatchHere(s)
      case None =>
        PlainStays(s);
        RepairPlain(s);
        Idempotent(s[1..]);
      case Some(m) =>
        RepairMatch(s);
        Idempotent(s[m.len..]);
        if IsJson(s[m.start..m.stop]) {
          JsonMatchStays(s);
          FixedJson(s, m);
        } else {
          OtherMatchStays(s);
          FixedOther(s, m);
        }
    }
  }

  // --- what the repair changes -----------------------------------------------

  /** A bare token at `i` that is not JSON. */
  predicate Broken(s: string, i: nat)
    requires i <= |s|
  {
    var m := MatchHere(s[i..]);
    m.Some? && !IsJson(s[i..][m.value.start..m.value.stop])
  }

  lemma {:induction false} RepairGrows(s: string)
    ensures |Repair(s)| >= |s|
    decreases |s|
  {
    if s != "" {
      match MatchHere(s)
      case None => RepairGrows(s[1..]);
      case Some(m) => RepairGrows(s[m.len..]);
    }
  }

  lemma NoColonNoMatch(s: string)
    requires s == "" || s[0] != ':'
    ensures MatchHere(s).None?
  {
  }

  /** The text is unchanged exactly when every bare token in it is a JSON literal or number. */
  lemma {:induction false} UnchangedIff(s: string)
    ensures Repair(s) == s <==> forall i | 0 <= i <= |s| :: !Broken(s, i)
    decreases |s|
  {
    hide Repair, MatchHere, Quoted, Fixed, IsJson;
    if s == "" {
      NoColonNoMatch(s);
      RepairEmpty();
    } else {
      MatchRange(s);
      assert s[0..] == s;
      match MatchHere(s)
      case None =>
        RepairPlain(s);
        UnchangedIff(s[1..]);
        assert s == [s[0]] + s[1..];
        assert Repair(s) == s <==> Repair(s[1..]) == s[1..] by {
          assert Repair(s)[1..] == Repair(s[1..]);
        }
        BrokenShift(s, 1);
      case Some(m) =>
        RepairMatch(s);
        var rest := s[m.len..];
        UnchangedIff(rest);
        BrokenShift(s, m.len);
        if IsJson(s[m.start..m.stop]) {
          FixedJson(s, m);
          assert s == s[..m.len] + rest;
          assert Repair(s)[m.len..] == Repair(rest);
          NothingInside(s);
        } else {
          FixedOther(s, m);
          RepairGrows(rest);
          QuotedLength(s, m);
          assert Broken(s, 0);
        }
    }
  }

  lemma RepairEmpty()
    ensures Repair("") == ""
  {
  }

  lemma QuotedLength(s: string, m: BareValue)
    requires m.start <= m.stop <= m.len <= |s|
    ensures |Quoted(s, m)| == m.len + 2
  {
  }

  /** The broken tokens from `n` on are those of the rest. */
  lemma BrokenShift(s: string, n: nat)
    requires n <= |s|
    ensures (forall i | n <= i <= |s| :: !Broken(s, i)) <==> (forall i | 0 <= i <= |s[n..]| :: !Broken(s[n..], i))
  {
    hide MatchHere, IsJson;
    forall i | n <= i <= |s| ensures Broken(s, i) == Broken(s[n..], i - n) {
      assert s[n..][i - n..] == s[i..];
    }
    forall i | 0 <= i <= |s[n..]| ensures Broken(s, i + n) == Broken(s[n..], i) {
      assert s[n..][i..] == s[i + n..];
    }
  }

  /** Within a match there is no second one. */
  lemma NothingInside(s: string)
    requires MatchHere(s).Some?
    ensures forall i | 1 <= i < MatchHere(s).value.len && i <= |s| :: !Broken(s, i)
  {
    hide MatchHere, IsJson;
    MatchRange(s);
    MatchHasNoColon(s);
    var n := MatchHere(s).value.len;
    forall i | 1 <= i < n ensures !Broken(s, i) {
      assert s[1..n][i - 1] == s[i] && s[i..][0] == s[i];
      assert s[1..n][i - 1] in s[1..n];
      NoColonNoMatch(s[i..]);
    }
  }

  // --- the device's objects --------------------------------------------------

  /** A value as the device prints it: a bare token, or anything that starts otherwise (a quoted
      string, a negative number, a list without colons). */
  datatype Value = Bare(token: string) | Other(text: string)

  /** `gap` and `trail` are the space around the value. */
  datatype Field = Field(key: string, gap: string, value: Value, trail: string)

  predicate AllSpace(s: string) {
    forall i | 0 <= i < |s| :: IsSpace(s[i])
  }

  predicate IsToken(s: string) {
    s != "" && IsTokenStart(s[0]) && forall i | 0 <= i < |s| :: IsTokenChar(s[i])
  }

  predicate FieldOk(f: Field) {
    && NoColon(f.key) && AllSpace(f.gap) && AllSpace(f.trail)
    && match f.value
       case Bare(token) => IsToken(token)
       case Other(text) => text != "" && NoColon(text) && !IsSpace(text[0]) && !IsTokenStart(text[0])
  }

  /** A value with its bare token quoted where JSON asks for it, or as the device leaves it. */
  function PrintValue(v: Value, quote: bool): string {
    match v
    case Bare(token) => if quote && !IsJson(token) then "\"" + token + "\"" else token
    case Other(text) => text
  }

  function PrintFields(fields: seq<Field>, quote: bool): string {
    if fields == [] then "" else
      var f := fields[0];
      var end := if |fields| == 1 then "}" else ",";
      "\"" + f.key + "\""
      + (([':'] + f.gap + PrintValue(f.value, quote) + f.trail + end) + PrintFields(fields[1..], quote))
  }

  /** A flat object. */
  function PrintObject(fields: seq<Field>, quote: bool): string {
    "{" + if fields == [] then "}" else PrintFields(fields, quote)
  }

  /** A bare token between its colon and its terminator is the match there. */
  lemma TokenMatches(gap: string, token: string, trail: string, end: char, rest: string)
    requires AllSpace(gap) && IsToken(token) && AllSpace(trail) && IsTerminator(end)
    ensures var s := [':'] + gap + token + trail + [end] + rest;
            MatchHere(s) == Some(BareValue(1 + |gap|, 1 + |gap| + |token|, 2 + |gap| + |token| + |trail|))
  {
    hide MatchHere, IsTokenStart, IsSpace, IsTerminator;
    var s := [':'] + gap + token + trail + [end] + rest;
    var a, b, c := 1 + |gap|, 1 + |gap| + |token|, 1 + |gap| + |token| + |trail|;
    assert forall j | 1 <= j < a :: s[j] == gap[j - 1];
    assert forall j | a <= j < b :: s[j] == token[j - a];
    assert forall j | b <= j < c :: s[j] == trail[j - b];
    MatchIff(s, a, b, c);
  }

  lemma TokenSlices(a: string, token: string, c: string, rest: string)
    ensures var s := a + token + c + rest;
            && s[..|a| + |token| + |c|] == a + token + c && s[|a| + |token| + |c|..] == rest
            && s[|a|..|a| + |token|] == token
  {
  }

  lemma FixedBare(s: string, m: BareValue, gap: string, token: string, tail: string)
    requires m.start <= m.stop <= m.len <= |s| && s[m.start..m.stop] == token
    requires m.start == |gap| && m.stop == |gap| + |token| && m.len == |gap| + |token| + |tail|
    requires s[..m.len] == gap + token + tail
    ensures Fixed(s, m) == gap + PrintValue(Bare(token), true) + tail
  {
    hide IsJson, Fixed, Quoted;
    if IsJson(token) {
      FixedJson(s, m);
    } else {
      FixedOther(s, m);
      QuotedIs(s, m, gap, token, tail);
    }
  }

  lemma RepairBare(f: Field, end: string, rest: string)
    requires FieldOk(f) && f.value.Bare? && |end| == 1 && IsTerminator(end[0])
    ensures Repair(([':'] + f.gap + f.value.token + f.trail + end) + rest)
      == ([':'] + f.gap + PrintValue(f.value, true) + f.trail + end) + Repair(rest)
  {
    hide MatchHere, Repair, IsJson, Fixed, AllSpace, IsToken, PrintValue;
    var gap, token, tail := [':'] + f.gap, f.value.token, f.trail + end;
    var s := gap + token + tail + rest;
    var m := BareValue(1 + |f.gap|, 1 + |f.gap| + |token|, 2 + |f.gap| + |token| + |f.trail|);
    assert end == [end[0]];
    assert s == [':'] + f.gap + token + f.trail + [end[0]] + rest;
    TokenMatches(f.gap, token, f.trail, end[0], rest);
    TokenSlices(gap, token, tail, rest);
    RepairMatch(s);
    FixedBare(s, m, gap, token, tail);
    assert ([':'] + f.gap + token + f.trail + end) + rest == s;
    assert gap + PrintValue(f.value, true) + tail == [':'] + f.gap + PrintValue(f.value, true) + f.trail + end;
  }

  lemma QuotedIs(s: string, m: BareValue, a: string, b: string, c: string)
    requires m.start <= m.stop <= m.len <= |s|
    requires m.start == |a| && m.stop == |a| + |b| && m.len == |a| + |b| + |c| && s[..m.len] == a + b + c
    ensures Quoted(s, m) == a + "\"" + b + "\"" + c
  {
    assert s[..m.start] == s[..m.len][..m.start] == a;
    assert s[m.start..m.stop] == s[..m.len][m.start..m.stop] == b;
    assert s[m.stop..m.len] == s[..m.len][m.stop..] == c;
  }

  lemma RepairOther(f: Field, end: string, rest: string)
    requires FieldOk(f) && f.value.Other? && |end| == 1 && IsTerminator(end[0])
    ensures Repair(([':'] + f.gap + f.value.text + f.trail + end) + rest)
      == ([':'] + f.gap + f.value.text + f.trail + end) + Repair(rest)
  {
    hide MatchHere, Repair, IsTokenStart, IsSpace, IsTerminator;
    var u := f.gap + f.value.text + f.trail + end;
    var s := [':'] + (u + rest);
    assert ([':'] + f.gap + f.value.text + f.trail + end) + rest == s;
    assert s[1 + |f.gap|] == f.value.text[0];
    assert forall j | 1 <= j < 1 + |f.gap| :: s[j] == f.gap[j - 1];
    QuoteStops(s, 1 + |f.gap|);
    RepairPlain(s);
    assert s[1..] == u + rest;
    SpaceNoColon(f.gap);
    SpaceNoColon(f.trail);
    Apart(end[0]);
    PassThrough(u, rest);
    assert [':'] + (u + Repair(rest)) == ([':'] + f.gap + f.value.text + f.trail + end) + Repair(rest);
  }

  lemma SpaceNoColon(s: string)
    requires AllSpace(s)
    ensures NoColon(s)
  {
    forall c | c in s ensures c != ':' {
      Apart(c);
    }
  }

  lemma {:induction false} RepairFields(fields: seq<Field>)
    requires forall f | f in fields :: FieldOk(f)
    ensures Repair(PrintFields(fields, false)) == PrintFields(fields, true)
  {
    if fields == [] {
      RepairEmpty();
    } else {
      hide Repair, MatchHere, IsJson;
      var f := fields[0];
      var end := if |fields| == 1 then "}" else ",";
      var rest := PrintFields(fields[1..], false);
      assert f in fields && FieldOk(f);
      assert NoColon("\"" + f.key + "\"");
      PassThrough("\"" + f.key + "\"", ([':'] + f.gap + PrintValue(f.value, false) + f.trail + end) + rest);
      if f.value.Bare? {
        RepairBare(f, end, rest);
      } else {
        RepairOther(f, end, rest);
      }
      RepairFields(fields[1..]);
    }
  }

  /** The repair undoes the missing quotes: for every flat object, what the device prints with bare
      tokens becomes what it would print with quotes. */
  lemma RepairRestoresQuotes(fields: seq<Field>)
    requires forall f | f in fields :: FieldOk(f)
    ensures Repair(PrintObject(fields, false)) == PrintObject(fields, true)
  {
    hide Repair, PrintFields;
    if fields == [] {
      PassThrough("{}", "");
      RepairEmpty();
      assert "{}" + "" == "{" + "}" == "{}";
    } else {
      PassThrough("{", PrintFields(fields, false));
      RepairFields(fields);
    }
  }

  /** A device identifier with underscores is no JSON number, digits or not, and so gets its quotes. */
  lemma UnderscoreIsNoNumber(token: string)
    requires '_' in token
    ensures !IsJson(token)
  {
    if IsNumber(token) {
      var i, j :| 0 <= i <= j <= |token| && IsSignedInt(token[..i]) && IsFraction(token[i..j])
        && IsExponent(token[j..]);
      var k :| 0 <= k < |token| && token[k] == '_';
      if k < i {
        assert token[..i][k] == '_';
      } else if k < j {
        assert token[i..j][k - i] == '_';
      } else {
        assert token[j..][k - j] == '_';
      }
      NumberPartsHaveNoUnderscore(token[..i], token[i..j], token[j..]);
    }
  }

  lemma NumberPartsHaveNoUnderscore(a: string, b: string, c: string)
    requires IsSignedInt(a) && IsFraction(b) && IsExponent(c)
    ensures '_' !in a && '_' !in b && '_' !in c
  {
  }

  /** The decimal form of a natural number is a JSON number and stays bare ... */
  lemma DecimalIsNumber(n: nat)
    ensures IsJson(Decimal(n))
  {
    var s := Decimal(n);
    DecimalIsInt(n);
    assert s[..|s|] == s && s[|s|..|s|] == "" && s[|s|..] == "";
  }

  lemma {:induction false} DecimalIsInt(n: nat)
    ensures IsInt(Decimal(n)) && AllDigits(Decimal(n)) && (n > 0 ==> Decimal(n)[0] != '0')
  {
    if n >= 10 {
      DecimalIsInt(n / 10);
    }
  }

  /** After an integer part, a number goes on with a dot, an exponent or nothing. */
  lemma NumberStart(token: string, i: nat, j: nat)
    requires i <= j <= |token| && IsSignedInt(token[..i]) && IsFraction(token[i..j]) && IsExponent(token[j..])
    ensures i == |token| || token[i] in ".eE"
    ensures i >= 1 && (token[0] == '0' ==> i == 1)
  {
    assert token[..i][0] == token[0];
    if i < j {
      assert token[i..j][0] == token[i];
    } else if j < |token| {
      assert token[j..][0] == token[j];
    }
  }

  /** ... and digits after a leading zero are none, and get quotes. */
  lemma LeadingZeroIsNoNumber(token: string)
    requires |token| >= 2 && token[0] == '0' && AllDigits(token)
    ensures !IsJson(token)
  {
    if IsNumber(token) {
      var i, j :| 0 <= i <= j <= |token| && IsSignedInt(token[..i]) && IsFraction(token[i..j])
        && IsExponent(token[j..]);
      NumberStart(token, i, j);
    }
  }
}
