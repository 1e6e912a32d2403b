/** The CA bundle patcher (patchers/cacert.py): put exactly one copy of our certificate into a PEM
    bundle, keeping every other certificate. Bytes are chars here. */
module CaBundle {
  import opened Common
  import opened Bytes

  /** The two lines a PEM certificate stands between. */
  datatype Markers = Markers(begin: string, end: string)

  const PEM := Markers("-----BEGIN CERTIFICATE-----", "-----END CERTIFICATE-----")

  predicate IsSpace(c: char) {
    c in " \t\n\r\U{0B}\U{0C}"
  }

  /** Neither marker begins or ends with white space. */
  predicate Proper(m: Markers) {
    && m.begin != "" && !IsSpace(m.begin[0]) && !IsSpace(m.begin[|m.begin| - 1])
    && m.end != "" && !IsSpace(m.end[|m.end| - 1])
  }

  // --- finding blocks --------------------------------------------------------

  /** The first occurrence of `pat` at or after `from`. */
  function Find(text: string, pat: string, from: nat): (r: Option<nat>)
    ensures r.Some? ==> from <= r.value && At(text, r.value, pat)
    ensures r.Some? ==> forall j | from <= j < r.value :: !At(text, j, pat)
    ensures r.None? ==> forall j: nat | from <= j :: !At(text, j, pat)
    decreases |text| - from
  {
    if from + |pat| > |text| then None
    else if At(text, from, pat) then Some(from)
    else if from >= |text| then None
    else Find(text, pat, from + 1)
  }

  /** Where the first begin marker, anything, and the first end marker after it start and end. */
  function FirstMatch(text: string, m: Markers): (r: Option<(nat, nat)>)
    requires Proper(m)
    ensures r.Some? ==> r.value.0 < r.value.1 <= |text|
  {
    match Find(text, m.begin, 0)
    case None => None
    case Some(i) =>
      match Find(text, m.end, i + |m.begin|)
      case None => None
      case Some(j) => Some((i, j + |m.end|))
  }

  /** `findall` of the PEM pattern. */
  function Scan(text: string, m: Markers): seq<string>
    requires Proper(m)
    decreases |text|
  {
    var found := FirstMatch(text, m);
    if found.None? then [] else
      var (i, k) := found.value;
      [text[i..k]] + Scan(text[k..], m)
  }

  function StripLeft(text: string): string {
    if text != "" && IsSpace(text[0]) then StripLeft(text[1..]) else text
  }

  function StripRight(text: string): string {
    if text != "" && IsSpace(text[|text| - 1]) then StripRight(text[..|text| - 1]) else text
  }

  /** `bytes.strip()`. */
  function Strip(text: string): string {
    StripRight(StripLeft(text))
  }

  /** `"\\n\\n".join(parts)`. */
  function Join(parts: seq<string>): string {
    if parts == [] then "" else if |parts| == 1 then parts[0] else parts[0] + "\n\n" + Join(parts[1..])
  }

  // --- the patch -------------------------------------------------------------

  /** `_subject_of`: what the X.509 parser answers for a text, if it can read it. */
  type Subjects = string -> Option<nat>

  /** A block the patch replaces: it has our subject or, where a subject cannot be read, our bytes. */
  predicate Matches(our: string, subject: Subjects, block: string) {
    if subject(our).Some? && subject(block).Some? then subject(block) == subject(our)
    else Strip(block) == Strip(our)
  }

  function Foreign(our: string, subject: Subjects): string -> bool {
    (block: string) => !Matches(our, subject, block)
  }

  /** ValueError for either input, or the RuntimeError of the final check. */
  datatype Patched = Bundle(text: string) | NotPem | Unusable

  predicate Contains(text: string, pat: string) {
    Find(text, pat, 0).Some?
  }

  function Patch(original: Option<string>, our: string, subject: Subjects, m: Markers): Patched
    requires Proper(m)
  {
    if !Contains(our, m.begin) || original.None? || !Contains(original.value, m.begin) then NotPem else
      var kept := Filter(Scan(original.value, m), Foreign(our, subject)) + [Strip(our)];
      var text := Join(kept) + "\n";
      if |Scan(text, m)| != |kept| || !Contains(text, Strip(our)) then Unusable else Bundle(text)
  }

  /** `patch_ca_bundle`. */
  method PatchCaBundle(original: Option<string>, our: string, subject: Subjects) returns (r: Patched)
    ensures r == (PemIsProper(); Patch(original, our, subject, PEM))
  {
    PemIsProper();
    var m := PEM;
    if !Contains(our, m.begin) {
      return NotPem;
    }
    if original.None? || original.value == "" || !Contains(original.value, m.begin) {
      return NotPem;
    }
    var blocks := Scan(original.value, m);
    var ours := subject(our);
    ScanFindsBlocks(original.value, m);
    hide Scan, Find, Filter, Join, Strip;
    var kept: seq<string> := [];
    FilterNone(blocks[..0], Foreign(our, subject));
    for k := 0 to |blocks|
      invariant kept == Filter(blocks[..k], Foreign(our, subject))
    {
      FilterStep(blocks, k, Foreign(our, subject));
      assert blocks[k] in blocks;
      var s := subject(blocks[k]);
      var same := if ours.Some? && s.Some? then s == ours else Strip(blocks[k]) == Strip(our);
      if same {
        continue;
      }
      kept := kept + [Strip(blocks[k])];
    }
    assert blocks[..|blocks|] == blocks;
    kept := kept + [Strip(our)];
    var text := Join(kept) + "\n";
    if |Scan(text, m)| != |kept| || !Contains(text, Strip(our)) {
      return Unusable;
    }
    return Bundle(text);
  }

  // --- what a scan finds -----------------------------------------------------

  /** Begin marker first, end marker last and nowhere before. */
  ghost predicate IsBlock(block: string, m: Markers) {
    && |block| >= |m.begin| + |m.end| && At(block, 0, m.begin) && At(block, |block| - |m.end|, m.end)
    && forall j: nat | |m.begin| <= j < |block| - |m.end| :: !At(block, j, m.end)
  }

  lemma OccursInSlice(text: string, pat: string, lo: nat, hi: nat, j: nat)
    requires lo <= hi <= |text| && j + |pat| <= hi - lo
    ensures At(text[lo..hi], j, pat) == At(text, lo + j, pat)
  {
    var a, b := text[lo..hi][j..j + |pat|], text[lo + j..lo + j + |pat|];
    assert |a| == |b| && forall k | 0 <= k < |a| :: a[k] == b[k];
  }

  lemma FindIsWithin(text: string, pat: string, from: nat)
    ensures Find(text, pat, from).Some? ==> from <= Find(text, pat, from).value <= |text| - |pat|
  {
  }

  lemma BlockBy(block: string, m: Markers)
    requires |block| >= |m.begin| + |m.end| && At(block, 0, m.begin) && At(block, |block| - |m.end|, m.end)
    requires forall j: nat | |m.begin| <= j < |block| - |m.end| :: !At(block, j, m.end)
    ensures IsBlock(block, m)
  {
    hide At;
  }

  /** No end marker in a slice but where the text has one. */
  lemma NoneInSlice(text: string, pat: string, lo: nat, hi: nat, from: nat)
    requires lo <= hi <= |text| && |pat| <= hi - lo
    requires forall j: nat | lo + from <= j < hi - |pat| :: !At(text, j, pat)
    ensures forall j: nat | from <= j < hi - lo - |pat| :: !At(text[lo..hi], j, pat)
  {
    hide At;
    forall j: nat | from <= j < hi - lo - |pat| ensures !At(text[lo..hi], j, pat) {
      OccursInSlice(text, pat, lo, hi, j);
      assert !At(text, lo + j, pat);
    }
  }

  lemma FirstBlock(text: string, m: Markers, i: nat, j: nat)
    requires Proper(m) && Find(text, m.begin, 0) == Some(i) && Find(text, m.end, i + |m.begin|) == Some(j)
    ensures i <= j + |m.end| <= |text| && IsBlock(text[i..j + |m.end|], m)
  {
    hide *;
    FindIsWithin(text, m.begin, 0);
    FindIsWithin(text, m.end, i + |m.begin|);
    var hi := j + |m.end|;
    OccursInSlice(text, m.begin, i, hi, 0);
    OccursInSlice(text, m.end, i, hi, j - i);
    NoneInSlice(text, m.end, i, hi, |m.begin|);
    BlockBy(text[i..hi], m);
  }

  lemma BlockStripped(block: string, m: Markers)
    requires Proper(m) && IsBlock(block, m)
    ensures Strip(block) == block
  {
    assert block[0] == block[0..|m.begin|][0];
    assert block[|block| - 1] == block[|block| - |m.end|..|block| - |m.end| + |m.end|][|m.end| - 1];
  }

  lemma ScanMatch(text: string, m: Markers, i: nat, k: nat)
    requires Proper(m) && FirstMatch(text, m) == Some((i, k))
    ensures Scan(text, m) == [text[i..k]] + Scan(text[k..], m)
  {
    hide FirstMatch, Proper;
  }

  lemma MatchStep(text: string, m: Markers, i: nat, j: nat)
    requires Proper(m) && Find(text, m.begin, 0) == Some(i) && Find(text, m.end, i + |m.begin|) == Some(j)
    ensures FirstMatch(text, m) == Some((i, j + |m.end|))
  {
    hide Find;
  }

  /** One round of a scan. */
  lemma ScanStep(text: string, m: Markers, i: nat, j: nat)
    requires Proper(m) && Find(text, m.begin, 0) == Some(i) && Find(text, m.end, i + |m.begin|) == Some(j)
    ensures j + |m.end| <= |text| && Scan(text, m) == [text[i..j + |m.end|]] + Scan(text[j + |m.end|..], m)
  {
    hide *;
    MatchStep(text, m, i, j);
    ScanMatch(text, m, i, j + |m.end|);
  }

  lemma ScanEnd(text: string, m: Markers)
    requires Proper(m)
    requires match Find(text, m.begin, 0) case None => true case Some(i) => Find(text, m.end, i + |m.begin|).None?
    ensures Scan(text, m) == []
  {
    hide Find;
  }

  ghost predicate AllBlocks(blocks: seq<string>, m: Markers) {
    forall b | b in blocks :: IsBlock(b, m) && Strip(b) == b
  }

  lemma OneMoreBlock(block: string, rest: seq<string>, m: Markers)
    requires IsBlock(block, m) && Strip(block) == block && AllBlocks(rest, m)
    ensures AllBlocks([block] + rest, m)
  {
    hide IsBlock, Strip;
  }

  lemma NoBlocks(m: Markers)
    ensures AllBlocks([], m)
  {
  }

  lemma MatchEnd(text: string, m: Markers, i: nat, k: nat) returns (j: nat)
    requires Proper(m) && FirstMatch(text, m) == Some((i, k))
    ensures Find(text, m.begin, 0) == Some(i) && Find(text, m.end, i + |m.begin|) == Some(j) && k == j + |m.end|
  {
    hide Find, Proper;
    j := Find(text, m.end, i + |m.begin|).value;
  }

  lemma MatchIsBlock(text: string, m: Markers, i: nat, k: nat)
    requires Proper(m) && FirstMatch(text, m) == Some((i, k))
    ensures IsBlock(text[i..k], m) && Strip(text[i..k]) == text[i..k]
  {
    hide *;
    var j := MatchEnd(text, m, i, k);
    FirstBlock(text, m, i, j);
    BlockStripped(text[i..k], m);
  }

  lemma {:induction false} AllScanned(text: string, m: Markers)
    requires Proper(m)
    ensures AllBlocks(Scan(text, m), m)
    decreases |text|
  {
    hide *;
    var found := FirstMatch(text, m);
    if found.None? {
      ScanNone(text, m);
      NoBlocks(m);
    } else {
      var i, k := found.value.0, found.value.1;
      MatchIsBlock(text, m, i, k);
      ScanMatch(text, m, i, k);
      AllScanned(text[k..], m);
      OneMoreBlock(text[i..k], Scan(text[k..], m), m);
    }
  }

  lemma ScanNone(text: string, m: Markers)
    requires Proper(m) && FirstMatch(text, m) == None
    ensures Scan(text, m) == []
  {
    hide FirstMatch, Proper;
  }

  /** Every block found is one, and stripping it changes nothing. */
  lemma ScanFindsBlocks(text: string, m: Markers)
    requires Proper(m)
    ensures forall b | b in Scan(text, m) :: IsBlock(b, m) && Strip(b) == b
  {
    AllScanned(text, m);
    hide Scan, IsBlock, Strip;
  }

  lemma FindIs(text: string, pat: string, from: nat, i: nat)
    requires from <= i && At(text, i, pat) && forall j | from <= j < i :: !At(text, j, pat)
    ensures Find(text, pat, from) == Some(i)
  {
  }

  lemma OccursInFront(a: string, b: string, pat: string, j: nat)
    requires j + |pat| <= |a|
    ensures At(a + b, j, pat) == At(a, j, pat)
  {
    assert (a + b)[j..j + |pat|] == a[j..j + |pat|];
  }

  lemma BlockMatches(block: string, rest: string, m: Markers)
    requires Proper(m) && IsBlock(block, m)
    ensures Find(block + rest, m.begin, 0) == Some(0)
    ensures Find(block + rest, m.end, |m.begin|) == Some(|block| - |m.end|)
  {
    var text := block + rest;
    hide Find, At, Proper;
    OccursInFront(block, rest, m.begin, 0);
    FindIs(text, m.begin, 0, 0);
    var j := |block| - |m.end|;
    OccursInFront(block, rest, m.end, j);
    forall k: nat | |m.begin| <= k < j ensures !At(text, k, m.end) {
      OccursInFront(block, rest, m.end, k);
    }
    FindIs(text, m.end, |m.begin|, j);
  }

  /** A scan takes a leading block whole. */
  lemma ScanBlock(block: string, rest: string, m: Markers)
    requires Proper(m) && IsBlock(block, m)
    ensures Scan(block + rest, m) == [block] + Scan(rest, m)
  {
    assert |block| >= |m.end|;
    hide *;
    BlockMatches(block, rest, m);
    ScanStep(block + rest, m, 0, |block| - |m.end|);
    assert (block + rest)[0..|block|] == block && (block + rest)[|block|..] == rest;
  }

  lemma OccursShift(c: char, t: string, pat: string, j: nat)
    ensures At([c] + t, j + 1, pat) == At(t, j, pat)
  {
    if j + |pat| <= |t| {
      assert ([c] + t)[j + 1..j + 1 + |pat|] == t[j..j + |pat|];
    }
  }

  lemma FindShift(c: char, t: string, pat: string, from: nat)
    ensures Find([c] + t, pat, from + 1) == match Find(t, pat, from) case None => None case Some(i) => Some(i + 1)
  {
    hide Find;
    hide At;
    forall j: nat ensures At([c] + t, j + 1, pat) == At(t, j, pat) {
      OccursShift(c, t, pat, j);
    }
    var r := Find(t, pat, from);
    if r.Some? {
      forall j: nat | from + 1 <= j < r.value + 1 ensures !At([c] + t, j, pat) {
        OccursShift(c, t, pat, j - 1);
      }
      FindIs([c] + t, pat, from + 1, r.value + 1);
    } else if Find([c] + t, pat, from + 1).Some? {
      OccursShift(c, t, pat, Find([c] + t, pat, from + 1).value - 1);
      assert false;
    }
  }

  lemma FindPast(c: char, t: string, pat: string)
    requires pat != "" && pat[0] != c
    ensures Find([c] + t, pat, 0) == match Find(t, pat, 0) case None => None case Some(i) => Some(i + 1)
  {
    var text := [c] + t;
    FindShift(c, t, pat, 0);
    assert !At(text, 0, pat);
  }

  lemma SliceShift(c: char, t: string, lo: nat, hi: nat)
    requires lo <= hi <= |t|
    ensures ([c] + t)[lo + 1..hi + 1] == t[lo..hi] && ([c] + t)[hi + 1..] == t[hi..]
  {
  }

  lemma ScanSpaceStep(c: char, t: string, m: Markers, i: nat, j: nat)
    requires Proper(m) && Find(t, m.begin, 0) == Some(i) && Find(t, m.end, i + |m.begin|) == Some(j)
    requires Find([c] + t, m.begin, 0) == Some(i + 1) && Find([c] + t, m.end, i + 1 + |m.begin|) == Some(j + 1)
    ensures Scan([c] + t, m) == Scan(t, m)
  {
    hide *;
    ScanStep(t, m, i, j);
    ScanStep([c] + t, m, i + 1, j + 1);
    FindIsWithin(t, m.end, i + |m.begin|);
    SliceShift(c, t, i, j + |m.end|);
  }

  /** Leading white space does not matter to a scan. */
  lemma ScanSpace(c: char, t: string, m: Markers)
    requires Proper(m) && IsSpace(c)
    ensures Scan([c] + t, m) == Scan(t, m)
  {
    hide *;
    ProperEnds(m, c);
    FindPast(c, t, m.begin);
    var i := Find(t, m.begin, 0);
    if i.None? {
      ScanEnd(t, m);
      ScanEnd([c] + t, m);
    } else {
      var from := i.value + |m.begin|;
      FindShift(c, t, m.end, from);
      assert from + 1 == i.value + 1 + |m.begin|;
      var j := Find(t, m.end, from);
      if j.None? {
        ScanEnd(t, m);
        ScanEnd([c] + t, m);
      } else {
        ScanSpaceStep(c, t, m, i.value, j.value);
      }
    }
  }

  lemma FindAppend(t: string, c: char, pat: string, from: nat)
    requires pat != "" && c != pat[|pat| - 1]
    ensures Find(t + [c], pat, from) == Find(t, pat, from)
  {
    hide Find;
    forall j: nat ensures At(t + [c], j, pat) == At(t, j, pat) {
      if j + |pat| <= |t| {
        OccursInFront(t, [c], pat, j);
      } else if j + |pat| == |t| + 1 {
        assert (t + [c])[j..j + |pat|][|pat| - 1] == c;
      }
    }
    hide At;
    var r := Find(t, pat, from);
    if r.Some? {
      FindIs(t + [c], pat, from, r.value);
    }
  }

  lemma ProperEnds(m: Markers, c: char)
    requires Proper(m) && IsSpace(c)
    ensures m.begin != "" && c != m.begin[0] && c != m.begin[|m.begin| - 1]
    ensures m.end != "" && c != m.end[|m.end| - 1]
  {
  }

  /** Nor does trailing white space. */
  lemma {:induction false} ScanTrailing(t: string, c: char, m: Markers)
    requires Proper(m) && IsSpace(c)
    ensures Scan(t + [c], m) == Scan(t, m)
    decreases |t|
  {
    hide *;
    ProperEnds(m, c);
    FindAppend(t, c, m.begin, 0);
    var i := Find(t, m.begin, 0);
    if i.Some? {
      FindAppend(t, c, m.end, i.value + |m.begin|);
      var j := Find(t, m.end, i.value + |m.begin|);
      if j.Some? {
        FindIsWithin(t, m.end, i.value + |m.begin|);
        ScanStep(t, m, i.value, j.value);
        ScanStep(t + [c], m, i.value, j.value);
        assert (t + [c])[i.value..j.value + |m.end|] == t[i.value..j.value + |m.end|];
        assert (t + [c])[j.value + |m.end|..] == t[j.value + |m.end|..] + [c];
        ScanTrailing(t[j.value + |m.end|..], c, m);
        return;
      }
    }
    ScanEnd(t, m);
    ScanEnd(t + [c], m);
  }

  lemma JoinStep(parts: seq<string>)
    requires |parts| >= 2
    ensures Join(parts) == parts[0] + (['\n'] + (['\n'] + Join(parts[1..])))
  {
  }

  lemma JoinedTail(blocks: seq<string>, last: string)
    requires blocks != []
    ensures Join(blocks + [last]) + "\n" == blocks[0] + (['\n'] + (['\n'] + (Join(blocks[1..] + [last]) + "\n")))
  {
    assert (blocks + [last])[1..] == blocks[1..] + [last];
    JoinStep(blocks + [last]);
  }

  /** A block, a blank line and more: the scan finds the block, then what is in the rest. */
  lemma ScanFront(block: string, rest: string, m: Markers)
    requires Proper(m) && IsBlock(block, m)
    ensures Scan(block + (['\n'] + (['\n'] + rest)), m) == [block] + Scan(rest, m)
  {
    assert IsSpace('\n');
    hide *;
    ScanBlock(block, ['\n'] + (['\n'] + rest), m);
    ScanSpace('\n', ['\n'] + rest, m);
    ScanSpace('\n', rest, m);
  }

  lemma ScanJoinLast(last: string, m: Markers)
    requires Proper(m)
    ensures Scan(Join([last]) + "\n", m) == Scan(last, m)
  {
    assert IsSpace('\n');
    hide Scan, Proper, IsSpace;
    ScanTrailing(last, '\n', m);
  }

  /** Scanning a joined bundle gives back its blocks, and whatever its last part holds. */
  lemma {:induction false} ScanJoin(blocks: seq<string>, last: string, m: Markers)
    requires Proper(m) && forall b | b in blocks :: IsBlock(b, m)
    ensures Scan(Join(blocks + [last]) + "\n", m) == blocks + Scan(last, m)
  {
    hide *;
    if blocks == [] {
      assert blocks + [last] == [last];
      ScanJoinLast(last, m);
    } else {
      var first, others := blocks[0], blocks[1..];
      JoinedTail(blocks, last);
      ScanFront(first, Join(others + [last]) + "\n", m);
      ScanJoin(others, last, m);
      assert blocks == [first] + others;
    }
  }

  lemma EndsLater(a: string, b: string, last: string)
    requires |b| >= |last| && At(b + "\n", |b| - |last|, last)
    ensures At(a + b + "\n", |a| + |b| - |last|, last)
  {
    var k := |b| - |last|;
    assert (a + b + "\n")[|a| + k..|a| + k + |last|] == (b + "\n")[k..k + |last|];
  }

  lemma LastAlone(last: string)
    ensures Join([last]) == last && At(last + "\n", 0, last)
  {
    assert (last + "\n")[0..|last|] == last;
  }

  lemma {:induction false} JoinEndsWithLast(parts: seq<string>, last: string)
    ensures |Join(parts + [last])| >= |last|
    ensures At(Join(parts + [last]) + "\n", |Join(parts + [last])| - |last|, last)
  {
    hide *;
    if parts == [] {
      assert parts + [last] == [last];
      LastAlone(last);
    } else {
      JoinEndsWithLast(parts[1..], last);
      JoinFront(parts, last);
      EndsLater(parts[0] + "\n\n", Join(parts[1..] + [last]), last);
    }
  }

  lemma JoinFront(parts: seq<string>, last: string)
    requires parts != []
    ensures Join(parts + [last]) == parts[0] + "\n\n" + Join(parts[1..] + [last])
  {
    assert (parts + [last])[1..] == parts[1..] + [last];
    hide At;
  }

  // --- what the patch guarantees ---------------------------------------------

  /** The text the patch writes, and the check on it. */
  lemma PatchOutcome(original: Option<string>, our: string, subject: Subjects, m: Markers)
    requires Proper(m) && !Patch(original, our, subject, m).NotPem?
    ensures original.Some?
    ensures var kept := Filter(Scan(original.value, m), Foreign(our, subject)) + [Strip(our)];
            var text := Join(kept) + "\n";
            Patch(original, our, subject, m)
            == if |Scan(text, m)| != |kept| || !Contains(text, Strip(our)) then Unusable else Bundle(text)
  {
    hide Scan, Find, Filter, Join, Strip, Proper, Matches, IsBlock, At, Contains;
  }

  lemma ForeignAreBlocks(text: string, our: string, subject: Subjects, m: Markers)
    requires Proper(m)
    ensures forall b | b in Filter(Scan(text, m), Foreign(our, subject)) :: IsBlock(b, m)
  {
    hide Scan, Filter, IsBlock, Strip, Matches, Proper;
    ScanFindsBlocks(text, m);
    FilterMember(Scan(text, m), Foreign(our, subject));
  }

  /** The final check passes exactly when our certificate, stripped, is one block to a scan. */
  lemma UnusableIff(original: Option<string>, our: string, subject: Subjects, m: Markers)
    requires Proper(m) && !Patch(original, our, subject, m).NotPem?
    ensures Patch(original, our, subject, m).Unusable? <==> |Scan(Strip(our), m)| != 1
    ensures Patch(original, our, subject, m).Bundle? ==>
      Scan(Patch(original, our, subject, m).text, m)
      == Filter(Scan(original.value, m), Foreign(our, subject)) + Scan(Strip(our), m)
  {
    hide *;
    PatchOutcome(original, our, subject, m);
    var foreign := Filter(Scan(original.value, m), Foreign(our, subject));
    var text := Join(foreign + [Strip(our)]) + "\n";
    ForeignAreBlocks(original.value, our, subject, m);
    ScanJoin(foreign, Strip(our), m);
    JoinEndsWithLast(foreign, Strip(our));
    OccursContains(text, Strip(our), |Join(foreign + [Strip(our)])| - |Strip(our)|);
  }

  lemma OccursContains(text: string, pat: string, i: nat)
    requires At(text, i, pat)
    ensures Contains(text, pat)
  {
  }

  lemma PemIsProper()
    ensures Proper(PEM)
  {
  }

  lemma PatchText(original: Option<string>, our: string, subject: Subjects, m: Markers)
    requires Proper(m) && Patch(original, our, subject, m).Bundle?
    ensures original.Some? && Contains(our, m.begin)
    ensures Patch(original, our, subject, m).text
      == Join(Filter(Scan(original.value, m), Foreign(our, subject)) + [Strip(our)]) + "\n"
  {
    hide Scan, Filter, Join, Strip;
  }

  /** The ValueErrors: an input in which no begin marker stands anywhere. */
  lemma NotPemIff(original: Option<string>, our: string, subject: Subjects, m: Markers)
    requires Proper(m)
    ensures Patch(original, our, subject, m).NotPem? <==>
      || (forall i: nat :: !At(our, i, m.begin))
      || original.None? || (forall i: nat :: !At(original.value, i, m.begin))
  {
    hide Scan, Filter, Join, Strip;
  }

  lemma PatchIsPem(original: string, our: string, subject: Subjects, m: Markers)
    requires Proper(m)
    ensures Patch(Some(original), our, subject, m).NotPem? <==> !Contains(our, m.begin) || !Contains(original, m.begin)
  {
    hide Scan, Filter, Join, Strip, Contains;
  }

  lemma ScanNeedsBegin(text: string, m: Markers)
    requires Proper(m) && Scan(text, m) != []
    ensures Contains(text, m.begin)
  {
  }

  lemma FilterFront(kept: seq<string>, last: string, keep: string -> bool)
    requires forall b | b in kept :: keep(b)
    ensures Filter(kept + [last], keep) == if keep(last) then kept + [last] else kept
  {
    FilterAll(kept, keep);
    FilterSnoc(kept, last, keep);
  }

  lemma OnlyForeign(blocks: seq<string>, our: string, subject: Subjects, block: string)
    ensures var after := Filter(blocks, Foreign(our, subject)) + [block];
            forall i | 0 <= i < |after| - 1 :: !Matches(our, subject, after[i])
  {
    hide Filter, Matches;
    FilterMember(blocks, Foreign(our, subject));
    var after := Filter(blocks, Foreign(our, subject)) + [block];
    forall i | 0 <= i < |after| - 1 ensures !Matches(our, subject, after[i]) {
      assert after[i] in Filter(blocks, Foreign(our, subject));
    }
  }

  /** Exactly one copy of ours: the patched bundle holds the original's other certificates, all of
      them and in their order, then the block of our certificate; none of the others matches ours. */
  lemma OneCopyOfOurs(original: Option<string>, our: string, subject: Subjects, m: Markers)
    requires Proper(m) && Patch(original, our, subject, m).Bundle?
    ensures original.Some? && |Scan(Strip(our), m)| == 1
    ensures var after := Scan(Patch(original, our, subject, m).text, m);
            && after == Filter(Scan(original.value, m), Foreign(our, subject)) + Scan(Strip(our), m)
            && forall i | 0 <= i < |after| - 1 :: !Matches(our, subject, after[i])
  {
    hide *;
    PatchText(original, our, subject, m);
    UnusableIff(original, our, subject, m);
    var block := Scan(Strip(our), m)[0];
    assert Scan(Strip(our), m) == [block];
    OnlyForeign(Scan(original.value, m), our, subject, block);
  }

  /** Certificates one behind another, a blank line after each. */
  function Spaced(blocks: seq<string>): string {
    if blocks == [] then "" else Spaced(blocks[..|blocks| - 1]) + blocks[|blocks| - 1] + "\n\n"
  }

  lemma {:induction false} SpacedCons(block: string, blocks: seq<string>)
    ensures Spaced([block] + blocks) == block + "\n\n" + Spaced(blocks)
  {
    if blocks == [] {
      assert [block] + blocks == [block] && [block][..0] == [];
      assert "" + block + "\n\n" == block + "\n\n" + "";
    } else {
      var n := |blocks| - 1;
      assert ([block] + blocks)[..n + 1] == [block] + blocks[..n];
      SpacedCons(block, blocks[..n]);
    }
  }

  lemma {:induction false} JoinIsSpaced(parts: seq<string>, last: string)
    ensures Join(parts + [last]) == Spaced(parts) + last
    decreases parts
  {
    if parts == [] {
      assert parts + [last] == [last];
    } else {
      JoinFront(parts, last);
      JoinIsSpaced(parts[1..], last);
      assert parts == [parts[0]] + parts[1..];
      SpacedCons(parts[0], parts[1..]);
    }
  }

  /** The bytes of the result: the other certificates with a blank line after each, ours stripped of
      the space around it, and a line end. */
  lemma BundleText(original: Option<string>, our: string, subject: Subjects, m: Markers)
    requires Proper(m) && Patch(original, our, subject, m).Bundle?
    ensures var after := Scan(Patch(original, our, subject, m).text, m);
            after != [] &&
            Patch(original, our, subject, m).text == Spaced(after[..|after| - 1]) + Strip(our) + "\n"
  {
    OneCopyOfOurs(original, our, subject, m);
    PatchText(original, our, subject, m);
    hide *;
    var kept := Filter(Scan(original.value, m), Foreign(our, subject));
    var after := Scan(Patch(original, our, subject, m).text, m);
    assert after[..|after| - 1] == kept;
    JoinIsSpaced(kept, Strip(our));
  }

  const WHITES := {' ', '\t', '\n', '\r', '\U{0B}', '\U{0C}'}

  lemma SpaceIs(c: char)
    ensures IsSpace(c) <==> c in WHITES
  {
  }

  predicate AllSpace(text: string) {
    forall i | 0 <= i < |text| :: text[i] in WHITES
  }

  /** Stripping takes all white space off both ends and nothing else. */
  lemma StripIs(text: string) returns (a: string, b: string)
    ensures AllSpace(a) && AllSpace(b) && text == a + Strip(text) + b
    ensures var s := Strip(text); s != "" ==> s[0] !in WHITES && s[|s| - 1] !in WHITES
  {
    a := StripLeftIs(text);
    b := StripRightIs(StripLeft(text));
    hide StripLeft, StripRight, AllSpace;
    assert text == a + Strip(text) + b;
    if Strip(text) != "" {
      assert StripLeft(text)[0] == Strip(text)[0];
    }
  }

  lemma {:induction false} StripLeftIs(text: string) returns (a: string)
    ensures AllSpace(a) && text == a + StripLeft(text)
    ensures StripLeft(text) != "" ==> StripLeft(text)[0] !in WHITES
  {
    a := "";
    if text != "" {
      SpaceIs(text[0]);
      hide IsSpace;
      if IsSpace(text[0]) {
        a := StripLeftIs(text[1..]);
        assert text == [text[0]] + text[1..] == ([text[0]] + a) + StripLeft(text[1..]);
        a := [text[0]] + a;
      }
    }
  }

  lemma {:induction false} StripRightIs(text: string) returns (b: string)
    ensures AllSpace(b) && text == StripRight(text) + b
    ensures StripRight(text) != "" ==> StripRight(text)[|StripRight(text)| - 1] !in WHITES
  {
    b := "";
    if text != "" {
      var n := |text| - 1;
      SpaceIs(text[n]);
      hide IsSpace;
      if IsSpace(text[n]) {
        b := StripRightIs(text[..n]);
        assert text == text[..n] + [text[n]] == StripRight(text[..n]) + (b + [text[n]]);
        b := b + [text[n]];
      }
    }
  }

  /** Which of the original's certificates stay: one whose subject can be read, as ours can, exactly if
      it is another subject; one that cannot be compared so, exactly if it is another text. */
  lemma StaysIff(original: Option<string>, our: string, subject: Subjects, m: Markers, block: string)
    requires Proper(m) && Patch(original, our, subject, m).Bundle? && block in Scan(original.GetOr(""), m)
    ensures var after := Scan(Patch(original, our, subject, m).text, m);
            after != [] &&
            (block in after[..|after| - 1] <==>
             if subject(our).Some? && subject(block).Some? then subject(block).value != subject(our).value
             else block != Strip(our))
  {
    OneCopyOfOurs(original, our, subject, m);
    ScanFindsBlocks(original.value, m);
    hide Scan, Find, Filter, Join, Strip, Proper, Patch;
    var blocks, kept := Scan(original.value, m), Filter(Scan(original.value, m), Foreign(our, subject));
    var after := Scan(Patch(original, our, subject, m).text, m);
    FilterMember(blocks, Foreign(our, subject));
    assert after == kept + Scan(Strip(our), m);
    assert after[..|after| - 1] == kept;
    assert Strip(block) == block;
  }

  /** Patching the patched bundle again gives the same bytes exactly when the block in our
      certificate counts as ours; it never fails. */
  lemma IdempotentIff(original: Option<string>, our: string, subject: Subjects, m: Markers)
    requires Proper(m) && Patch(original, our, subject, m).Bundle?
    ensures var once := Patch(original, our, subject, m);
            var again := Patch(Some(once.text), our, subject, m);
            && again.Bundle? && |Scan(Strip(our), m)| == 1
            && (again == once <==> Matches(our, subject, Scan(Strip(our), m)[0]))
  {
    hide *;
    var once := Patch(original, our, subject, m);
    PatchText(original, our, subject, m);
    UnusableIff(original, our, subject, m);
    var kept := Filter(Scan(original.value, m), Foreign(our, subject));
    var block := Scan(Strip(our), m)[0];
    assert Scan(once.text, m) == kept + [block];
    ScanNeedsBegin(once.text, m);
    PatchIsPem(once.text, our, subject, m);
    UnusableIff(Some(once.text), our, subject, m);
    PatchText(Some(once.text), our, subject, m);
    SecondFilter(Scan(original.value, m), our, subject, block);
    var again := Patch(Some(once.text), our, subject, m);
    if Matches(our, subject, block) {
      assert again.text == once.text;
    } else {
      assert Scan(again.text, m) == kept + [block] + [block];
    }
  }

  lemma SecondFilter(blocks: seq<string>, our: string, subject: Subjects, block: string)
    ensures var kept := Filter(blocks, Foreign(our, subject));
            Filter(kept + [block], Foreign(our, subject))
            == if Matches(our, subject, block) then kept else kept + [block]
  {
    hide Filter, Matches;
    FilterMember(blocks, Foreign(our, subject));
    FilterFront(Filter(blocks, Foreign(our, subject)), block, Foreign(our, subject));
  }

  /** A certificate that is one block, read alike with and without the white space around it:
      the patch always succeeds on two PEM inputs, and patching again changes nothing. */
  lemma PatchingAgainChangesNothing(original: string, our: string, subject: Subjects, m: Markers)
    requires Proper(m) && IsBlock(Strip(our), m) && subject(Strip(our)) == subject(our)
    requires Contains(our, m.begin) && Contains(original, m.begin)
    ensures var once := Patch(Some(original), our, subject, m);
            once.Bundle? && Patch(Some(once.text), our, subject, m) == once
  {
    hide Find, Filter, Join, Strip, IsBlock, Proper, Patch, Contains;
    PatchIsPem(original, our, subject, m);
    assert Strip(our) + "" == Strip(our);
    ScanBlock(Strip(our), "", m);
    ScanNothing(m);
    BlockStripped(Strip(our), m);
    UnusableIff(Some(original), our, subject, m);
    IdempotentIff(Some(original), our, subject, m);
  }

  lemma ScanNothing(m: Markers)
    requires Proper(m)
    ensures Scan("", m) == []
  {
  }
}
