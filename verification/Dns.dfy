/** The A-record resolver's message code (http/dns.py): one query out, the addresses of the reply
    back. Formats are those of sections 4.1 and 4.1.4 of RFC 1035. */
module Dns {
  import opened Common
  import opened B = Bytes

  const QTYPE_A := 1
  const QCLASS_IN := 1
  const HEADER := 12

  // --- the code --------------------------------------------------------------

  function LabelBytes(text: Bytes): Bytes
    requires |text| < 0x100
  {
    [|text|] + text
  }

  function LabelsBytes(labels: seq<Bytes>): Bytes
    requires forall l | l in labels :: |l| < 0x100
  {
    if labels == [] then [] else LabelBytes(labels[0]) + LabelsBytes(labels[1..])
  }

  /** `_build_query`, on the IDNA-encoded labels of the name. */
  function BuildQuery(labels: seq<Bytes>, txid: int): Bytes
    requires 0 <= txid < 0x10000 && forall l | l in labels :: |l| < 0x100
  {
    Put16(txid) + Put16(0x0100) + Put16(1) + Put16(0) + Put16(0) + Put16(0)
    + (LabelsBytes(labels) + [0] + Put16(QTYPE_A) + Put16(QCLASS_IN))
  }

  /** `_skip_name`: where the name at `offset` ends, None for "truncated name". A byte has its two
      top bits set exactly when it is 0xC0 or more. */
  function Skip(data: Bytes, offset: nat): Option<nat>
    decreases |data| - offset
  {
    if offset >= |data| then None
    else if data[offset] == 0 then Some(offset + 1)
    else if data[offset] >= 0xC0 then Some(offset + 2)
    else Skip(data, offset + 1 + data[offset])
  }

  method SkipName(data: Bytes, start: nat) returns (r: Option<nat>)
    ensures r == Skip(data, start)
    ensures r.Some? ==> start < r.value <= |data| + 1
  {
    var offset := start;
    while offset < |data|
      invariant offset >= start && Skip(data, offset) == Skip(data, start)
    {
      var length := data[offset];
      if length == 0 {
        return Some(offset + 1);
      }
      if length >= 0xC0 {
        return Some(offset + 2);
      }
      offset := offset + 1 + length;
    }
    return None;
  }

  /** The addresses, as their four bytes; or the exception: a ValueError of three kinds, a
      struct.error, an OSError for an address cut short. */
  datatype Reply = Addresses(list: seq<Bytes>) | Truncated | WrongId | Refused(rcode: int) | Unpackable | BadAddress

  function SkipQuestions(data: Bytes, offset: nat, n: nat): Option<nat>
    decreases n
  {
    if n == 0 then Some(offset) else
      match Skip(data, offset)
      case None => None
      case Some(end) => SkipQuestions(data, end + 4, n - 1)
  }

  function Slice(data: Bytes, from: nat): Bytes {
    if from >= |data| then [] else data[from..]
  }

  /** The first four bytes from `from` on, fewer at the end of the data. */
  function Four(data: Bytes, from: nat): Bytes {
    var rest := Slice(data, from);
    if |rest| <= 4 then rest else rest[..4]
  }

  function Answers(data: Bytes, offset: nat, n: nat, found: seq<Bytes>): Reply
    decreases n, 0
  {
    if n == 0 then Addresses(found) else
      match Skip(data, offset)
      case None => Truncated
      case Some(end) => Answer(data, end, n - 1, found)
  }

  /** A record whose name ends at `end`, then `n` more. */
  function Answer(data: Bytes, end: nat, n: nat, found: seq<Bytes>): Reply
    decreases n, 1
  {
    if end + 10 > |data| then Unpackable else
      var rtype, rdlength := Word(data, end), Word(data, end + 8);
      if rtype == QTYPE_A && rdlength == 4 && |Four(data, end + 10)| < 4 then BadAddress
      else Answers(data, end + 10 + rdlength, n,
                   if rtype == QTYPE_A && rdlength == 4 then found + [Four(data, end + 10)] else found)
  }

  /** `_parse_answers`. */
  function Parse(data: Bytes, txid: int): Reply {
    if |data| < HEADER then Truncated
    else if Word(data, 0) != txid then WrongId
    else if Word(data, 2) % 0x10 != 0 then Refused(Word(data, 2) % 0x10)
    else
      match SkipQuestions(data, HEADER, Word(data, 4))
      case None => Truncated
      case Some(offset) => Answers(data, offset, Word(data, 6), [])
  }

  lemma OneQuestion(data: Bytes, offset: nat, n: nat)
    requires n > 0
    ensures Skip(data, offset).None? ==> SkipQuestions(data, offset, n).None?
    ensures Skip(data, offset).Some?
      ==> SkipQuestions(data, offset, n) == SkipQuestions(data, Skip(data, offset).value + 4, n - 1)
  {
    hide Skip;
  }

  lemma OneAnswer(data: Bytes, offset: nat, n: nat, found: seq<Bytes>)
    requires n > 0
    ensures Skip(data, offset).None? ==> Answers(data, offset, n, found) == Truncated
    ensures Skip(data, offset).Some?
      ==> Answers(data, offset, n, found) == Answer(data, Skip(data, offset).value, n - 1, found)
  {
    hide Skip, Answer;
  }

  lemma NoneLeft(data: Bytes, offset: nat, found: seq<Bytes>)
    ensures SkipQuestions(data, offset, 0) == Some(offset) && Answers(data, offset, 0, found) == Addresses(found)
  {
  }

  method ParseAnswers(data: Bytes, txid: int) returns (r: Reply)
    ensures r == Parse(data, txid)
  {
    hide Skip, Word, Four, SkipQuestions, Answers;
    if |data| < HEADER {
      return Truncated;
    }
    var gotId, flags, qdcount, ancount := Word(data, 0), Word(data, 2), Word(data, 4), Word(data, 6);
    if gotId != txid {
      return WrongId;
    }
    var rcode := flags % 0x10;
    if rcode != 0 {
      return Refused(rcode);
    }
    var offset: nat := HEADER;
    for k := 0 to qdcount
      invariant SkipQuestions(data, offset, qdcount - k) == SkipQuestions(data, HEADER, qdcount)
    {
      OneQuestion(data, offset, qdcount - k);
      var end := SkipName(data, offset);
      if end.None? {
        return Truncated;
      }
      offset := end.value + 4;
    }
    NoneLeft(data, offset, []);
    ghost var first := offset;
    var addresses: seq<Bytes> := [];
    for k := 0 to ancount
      invariant Answers(data, offset, ancount - k, addresses) == Answers(data, first, ancount, [])
    {
      OneAnswer(data, offset, ancount - k, addresses);
      var end := SkipName(data, offset);
      if end.None? {
        return Truncated;
      }
      if end.value + 10 > |data| {
        return Unpackable;
      }
      var rtype, rdlength := Word(data, end.value), Word(data, end.value + 8);
      offset := end.value + 10;
      if rtype == QTYPE_A && rdlength == 4 {
        var address := Four(data, offset);
        if |address| < 4 {
          return BadAddress;
        }
        addresses := addresses + [address];
      }
      offset := offset + rdlength;
    }
    NoneLeft(data, offset, addresses);
    return Addresses(addresses);
  }

  // --- messages --------------------------------------------------------------

  /** A name on the wire: labels, then the root or a pointer into the message. */
  datatype Name = Name(labels: seq<Bytes>, end: End)
  datatype End = Root | Pointer(high: byte, low: byte)

  datatype Question = Question(name: Name, qtype: int, qclass: int)
  datatype Record = Record(name: Name, rtype: int, rclass: int, ttlHigh: int, ttlLow: int, rdata: Bytes)

  /** `rest` is the authority and additional sections and anything after them. */
  datatype Message = Message(
    id: int, flags: int, questions: seq<Question>, answers: seq<Record>, nscount: int, arcount: int, rest: Bytes)

  predicate Is16(n: int) {
    0 <= n < 0x10000
  }

  predicate NameOk(n: Name) {
    (forall l | l in n.labels :: 1 <= |l| <= 63) && (n.end.Pointer? ==> n.end.high >= 0xC0)
  }

  predicate QuestionOk(q: Question) {
    NameOk(q.name) && Is16(q.qtype) && Is16(q.qclass)
  }

  predicate RecordOk(r: Record) {
    NameOk(r.name) && Is16(r.rtype) && Is16(r.rclass) && Is16(r.ttlHigh) && Is16(r.ttlLow) && |r.rdata| < 0x10000
  }

  predicate MessageOk(m: Message) {
    && Is16(m.id) && Is16(m.flags) && Is16(m.nscount) && Is16(m.arcount)
    && |m.questions| < 0x10000 && |m.answers| < 0x10000
    && (forall q | q in m.questions :: QuestionOk(q)) && (forall r | r in m.answers :: RecordOk(r))
  }

  function EndBytes(e: End): Bytes {
    match e case Root => [0] case Pointer(high, low) => [high, low]
  }

  function NameBytes(n: Name): Bytes
    requires NameOk(n)
  {
    LabelsBytes(n.labels) + EndBytes(n.end)
  }

  function QuestionBytes(q: Question): Bytes
    requires QuestionOk(q)
  {
    NameBytes(q.name) + (Put16(q.qtype) + Put16(q.qclass))
  }

  function RecordBytes(r: Record): Bytes
    requires RecordOk(r)
  {
    NameBytes(r.name)
    + ((Put16(r.rtype) + Put16(r.rclass) + Put16(r.ttlHigh) + Put16(r.ttlLow) + Put16(|r.rdata|)) + r.rdata)
  }

  function QuestionsBytes(qs: seq<Question>): Bytes
    requires forall q | q in qs :: QuestionOk(q)
  {
    if qs == [] then [] else QuestionBytes(qs[0]) + QuestionsBytes(qs[1..])
  }

  function RecordsBytes(rs: seq<Record>): Bytes
    requires forall r | r in rs :: RecordOk(r)
  {
    if rs == [] then [] else RecordBytes(rs[0]) + RecordsBytes(rs[1..])
  }

  function HeaderBytes(m: Message): (r: Bytes)
    requires MessageOk(m)
    ensures |r| == HEADER
    ensures Word(r, 0) == m.id && Word(r, 2) == m.flags && Word(r, 4) == |m.questions| && Word(r, 6) == |m.answers|
  {
    Put16(m.id) + Put16(m.flags) + Put16(|m.questions|) + Put16(|m.answers|) + Put16(m.nscount) + Put16(m.arcount)
  }

  function Encode(m: Message): Bytes
    requires MessageOk(m)
  {
    HeaderBytes(m) + (QuestionsBytes(m.questions) + (RecordsBytes(m.answers) + m.rest))
  }

  // --- what the parser reads back --------------------------------------------

  lemma SkipLabel(data: Bytes, o: nat, l: Bytes)
    requires 1 <= |l| <= 63 && At(data, o, LabelBytes(l))
    ensures Skip(data, o) == Skip(data, o + |LabelBytes(l)|)
  {
    AtIndex(data, o, LabelBytes(l), 0);
  }

  lemma LabelsSplit(data: Bytes, o: nat, labels: seq<Bytes>)
    requires labels != [] && (forall l | l in labels :: |l| < 0x100) && At(data, o, LabelsBytes(labels))
    ensures labels[0] in labels && At(data, o, LabelBytes(labels[0]))
    ensures At(data, o + |LabelBytes(labels[0])|, LabelsBytes(labels[1..]))
    ensures |LabelsBytes(labels)| == |LabelBytes(labels[0])| + |LabelsBytes(labels[1..])|
  {
    hide LabelBytes, At;
    AtSplit(data, o, LabelBytes(labels[0]), LabelsBytes(labels[1..]));
  }

  lemma NoLabels()
    ensures LabelsBytes([]) == []
  {
  }

  /** Skipping an encoded name lands just past it. */
  lemma {:induction false} SkipLabels(data: Bytes, o: nat, labels: seq<Bytes>)
    requires forall l | l in labels :: 1 <= |l| <= 63
    requires At(data, o, LabelsBytes(labels))
    ensures Skip(data, o) == Skip(data, o + |LabelsBytes(labels)|)
    decreases labels
  {
    hide *;
    if labels == [] {
      NoLabels();
    } else {
      LabelsSplit(data, o, labels);
      SkipLabel(data, o, labels[0]);
      SkipLabels(data, o + |LabelBytes(labels[0])|, labels[1..]);
    }
  }

  lemma SkipEnd(data: Bytes, o: nat, e: End)
    requires At(data, o, EndBytes(e)) && (e.Pointer? ==> e.high >= 0xC0)
    ensures Skip(data, o) == Some(o + |EndBytes(e)|)
  {
    AtIndex(data, o, EndBytes(e), 0);
    hide At;
  }

  lemma SkipEncoded(data: Bytes, o: nat, n: Name)
    requires NameOk(n) && At(data, o, NameBytes(n))
    ensures Skip(data, o) == Some(o + |NameBytes(n)|)
  {
    hide LabelsBytes, EndBytes, Skip, At;
    AtSplit(data, o, LabelsBytes(n.labels), EndBytes(n.end));
    SkipLabels(data, o, n.labels);
    SkipEnd(data, o + |LabelsBytes(n.labels)|, n.end);
  }

  lemma QuestionStep(data: Bytes, o: nat, q: Question, n: nat)
    requires QuestionOk(q) && At(data, o, QuestionBytes(q))
    ensures SkipQuestions(data, o, n + 1) == SkipQuestions(data, o + |QuestionBytes(q)|, n)
  {
    hide NameBytes, Skip, At, NameOk;
    AtSplit(data, o, NameBytes(q.name), Put16(q.qtype) + Put16(q.qclass));
    SkipEncoded(data, o, q.name);
  }

  lemma QuestionsSplit(data: Bytes, o: nat, qs: seq<Question>)
    requires qs != [] && (forall q | q in qs :: QuestionOk(q)) && At(data, o, QuestionsBytes(qs))
    ensures QuestionOk(qs[0]) && At(data, o, QuestionBytes(qs[0]))
      && At(data, o + |QuestionBytes(qs[0])|, QuestionsBytes(qs[1..]))
    ensures |QuestionsBytes(qs)| == |QuestionBytes(qs[0])| + |QuestionsBytes(qs[1..])|
  {
    hide QuestionBytes, At, QuestionOk;
    assert qs[0] in qs;
    AtSplit(data, o, QuestionBytes(qs[0]), QuestionsBytes(qs[1..]));
  }

  lemma NoQuestions(data: Bytes, o: nat)
    ensures SkipQuestions(data, o, 0) == Some(o + |QuestionsBytes([])|)
  {
  }

  lemma {:induction false} SkipEncodedQuestions(data: Bytes, o: nat, qs: seq<Question>)
    requires forall q | q in qs :: QuestionOk(q)
    requires At(data, o, QuestionsBytes(qs))
    ensures SkipQuestions(data, o, |qs|) == Some(o + |QuestionsBytes(qs)|)
    decreases qs
  {
    hide *;
    if qs == [] {
      NoQuestions(data, o);
    } else {
      QuestionsSplit(data, o, qs);
      QuestionStep(data, o, qs[0], |qs| - 1);
      SkipEncodedQuestions(data, o + |QuestionBytes(qs[0])|, qs[1..]);
    }
  }

  predicate IsAddress(r: Record) {
    r.rtype == 1 && |r.rdata| == 4
  }

  function AddressOf(r: Record): Bytes {
    r.rdata
  }

  /** The A records' addresses, in order. */
  function AddressesIn(rs: seq<Record>): seq<Bytes> {
    Map(Filter(rs, IsAddress), AddressOf)
  }

  lemma FixedPart(data: Bytes, o: nat, r: Record)
    requires RecordOk(r)
    requires At(data, o, Put16(r.rtype) + Put16(r.rclass) + Put16(r.ttlHigh) + Put16(r.ttlLow) + Put16(|r.rdata|))
    ensures o + 10 <= |data| && Word(data, o) == r.rtype && Word(data, o + 8) == |r.rdata|
  {
    var part := Put16(r.rtype) + Put16(r.rclass) + Put16(r.ttlHigh) + Put16(r.ttlLow) + Put16(|r.rdata|);
    WordAt(data, o, part, 0);
    WordAt(data, o, part, 8);
  }

  lemma FourAt(data: Bytes, o: nat, part: Bytes)
    requires At(data, o, part) && |part| == 4
    ensures Four(data, o) == part
  {
    assert data[o..o + 4] == data[o..][..4];
  }

  /** One record read: its address is taken exactly when it is an A record of four bytes. */
  lemma AnswerStep(data: Bytes, o: nat, r: Record, n: nat, found: seq<Bytes>)
    requires RecordOk(r) && At(data, o, RecordBytes(r))
    ensures Answers(data, o, n + 1, found)
      == Answers(data, o + |RecordBytes(r)|, n, if IsAddress(r) then found + [r.rdata] else found)
  {
    hide NameBytes, Skip, Word, Four, At, NameOk;
    var fixed := Put16(r.rtype) + Put16(r.rclass) + Put16(r.ttlHigh) + Put16(r.ttlLow) + Put16(|r.rdata|);
    var end := o + |NameBytes(r.name)|;
    AtSplit(data, o, NameBytes(r.name), fixed + r.rdata);
    AtSplit(data, end, fixed, r.rdata);
    SkipEncoded(data, o, r.name);
    FixedPart(data, end, r);
    if IsAddress(r) {
      FourAt(data, end + 10, r.rdata);
    }
  }

  lemma RecordsSplit(data: Bytes, o: nat, rs: seq<Record>)
    requires rs != [] && (forall r | r in rs :: RecordOk(r)) && At(data, o, RecordsBytes(rs))
    ensures RecordOk(rs[0]) && At(data, o, RecordBytes(rs[0]))
      && At(data, o + |RecordBytes(rs[0])|, RecordsBytes(rs[1..]))
  {
    hide RecordBytes, At, RecordOk;
    assert rs[0] in rs;
    AtSplit(data, o, RecordBytes(rs[0]), RecordsBytes(rs[1..]));
  }

  lemma ReadNone(data: Bytes, o: nat, found: seq<Bytes>)
    ensures Answers(data, o, 0, found) == Addresses(found) && found + AddressesIn([]) == found
  {
  }

  lemma Regroup(found: seq<Bytes>, first: seq<Bytes>, others: seq<Bytes>)
    ensures found + (first + others) == (found + first) + others && found + [] == found
  {
  }

  lemma {:induction false} ReadAnswers(data: Bytes, o: nat, rs: seq<Record>, found: seq<Bytes>)
    requires forall r | r in rs :: RecordOk(r)
    requires At(data, o, RecordsBytes(rs))
    ensures Answers(data, o, |rs|, found) == Addresses(found + AddressesIn(rs))
    decreases rs
  {
    hide *;
    if rs == [] {
      ReadNone(data, o, found);
    } else {
      var r := rs[0];
      RecordsSplit(data, o, rs);
      AnswerStep(data, o, r, |rs| - 1, found);
      AddressesCons(rs);
      var first: seq<Bytes> := if IsAddress(r) then [r.rdata] else [];
      Regroup(found, first, AddressesIn(rs[1..]));
      ReadAnswers(data, o + |RecordBytes(r)|, rs[1..], found + first);
    }
  }

  lemma {:induction false} AddressesCons(rs: seq<Record>)
    requires rs != []
    ensures AddressesIn(rs) == (if IsAddress(rs[0]) then [rs[0].rdata] else []) + AddressesIn(rs[1..])
  {
    hide IsAddress;
    FilterCons(rs);
    MapAppend(if IsAddress(rs[0]) then [rs[0]] else [], Filter(rs[1..], IsAddress), AddressOf);
  }

  lemma {:induction false} FilterCons(rs: seq<Record>)
    requires rs != []
    ensures Filter(rs, IsAddress) == (if IsAddress(rs[0]) then [rs[0]] else []) + Filter(rs[1..], IsAddress)
  {
    if |rs| > 1 {
      var n := |rs| - 1;
      FilterCons(rs[..n]);
      assert rs[..n][1..] == rs[1..][..n - 1];
    }
  }

  lemma WordInFront(a: Bytes, b: Bytes, i: nat)
    requires i + 2 <= |a|
    ensures Word(a + b, i) == Word(a, i)
  {
  }

  /** On every well-formed reply, with plain names or compression pointers and any further sections:
      the wrong id and an error code are refused, in that order; else the result is exactly the
      addresses of the A records, in order. */
  lemma ParseUndoesEncode(m: Message, txid: int)
    requires MessageOk(m)
    ensures Parse(Encode(m), txid) ==
      if m.id != txid then WrongId
      else if m.flags % 0x10 != 0 then Refused(m.flags % 0x10)
      else Addresses(AddressesIn(m.answers))
  {
    hide Word, QuestionsBytes, RecordsBytes, HeaderBytes, SkipQuestions, Answers, AddressesIn;
    var data := Encode(m);
    var qs, rs := QuestionsBytes(m.questions), RecordsBytes(m.answers);
    WordInFront(HeaderBytes(m), qs + (rs + m.rest), 0);
    WordInFront(HeaderBytes(m), qs + (rs + m.rest), 2);
    WordInFront(HeaderBytes(m), qs + (rs + m.rest), 4);
    WordInFront(HeaderBytes(m), qs + (rs + m.rest), 6);
    assert At(data, HEADER, qs + (rs + m.rest));
    AtSplit(data, HEADER, qs, rs + m.rest);
    AtSplit(data, HEADER + |qs|, rs, m.rest);
    SkipEncodedQuestions(data, HEADER, m.questions);
    ReadAnswers(data, HEADER + |qs|, m.answers, []);
    assert [] + AddressesIn(m.answers) == AddressesIn(m.answers);
  }

  lemma EmptyLabel(data: Bytes, o: nat)
    requires At(data, o, LabelBytes([]))
    ensures Skip(data, o) == Some(o + 1)
  {
    AtIndex(data, o, LabelBytes([]), 0);
  }

  lemma {:induction false} SkipStopsEarly(data: Bytes, o: nat, labels: seq<Bytes>)
    requires (forall l | l in labels :: |l| <= 63) && exists l :: l in labels && l == []
    requires At(data, o, LabelsBytes(labels))
    ensures Skip(data, o).Some? && Skip(data, o).value <= o + |LabelsBytes(labels)|
    decreases labels
  {
    hide LabelsBytes, Skip, At;
    LabelsSplit(data, o, labels);
    if labels[0] == [] {
      EmptyLabel(data, o);
    } else {
      var e :| e in labels && e == [];
      assert e in labels[1..];
      SkipLabel(data, o, labels[0]);
      SkipStopsEarly(data, o + |LabelBytes(labels[0])|, labels[1..]);
    }
  }

  /** The query, byte by byte: its id, the flag for recursion, one question and nothing else; then the
      labels, each behind its length, the root, type 1 and class 1. */
  lemma QueryIs(labels: seq<Bytes>, txid: int)
    requires Is16(txid) && forall l | l in labels :: |l| < 0x100
    ensures var query := BuildQuery(labels, txid);
            && |query| >= 17 && (query[0] as int) * 256 + query[1] == txid
            && query[2..12] == [1, 0, 0, 1, 0, 0, 0, 0, 0, 0]
            && query[|query| - 5..] == [0, 0, 1, 0, 1]
            && query[12..|query| - 5] == LabelsBytes(labels)
  {
    var header := Put16(txid) + Put16(0x0100) + Put16(1) + Put16(0) + Put16(0) + Put16(0);
    var tail := [0] + Put16(QTYPE_A) + Put16(QCLASS_IN);
    var query := BuildQuery(labels, txid);
    assert query == header + LabelsBytes(labels) + tail;
    assert header[2..] == [1, 0, 0, 1, 0, 0, 0, 0, 0, 0];
    assert tail == [0, 0, 1, 0, 1];
  }

  /** The labels one behind another. */
  lemma {:induction false} LabelsAdd(a: seq<Bytes>, b: seq<Bytes>)
    requires forall l | l in a + b :: |l| < 0x100
    ensures (forall l | l in a :: |l| < 0x100) && forall l | l in b :: |l| < 0x100
    ensures LabelsBytes(a + b) == LabelsBytes(a) + LabelsBytes(b)
    ensures |b| == 1 ==> LabelsBytes(b) == [|b[0]|] + b[0]
    decreases a
  {
    forall l | l in a || l in b ensures l in a + b {
    }
    if a == [] {
      assert a + b == b;
    } else {
      assert (a + b)[1..] == a[1..] + b && (a + b)[0] == a[0];
      LabelsAdd(a[1..], b);
    }
  }

  /** On a query built from labels of at most 63 bytes, the name ends exactly four bytes before the
      end, where type and class stand, if and only if no label is empty. */
  lemma SkipsTheQueryName(labels: seq<Bytes>, txid: int)
    requires Is16(txid) && forall l | l in labels :: |l| <= 63
    ensures var query := BuildQuery(labels, txid);
            Skip(query, HEADER) == Some(|query| - 4) <==> forall l | l in labels :: l != []
  {
    var query := BuildQuery(labels, txid);
    var tail := Put16(QTYPE_A) + Put16(QCLASS_IN);
    var body := LabelsBytes(labels) + [0] + Put16(QTYPE_A) + Put16(QCLASS_IN);
    assert At(query, HEADER, body);
    assert body == LabelsBytes(labels) + ([0] + tail);
    AtSplit(query, HEADER, LabelsBytes(labels), [0] + tail);
    AtIndex(query, HEADER + |LabelsBytes(labels)|, [0] + tail, 0);
    if forall l | l in labels :: l != [] {
      SkipLabels(query, HEADER, labels);
    } else {
      SkipStopsEarly(query, HEADER, labels);
    }
  }
}
