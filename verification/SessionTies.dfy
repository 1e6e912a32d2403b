/** Each hypothesis of the order law is needed: with it dropped, rearranging the rows changes the
    Timeline. */
module SessionTies {
  import opened Common
  import opened Sessions
  import opened SessionCards
  import opened SessionLaws
  import opened SessionOrder

  // --- distinct times are needed ---------------------------------------------

  /** Two visits of one episode, stamped alike and neither anchor-coded. */
  ghost predicate Tied(codes: Codes, x: Event, y: Event) {
    && x.id != y.id && x.kind == Toilet && y.kind == Toilet && TsKey(x) == TsKey(y)
    && Truthy(x.related) && y.related == x.related && x.eventType !in codes.anchor && y.eventType !in codes.anchor
  }

  lemma LaterOfTwoHeads(codes: Codes, x: Event, y: Event)
    requires Tied(codes, x, y)
    ensures Log(codes, [x, y]).EpisodeHead(x.related.value) == Some(y)
  {
    var log := Log(codes, [x, y]);
    var test := codes.InEpisode(x.related.value);
    assert [x, y] == ([] + [x]) + [y];
    FilterSnoc([], x, test);
    FilterSnoc([x], y, test);
    assert Filter(log.events, test) == [x, y];
    assert [x, y][..1] == [x] && [x][..0] == [];
    assert StableSort([x], TsKey) == [x];
    assert StableSort([x, y], TsKey) == Insert([x], y, TsKey) == [x, y];
    hide StableSort, Filter;
    assert First([x, y], codes.HasAnchorCode()).None?;
  }

  lemma LastHasTheShell(log: Log, x: Event, y: Event)
    requires Tied(log.codes, x, y) && log.events == [x, y]
    ensures CardRule(log, Shell(GroupKind(log.Members(x.related.value), y), y))
  {
    LaterOfTwoHeads(log.codes, x, y);
    assert log == Log(log.codes, [x, y]) && y in log.events;
    hide Log.EpisodeHead, Log.Members, GroupKind, CycleRule, RowRule;
  }

  lemma LastHeadsACard(codes: Codes, x: Event, y: Event)
    requires Tied(codes, x, y)
    ensures exists v :: v in Log(codes, [x, y]).Timeline() && v.head == y
  {
    var log := Log(codes, [x, y]);
    LastHasTheShell(log, x, y);
    assert log.Valid();
    hide *;
    CardIsShown(log, Shell(GroupKind(log.Members(x.related.value), y), y));
  }

  lemma FirstIsMember(codes: Codes, x: Event, y: Event)
    requires Tied(codes, x, y)
    ensures Log(codes, [y, x]).ViaOf(y) == Member(x) && Log(codes, [y, x]).Valid() && x != y
  {
    LaterOfTwoHeads(codes, y, x);
    hide Log.EpisodeHead, Log.LinkTarget, Log.NearTarget, Log.TailTarget, Log.CycleHead;
  }

  lemma FirstHeadsNone(codes: Codes, x: Event, y: Event, v: View)
    requires Tied(codes, x, y) && v in Log(codes, [y, x]).Timeline()
    ensures v.head != y
  {
    hide *;
    var log := Log(codes, [y, x]);
    FirstIsMember(codes, x, y);
    TimelineCards(log);
    var s :| CardRule(log, s) && v == log.Finish()(s);
    FinishHead(log, s);
    HeadVia(log, s);
    OwnerOfMember(log, y, x);
  }

  lemma OwnerOfMember(log: Log, e: Event, h: Event)
    requires log.ViaOf(e) == Member(h)
    ensures log.Owner(e) == h
  {
    hide Log.ViaOf;
  }

  /** The order of the rows does matter when times tie: of two such visits the one that comes last
      heads the card, and the other one heads none. */
  lemma TiesFollowInputOrder(codes: Codes, x: Event, y: Event)
    requires Tied(codes, x, y)
    ensures multiset([x, y]) == multiset([y, x])
    ensures Log(codes, [x, y]).Valid() && Log(codes, [y, x]).Valid()
    ensures exists v :: v in Log(codes, [x, y]).Timeline() && v.head == y
    ensures forall v | v in Log(codes, [y, x]).Timeline() :: v.head != y
  {
    assert multiset([x, y]) == multiset{x, y} == multiset([y, x]);
    assert Log(codes, [x, y]).Valid() && Log(codes, [y, x]).Valid();
    assert x != y;
    hide *;
    LastHeadsACard(codes, x, y);
    forall v | v in Log(codes, [y, x]).Timeline() ensures v.head != y {
      FirstHeadsNone(codes, x, y, v);
    }
  }

  lemma FinishHead(log: Log, s: Shell)
    ensures log.Finish()(s).head == s.head
  {
  }

  // --- one parent per episode is needed --------------------------------------

  /** Two visits, and two cleaning steps of one episode that each name another of them. */
  ghost predicate Rivals(v: Event, w: Event, x: Event, y: Event) {
    && v.id != w.id && v.id != x.id && v.id != y.id && w.id != x.id && w.id != y.id && x.id != y.id
    && v.kind == Toilet && w.kind == Toilet && x.kind == Cleaning && y.kind == Cleaning
    && Truthy(v.related) && Truthy(w.related) && Truthy(x.related) && y.related == x.related
    && v.related != w.related && v.related != x.related && w.related != x.related
    && v.parent.None? && w.parent.None? && x.parent == v.related && y.parent == w.related
    && v.device == w.device == x.device == y.device
  }

  lemma FirstOfFour(s: seq<Event>, test: Event -> bool)
    requires |s| == 4 && !test(s[0]) && !test(s[1]) && test(s[2])
    ensures First(s, test) == Some(s[2])
  {
    assert s[1..][0] == s[1] && s[1..][1..][0] == s[2];
    assert First(s, test) == First(s[1..], test) == First(s[1..][1..], test);
  }

  lemma FirstTeller(log: Log, v: Event, w: Event, x: Event, y: Event, e: Event)
    requires Rivals(v, w, x, y) && log.events == [v, w, x, y] && e in [x, y]
    ensures log.ParentLink(e) == v.related
  {
    hide First;
    FirstOfFour(log.events, log.NamesParentOf(e.related));
  }

  lemma OnlyMemberHeads(log: Log, v: Event, w: Event, x: Event, y: Event)
    requires Rivals(v, w, x, y) && log.events == [v, w, x, y]
    ensures log.EpisodeHead(v.related.value) == Some(v)
  {
    hide Log.EpisodeHead;
    EpisodeHeadFacts(log, v.related.value);
    assert v in log.events && log.codes.InEpisode(v.related.value)(v);
  }

  /** The first of the two to arrive names the episode's parent. */
  lemma FirstTellerWins(log: Log, v: Event, w: Event, x: Event, y: Event, e: Event)
    requires Rivals(v, w, x, y) && log.events == [v, w, x, y] && e in [x, y]
    ensures log.ViaOf(e) == Linked(v) && log.Owner(e) == v
  {
    FirstTeller(log, v, w, x, y, e);
    OnlyMemberHeads(log, v, w, x, y);
    hide Log.EpisodeHead, Log.NearTarget, Log.TailTarget, Log.CycleHead, Log.ParentLink;
    assert log.LinkTarget(e) == Some(v);
    hide Log.LinkTarget;
  }

  /** An episode that names two parents goes with the one named first: rearranged, both its steps
      move to the other card, whatever the times. */
  lemma TwoParentsFollowInputOrder(codes: Codes, v: Event, w: Event, x: Event, y: Event)
    requires Rivals(v, w, x, y)
    ensures multiset([v, w, x, y]) == multiset([w, v, y, x])
    ensures forall c, e | c in Log(codes, [v, w, x, y]).Timeline() && e in [x, y] ::
              e in EventsOf(c.lines) <==> c.head == v
    ensures forall c, e | c in Log(codes, [w, v, y, x]).Timeline() && e in [x, y] ::
              e in EventsOf(c.lines) <==> c.head == w
    ensures exists c :: c in Log(codes, [v, w, x, y]).Timeline() && c.head == v
    ensures exists c :: c in Log(codes, [w, v, y, x]).Timeline() && c.head == w
  {
    hide *;
    var a, b := Log(codes, [v, w, x, y]), Log(codes, [w, v, y, x]);
    SwapFour(v, w, x, y);
    RivalsSwap(v, w, x, y);
    RivalsValid(codes, v, w, x, y);
    RivalsValid(codes, w, v, y, x);
    forall c, e | c in a.Timeline() && e in [x, y] ensures e in EventsOf(c.lines) <==> c.head == v {
      FirstTellerWins(a, v, w, x, y, e);
      LineOnOwner(a, c, e);
    }
    forall c, e | c in b.Timeline() && e in [x, y] ensures e in EventsOf(c.lines) <==> c.head == w {
      FirstTellerWins(b, w, v, y, x, e);
      LineOnOwner(b, c, e);
    }
    FirstTellerWins(a, v, w, x, y, x);
    FirstTellerWins(b, w, v, y, x, x);
    var _ := OwnerShown(a, x);
    var _ := OwnerShown(b, x);
  }

  lemma SwapTwo<T>(a: T, b: T)
    ensures multiset([a, b]) == multiset([b, a])
  {
  }

  lemma SwapFour<T>(v: T, w: T, x: T, y: T)
    ensures multiset([v, w, x, y]) == multiset([w, v, y, x])
  {
    assert [v, w, x, y] == [v, w] + [x, y] && [w, v, y, x] == [w, v] + [y, x];
    SwapTwo(v, w);
    SwapTwo(x, y);
  }

  lemma RivalsValid(codes: Codes, v: Event, w: Event, x: Event, y: Event)
    requires Rivals(v, w, x, y)
    ensures Log(codes, [v, w, x, y]).Valid() && x in [v, w, x, y] && y in [v, w, x, y]
    ensures v != x && v != y && w != x && w != y
  {
    assert [v, w, x, y][2] == x && [v, w, x, y][3] == y;
  }

  lemma RivalsSwap(v: Event, w: Event, x: Event, y: Event)
    requires Rivals(v, w, x, y)
    ensures Rivals(w, v, y, x)
  {
  }

  lemma CardIsShown(log: Log, s: Shell)
    requires log.Valid() && CardRule(log, s)
    ensures log.Finish()(s) in log.Timeline() && log.Finish()(s).head == s.head
  {
    TimelineCards(log);
    hide *;
    FinishHead(log, s);
  }

  lemma OwnerShown(log: Log, e: Event) returns (c: View)
    requires log.Valid() && e in log.events
    ensures c in log.Timeline() && c.head == log.Owner(e)
  {
    OwnerHeads(log, e);
    hide *;
    var s :| CardRule(log, s) && s.head == log.Owner(e);
    CardIsShown(log, s);
    c := log.Finish()(s);
  }

  // --- no tie between cleaning cards is needed -------------------------------

  /** A cleaning step midway between two completed cleanings of other episodes. */
  ghost predicate Midway(codes: Codes, c: Event, d: Event, x: Event) {
    && c.id != d.id && c.id != x.id && d.id != x.id
    && c.kind == Cleaning && d.kind == Cleaning && x.kind == Cleaning && c.device == d.device == x.device
    && Truthy(c.related) && Truthy(d.related) && Truthy(x.related)
    && c.related != d.related && c.related != x.related && d.related != x.related
    && c.parent.None? && d.parent.None? && x.parent.None?
    && codes.Done(c) && codes.Done(d) && !codes.Done(x)
    && c.ts.Some? && d.ts.Some? && x.ts.Some?
    && Abs(x.ts.value - c.ts.value) == Abs(x.ts.value - d.ts.value) <= CYCLE_TAIL_WINDOW_SEC
  }

  lemma NoLink(log: Log, c: Event, d: Event, x: Event, e: Event)
    requires Midway(log.codes, c, d, x) && log.events == [c, d, x] && e in log.events
    ensures log.LinkTarget(e).None?
  {
    hide Log.EpisodeHead, First;
    assert e.parent.None? && forall t | t in log.events :: !log.NamesParent(t);
    assert log.ParentLink(e).None?;
  }

  lemma NoVisitAtAll(log: Log, c: Event, d: Event, x: Event, s: Shell)
    requires Midway(log.codes, c, d, x) && log.events == [c, d, x]
    ensures !BaseRule(log, s)
  {
    hide Log.EpisodeShell;
  }

  /** Nothing claims any of the three steps. */
  lemma AllStray(log: Log, c: Event, d: Event, x: Event, e: Event)
    requires Midway(log.codes, c, d, x) && log.events == [c, d, x] && e in log.events
    ensures log.LinkTarget(e).None? && log.NearTarget(e).None? && log.Stray(e) && !log.Based(e)
  {
    NoLink(log, c, d, x, e);
    NearTargetFacts(log, e);
    forall s ensures !BaseRule(log, s) {
      NoVisitAtAll(log, c, d, x, s);
    }
    hide Log.NearTarget, Log.LinkTarget, BaseRule;
  }

  lemma CycleOf(log: Log, c: Event, d: Event, x: Event)
    requires Midway(log.codes, c, d, x) && log.events == [c, d, x]
    ensures log.CycleHead(c.related.value) == Some(c) && log.CycleHead(d.related.value) == Some(d)
    ensures log.CycleHead(x.related.value) == None
  {
    hide Log.CycleHead, Log.Stray;
    assert c in log.events && d in log.events && x in log.events;
    AllStray(log, c, d, x, c);
    AllStray(log, c, d, x, d);
    CycleHeadFacts(log, c.related.value);
    CycleHeadFacts(log, d.related.value);
    CycleHeadFacts(log, x.related.value);
  }

  lemma ThreeRels(log: Log, c: Event, d: Event, x: Event)
    requires Midway(log.codes, c, d, x) && log.events == [c, d, x]
    ensures Rels(Filter(log.events, log.IsStray())) == [c.related.value, d.related.value, x.related.value]
  {
    forall e | e in log.events ensures log.IsStray()(e) {
      AllStray(log, c, d, x, e);
    }
    hide Filter, Rels, Log.Stray;
    FilterAll(log.events, log.IsStray());
    RelsOfThree(c, d, x);
  }

  lemma ThreeShells(log: Log, rels: seq<string>, c: Event, d: Event)
    requires |rels| == 3 && log.CycleHead(rels[0]) == Some(c) && log.CycleHead(rels[1]) == Some(d)
    requires log.CycleHead(rels[2]).None?
    ensures log.CycleShells(rels) == [Shell(Episode(Cleaning), c), Shell(Episode(Cleaning), d)]
  {
    hide Log.CycleHead;
    assert rels[..2][..1] == rels[..1] && rels[..1][..0] == [];
    assert log.CycleShells(rels[..1]) == [Shell(Episode(Cleaning), c)];
    assert log.CycleShells(rels[..2]) == log.CycleShells(rels[..1]) + log.CycleShell(rels[1]);
  }

  lemma CleaningCards(log: Log, c: Event, d: Event, x: Event)
    requires Midway(log.codes, c, d, x) && log.events == [c, d, x]
    ensures log.CleaningShells() == [Shell(Episode(Cleaning), c), Shell(Episode(Cleaning), d)]
  {
    CycleOf(log, c, d, x);
    ThreeRels(log, c, d, x);
    hide Filter, Rels, Log.CycleHead, Log.CycleShells, Log.Stray, Midway;
    ThreeShells(log, [c.related.value, d.related.value, x.related.value], c, d);
  }

  lemma RelsOfThree(c: Event, d: Event, x: Event)
    requires Truthy(c.related) && Truthy(d.related) && Truthy(x.related)
    requires c.related != d.related && c.related != x.related && d.related != x.related
    ensures Rels([c, d, x]) == [c.related.value, d.related.value, x.related.value]
  {
    assert [c, d, x][..2] == [c, d] && [c, d][..1] == [c] && [c][..0] == [];
    assert Rels([c]) == [c.related.value];
    assert Rels([c, d]) == [c.related.value, d.related.value];
  }

  lemma BothInReach(codes: Codes, c: Event, d: Event, x: Event)
    requires Midway(codes, c, d, x)
    ensures var s, t := Shell(Episode(Cleaning), c), Shell(Episode(Cleaning), d);
            CleaningNear(x)(s) && CleaningNear(x)(t) && Distance(x)(s) == Distance(x)(t)
  {
  }

  lemma ClosestOfTwo(s: Shell, t: Shell, near: Shell -> bool, key: Shell -> real)
    requires near(s) && near(t) && key(s) == key(t)
    ensures Closest(Filter([s, t], near), key) == Some(s.head)
  {
    FilterAll([s, t], near);
    assert [s, t][..1] == [s];
  }

  lemma FirstOfTwo(log: Log, c: Event, d: Event, x: Event)
    requires Midway(log.codes, c, d, x)
    requires log.CleaningShells() == [Shell(Episode(Cleaning), c), Shell(Episode(Cleaning), d)]
    ensures log.TailTarget(x) == Some(c)
  {
    hide Log.CleaningShells, Filter, Closest, CleaningNear, Distance, Midway;
    BothInReach(log.codes, c, d, x);
    ClosestOfTwo(Shell(Episode(Cleaning), c), Shell(Episode(Cleaning), d), CleaningNear(x), Distance(x));
  }

  /** The card discovered first takes the step. */
  lemma FirstCardWins(log: Log, c: Event, d: Event, x: Event)
    requires Midway(log.codes, c, d, x) && log.events == [c, d, x]
    ensures log.ViaOf(x) == Tail(c) && log.Owner(x) == c
  {
    CleaningCards(log, c, d, x);
    FirstOfTwo(log, c, d, x);
    CycleOf(log, c, d, x);
    AllStray(log, c, d, x, x);
    hide Log.CleaningShells, Log.CycleHead, Log.LinkTarget, Log.NearTarget, Log.TailTarget, Log.Based, Log.Stray;
  }

  lemma MidwaySwap(codes: Codes, c: Event, d: Event, x: Event)
    requires Midway(codes, c, d, x)
    ensures Midway(codes, d, c, x) && multiset([c, d, x]) == multiset([d, c, x])
    ensures Log(codes, [c, d, x]).Valid() && Log(codes, [d, c, x]).Valid()
    ensures x in [c, d, x] && x in [d, c, x] && c != x && d != x
  {
    assert multiset([c, d, x]) == multiset{c, d, x} == multiset([d, c, x]);
    assert [c, d, x][2] == x && [d, c, x][2] == x;
  }

  /** A cycle tail midway between two cleaning cards goes to the one that arrives first. */
  lemma MidwayFollowsInputOrder(codes: Codes, c: Event, d: Event, x: Event)
    requires Midway(codes, c, d, x)
    ensures multiset([c, d, x]) == multiset([d, c, x])
    ensures forall v | v in Log(codes, [c, d, x]).Timeline() :: x in EventsOf(v.lines) <==> v.head == c
    ensures forall v | v in Log(codes, [d, c, x]).Timeline() :: x in EventsOf(v.lines) <==> v.head == d
    ensures exists v :: v in Log(codes, [c, d, x]).Timeline() && v.head == c
  {
    hide *;
    var a, b := Log(codes, [c, d, x]), Log(codes, [d, c, x]);
    MidwaySwap(codes, c, d, x);
    FirstCardWins(a, c, d, x);
    FirstCardWins(b, d, c, x);
    forall v | v in a.Timeline() ensures x in EventsOf(v.lines) <==> v.head == c {
      LineOnOwner(a, v, x);
    }
    forall v | v in b.Timeline() ensures x in EventsOf(v.lines) <==> v.head == d {
      LineOnOwner(b, v, x);
    }
    var _ := OwnerShown(a, x);
  }

  // --- exactly when the order matters ----------------------------------------

  lemma {:induction false} FilterCons<T>(x: T, s: seq<T>, keep: T -> bool)
    ensures Filter([x] + s, keep) == (if keep(x) then [x] else []) + Filter(s, keep)
  {
    if s == [] {
      assert [x] + s == [x] && [x][..0] == [];
    } else {
      var n := |s| - 1;
      assert ([x] + s)[..n + 1] == [x] + s[..n];
      FilterCons(x, s[..n], keep);
    }
  }

  lemma {:induction false} FirstRel(s: seq<Event>)
    requires s != [] && Truthy(s[0].related)
    ensures Rels(s) != [] && Rels(s)[0] == s[0].related.value
  {
    if |s| > 1 {
      FirstRel(s[..|s| - 1]);
    } else {
      assert s[..0] == [];
    }
  }

  lemma {:induction false} FirstShell(log: Log, rels: seq<string>, u: Shell)
    requires rels != [] && log.CycleShell(rels[0]) == [u]
    ensures log.CycleShells(rels) != [] && log.CycleShells(rels)[0] == u
  {
    hide Log.CycleShell;
    if |rels| > 1 {
      FirstShell(log, rels[..|rels| - 1], u);
    } else {
      assert rels[..0] == [];
    }
  }

  /** Of equally near candidates the first is chosen. */
  lemma ClosestIsFirst(candidates: seq<Shell>, key: Shell -> real)
    requires candidates != [] && forall s | s in candidates :: key(candidates[0]) <= key(s)
    ensures Closest(candidates, key) == Some(candidates[0].head)
  {
    var i := MinByFirst(candidates, key);
    assert candidates[i] in candidates;
  }

  lemma HeadIsStray(log: Log, u: Shell)
    requires CycleRule(log, u)
    ensures log.IsStray()(u.head) && Truthy(u.head.related) && log.CycleShell(u.head.related.value) == [u]
  {
    CycleHeadFacts(log, u.head.related.value);
    hide Log.Stray, Log.CycleHead;
  }

  /** A cleaning card whose head arrives first is the first cleaning card. */
  lemma HeadFirstCardFirst(log: Log, u: Shell)
    requires CycleRule(log, u) && log.events != [] && log.events[0] == u.head
    ensures log.CleaningShells() != [] && log.CleaningShells()[0] == u
  {
    HeadIsStray(log, u);
    hide CycleRule, Log.Stray, Log.CycleShell, Log.CycleShells, Log.IsStray, Rels, Filter, Truthy;
    var rest := log.events[1..];
    assert log.events == [u.head] + rest;
    FilterCons(u.head, rest, log.IsStray());
    var strays := Filter(log.events, log.IsStray());
    FirstRel(strays);
    FirstShell(log, Rels(strays), u);
  }

  /** And of nearest cards the one a tail goes to. */
  lemma FirstNearestWins(log: Log, e: Event, u: Shell)
    requires Nearest(log, e, u) && log.events != [] && log.events[0] == u.head
    ensures log.TailTarget(e) == Some(u.head)
  {
    HeadFirstCardFirst(log, u);
    var cards := log.CleaningShells();
    forall s ensures s in cards <==> CycleRule(log, s) {
      CleaningShellsMember(log, s);
    }
    hide Log.CleaningShells, CycleRule, Filter, Closest, InTailWindow;
    assert cards == [u] + cards[1..];
    FilterCons(u, cards[1..], CleaningNear(e));
    FilterMember(cards, CleaningNear(e));
    ClosestIsFirst(Filter(cards, CleaningNear(e)), Distance(e));
  }

  lemma MovedToFront(a: Log, h: Event) returns (b: Log)
    requires h in a.events
    ensures b.codes == a.codes && multiset(b.events) == multiset(a.events) && b.events != [] && b.events[0] == h
  {
    var i :| 0 <= i < |a.events| && a.events[i] == h;
    b := Log(a.codes, [h] + a.events[..i] + a.events[i + 1..]);
    assert a.events == a.events[..i] + [h] + a.events[i + 1..];
  }

  /** Some rearrangement puts a tail on any of its nearest cards. */
  lemma AnyNearestWins(a: Log, e: Event, u: Shell) returns (b: Log)
    requires Shuffled(a, a) && e in a.events && a.ViaOf(e).Tail? && Nearest(a, e, u)
    ensures Shuffled(a, b) && e in b.events && b.ViaOf(e) == Tail(u.head)
  {
    HeadIsEvent(a, u);
    b := MovedToFront(a, u.head);
    ShuffledFacts(a, b);
    SameNearest(a, b, e);
    SameButTail(a, b, e);
    hide Log.ViaOf, Nearest, Log.TailTarget, Shuffled;
    FirstNearestWins(b, e, u);
  }

  /** A tail never heads the card it is on. */
  lemma TailIsNoHead(log: Log, e: Event)
    requires e in log.events && log.ViaOf(e).Tail?
    ensures log.Owner(e) == log.ViaOf(e).head && log.Owner(e) != e
  {
    OwnerHeads(log, e);
    var s :| CycleRule(log, s) && s.head == log.Owner(e);
    CycleHeadVia(log, s);
    hide Log.ViaOf, CycleRule;
  }

  /** A tail on different cards makes different timelines. */
  lemma TailsTell(a: Log, b: Log, e: Event)
    requires a.Valid() && b.Valid() && e in a.events && e in b.events && a.ViaOf(e).Tail? && b.ViaOf(e).Tail?
    requires a.ViaOf(e) != b.ViaOf(e)
    ensures !SameTimeline(a, b)
  {
    hide Log.ViaOf, Log.Timeline, Log.Owner;
    TailIsNoHead(a, e);
    TailIsNoHead(b, e);
    var v := OwnerShown(a, e);
    LineOnOwner(a, v, e);
    if SameTimeline(a, b) {
      var i :| 0 <= i < |a.Timeline()| && a.Timeline()[i] == v;
      var w := b.Timeline()[i];
      assert SameCard(v, w) && w in b.Timeline();
      LineOnOwner(b, w, e);
      assert false;
    }
  }

  /** Of rows with present, distinct times and one parent per episode, the Timeline is the same for
      every order of arrival exactly when no cycle tail has two nearest cleaning cards. */
  lemma OrderMattersIff(a: Log)
    requires a.Valid() && DistinctTimes(a.events) && OneParent(a)
    ensures (forall b | Shuffled(a, b) :: SameTimeline(a, b)) <==> NoTie(a)
  {
    hide Log.ViaOf, Nearest, SameTimeline, Log.TailTarget, DistinctTimes, OneParent, Log.Valid;
    assert Shuffled(a, a);
    if NoTie(a) {
      forall b | Shuffled(a, b) ensures SameTimeline(a, b) {
        OrderIndependence(a, b);
      }
    } else {
      var e, s, t :| e in a.events && a.ViaOf(e).Tail? && Nearest(a, e, s) && Nearest(a, e, t) && s != t;
      NearestDiffer(a, e, s, t);
      var u := if a.ViaOf(e).head == s.head then t else s;
      var b := AnyNearestWins(a, e, u);
      ShuffledFacts(a, b);
      TailsTell(a, b, e);
    }
  }

  lemma NearestDiffer(log: Log, e: Event, s: Shell, t: Shell)
    requires Nearest(log, e, s) && Nearest(log, e, t) && s != t
    ensures s.head != t.head
  {
    if s.head == t.head {
      CardOfHead(log, s, t);
    }
  }
}
