/** The order in which the rows arrive does not matter to the Timeline, as long as no two
    rows compete for the same place. */
module SessionOrder {
  import opened Common
  import opened Sessions
  import opened SessionCards
  import opened SessionLaws
  import opened SessionPlacement

  ghost predicate DistinctTimes(events: seq<Event>) {
    DistinctKeys(events, TsKey) && forall e | e in events :: e.ts.Some?
  }

  /** Every episode names at most one parent. */
  ghost predicate OneParent(log: Log) {
    forall x, y | x in log.events && y in log.events && log.NamesParent(x) && log.NamesParent(y)
      && x.related == y.related ::
      x.parent == y.parent
  }

  /** A cleaning card in reach of a step, with no nearer one. */
  ghost predicate Nearest(log: Log, e: Event, s: Shell) {
    && CycleRule(log, s) && InTailWindow(s, e)
    && forall t | CycleRule(log, t) && InTailWindow(t, e) :: Distance(e)(s) <= Distance(e)(t)
  }

  /** No cycle tail has two nearest cleaning cards. */
  ghost predicate NoTie(log: Log) {
    forall e, s, t | e in log.events && log.ViaOf(e).Tail? && Nearest(log, e, s) && Nearest(log, e, t) :: s == t
  }

  /** The same rows under the same code tables, of distinct times and one parent per episode. */
  ghost predicate Shuffled(a: Log, b: Log) {
    && a.codes == b.codes && multiset(a.events) == multiset(b.events)
    && a.Valid() && DistinctTimes(a.events) && OneParent(a)
  }

  /** Equal cards, up to the order inside a gallery. */
  ghost predicate SameCard(v: View, w: View) {
    && v.kind == w.kind && v.head == w.head && v.media == w.media
    && EventsOf(v.lines) == EventsOf(w.lines)
    && |v.lines| == |w.lines|
    && forall i, m | 0 <= i < |v.lines| :: m in v.lines[i].media <==> m in w.lines[i].media
  }

  lemma ShuffledFacts(a: Log, b: Log)
    requires Shuffled(a, b)
    ensures forall e :: e in a.events <==> e in b.events
    ensures b.Valid() && DistinctTimes(b.events)
  {
    SubDistinct(b.events, a.events, IdOf);
    SubDistinct(b.events, a.events, TsKey);
    forall e ensures e in a.events <==> e in b.events {
      assert e in multiset(a.events) <==> e in multiset(b.events);
    }
  }

  /** Tests that agree pick the same rows, in the same order once sorted by time. */
  lemma SameSorted(a: Log, b: Log, p: Event -> bool, q: Event -> bool)
    requires Shuffled(a, b) && forall e | e in a.events :: p(e) == q(e)
    ensures StableSort(Filter(a.events, p), TsKey) == StableSort(Filter(b.events, q), TsKey)
  {
    ShuffledFacts(a, b);
    FilterMember(a.events, p);
    FilterMember(b.events, q);
    FilterDistinct(a.events, p, TsKey);
    FilterDistinct(b.events, q, TsKey);
    SortUnique(Filter(a.events, p), Filter(b.events, q), TsKey);
  }

  lemma SameEpisode(a: Log, b: Log, rel: string)
    requires Shuffled(a, b)
    ensures a.Members(rel) == b.Members(rel) && a.EpisodeHead(rel) == b.EpisodeHead(rel)
    ensures a.EpisodeShell(rel) == b.EpisodeShell(rel)
  {
    SameSorted(a, b, a.codes.InEpisode(rel), b.codes.InEpisode(rel));
  }

  lemma SameBase(a: Log, b: Log)
    requires Shuffled(a, b)
    ensures forall s :: BaseRule(a, s) <==> BaseRule(b, s)
  {
    ShuffledFacts(a, b);
    forall s ensures BaseRule(a, s) <==> BaseRule(b, s) {
      if s.head.related.Some? {
        SameEpisode(a, b, s.head.related.value);
      }
    }
  }

  lemma SameLink(a: Log, b: Log, e: Event)
    requires Shuffled(a, b)
    ensures a.LinkTarget(e) == b.LinkTarget(e)
  {
    ShuffledFacts(a, b);
    assert a.ParentLink(e) == b.ParentLink(e);
    if a.ParentLink(e).Some? {
      SameEpisode(a, b, a.ParentLink(e).value);
    }
  }

  /** Cards of the same time have the same head. */
  lemma SameTimeSameHead(log: Log, x: Event, y: Event)
    requires DistinctTimes(log.events) && x in log.events && y in log.events && TsKey(x) == TsKey(y)
    ensures x == y
  {
    var i :| 0 <= i < |log.events| && log.events[i] == x;
    var j :| 0 <= j < |log.events| && log.events[j] == y;
    if i < j {
      assert TsKey(log.events[i]) != TsKey(log.events[j]);
    } else if j < i {
      assert TsKey(log.events[j]) != TsKey(log.events[i]);
    }
  }

  lemma SameNear(a: Log, b: Log, e: Event)
    requires Shuffled(a, b)
    ensures a.NearTarget(e) == b.NearTarget(e)
  {
    SameBase(a, b);
    NearTargetFacts(a, e);
    NearTargetFacts(b, e);
    if a.NearTarget(e).Some? && b.NearTarget(e).Some? {
      var s :| && BaseRule(a, s) && s.kind == Visit && InWindow(s, e) && s.head == a.NearTarget(e).value
               && forall t | BaseRule(a, t) && t.kind == Visit && InWindow(t, e) :: Gap(e)(s) <= Gap(e)(t);
      var t :| && BaseRule(b, t) && t.kind == Visit && InWindow(t, e) && t.head == b.NearTarget(e).value
               && forall u | BaseRule(b, u) && u.kind == Visit && InWindow(u, e) :: Gap(e)(t) <= Gap(e)(u);
      assert BaseRule(b, s) && BaseRule(a, t);
      assert Gap(e)(s) == Gap(e)(t);
      SameTimeSameHead(a, s.head, t.head);
    }
  }

  lemma SameStray(a: Log, b: Log, e: Event)
    requires Shuffled(a, b)
    ensures a.Stray(e) == b.Stray(e)
  {
    SameLink(a, b, e);
    SameNear(a, b, e);
  }

  lemma SameCycle(a: Log, b: Log, rel: string)
    requires Shuffled(a, b)
    ensures a.Strays(rel) == b.Strays(rel) && a.CycleHead(rel) == b.CycleHead(rel)
    ensures a.CycleShell(rel) == b.CycleShell(rel)
  {
    forall e | e in a.events ensures a.StrayIn(rel)(e) == b.StrayIn(rel)(e) {
      SameStray(a, b, e);
    }
    SameSorted(a, b, a.StrayIn(rel), b.StrayIn(rel));
  }

  lemma SameCycles(a: Log, b: Log)
    requires Shuffled(a, b)
    ensures forall s :: CycleRule(a, s) <==> CycleRule(b, s)
  {
    ShuffledFacts(a, b);
    forall s ensures CycleRule(a, s) <==> CycleRule(b, s) {
      if s.head.related.Some? {
        SameCycle(a, b, s.head.related.value);
      }
    }
  }

  /** Whether some cleaning card is in reach of a step does not depend on the order. */
  lemma SameReach(a: Log, b: Log, e: Event)
    requires Shuffled(a, b)
    ensures a.TailTarget(e).Some? <==> b.TailTarget(e).Some?
  {
    SameCycles(a, b);
    hide Log.TailTarget, CycleRule;
    TailTargetFacts(a, e);
    TailTargetFacts(b, e);
  }

  lemma TailTargetIsNearest(log: Log, e: Event)
    ensures log.TailTarget(e).Some? ==> exists s :: Nearest(log, e, s) && s.head == log.TailTarget(e).value
  {
    TailTargetFacts(log, e);
    hide Log.TailTarget, CycleRule, InTailWindow;
  }

  lemma SameNearest(a: Log, b: Log, e: Event)
    requires Shuffled(a, b)
    ensures forall s :: Nearest(a, e, s) <==> Nearest(b, e, s)
  {
    SameCycles(a, b);
    hide CycleRule, InTailWindow, Shuffled;
  }

  lemma SameTail(a: Log, b: Log, e: Event)
    requires Shuffled(a, b) && NoTie(a) && e in a.events && a.ViaOf(e).Tail?
    ensures a.TailTarget(e) == b.TailTarget(e)
  {
    SameReach(a, b, e);
    SameNearest(a, b, e);
    TailTargetIsNearest(a, e);
    TailTargetIsNearest(b, e);
    hide Log.TailTarget, Log.ViaOf, Nearest, Shuffled;
  }

  /** Ties or not, only the card of a cycle tail can depend on the order. */
  lemma SameButTail(a: Log, b: Log, e: Event)
    requires Shuffled(a, b) && e in a.events
    ensures if a.ViaOf(e).Tail?
            then && a.TailTarget(e).Some? && a.ViaOf(e) == Tail(a.TailTarget(e).value)
                 && b.TailTarget(e).Some? && b.ViaOf(e) == Tail(b.TailTarget(e).value)
            else a.ViaOf(e) == b.ViaOf(e)
  {
    hide Log.LinkTarget, Log.NearTarget, Log.TailTarget, Log.EpisodeHead, Log.CycleHead;
    SameLink(a, b, e);
    SameNear(a, b, e);
    SameReach(a, b, e);
    if e.related.Some? {
      SameEpisode(a, b, e.related.value);
      SameCycle(a, b, e.related.value);
    }
  }

  lemma SameVia(a: Log, b: Log, e: Event)
    requires Shuffled(a, b) && NoTie(a) && e in a.events
    ensures a.ViaOf(e) == b.ViaOf(e)
  {
    hide *;
    SameButTail(a, b, e);
    if a.ViaOf(e).Tail? {
      SameTail(a, b, e);
    }
  }

  lemma SameCards(a: Log, b: Log)
    requires Shuffled(a, b) && NoTie(a)
    ensures forall s :: CardRule(a, s) <==> CardRule(b, s)
  {
    ShuffledFacts(a, b);
    SameBase(a, b);
    SameCycles(a, b);
    forall s ensures RowRule(a, s) <==> RowRule(b, s) {
      if s.head in a.events {
        SameVia(a, b, s.head);
      }
    }
  }

  /** The lines of a card are rows of distinct times. */
  lemma LinesDistinct(log: Log, s: Shell)
    requires log.Valid() && DistinctTimes(log.events) && CardRule(log, s)
    ensures DistinctKeys(log.RawLines(s), TsKey)
  {
    CardContents(log, s);
    SubFilter(log.events, log.OwnedBy(s.head));
    assert multiset([s.head] + log.RawLines(s)) == multiset{s.head} + multiset(log.RawLines(s));
    SubDistinct(log.RawLines(s), log.events, TsKey);
  }

  lemma {:induction false} SubFilter(s: seq<Event>, p: Event -> bool)
    ensures multiset(Filter(s, p)) <= multiset(s)
  {
    if s != [] {
      SubFilter(s[..|s| - 1], p);
      assert s == s[..|s| - 1] + [s[|s| - 1]];
    }
  }

  lemma SameSteps(a: Log, b: Log, s: Shell)
    requires Shuffled(a, b)
    ensures a.Steps(s) == b.Steps(s)
  {
    hide Shuffled, Log.Members, Log.Strays;
    if s.head.related.Some? {
      SameEpisode(a, b, s.head.related.value);
      SameCycle(a, b, s.head.related.value);
    }
  }

  lemma SameRawLines(a: Log, b: Log, s: Shell)
    requires Shuffled(a, b) && NoTie(a)
    ensures forall e :: e in a.RawLines(s) <==> e in b.RawLines(s)
  {
    hide Shuffled, NoTie, Log.Steps, Filter, Log.ViaOf, Log.Is;
    SameSteps(a, b, s);
    SamePicked(a, b, Linked(s.head));
    SamePicked(a, b, Near(s.head));
    SamePicked(a, b, Tail(s.head));
  }

  lemma SamePicked(a: Log, b: Log, via: Via)
    requires Shuffled(a, b) && NoTie(a)
    ensures forall e :: e in Filter(a.events, a.Is(via)) <==> e in Filter(b.events, b.Is(via))
  {
    ShuffledFacts(a, b);
    FilterMember(a.events, a.Is(via));
    FilterMember(b.events, b.Is(via));
    forall e | e in a.events ensures a.Is(via)(e) == b.Is(via)(e) {
      SameVia(a, b, e);
    }
  }

  lemma SameLines(a: Log, b: Log, s: Shell)
    requires Shuffled(a, b) && NoTie(a) && CardRule(a, s)
    ensures StableSort(a.RawLines(s), TsKey) == StableSort(b.RawLines(s), TsKey)
  {
    ShuffledFacts(a, b);
    SameCards(a, b);
    assert CardRule(b, s);
    LinesDistinct(a, s);
    LinesDistinct(b, s);
    SameRawLines(a, b, s);
    SortUnique(a.RawLines(s), b.RawLines(s), TsKey);
  }

  lemma SameGallery(a: Log, b: Log, rel: string)
    requires Shuffled(a, b)
    ensures forall m :: m in EpisodeMedia(a.events, rel) <==> m in EpisodeMedia(b.events, rel)
  {
    ShuffledFacts(a, b);
    EpisodeMediaFacts(a.events, rel);
    EpisodeMediaFacts(b.events, rel);
    forall m ensures Recorded(a.events, rel, m) <==> Recorded(b.events, rel, m) {
    }
  }

  lemma SameFinish(a: Log, b: Log, s: Shell)
    requires Shuffled(a, b) && NoTie(a) && CardRule(a, s)
    ensures SameCard(a.Finish()(s), b.Finish()(s))
  {
    SameLines(a, b, s);
    FinishedLines(a, s);
    FinishedLines(b, s);
    var lines := StableSort(a.RawLines(s), TsKey);
    var v, w := a.codes.WithMedia(lines, s.head.related, a.events), a.codes.WithMedia(lines, s.head.related, b.events);
    forall i, m | 0 <= i < |lines| ensures m in v[i].media <==> m in w[i].media {
      if a.codes.Carries(lines, s.head.related, i) {
        SameGallery(a, b, lines[i].related.value);
      }
    }
  }

  /** Card times are distinct, so their newest-first order is forced. */
  lemma ShellTimes(log: Log)
    requires log.Valid() && DistinctTimes(log.events)
    ensures DistinctKeys(log.Shells(), NewestFirst)
  {
    ShellsDistinct(log);
    var shells := log.Shells();
    forall i, j | 0 <= i < j < |shells| ensures NewestFirst(shells[i]) != NewestFirst(shells[j]) {
      ShellsMember(log, shells[i]);
      ShellsMember(log, shells[j]);
      HeadVia(log, shells[i]);
      HeadVia(log, shells[j]);
      assert HeadOf(shells[i]) != HeadOf(shells[j]);
      if NewestFirst(shells[i]) == NewestFirst(shells[j]) {
        SameTimeSameHead(log, shells[i].head, shells[j].head);
      }
    }
  }

  /** The same cards in the same order, with the same lines in the same order. */
  ghost predicate SameTimeline(a: Log, b: Log) {
    && |a.Timeline()| == |b.Timeline()|
    && forall i | 0 <= i < |a.Timeline()| :: SameCard(a.Timeline()[i], b.Timeline()[i])
  }

  /** Input-order independence: any rearrangement of the rows gives the same cards in the
      same newest-first order, with the same lines in the same order. */
  lemma OrderIndependence(a: Log, b: Log)
    requires Shuffled(a, b) && NoTie(a)
    ensures SameTimeline(a, b)
  {
    ShuffledFacts(a, b);
    ShellTimes(a);
    ShellTimes(b);
    SameCards(a, b);
    forall s ensures s in a.Shells() <==> s in b.Shells() {
      ShellsMember(a, s);
      ShellsMember(b, s);
    }
    SortUnique(a.Shells(), b.Shells(), NewestFirst);
    SortMember(a.Shells(), NewestFirst);
    var sorted := StableSort(a.Shells(), NewestFirst);
    forall i | 0 <= i < |sorted| ensures SameCard(a.Timeline()[i], b.Timeline()[i]) {
      assert sorted[i] in sorted;
      ShellsMember(a, sorted[i]);
      SameFinish(a, b, sorted[i]);
    }
  }
}
