/** What the Timeline promises: nothing lost or doubled, every event on the card it
    belongs to, each gallery shown once, and no dependence on the order of the input. */
module SessionLaws {
  import opened Common
  import opened Sessions
  import opened SessionCards

  // --- conservation ----------------------------------------------------------

  function EventsOf(lines: seq<Line>): seq<Event> {
    seq(|lines|, i requires 0 <= i < |lines| => lines[i].event)
  }

  /** Every event a timeline shows, card by card: the head, then the lines. */
  function Shown(cards: seq<View>): seq<Event> {
    if cards == [] then [] else
      Shown(cards[..|cards| - 1]) + [cards[|cards| - 1].head] + EventsOf(cards[|cards| - 1].lines)
  }

  function OwnedIn(log: Log, heads: set<Event>): Event -> bool {
    (e: Event) => log.Owner(e) in heads
  }

  /** The part of a card that is not a follow-up: its head and its own episode. */
  function Core(log: Log, h: Event): Event -> bool {
    (e: Event) => log.Owner(e) == h && log.ViaOf(e) != Linked(h) && log.ViaOf(e) != Near(h) && log.ViaOf(e) != Tail(h)
  }

  function LinkedOrNear(log: Log, h: Event): Event -> bool {
    (e: Event) => log.ViaOf(e) == Linked(h) || log.ViaOf(e) == Near(h)
  }

  function FollowUp(log: Log, h: Event): Event -> bool {
    (e: Event) => log.ViaOf(e) == Linked(h) || log.ViaOf(e) == Near(h) || log.ViaOf(e) == Tail(h)
  }

  lemma {:induction false} RemoveOne(s: seq<Event>, h: Event)
    requires DistinctKeys(s, IdOf) && h in s
    ensures multiset(Filter(s, Not(h))) + multiset{h} == multiset(s)
  {
    var n := |s| - 1;
    assert s == s[..n] + [s[n]];
    if s[n] == h {
      forall x | x in s[..n] ensures Not(h)(x) {
      }
      FilterAll(s[..n], Not(h));
    } else {
      RemoveOne(s[..n], h);
    }
  }

  lemma BaseStepsAreCore(log: Log, s: Shell)
    requires log.Valid() && BaseRule(log, s) && Truthy(s.head.related)
    ensures multiset([s.head] + log.Steps(s)) == multiset(Filter(log.events, Core(log, s.head)))
  {
    hide Log.ViaOf, Log.EpisodeHead, Log.CycleHead, Filter, StableSort, Core;
    BaseHeadVia(log, s);
    var test := log.codes.InEpisode(s.head.related.value);
    forall e | e in log.events ensures test(e) == Core(log, s.head)(e) {
      CoreOfEpisode(log, s, e);
    }
    GroupIsCore(log, s.head, test);
  }

  lemma CycleStepsAreCore(log: Log, s: Shell)
    requires log.Valid() && CycleRule(log, s)
    ensures multiset([s.head] + log.Steps(s)) == multiset(Filter(log.events, Core(log, s.head)))
  {
    hide Log.ViaOf, Log.EpisodeHead, Log.CycleHead, Filter, StableSort, Core, Log.Stray;
    CycleHeadVia(log, s);
    CycleHeadFacts(log, s.head.related.value);
    var test := log.StrayIn(s.head.related.value);
    forall e | e in log.events ensures test(e) == Core(log, s.head)(e) {
      CoreOfCycle(log, s, e);
    }
    GroupIsCore(log, s.head, test);
  }

  /** A card's head and own episode are exactly the core events it owns. */
  lemma StepsAreCore(log: Log, s: Shell)
    requires log.Valid() && CardRule(log, s)
    ensures multiset([s.head] + log.Steps(s)) == multiset(Filter(log.events, Core(log, s.head)))
  {
    hide Log.ViaOf, Filter, Core, BaseRule, CycleRule;
    if BaseRule(log, s) && Truthy(s.head.related) {
      BaseStepsAreCore(log, s);
    } else if CycleRule(log, s) {
      CycleStepsAreCore(log, s);
    } else {
      HeadVia(log, s);
      NoSteps(log, s);
      forall e | e in log.events ensures Core(log, s.head)(e) == (e == s.head) {
        CoreOfRow(log, s, e);
      }
      OnlyOne(log.events, Core(log, s.head), s.head);
    }
  }

  lemma NoSteps(log: Log, s: Shell)
    requires s.kind == Row || !Truthy(s.head.related)
    ensures log.Steps(s) == []
  {
  }

  lemma GroupIsCore(log: Log, h: Event, test: Event -> bool)
    requires log.Valid() && h in log.events && test(h)
    requires forall e | e in log.events :: test(e) == Core(log, h)(e)
    ensures multiset([h] + Filter(StableSort(Filter(log.events, test), TsKey), Not(h)))
         == multiset(Filter(log.events, Core(log, h)))
  {
    hide Filter, StableSort, Log.ViaOf;
    var group := Filter(log.events, test);
    FilterDistinct(log.events, test, IdOf);
    SortDistinct(group, TsKey, IdOf);
    StableSortSpec(group, TsKey);
    FilterMember(log.events, test);
    SortMember(group, TsKey);
    RemoveOne(StableSort(group, TsKey), h);
    FilterAgree(log.events, test, Core(log, h));
  }

  lemma {:induction false} OnlyOne(s: seq<Event>, test: Event -> bool, h: Event)
    requires DistinctKeys(s, IdOf) && h in s && forall e | e in s :: test(e) == (e == h)
    ensures Filter(s, test) == [h]
  {
    var n := |s| - 1;
    if s[n] == h {
      FilterNone(s[..n], test);
    } else {
      OnlyOne(s[..n], test, h);
    }
  }

  /** A member of an episode card carries the episode of the head … */
  lemma MemberVia(log: Log, s: Shell, e: Event)
    requires CardRule(log, s) && e in log.events && log.ViaOf(e) == Member(s.head)
    ensures BaseRule(log, s) && Truthy(e.related) && e.related == s.head.related && log.codes.Anchor(e)
  {
    hide Log.LinkTarget, Log.NearTarget, Log.TailTarget, Log.CycleHead;
    HeadVia(log, s);
    EpisodeHeadFacts(log, e.related.value);
  }

  /** … and so does a step of a cleaning cycle. */
  lemma StrandedVia(log: Log, s: Shell, e: Event)
    requires CardRule(log, s) && e in log.events && log.ViaOf(e) == Stranded(s.head)
    ensures CycleRule(log, s) && e.related == s.head.related && log.Stray(e)
  {
    hide Log.LinkTarget, Log.NearTarget, Log.TailTarget, Log.EpisodeHead;
    CycleHeadFacts(log, e.related.value);
    var t := log.CycleShell(e.related.value)[0];
    assert CycleRule(log, t);
    CardOfHead(log, s, t);
  }

  lemma LinkedVia(log: Log, s: Shell, e: Event)
    requires CardRule(log, s) && e in log.events && log.ViaOf(e) in {Linked(s.head), Near(s.head)}
    ensures BaseRule(log, s)
  {
    OwnerHeads(log, e);
    var t :| BaseRule(log, t) && t.head == log.Owner(e);
    CardOfHead(log, s, t);
  }

  lemma TailVia(log: Log, s: Shell, e: Event)
    requires CardRule(log, s) && e in log.events && log.ViaOf(e) == Tail(s.head)
    ensures CycleRule(log, s)
  {
    OwnerHeads(log, e);
    var t :| CycleRule(log, t) && t.head == log.Owner(e);
    CardOfHead(log, s, t);
  }

  /** Which rules place a core event. */
  lemma CoreCases(log: Log, h: Event, e: Event)
    ensures Core(log, h)(e) <==>
      || log.ViaOf(e) == Member(h) || log.ViaOf(e) == Stranded(h)
      || (e == h && (log.ViaOf(e) == Loose || log.ViaOf(e) == Alone))
  {
    hide Log.ViaOf;
  }

  lemma InEpisodeVia(log: Log, s: Shell, e: Event)
    requires BaseRule(log, s) && Truthy(s.head.related) && log.codes.InEpisode(s.head.related.value)(e)
    ensures log.ViaOf(e) == Member(s.head)
  {
    hide Log.LinkTarget, Log.NearTarget, Log.TailTarget, Log.CycleHead, Log.Members;
  }

  lemma CoreOfEpisode(log: Log, s: Shell, e: Event)
    requires BaseRule(log, s) && Truthy(s.head.related) && e in log.events
    ensures Core(log, s.head)(e) == log.codes.InEpisode(s.head.related.value)(e)
  {
    BaseHeadVia(log, s);
    CoreCases(log, s.head, e);
    hide Core, Log.ViaOf, BaseRule, CycleRule;
    if log.ViaOf(e) == Member(s.head) {
      MemberVia(log, s, e);
    } else if log.ViaOf(e) == Stranded(s.head) {
      StrandedVia(log, s, e);
      CycleHeadVia(log, s);
    } else if log.codes.InEpisode(s.head.related.value)(e) {
      InEpisodeVia(log, s, e);
    }
  }

  lemma StrayVia(log: Log, e: Event)
    requires log.Stray(e) && Truthy(e.related) && log.CycleHead(e.related.value).Some?
    ensures log.ViaOf(e) == Stranded(log.CycleHead(e.related.value).value)
  {
  }

  lemma CoreOfCycle(log: Log, s: Shell, e: Event)
    requires CycleRule(log, s) && e in log.events
    ensures Core(log, s.head)(e) == log.StrayIn(s.head.related.value)(e)
  {
    hide Log.LinkTarget, Log.NearTarget, Log.TailTarget, Log.EpisodeHead, Log.CycleHead, Log.CleaningShells;
    if log.Owner(e) == s.head && log.ViaOf(e) == Member(s.head) {
      MemberVia(log, s, e);
      HeadVia(log, s);
    } else if log.Owner(e) == s.head && log.ViaOf(e) == Stranded(s.head) {
      StrandedVia(log, s, e);
    } else if log.StrayIn(s.head.related.value)(e) {
      StrayVia(log, e);
    } else if log.Owner(e) == s.head {
      HeadVia(log, s);
    }
  }

  lemma CoreOfRow(log: Log, s: Shell, e: Event)
    requires CardRule(log, s) && e in log.events && log.ViaOf(s.head) in {Loose, Alone}
    ensures Core(log, s.head)(e) == (e == s.head)
  {
    CoreCases(log, s.head, e);
    hide Core, Log.ViaOf, BaseRule, CycleRule;
    HeadVia(log, s);
    if log.ViaOf(e) == Member(s.head) {
      MemberVia(log, s, e);
    } else if log.ViaOf(e) == Stranded(s.head) {
      StrandedVia(log, s, e);
    }
  }

  /** A card shows exactly the events it owns. */
  lemma CardContents(log: Log, s: Shell)
    requires log.Valid() && CardRule(log, s)
    ensures multiset([s.head] + log.RawLines(s)) == multiset(Filter(log.events, log.OwnedBy(s.head)))
  {
    hide Filter, Log.Steps, Log.ViaOf, CardRule;
    var h := s.head;
    StepsAreCore(log, s);
    SplitOwned(log, h);
    ContentsAdd([h], log.Steps(s),
      Filter(log.events, log.Is(Linked(h))), Filter(log.events, log.Is(Near(h))), Filter(log.events, log.Is(Tail(h))));
  }

  lemma SplitFollowUps(log: Log, h: Event)
    ensures multiset(Filter(log.events, FollowUp(log, h)))
         == multiset(Filter(log.events, log.Is(Linked(h)))) + multiset(Filter(log.events, log.Is(Near(h))))
          + multiset(Filter(log.events, log.Is(Tail(h))))
  {
    hide Filter, Log.ViaOf;
    FilterSplit(log.events, LinkedOrNear(log, h), log.Is(Linked(h)), log.Is(Near(h)));
    FilterSplit(log.events, FollowUp(log, h), LinkedOrNear(log, h), log.Is(Tail(h)));
  }

  lemma OwnedSplits(log: Log, h: Event, e: Event)
    ensures log.OwnedBy(h)(e) == (Core(log, h)(e) || FollowUp(log, h)(e))
    ensures !(Core(log, h)(e) && FollowUp(log, h)(e))
  {
    hide Log.ViaOf;
  }

  lemma SplitOwned(log: Log, h: Event)
    ensures multiset(Filter(log.events, log.OwnedBy(h)))
         == multiset(Filter(log.events, Core(log, h))) + multiset(Filter(log.events, log.Is(Linked(h))))
          + multiset(Filter(log.events, log.Is(Near(h)))) + multiset(Filter(log.events, log.Is(Tail(h))))
  {
    hide Filter, Log.OwnedBy, Core, FollowUp, Log.Is;
    SplitFollowUps(log, h);
    forall e {
      OwnedSplits(log, h, e);
    }
    FilterSplit(log.events, log.OwnedBy(h), Core(log, h), FollowUp(log, h));
  }

  lemma ContentsAdd(head: seq<Event>, steps: seq<Event>, a: seq<Event>, b: seq<Event>, c: seq<Event>)
    ensures multiset(head + (steps + a + b + c)) == multiset(head + steps) + multiset(a) + multiset(b) + multiset(c)
  {
    assert head + (steps + a + b + c) == head + steps + a + b + c;
  }

  lemma FinishedLines(log: Log, s: Shell)
    ensures EventsOf(log.Finish()(s).lines) == StableSort(log.RawLines(s), TsKey)
  {
  }

  lemma ShownStep(cards: seq<View>, v: View)
    ensures multiset(Shown(cards + [v])) == multiset(Shown(cards)) + multiset([v.head]) + multiset(EventsOf(v.lines))
  {
    assert (cards + [v])[..|cards|] == cards;
  }

  lemma CardShown(log: Log, s: Shell)
    requires log.Valid() && CardRule(log, s)
    ensures multiset([s.head]) + multiset(EventsOf(log.Finish()(s).lines))
      == multiset(Filter(log.events, log.OwnedBy(s.head)))
  {
    hide Filter, StableSort, Log.RawLines, Log.ViaOf;
    CardContents(log, s);
    FinishedLines(log, s);
    StableSortSpec(log.RawLines(s), TsKey);
  }

  function HeadSet(cards: seq<View>): set<Event> {
    set v | v in cards :: v.head
  }

  function HeadOfView(v: View): Event {
    v.head
  }

  lemma HeadSetStep(before: seq<View>, v: View)
    requires DistinctKeys(before + [v], HeadOfView)
    ensures HeadSet(before + [v]) == HeadSet(before) + {v.head} && v.head !in HeadSet(before)
    ensures DistinctKeys(before, HeadOfView)
  {
    var all := before + [v];
    forall i | 0 <= i < |before| ensures before[i].head != v.head {
      assert all[i] == before[i] && all[|before|] == v;
      assert HeadOfView(all[i]) != HeadOfView(all[|before|]);
    }
    forall i, j | 0 <= i < j < |before| ensures HeadOfView(before[i]) != HeadOfView(before[j]) {
      assert all[i] == before[i] && all[j] == before[j];
    }
  }

  ghost predicate ShowsOwned(log: Log, v: View) {
    multiset([v.head]) + multiset(EventsOf(v.lines)) == multiset(Filter(log.events, log.OwnedBy(v.head)))
  }

  /** Cards that each show what they own together show what they own together. */
  lemma {:induction false} ShownByHeads(log: Log, cards: seq<View>)
    requires DistinctKeys(cards, HeadOfView) && forall v | v in cards :: ShowsOwned(log, v)
    ensures multiset(Shown(cards)) == multiset(Filter(log.events, OwnedIn(log, HeadSet(cards))))
  {
    hide Filter, Log.Owner;
    if cards == [] {
      FilterNone(log.events, OwnedIn(log, HeadSet(cards)));
    } else {
      var n := |cards| - 1;
      var before, v := cards[..n], cards[n];
      assert cards == before + [v];
      HeadSetStep(before, v);
      ShownByHeads(log, before);
      FilterSplit(log.events, OwnedIn(log, HeadSet(before) + {v.head}), OwnedIn(log, HeadSet(before)),
        log.OwnedBy(v.head));
      ShownStep(before, v);
      assert ShowsOwned(log, v);
    }
  }

  /** The finished cards, as a list. */
  lemma TimelineCards(log: Log)
    requires log.Valid()
    ensures DistinctKeys(log.Timeline(), HeadOfView)
    ensures forall v | v in log.Timeline() :: exists s :: CardRule(log, s) && v == log.Finish()(s)
    ensures forall s | CardRule(log, s) :: log.Finish()(s) in log.Timeline()
  {
    hide Filter, StableSort, Log.Shells, CardRule, Log.RawLines, Codes.WithMedia;
    var sorted := StableSort(log.Shells(), NewestFirst);
    ShellsDistinct(log);
    SortDistinct(log.Shells(), NewestFirst, HeadOf);
    SortMember(log.Shells(), NewestFirst);
    MapMember(sorted, log.Finish());
    forall s ensures s in sorted <==> CardRule(log, s) {
      ShellsMember(log, s);
    }
    forall i, j | 0 <= i < j < |sorted| ensures HeadOfView(log.Timeline()[i]) != HeadOfView(log.Timeline()[j]) {
      assert HeadOf(sorted[i]) != HeadOf(sorted[j]);
    }
  }

  /** A row that heads no card is a line of exactly the card it is placed on. */
  lemma LineOnOwner(log: Log, v: View, e: Event)
    requires log.Valid() && v in log.Timeline() && e in log.events && log.Owner(e) != e
    ensures e in EventsOf(v.lines) <==> v.head == log.Owner(e)
  {
    hide Filter, StableSort, Log.Timeline, CardRule, Log.RawLines, Codes.WithMedia, Log.Owner, Log.ViaOf;
    TimelineCards(log);
    var s :| CardRule(log, s) && v == log.Finish()(s);
    HeadVia(log, s);
    CardContents(log, s);
    FinishedLines(log, s);
    SortMember(log.RawLines(s), TsKey);
    FilterMember(log.events, log.OwnedBy(s.head));
    var all := [s.head] + log.RawLines(s);
    assert e in multiset(all) <==> e in multiset(Filter(log.events, log.OwnedBy(s.head)));
    assert e in all <==> e == s.head || e in log.RawLines(s);
  }

  /** Conservation: the finished timeline shows every input event exactly once, as a head
      or as a line, and nothing else. */
  lemma Conservation(log: Log)
    requires log.Valid()
    ensures multiset(Shown(log.Timeline())) == multiset(log.events)
  {
    hide Filter, StableSort, Log.Timeline, CardRule, Log.RawLines, Codes.WithMedia, Log.Owner, Shown;
    TimelineCards(log);
    forall v | v in log.Timeline() ensures ShowsOwned(log, v) {
      var s :| CardRule(log, s) && v == log.Finish()(s);
      CardShown(log, s);
    }
    ShownByHeads(log, log.Timeline());
    var heads := HeadSet(log.Timeline());
    forall e | e in log.events ensures OwnedIn(log, heads)(e) {
      OwnerHeads(log, e);
      var s :| CardRule(log, s) && s.head == log.Owner(e);
      assert log.Finish()(s) in log.Timeline();
    }
    FilterAll(log.events, OwnedIn(log, heads));
  }
}
