/** The last steps of `group_sessions`: the tail pass, sorting, galleries, standalone rows;
    and the whole run, which ends with `Log.Timeline`. */
module SessionFinish {
  import opened Common
  import opened Sessions
  import opened SessionCards
  import opened SessionLaws
  import opened SessionPlacement
  import opened SessionPasses

  // --- the tail pass ---------------------------------------------------------

  lemma {:induction false} CycleIdsFacts(log: Log, rels: seq<string>, e: Event)
    requires log.Valid() && e in log.events
    ensures e.id in CycleIds(log, rels) <==>
      log.Stray(e) && e.related.Some? && e.related.value in rels && log.CycleHead(e.related.value).Some?
  {
    hide Log.Stray, Log.CycleHead;
    if rels != [] {
      var n := |rels| - 1;
      CycleIdsFacts(log, rels[..n], e);
      StraysFacts(log, rels[n]);
      IdsOfGroup(log, log.Strays(rels[n]));
      assert rels == rels[..n] + [rels[n]];
      assert e in log.Strays(rels[n]) <==> log.Stray(e) && e.related == Some(rels[n]);
    }
  }

  lemma UsedAfterCycles(log: Log, used: set<int>)
    requires log.Valid() && UsedUpTo(log, used, 3, 0)
    ensures UsedUpTo(log, used + CycleIds(log, Rels(Filter(log.events, log.IsStray()))), 4, 0)
  {
    hide Log.Stray, Log.CycleHead, Log.ViaOf, CycleIds, Rels, Filter;
    var strays := Filter(log.events, log.IsStray());
    RelsFacts(strays);
    FilterMember(log.events, log.IsStray());
    forall j | 0 <= j < |log.events|
      ensures log.events[j].id in used + CycleIds(log, Rels(strays)) <==> Rank(log.ViaOf(log.events[j])) < 4
    {
      var e := log.events[j];
      CycleIdsFacts(log, Rels(strays), e);
      LeftAfterVisits(log, e);
      if log.Stray(e) {
        assert e in strays;
      }
    }
  }

  predicate CleaningCard(s: Shell) {
    s.kind == Episode(Cleaning) && s.head.ts.Some?
  }

  lemma {:induction false} FilterAppend<T>(a: seq<T>, b: seq<T>, p: T -> bool)
    ensures Filter(a + b, p) == Filter(a, p) + Filter(b, p)
  {
    if b == [] {
      assert a + b == a;
    } else {
      var n := |b| - 1;
      FilterAppend(a, b[..n], p);
      assert a + b == (a + b[..n]) + [b[n]];
      FilterSnoc(a + b[..n], b[n], p);
      assert Filter(b, p) == Filter(b[..n], p) + if p(b[n]) then [b[n]] else [];
    }
  }

  function CleaningNearTest(e: Event): Shell -> bool {
    (s: Shell) => CleaningCard(s) && InTailWindow(s, e)
  }

  /** Of all cards, the tail pass looks at exactly the cleaning cards. */
  lemma TailFilter(log: Log, e: Event)
    ensures Filter(Filter(log.BaseShells() + log.CleaningShells(), CleaningCard), CleaningNear(e))
         == Filter(log.CleaningShells(), CleaningNear(e))
  {
    hide Filter, Log.BaseShells, Log.CleaningShells, BaseRule, CycleRule;
    var base, cycles := log.BaseShells(), log.CleaningShells();
    FilterTwice(base + cycles, CleaningCard, CleaningNear(e), CleaningNearTest(e));
    FilterAppend(base, cycles, CleaningNearTest(e));
    forall s | s in base ensures !CleaningNearTest(e)(s) {
      BaseShellsMember(log, s);
      HeadVia(log, s);
    }
    FilterNone(base, CleaningNearTest(e));
    forall s | s in cycles ensures CleaningNearTest(e)(s) == CleaningNear(e)(s) {
      CleaningShellsMember(log, s);
      HeadVia(log, s);
    }
    FilterAgree(cycles, CleaningNearTest(e), CleaningNear(e));
    assert [] + Filter(cycles, CleaningNear(e)) == Filter(cycles, CleaningNear(e));
  }

  lemma TailCandidates(log: Log, sessions: seq<Card>, e: Event)
    requires Map(sessions, ShellOf) == log.BaseShells() + log.CleaningShells()
    ensures forall c | c in Filter(sessions, OnCard(CleaningCard)) :: c in sessions
    ensures log.TailTarget(e)
         == Closest(Filter(Map(Filter(sessions, OnCard(CleaningCard)), ShellOf), CleaningNear(e)), Distance(e))
  {
    hide Filter, Log.BaseShells, Log.CleaningShells, Log.TailTarget;
    FilterMember(sessions, OnCard(CleaningCard));
    FilterMap(sessions, ShellOf, OnCard(CleaningCard), CleaningCard);
    TailFilter(log, e);
    TailTargetDef(log, e);
  }

  lemma TailDecision(log: Log, used: set<int>, k: nat, target: Option<Card>)
    requires k < |log.events| && UsedUpTo(log, used, 4, k)
    requires var e := log.events[k];
      && (target.Some? <==> e.id !in used && e.kind == Cleaning && e.ts.Some? && log.TailTarget(e).Some?)
      && (target.Some? ==> target.value.head == log.TailTarget(e).value)
    ensures target.Some? ==> log.ViaOf(log.events[k]) == TailTag()(target.value.head)
    ensures target.None? ==> forall h :: log.ViaOf(log.events[k]) != TailTag()(h)
    ensures target.Some? <==> Rank(log.ViaOf(log.events[k])) == 4
  {
    hide Log.ViaOf, Log.TailTarget;
    if Rank(log.ViaOf(log.events[k])) >= 4 {
      LeftAfterCycles(log, log.events[k]);
    }
  }

  /** `_attach_cycle_tails`. */
  method AttachCycleTails(log: Log, sessions: seq<Card>, used: set<int>, ghost base: Shell -> seq<Event>)
    returns (used': set<int>)
    requires log.Valid() && Map(sessions, ShellOf) == log.BaseShells() + log.CleaningShells()
    requires DistinctCards(sessions) && LinesBy(sessions, base) && UsedUpTo(log, used, 4, 0)
    modifies sessions
    ensures LinesBy(sessions, Plus(log, base, TailTag(), |log.events|)) && UsedUpTo(log, used', 5, 0)
  {
    hide *;
    used' := used;
    var cleaningCards := Filter(sessions, OnCard(CleaningCard));
    LinesStart(log, sessions, base, TailTag());
    for k := 0 to |log.events|
      invariant LinesBy(sessions, Plus(log, base, TailTag(), k)) && UsedUpTo(log, used', 4, k)
    {
      var e := log.events[k];
      var target: Option<Card> := None;
      if e.id !in used' && e.kind == Cleaning && e.ts.Some? {
        target := ChooseCard(cleaningCards, CleaningNear(e), Distance(e));
      }
      TailCandidates(log, sessions, e);
      TailDecision(log, used', k, target);
      TagsInjective();
      used' := Turn(log, k, sessions, target, used', base, TailTag(), 4);
    }
    UsedNext(log, used', 4);
  }

  // --- galleries -------------------------------------------------------------

  function LineKey(l: Line): real {
    TsKey(l.event)
  }

  predicate Foreign(l: Line, own: Option<string>) {
    Truthy(l.event.related) && l.event.related != own
  }

  /** The positions of an episode's lines among the first `n`, ascending. */
  ghost predicate Positions(lines: seq<Line>, rel: string, n: nat, subs: seq<nat>)
    requires n <= |lines|
  {
    && (forall i, j | 0 <= i < j < |subs| :: subs[i] < subs[j])
    && forall j :: j in subs <==> 0 <= j < n && lines[j].event.related == Some(rel)
  }

  /** The lines of every foreign episode, by position. */
  ghost predicate ByEpisode(lines: seq<Line>, own: Option<string>, n: nat, byEpisode: map<string, seq<nat>>)
    requires n <= |lines|
  {
    && (forall j | 0 <= j < n && Foreign(lines[j], own) :: lines[j].event.related.value in byEpisode)
    && forall rel | rel in byEpisode ::
         rel != "" && Some(rel) != own && byEpisode[rel] != [] && Positions(lines, rel, n, byEpisode[rel])
  }

  method LinesByEpisode(lines: seq<Line>, own: Option<string>) returns (byEpisode: map<string, seq<nat>>)
    ensures ByEpisode(lines, own, |lines|, byEpisode)
  {
    hide ByEpisode;
    byEpisode := map[];
    NoLinesYet(lines, own);
    for k := 0 to |lines|
      invariant ByEpisode(lines, own, k, byEpisode)
    {
      OneMoreLine(lines, own, k, byEpisode);
      if Foreign(lines[k], own) {
        var rel := lines[k].event.related.value;
        byEpisode := byEpisode[rel := (if rel in byEpisode then byEpisode[rel] else []) + [k]];
      }
    }
  }

  lemma NoLinesYet(lines: seq<Line>, own: Option<string>)
    ensures ByEpisode(lines, own, 0, map[])
  {
  }

  lemma OneMoreLine(lines: seq<Line>, own: Option<string>, k: nat, byEpisode: map<string, seq<nat>>)
    requires k < |lines| && ByEpisode(lines, own, k, byEpisode)
    ensures !Foreign(lines[k], own) ==> ByEpisode(lines, own, k + 1, byEpisode)
    ensures Foreign(lines[k], own) ==>
      var rel := lines[k].event.related.value;
      ByEpisode(lines, own, k + 1, byEpisode[rel := (if rel in byEpisode then byEpisode[rel] else []) + [k]])
  {
    hide Positions;
    forall rel | rel in byEpisode && lines[k].event.related != Some(rel)
      ensures Positions(lines, rel, k + 1, byEpisode[rel])
    {
      NoNewPosition(lines, rel, k, byEpisode[rel]);
    }
    if Foreign(lines[k], own) {
      var rel := lines[k].event.related.value;
      if rel !in byEpisode {
        NoPosition(lines, own, rel, k);
      }
      OneMorePosition(lines, rel, k, if rel in byEpisode then byEpisode[rel] else []);
    }
  }

  lemma NoPosition(lines: seq<Line>, own: Option<string>, rel: string, k: nat)
    requires k <= |lines| && rel != "" && Some(rel) != own
    requires forall j | 0 <= j < k && Foreign(lines[j], own) :: lines[j].event.related.value != rel
    ensures Positions(lines, rel, k, [])
  {
  }

  lemma NoNewPosition(lines: seq<Line>, rel: string, k: nat, subs: seq<nat>)
    requires k < |lines| && lines[k].event.related != Some(rel) && Positions(lines, rel, k, subs)
    ensures Positions(lines, rel, k + 1, subs)
  {
  }

  lemma OneMorePosition(lines: seq<Line>, rel: string, k: nat, before: seq<nat>)
    requires k < |lines| && lines[k].event.related == Some(rel) && Positions(lines, rel, k, before)
    ensures Positions(lines, rel, k + 1, before + [k])
  {
    forall i | 0 <= i < |before| ensures before[i] < k {
      assert before[i] in before;
    }
  }

  /** What each listed episode recorded in the first `n` events. */
  ghost predicate Recordings(events: seq<Event>, byEpisode: map<string, seq<nat>>, media: map<string, seq<Media>>) {
    && (forall rel | rel in media :: rel in byEpisode && media[rel] == EpisodeMedia(events, rel))
    && forall rel | rel in byEpisode && rel !in media :: EpisodeMedia(events, rel) == []
  }

  method MediaByEpisode(events: seq<Event>, byEpisode: map<string, seq<nat>>) returns (media: map<string, seq<Media>>)
    ensures Recordings(events, byEpisode, media)
  {
    media := map[];
    for k := 0 to |events|
      invariant Recordings(events[..k], byEpisode, media)
    {
      var e := events[k];
      assert events[..k + 1][..k] == events[..k];
      if e.related.Some? && e.related.value in byEpisode && e.media != [] {
        var rel := e.related.value;
        var start := if rel in media then media[rel] else [];
        var bucket := start;
        for i := 0 to |e.media|
          invariant bucket == AddNew(start, e.media[..i])
        {
          assert e.media[..i + 1][..i] == e.media[..i];
          if e.media[i] !in bucket {
            bucket := bucket + [e.media[i]];
          }
        }
        assert e.media[..|e.media|] == e.media;
        media := media[rel := bucket];
      }
    }
    assert events[..|events|] == events;
  }

  /** The line that carries an episode's gallery: the first completion line, else the last. */
  method Carrier(codes: Codes, lines: seq<Line>, subs: seq<nat>, ghost events: seq<Event>, ghost own: Option<string>,
    ghost rel: string)
    returns (carrier: nat)
    requires |events| == |lines| && forall i | 0 <= i < |lines| :: lines[i].event == events[i]
    requires subs != [] && rel != "" && Some(rel) != own
    requires Positions(lines, rel, |lines|, subs)
    ensures carrier in subs
    ensures forall j | j in subs :: codes.Carries(events, own, j) <==> j == carrier
  {
    for i := 0 to |subs|
      invariant forall j | 0 <= j < i :: subs[j] < |lines| && !codes.Done(events[subs[j]])
    {
      assert subs[i] in subs;
      if codes.Done(lines[subs[i]].event) {
        carrier := subs[i];
        assert forall j | 0 <= j < carrier && events[j].related == Some(rel) :: j in subs;
        return;
      }
    }
    carrier := subs[|subs| - 1];
    forall j | 0 <= j < |events| && events[j].related == Some(rel) ensures !codes.Done(events[j]) && j <= carrier {
      assert j in subs;
    }
  }

  /** Which lines already show their gallery when the episodes in `left` are still to do. */
  ghost predicate Assigned(codes: Codes, lines: seq<Line>, events: seq<Event>, own: Option<string>, all: seq<Event>,
    left: set<string>)
    requires |lines| == |events|
  {
    forall i | 0 <= i < |lines| ::
      && lines[i].event == events[i]
      && lines[i].media == if codes.Carries(events, own, i) && events[i].related.value !in left
                           then EpisodeMedia(all, events[i].related.value) else []
  }

  /** The gallery of one more episode is in place. */
  lemma AssignOne(codes: Codes, lines: seq<Line>, events: seq<Event>, own: Option<string>, all: seq<Event>,
                  left: set<string>, rel: string, carrier: nat)
    requires |lines| == |events| && Assigned(codes, lines, events, own, all, left) && rel in left
    requires carrier < |lines| && codes.Carries(events, own, carrier) && events[carrier].related == Some(rel)
    requires forall i | 0 <= i < |events| && codes.Carries(events, own, i) && events[i].related == Some(rel) ::
      i == carrier
    ensures Assigned(codes, lines[carrier := Line(lines[carrier].event, EpisodeMedia(all, rel))], events, own, all,
      left - {rel})
    ensures EpisodeMedia(all, rel) == [] ==> Assigned(codes, lines, events, own, all, left - {rel})
  {
    hide EpisodeMedia, Codes.Carries;
    CarriersNameEpisodes(codes, events, own);
  }

  lemma CarriersNameEpisodes(codes: Codes, events: seq<Event>, own: Option<string>)
    ensures forall i | 0 <= i < |events| && codes.Carries(events, own, i) :: events[i].related.Some?
  {
  }

  lemma AllAssigned(codes: Codes, lines: seq<Line>, events: seq<Event>, own: Option<string>, all: seq<Event>)
    requires |lines| == |events| && Assigned(codes, lines, events, own, all, {})
    ensures lines == codes.WithMedia(events, own, all)
  {
    hide EpisodeMedia, Codes.Carries;
  }

  lemma NoneAssigned(codes: Codes, lines: seq<Line>, events: seq<Event>, own: Option<string>, all: seq<Event>,
    byEpisode: map<string, seq<nat>>)
    requires lines == Bare(events) && ByEpisode(lines, own, |lines|, byEpisode)
    ensures Assigned(codes, lines, events, own, all, byEpisode.Keys)
  {
    hide EpisodeMedia;
    forall i | 0 <= i < |lines| && codes.Carries(events, own, i) ensures events[i].related.value in byEpisode {
      assert Foreign(lines[i], own);
    }
  }

  /** `_assign_episode_media`. */
  method AssignEpisodeMedia(codes: Codes, session: Card, all: seq<Event>, ghost events: seq<Event>)
    requires session.lines == Bare(events)
    modifies session
    ensures session.lines == codes.WithMedia(events, session.head.related, all)
  {
    hide EpisodeMedia, Codes.Carries, Codes.WithMedia;
    var own := session.head.related;
    var byEpisode := LinesByEpisode(session.lines, own);
    var media := MediaByEpisode(all, byEpisode);
    NoneAssigned(codes, session.lines, events, own, all, byEpisode);
    var left := byEpisode.Keys;
    while left != {}
      invariant left <= byEpisode.Keys && |session.lines| == |events|
      invariant Assigned(codes, session.lines, events, own, all, left)
      decreases |left|
    {
      var rel :| rel in left;
      var carrier := Carrier(codes, session.lines, byEpisode[rel], events, own, rel);
      AssignOne(codes, session.lines, events, own, all, left, rel, carrier);
      left := left - {rel};
      if rel in media && media[rel] != [] {
        session.lines := session.lines[carrier := Line(session.lines[carrier].event, media[rel])];
      }
    }
    AllAssigned(codes, session.lines, events, own, all);
  }

  // --- the whole run ---------------------------------------------------------

  function StepsOf(log: Log): Shell -> seq<Event> {
    (s: Shell) => log.Steps(s)
  }

  function AfterLinks(log: Log): Shell -> seq<Event> {
    Plus(log, StepsOf(log), LinkTag(), |log.events|)
  }

  function AfterVisits(log: Log): Shell -> seq<Event> {
    Plus(log, AfterLinks(log), NearTag(), |log.events|)
  }

  function AfterTails(log: Log): Shell -> seq<Event> {
    Plus(log, AfterVisits(log), TailTag(), |log.events|)
  }

  lemma AfterTailsIsAll(log: Log, s: Shell)
    ensures AfterTails(log)(s) == log.RawLines(s)
  {
    hide Filter, Log.Steps;
    assert log.events[..|log.events|] == log.events;
  }

  /** No link and no visit puts anything on a cleaning card. */
  lemma CyclesStartBare(log: Log, s: Shell)
    requires CycleRule(log, s)
    ensures AfterVisits(log)(s) == log.Steps(s)
  {
    hide Filter, Log.Steps;
    assert log.events[..|log.events|] == log.events;
    forall e | e in log.events ensures log.ViaOf(e) !in {Linked(s.head), Near(s.head)} {
      if log.ViaOf(e) in {Linked(s.head), Near(s.head)} {
        LinkedVia(log, s, e);
        HeadVia(log, s);
      }
    }
    FilterNone(log.events, log.Is(Linked(s.head)));
    FilterNone(log.events, log.Is(Near(s.head)));
  }

  lemma AnchorsInRels(log: Log, e: Event)
    requires e in log.events && log.codes.Anchor(e)
    ensures Truthy(e.related) <==> e.related.Some? && e.related.value in Rels(log.Anchors())
  {
    RelsFacts(log.Anchors());
    FilterMember(log.events, log.codes.IsAnchor());
  }

  lemma RankOfBased(log: Log, e: Event)
    requires e in log.events
    ensures Rank(log.ViaOf(e)) < 1 <==> log.codes.Anchor(e) && (Truthy(e.related) || e.kind == Toilet)
  {
    hide Log.LinkTarget, Log.NearTarget, Log.TailTarget, Log.CycleHead;
    if log.Based(e) && Truthy(e.related) {
      EpisodeHeadFacts(log, e.related.value);
    }
  }

  lemma UsedAfterBase(log: Log, used: set<int>, loose: seq<Event>)
    requires log.Valid() && loose == Filter(log.events, log.codes.IsLoose())
    requires used == MemberIds(log, Rels(log.Anchors())) + Ids(loose)
    ensures UsedUpTo(log, used, 1, 0)
  {
    hide Log.ViaOf, MemberIds, Rels, Filter;
    FilterMember(log.events, log.codes.IsLoose());
    IdsOfGroup(log, loose);
    forall j | 0 <= j < |log.events| ensures log.events[j].id in used <==> Rank(log.ViaOf(log.events[j])) < 1 {
      MemberIdsFacts(log, Rels(log.Anchors()), log.events[j]);
      if log.codes.Anchor(log.events[j]) {
        AnchorsInRels(log, log.events[j]);
      }
      RankOfBased(log, log.events[j]);
    }
  }

  lemma IndexIsComplete(log: Log, sessions: seq<Card>, more: seq<Card>, byEpisode: map<string, Card>)
    requires Indexed(log, sessions, byEpisode, Rels(log.Anchors()))
    ensures IndexComplete(log, sessions + more, byEpisode)
  {
    hide Log.EpisodeHead;
    RelsFacts(log.Anchors());
    FilterMember(log.events, log.codes.IsAnchor());
    forall rel | rel != "" && rel !in byEpisode ensures log.EpisodeHead(rel).None? {
      EpisodeHeadFacts(log, rel);
    }
  }

  lemma LooseSteps(log: Log, e: Event)
    requires !Truthy(e.related)
    ensures log.Steps(Shell(Visit, e)) == []
  {
  }

  lemma LooseCards(log: Log, loose: seq<Event>, cards: seq<Card>)
    requires loose == Filter(log.events, log.codes.IsLoose()) && |cards| == |loose|
    requires forall i | 0 <= i < |loose| :: ShellOf(cards[i]) == Shell(Visit, loose[i])
    ensures Map(cards, ShellOf) == Map(loose, log.VisitShell())
    ensures forall c | c in cards :: log.Steps(ShellOf(c)) == []
  {
    FilterMember(log.events, log.codes.IsLoose());
    forall c | c in cards ensures log.Steps(ShellOf(c)) == [] {
      var i :| 0 <= i < |cards| && cards[i] == c;
      assert loose[i] in loose;
      LooseSteps(log, loose[i]);
    }
  }

  lemma BaseShellsJoin(log: Log, episodes: seq<Card>, loose: seq<Card>)
    requires log.Valid() && Map(episodes, ShellOf) == log.EpisodeShells(Rels(log.Anchors()))
    requires Map(loose, ShellOf) == Map(Filter(log.events, log.codes.IsLoose()), log.VisitShell())
    ensures Map(episodes + loose, ShellOf) == log.BaseShells() && DistinctCards(episodes + loose)
  {
    hide Rels, Filter, Log.EpisodeShells;
    MapAppend(episodes, loose, ShellOf);
    BaseShellsDistinct(log);
    CardsDistinct(log, episodes + loose);
  }

  /** The first three lines of `group_sessions`: the cards that need no follow-up rule. */
  method BaseCards(log: Log) returns (sessions: seq<Card>, byEpisode: map<string, Card>, used: set<int>)
    requires log.Valid()
    ensures fresh(sessions) && Map(sessions, ShellOf) == log.BaseShells() && DistinctCards(sessions)
    ensures LinesBy(sessions, StepsOf(log)) && UsedUpTo(log, used, 1, 0) && IndexComplete(log, sessions, byEpisode)
    ensures forall c | c in sessions :: c.media == c.head.media
  {
    hide Log.Steps, UsedUpTo, IndexComplete, Log.EpisodeShells, Log.BaseShells, Indexed, MemberIds, Rels, Filter,
      Grouped, DistinctCards;
    var anchors := Filter(log.events, log.codes.IsAnchor());
    FilterMember(log.events, log.codes.IsAnchor());
    var rels, byRelated, loose := EpisodesOf(log.codes, anchors);
    GroupsHaveMembers(log, rels, byRelated);
    sessions, byEpisode, used := CardsFromEpisodes(log, rels, byRelated);
    var looseCards;
    looseCards, used := CardsFromLooseVisits(loose, used);
    FilterTwice(log.events, log.codes.IsAnchor(), log.codes.IsLoose(), log.codes.IsLoose());
    LooseCards(log, loose, looseCards);
    IndexIsComplete(log, sessions, looseCards, byEpisode);
    UsedAfterBase(log, used, loose);
    BaseShellsJoin(log, sessions, looseCards);
    sessions := sessions + looseCards;
  }

  lemma JoinCycles(log: Log, base: seq<Card>, cycles: seq<Card>)
    requires log.Valid() && Map(base, ShellOf) == log.BaseShells() && Map(cycles, ShellOf) == log.CleaningShells()
    ensures Map(base + cycles, ShellOf) == log.BaseShells() + log.CleaningShells() && DistinctCards(base + cycles)
    ensures forall c | c in cycles :: AfterVisits(log)(ShellOf(c)) == log.Steps(ShellOf(c))
  {
    hide Log.BaseShells, Log.CleaningShells, AfterVisits, Log.Steps;
    MapAppend(base, cycles, ShellOf);
    CardShellsDistinct(log);
    CardsDistinct(log, base + cycles);
    forall c | c in cycles ensures AfterVisits(log)(ShellOf(c)) == log.Steps(ShellOf(c)) {
      var i :| 0 <= i < |cycles| && cycles[i] == c;
      assert Map(cycles, ShellOf)[i] == ShellOf(c);
      CleaningShellsMember(log, ShellOf(c));
      CyclesStartBare(log, ShellOf(c));
    }
  }

  /** The follow-up passes of `group_sessions`. */
  method FollowUps(log: Log, base: seq<Card>, byEpisode: map<string, Card>, used: set<int>)
    returns (sessions: seq<Card>, used': set<int>)
    requires log.Valid() && Map(base, ShellOf) == log.BaseShells() && DistinctCards(base)
    requires LinesBy(base, StepsOf(log)) && UsedUpTo(log, used, 1, 0) && IndexComplete(log, base, byEpisode)
    requires forall c | c in base :: c.media == c.head.media
    modifies base
    ensures forall c | c in sessions :: c in base || fresh(c)
    ensures Map(sessions, ShellOf) == log.BaseShells() + log.CleaningShells() && DistinctCards(sessions)
    ensures LinesBy(sessions, AfterTails(log)) && UsedUpTo(log, used', 5, 0)
    ensures forall c | c in sessions :: c.media == c.head.media
  {
    hide Log.BaseShells, Log.CleaningShells, UsedUpTo, IndexComplete, DistinctCards, Log.Steps, Plus, Rels, CycleIds,
      Log.CycleShells, ParentsOf;
    var parents := EpisodeParents(log);
    used' := AttachLinkedFollowups(log, parents, byEpisode, base, used, StepsOf(log));
    used' := AttachNearbyCleanings(log, base, used', AfterLinks(log));
    var rels, groups := StrandedEpisodes(log, used');
    GroupsHaveStrays(log, rels, groups);
    UsedAfterCycles(log, used');
    var cycles;
    cycles, used' := CardsFromOrphanCleanings(log, rels, groups, used');
    CleaningShellsDef(log);
    JoinCycles(log, base, cycles);
    sessions := base + cycles;
    used' := AttachCycleTails(log, sessions, used', AfterVisits(log));
  }

  lemma CleaningShellsDef(log: Log)
    ensures log.CleaningShells() == log.CycleShells(Rels(Filter(log.events, log.IsStray())))
  {
  }

  /** A finished card. */
  ghost predicate Shows(log: Log, c: Card)
    reads c
  {
    View(c.kind, c.head, c.lines, c.media) == log.Finish()(ShellOf(c))
  }

  /** Sort a card's lines and hand out its galleries. */
  method FinishCard(log: Log, c: Card)
    requires c.lines == Bare(AfterTails(log)(ShellOf(c))) && c.media == c.head.media
    modifies c
    ensures Shows(log, c)
  {
    hide AfterTails, Log.RawLines, StableSort;
    ghost var raw := log.RawLines(ShellOf(c));
    AfterTailsIsAll(log, ShellOf(c));
    SortMap(raw, BareLine, TsKey, LineKey);
    c.lines := StableSort(c.lines, LineKey);
    AssignEpisodeMedia(log.codes, c, log.events, StableSort(raw, TsKey));
  }

  /** `_standalone_rows`. */
  method StandaloneRows(log: Log, used: set<int>) returns (rows: seq<Card>)
    requires UsedUpTo(log, used, 5, 0)
    ensures fresh(rows) && Map(rows, ShellOf) == Map(Filter(log.events, log.Is(Alone)), log.RowShell())
    ensures forall c | c in rows :: c.lines == [] && c.media == c.head.media
    ensures forall i, j | 0 <= i < j < |rows| :: rows[i] != rows[j]
  {
    hide Log.ViaOf, Filter;
    rows := [];
    assert log.events[..0] == [] && Filter([], log.Is(Alone)) == [] by {
      FilterNone([], log.Is(Alone));
    }
    for k := 0 to |log.events|
      invariant fresh(rows) && Map(rows, ShellOf) == Map(Filter(log.events[..k], log.Is(Alone)), log.RowShell())
      invariant forall c | c in rows :: c.lines == [] && c.media == c.head.media
      invariant forall i, j | 0 <= i < j < |rows| :: rows[i] != rows[j]
    {
      FilterStep(log.events, k, log.Is(Alone));
      assert Rank(log.ViaOf(log.events[k])) == 5 <==> log.ViaOf(log.events[k]) == Alone;
      if log.events[k].id !in used {
        var row := new Card(Row, log.events[k]);
        rows := rows + [row];
      }
    }
    assert log.events[..|log.events|] == log.events;
  }

  lemma RowShows(log: Log, s: Shell)
    requires RowRule(log, s)
    ensures View(s.kind, s.head, [], s.head.media) == log.Finish()(s)
  {
    RowHasNoLines(log, s);
  }

  lemma RowsShow(log: Log, rows: seq<Card>)
    requires Map(rows, ShellOf) == Map(Filter(log.events, log.Is(Alone)), log.RowShell())
    requires forall c | c in rows :: c.lines == [] && c.media == c.head.media
    ensures forall c | c in rows :: Shows(log, c)
  {
    hide Log.ViaOf, Log.Finish;
    FilterMember(log.events, log.Is(Alone));
    var alone := Filter(log.events, log.Is(Alone));
    forall c | c in rows ensures Shows(log, c) {
      var i :| 0 <= i < |rows| && rows[i] == c;
      assert ShellOf(c) == Map(rows, ShellOf)[i] == log.RowShell()(alone[i]);
      assert alone[i] in alone;
      RowShows(log, ShellOf(c));
    }
  }

  function Views(sessions: seq<Card>): seq<View>
    reads sessions
  {
    seq(|sessions|, i requires 0 <= i < |sessions| reads sessions =>
      View(sessions[i].kind, sessions[i].head, sessions[i].lines, sessions[i].media))
  }

  /** `sessions.sort(key=…, reverse=True)` puts the finished cards in timeline order. */
  method SortCards(log: Log, sessions: seq<Card>) returns (sorted: seq<Card>)
    requires Map(sessions, ShellOf) == log.Shells() && forall c | c in sessions :: Shows(log, c)
    ensures forall c | c in sorted :: c in sessions
    ensures Views(sorted) == log.Timeline()
  {
    hide Log.Shells, Log.Finish, StableSort;
    SortMap(sessions, ShellOf, KeyOnCard(NewestFirst), NewestFirst);
    SortMember(sessions, KeyOnCard(NewestFirst));
    sorted := StableSort(sessions, KeyOnCard(NewestFirst));
    forall i | 0 <= i < |sorted| ensures Views(sorted)[i] == log.Finish()(ShellOf(sorted[i])) {
      assert sorted[i] in sorted;
      assert Shows(log, sorted[i]);
    }
  }

  method FinishCards(log: Log, sessions: seq<Card>)
    requires LinesBy(sessions, AfterTails(log)) && DistinctCards(sessions)
    requires forall c | c in sessions :: c.media == c.head.media
    modifies sessions
    ensures forall c | c in sessions :: Shows(log, c)
  {
    hide AfterTails, Shows;
    for k := 0 to |sessions|
      invariant forall j | 0 <= j < k :: Shows(log, sessions[j])
      invariant forall j | k <= j < |sessions| :: sessions[j].lines == Bare(AfterTails(log)(ShellOf(sessions[j])))
    {
      FinishCard(log, sessions[k]);
    }
  }

  /** The cards that are not bare rows, finished. */
  method EpisodeAndCleaningCards(log: Log) returns (sessions: seq<Card>, used: set<int>)
    requires log.Valid()
    ensures fresh(sessions) && UsedUpTo(log, used, 5, 0)
    ensures Map(sessions, ShellOf) == log.BaseShells() + log.CleaningShells()
    ensures forall c | c in sessions :: Shows(log, c)
  {
    hide *;
    var byEpisode;
    sessions, byEpisode, used := BaseCards(log);
    sessions, used := FollowUps(log, sessions, byEpisode, used);
    forall i | 0 <= i < |sessions| ensures fresh(sessions[i]) {
      assert sessions[i] in sessions;
    }
    FinishCards(log, sessions);
  }

  /** `group_sessions`: the passes over the rows end with the timeline the rules describe. */
  method GroupSessions(log: Log) returns (sessions: seq<Card>)
    requires log.Valid()
    ensures fresh(sessions) && Views(sessions) == log.Timeline()
  {
    hide *;
    var cards, used := EpisodeAndCleaningCards(log);
    var rows := StandaloneRows(log, used);
    RowsShow(log, rows);
    JoinRows(log, cards, rows);
    sessions := SortCards(log, cards + rows);
    forall i | 0 <= i < |sessions| ensures fresh(sessions[i]) {
      assert sessions[i] in sessions;
    }
  }

  lemma JoinRows(log: Log, cards: seq<Card>, rows: seq<Card>)
    requires Map(cards, ShellOf) == log.BaseShells() + log.CleaningShells()
    requires Map(rows, ShellOf) == Map(Filter(log.events, log.Is(Alone)), log.RowShell())
    ensures Map(cards + rows, ShellOf) == log.Shells()
  {
    hide Log.BaseShells, Log.CleaningShells, Filter, Map;
    MapAppend(cards, rows, ShellOf);
  }
}
