/** What a reader of the Timeline can rely on, said of its cards alone: newest first, each card's
    lines oldest first, and what kind of card an event makes. */
module SessionView {
  import opened Common
  import opened Sessions
  import opened SessionCards
  import opened SessionLaws

  // --- order -----------------------------------------------------------------

  /** A row's time; one without counts as the beginning of time. */
  function Time(e: Event): real {
    match e.ts
    case Some(t) => t
    case None => 0.0
  }

  function At(t: real): Event -> bool {
    (e: Event) => Time(e) == t
  }

  function HeadAt(t: real): Shell -> bool {
    (s: Shell) => Time(s.head) == t
  }

  function HeadsOf(cards: seq<View>): seq<Event> {
    Map(cards, HeadOfView)
  }

  /** The cards come newest first. */
  lemma NewestCardFirst(log: Log)
    ensures forall i, j | 0 <= i < j < |log.Timeline()| :: Time(log.Timeline()[i].head) >= Time(log.Timeline()[j].head)
  {
    hide StableSort, Log.Shells;
    StableSortSpec(log.Shells(), NewestFirst);
    var sorted := StableSort(log.Shells(), NewestFirst);
    forall i, j | 0 <= i < j < |sorted| ensures Time(sorted[i].head) >= Time(sorted[j].head) {
      assert NewestFirst(sorted[i]) <= NewestFirst(sorted[j]);
    }
  }

  /** Cards of one time come in the order they were made: episodes, loose visits, cleaning cycles, bare
      rows. */
  lemma SameTimeInOrderMade(log: Log, t: real)
    ensures Filter(HeadsOf(log.Timeline()), At(t)) == Filter(Map(log.Shells(), HeadOf), At(t))
  {
    hide StableSort, Log.Shells, Filter;
    var sorted := StableSort(log.Shells(), NewestFirst);
    StableSortStable(log.Shells(), NewestFirst, -t, HeadAt(t));
    FilterMap(sorted, HeadOf, HeadAt(t), At(t));
    FilterMap(log.Shells(), HeadOf, HeadAt(t), At(t));
    assert HeadsOf(log.Timeline()) == Map(sorted, HeadOf);
  }

  /** A card's lines come oldest first; of one time, its own episode's before those linked to it, near
      it or at its cycle's tail. */
  lemma OldestLineFirst(log: Log, v: View)
    requires log.Valid() && v in log.Timeline()
    ensures forall i, j | 0 <= i < j < |v.lines| :: Time(v.lines[i].event) <= Time(v.lines[j].event)
    ensures exists s | CardRule(log, s) && s.head == v.head && s.kind == v.kind ::
      forall t: real :: Filter(EventsOf(v.lines), At(t)) == Filter(log.RawLines(s), At(t))
  {
    hide StableSort, Log.RawLines, Log.Timeline, CardRule, Filter, Codes.WithMedia;
    TimelineCards(log);
    var s :| CardRule(log, s) && v == log.Finish()(s);
    FinishedLines(log, s);
    var lines := EventsOf(v.lines);
    StableSortSpec(log.RawLines(s), TsKey);
    forall i, j | 0 <= i < j < |v.lines| ensures Time(v.lines[i].event) <= Time(v.lines[j].event) {
      assert TsKey(lines[i]) <= TsKey(lines[j]);
    }
    forall t: real ensures Filter(lines, At(t)) == Filter(log.RawLines(s), At(t)) {
      StableSortStable(log.RawLines(s), TsKey, t, At(t));
    }
    FinishIs(log, s);
  }

  lemma FinishIs(log: Log, s: Shell)
    ensures log.Finish()(s).head == s.head && log.Finish()(s).kind == s.kind
  {
  }

  // --- kinds of card ---------------------------------------------------------

  /** An event that can head a card: a visit, a meal or a drink, or something detected that is no
      detail of something else. */
  predicate Heading(log: Log, e: Event) {
    || e.kind == Toilet || e.kind == Feeding || e.kind == Drinking
    || ((e.kind == Pet || e.kind == Motion || e.kind == Error) && (e.eventType, e.deviceType) !in log.codes.detail)
  }

  /** A visit of the card's episode, or the card itself is one. */
  ghost predicate HasVisit(log: Log, v: View) {
    exists e | e in log.events ::
      e.kind == Toilet && (e == v.head || (Truthy(v.head.related) && e.related == v.head.related))
  }

  lemma KindOfBase(log: Log, s: Shell, v: View)
    requires BaseRule(log, s) && v.head == s.head && v.kind == s.kind
    ensures Heading(log, v.head) && v.head.kind != Cleaning
    ensures if HasVisit(log, v) then v.kind == Visit else v.kind == Episode(v.head.kind)
  {
    BaseHeadVia(log, s);
    if Truthy(s.head.related) {
      var rel := s.head.related.value;
      EpisodeHeadFacts(log, rel);
      MembersFacts(log, rel);
      hide Log.Members, Log.EpisodeHead, Log.ViaOf;
      assert s == Shell(GroupKind(log.Members(rel), s.head), s.head);
      if exists e | e in log.Members(rel) :: e.kind == Toilet {
        var e :| e in log.Members(rel) && e.kind == Toilet;
        assert e in log.events;
      } else {
        assert s.head in log.Members(rel);
        forall e | e in log.events && e.kind == Toilet ensures e.related != s.head.related {
          assert log.codes.InEpisode(rel)(e) <==> e.related == s.head.related;
        }
      }
    }
  }

  /** What a card is. One headed by a cleaning step is a cleaning cycle; any other that is no bare row
      is a visit if there was one in its episode, and otherwise of its head's kind. Only an event that
      can head a card heads one that is no bare row. */
  lemma KindOfCard(log: Log, v: View)
    requires log.Valid() && v in log.Timeline() && v.kind != Row
    ensures v.head.kind == Cleaning || Heading(log, v.head)
    ensures if v.head.kind == Cleaning then v.kind == Episode(Cleaning)
            else if HasVisit(log, v) then v.kind == Visit else v.kind == Episode(v.head.kind)
  {
    TimelineCards(log);
    hide Log.Timeline, BaseRule, CycleRule, Log.Finish, HasVisit, Heading;
    var s :| CardRule(log, s) && v == log.Finish()(s);
    FinishIs(log, s);
    if BaseRule(log, s) {
      KindOfBase(log, s, v);
    } else {
      HeadVia(log, s);
    }
  }

  /** Every event of an episode that can head a card is on its episode's card; so is every visit of
      no episode on its own. */
  lemma HeadingsAreShown(log: Log, e: Event)
    requires log.Valid() && e in log.events && Heading(log, e) && (Truthy(e.related) || e.kind == Toilet)
    ensures exists v | v in log.Timeline() ::
      && v.kind != Row && v.kind != Episode(Cleaning) && (e == v.head || e in EventsOf(v.lines))
      && if Truthy(e.related) then v.head.related == e.related else v.head == e
  {
    var h := log.Owner(e);
    OwnerOfHeading(log, e);
    var s :| BaseRule(log, s) && s.head == h;
    HeadVia(log, s);
    hide BaseRule, CycleRule, RowRule, Log.Timeline, Log.Finish, Log.Owner, Heading;
    TimelineCards(log);
    FinishIs(log, s);
    if h != e {
      LineOnOwner(log, log.Finish()(s), e);
    }
  }

  lemma OwnerOfHeading(log: Log, e: Event)
    requires e in log.events && Heading(log, e) && (Truthy(e.related) || e.kind == Toilet)
    ensures exists s :: BaseRule(log, s) && s.head == log.Owner(e)
    ensures if Truthy(e.related) then log.Owner(e).related == e.related else log.Owner(e) == e
  {
    hide Log.LinkTarget, Log.NearTarget, Log.TailTarget, Log.EpisodeHead, Log.CycleHead, Log.Members, GroupKind;
    assert log.Based(e);
    if Truthy(e.related) {
      EpisodeHeadFacts(log, e.related.value);
      assert log.codes.InEpisode(e.related.value)(e);
      assert BaseRule(log, log.EpisodeShell(e.related.value)[0]);
    } else {
      assert BaseRule(log, Shell(Visit, e));
    }
  }

  // --- parents ---------------------------------------------------------------

  /** A row of the episode that names another one as its parent. */
  predicate Tells(t: Event, rel: Option<string>) {
    && t.related == rel && t.related.Some? && t.related.value != ""
    && t.parent.Some? && t.parent.value != "" && t.parent != t.related
  }

  lemma {:induction false} FirstAt<T>(s: seq<T>, test: T -> bool) returns (i: nat)
    requires First(s, test).Some?
    ensures i < |s| && First(s, test) == Some(s[i]) && test(s[i]) && forall j | 0 <= j < i :: !test(s[j])
  {
    if test(s[0]) {
      i := 0;
    } else {
      var k := FirstAt(s[1..], test);
      i := k + 1;
      forall j | 0 <= j < i ensures !test(s[j]) {
        if j > 0 {
          assert s[j] == s[1..][j - 1];
        }
      }
    }
  }

  /** The parent a row follows up on: the one the first row of its episode to name one names; its own
      only if none does. */
  lemma ParentIs(log: Log, e: Event)
    ensures if exists t | t in log.events :: Tells(t, e.related) then
              exists i | 0 <= i < |log.events| ::
                && Tells(log.events[i], e.related) && log.ParentLink(e) == log.events[i].parent
                && forall j | 0 <= j < i :: !Tells(log.events[j], e.related)
            else log.ParentLink(e) == e.parent
  {
    var test := log.NamesParentOf(e.related);
    assert forall t: Event :: test(t) <==> Tells(t, e.related);
    if First(log.events, test).Some? {
      var i := FirstAt(log.events, test);
      assert log.events[i] in log.events && Tells(log.events[i], e.related);
    }
  }
}
