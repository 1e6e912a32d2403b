/** Placement of follow-ups and of media on the finished timeline, stated over the cards
    a reader sees. */
module SessionPlacement {
  import opened Common
  import opened Sessions
  import opened SessionCards
  import opened SessionLaws

  /** `v` is the episode card the device's own link names for `e`, on the same device. */
  ghost predicate LinkCard(log: Log, v: View, e: Event) {
    && (e.kind == Cleaning || e.kind == Pet || e.kind == Motion || e.kind == Error) && Truthy(log.ParentLink(e))
    && v.kind != Row && v.kind != Episode(Cleaning)
    && v.head.related == log.ParentLink(e) && v.head.device == e.device
  }

  ghost predicate VisitCard(v: View, e: Event) {
    v.kind == Visit && v.head.device == e.device && v.head.ts.Some? && e.ts.Some?
    && v.head.ts.value <= e.ts.value <= v.head.ts.value + 600.0
  }

  ghost predicate TailCard(v: View, e: Event) {
    v.kind == Episode(Cleaning) && v.head.device == e.device && v.head.related != e.related
    && v.head.ts.Some? && e.ts.Some? && v.head.ts.value - 120.0 <= e.ts.value <= v.head.ts.value + 120.0
  }

  /** Of the visits in reach the last one. */
  ghost predicate NearestVisit(cards: seq<View>, v: View, e: Event) {
    VisitCard(v, e) && forall w | w in cards && VisitCard(w, e) :: w.head.ts.value <= v.head.ts.value
  }

  function Apart(a: real, b: real): real {
    if a < b then b - a else a - b
  }

  ghost predicate NearestCycle(cards: seq<View>, v: View, e: Event) {
    TailCard(v, e)
    && forall w | w in cards && TailCard(w, e) ::
         Apart(e.ts.value, v.head.ts.value) <= Apart(e.ts.value, w.head.ts.value)
  }

  lemma LineVia(log: Log, s: Shell, e: Event)
    requires CardRule(log, s) && e in log.RawLines(s)
    ensures e in log.events
    ensures e.related == s.head.related || log.ViaOf(e) in {Linked(s.head), Near(s.head), Tail(s.head)}
  {
    var h := s.head;
    FilterMember(log.events, log.Is(Linked(h)));
    FilterMember(log.events, log.Is(Near(h)));
    FilterMember(log.events, log.Is(Tail(h)));
    if e in log.Steps(s) {
      StepFacts(log, s, e);
    }
  }

  lemma StepFacts(log: Log, s: Shell, e: Event)
    requires CardRule(log, s) && e in log.Steps(s)
    ensures e in log.events && e.related == s.head.related
  {
    var rel := s.head.related.value;
    if s.kind == Episode(Cleaning) {
      StraysFacts(log, rel);
      FilterMember(log.Strays(rel), Not(s.head));
    } else {
      MembersFacts(log, rel);
      FilterMember(log.Members(rel), Not(s.head));
    }
  }

  /** The cards of the timeline by kind. */
  lemma CardKinds(log: Log, v: View)
    requires log.Valid() && v in log.Timeline()
    ensures exists s :: CardRule(log, s) && v == log.Finish()(s)
    ensures v.kind == Visit ==> BaseRule(log, Shell(v.kind, v.head))
    ensures v.kind == Episode(Cleaning) ==> CycleRule(log, Shell(v.kind, v.head))
    ensures v.kind == Row ==> RowRule(log, Shell(v.kind, v.head))
    ensures v.kind != Row && v.kind != Episode(Cleaning) ==> BaseRule(log, Shell(v.kind, v.head))
  {
    TimelineCards(log);
    var s :| CardRule(log, s) && v == log.Finish()(s);
    HeadVia(log, s);
    assert s == Shell(v.kind, v.head);
  }

  lemma WindowIs(v: View, e: Event)
    ensures VisitCard(v, e) <==> v.kind == Visit && InWindow(Shell(v.kind, v.head), e)
    ensures TailCard(v, e) <==> v.kind == Episode(Cleaning) && InTailWindow(Shell(v.kind, v.head), e)
  {
  }

  lemma NoLinkCard(log: Log, e: Event)
    requires log.Valid() && log.LinkTarget(e).None?
    ensures forall v | v in log.Timeline() :: !LinkCard(log, v, e)
  {
    hide Log.Timeline, Log.EpisodeHead, CycleRule, RowRule, Log.Finish, Log.ParentLink;
    forall v | v in log.Timeline() ensures !LinkCard(log, v, e) {
      CardKinds(log, v);
    }
  }

  lemma NoVisitCard(log: Log, e: Event)
    requires log.Valid() && log.NearTarget(e).None?
    ensures forall v | v in log.Timeline() :: !VisitCard(v, e)
  {
    hide *;
    NearTargetFacts(log, e);
    forall v | v in log.Timeline() ensures !VisitCard(v, e) {
      CardKinds(log, v);
      WindowIs(v, e);
    }
  }

  lemma NoTailCard(log: Log, e: Event)
    requires log.Valid() && log.TailTarget(e).None?
    ensures forall v | v in log.Timeline() :: !TailCard(v, e)
  {
    hide *;
    TailTargetFacts(log, e);
    forall v | v in log.Timeline() ensures !TailCard(v, e) {
      CardKinds(log, v);
      WindowIs(v, e);
    }
  }

  lemma LinkedIsLinkCard(log: Log, s: Shell, e: Event)
    requires CardRule(log, s) && log.ViaOf(e) == Linked(s.head)
    ensures LinkCard(log, log.Finish()(s), e)
  {
    LinkTargetFacts(log, e);
    var t :| BaseRule(log, t) && t.head == s.head && t.head.related == log.ParentLink(e) && t.head.device == e.device;
    CardOfHead(log, s, t);
    HeadVia(log, s);
  }

  lemma ViaNear(log: Log, s: Shell, e: Event)
    requires log.ViaOf(e) == Near(s.head)
    ensures log.NearTarget(e) == Some(s.head)
  {
    hide Log.NearTarget, Log.LinkTarget, Log.TailTarget, Log.EpisodeHead, Log.CycleHead;
  }

  lemma NearIsNearest(log: Log, s: Shell, e: Event)
    requires log.Valid() && CardRule(log, s) && log.ViaOf(e) == Near(s.head)
    ensures NearestVisit(log.Timeline(), log.Finish()(s), e)
  {
    var t := NearChoice(log, s, e);
    hide *;
    FinishedShell(log, s);
    forall w | w in log.Timeline() && VisitCard(w, e) ensures Gap(e)(s) <= Gap(e)(Shell(w.kind, w.head)) {
      CardKinds(log, w);
      WindowIs(w, e);
    }
    WindowIs(log.Finish()(s), e);
    NearestByGap(log.Timeline(), log.Finish()(s), e);
  }

  lemma FinishedShell(log: Log, s: Shell)
    ensures Shell(log.Finish()(s).kind, log.Finish()(s).head) == s
  {
  }

  lemma NearChoice(log: Log, s: Shell, e: Event) returns (t: Shell)
    requires CardRule(log, s) && log.ViaOf(e) == Near(s.head)
    ensures t == s && BaseRule(log, t) && s.kind == Visit && InWindow(t, e)
    ensures forall u | BaseRule(log, u) && u.kind == Visit && InWindow(u, e) :: Gap(e)(t) <= Gap(e)(u)
  {
    ViaNear(log, s, e);
    NearTargetFacts(log, e);
    hide *;
    t :| && BaseRule(log, t) && t.kind == Visit && InWindow(t, e) && t.head == s.head
         && forall u | BaseRule(log, u) && u.kind == Visit && InWindow(u, e) :: Gap(e)(t) <= Gap(e)(u);
    BaseIsCard(log, t);
    CardOfHead(log, s, t);
  }

  lemma BaseIsCard(log: Log, s: Shell)
    requires BaseRule(log, s)
    ensures CardRule(log, s)
  {
  }

  lemma NearestByGap(cards: seq<View>, v: View, e: Event)
    requires VisitCard(v, e)
    requires forall w | w in cards && VisitCard(w, e) ::
      Gap(e)(Shell(v.kind, v.head)) <= Gap(e)(Shell(w.kind, w.head))
    ensures NearestVisit(cards, v, e)
  {
  }

  lemma TailIsNearest(log: Log, s: Shell, e: Event)
    requires log.Valid() && CardRule(log, s) && log.ViaOf(e) == Tail(s.head)
    ensures NearestCycle(log.Timeline(), log.Finish()(s), e)
  {
    var t := TailChoice(log, s, e);
    hide *;
    FinishedShell(log, s);
    forall w | w in log.Timeline() && TailCard(w, e)
      ensures Distance(e)(s) <= Distance(e)(Shell(w.kind, w.head))
    {
      CardKinds(log, w);
      WindowIs(w, e);
    }
    WindowIs(log.Finish()(s), e);
    NearestByDistance(log.Timeline(), log.Finish()(s), e);
  }

  lemma NearestByDistance(cards: seq<View>, v: View, e: Event)
    requires TailCard(v, e)
    requires forall w | w in cards && TailCard(w, e) ::
      Distance(e)(Shell(v.kind, v.head)) <= Distance(e)(Shell(w.kind, w.head))
    ensures NearestCycle(cards, v, e)
  {
  }

  lemma TailChoice(log: Log, s: Shell, e: Event) returns (t: Shell)
    requires CardRule(log, s) && log.ViaOf(e) == Tail(s.head)
    ensures t == s && CycleRule(log, t) && s.kind == Episode(Cleaning) && InTailWindow(t, e)
    ensures forall u | CycleRule(log, u) && InTailWindow(u, e) :: Distance(e)(t) <= Distance(e)(u)
  {
    TailTargetFacts(log, e);
    t :| && CycleRule(log, t) && InTailWindow(t, e) && t.head == s.head
         && forall u | CycleRule(log, u) && InTailWindow(u, e) :: Distance(e)(t) <= Distance(e)(u);
    CardOfHead(log, s, t);
    HeadVia(log, s);
  }

  /** The card behind a shown line, and the rule that put the line there. */
  lemma LineOrigin(log: Log, v: View, e: Event) returns (s: Shell)
    requires log.Valid() && v in log.Timeline() && e in EventsOf(v.lines)
    ensures CardRule(log, s) && v == log.Finish()(s) && e in log.events
    ensures e.related == v.head.related || log.ViaOf(e) in {Linked(s.head), Near(s.head), Tail(s.head)}
  {
    TimelineCards(log);
    s :| CardRule(log, s) && v == log.Finish()(s);
    FinishedLines(log, s);
    SortMember(log.RawLines(s), TsKey);
    LineVia(log, s, e);
  }

  /** What the rules that place a follow-up exclude. */
  lemma FollowUpVia(log: Log, e: Event)
    requires log.ViaOf(e).Near? || log.ViaOf(e).Tail?
    ensures e.kind == Cleaning && log.LinkTarget(e).None?
    ensures log.ViaOf(e).Tail? ==> log.NearTarget(e).None?
  {
  }

  /** Soundness: a line of another episode than its card's is on the same device, and is
      there by the device's own link, or (only when no link card exists) because the card is
      the nearest visit at most 600 s earlier, or (only when no such visit exists either)
      because it is the nearest cleaning card of another episode within 120 s. */
  lemma PlacementSound(log: Log, v: View, e: Event)
    requires log.Valid() && v in log.Timeline() && e in EventsOf(v.lines) && e.related != v.head.related
    ensures e.device == v.head.device
    ensures
      || LinkCard(log, v, e)
      || (&& e.kind == Cleaning && (forall w | w in log.Timeline() :: !LinkCard(log, w, e))
          && (|| NearestVisit(log.Timeline(), v, e)
              || (&& (forall w | w in log.Timeline() :: !VisitCard(w, e))
                  && NearestCycle(log.Timeline(), v, e))))
  {
    var s := LineOrigin(log, v, e);
    if log.ViaOf(e) == Linked(s.head) {
      LinkedIsLinkCard(log, s, e);
    } else {
      FollowUpVia(log, e);
      NoLinkCard(log, e);
      if log.ViaOf(e) == Near(s.head) {
        NearIsNearest(log, s, e);
      } else {
        NoVisitCard(log, e);
        TailIsNearest(log, s, e);
      }
    }
  }

  /** Completeness: a bare row had nowhere to go. No follow-up kind is left on its own
      while a link card exists, and no cleaning step while a visit at most 600 s earlier or
      another episode's cleaning card within 120 s exists. */
  lemma PlacementComplete(log: Log, v: View)
    requires log.Valid() && v in log.Timeline() && v.kind == Row
    ensures v.lines == []
    ensures forall w | w in log.Timeline() :: !LinkCard(log, w, v.head)
    ensures v.head.kind == Cleaning ==> forall w | w in log.Timeline() :: !VisitCard(w, v.head) && !TailCard(w, v.head)
  {
    CardKinds(log, v);
    AloneVia(log, v.head);
    NoLinkCard(log, v.head);
    RowLines(log, v);
    if v.head.kind == Cleaning {
      NoVisitCard(log, v.head);
      NoTailCard(log, v.head);
    }
  }

  lemma AloneVia(log: Log, e: Event)
    requires e in log.events && log.ViaOf(e) == Alone
    ensures Attachable(e.kind) ==> log.LinkTarget(e).None?
    ensures e.kind == Cleaning ==> log.NearTarget(e).None? && log.TailTarget(e).None?
    ensures !Attachable(e.kind) ==> log.LinkTarget(e).None?
  {
    if log.Based(e) && Truthy(e.related) {
      EpisodeHeadFacts(log, e.related.value);
    }
  }

  lemma RowLines(log: Log, v: View)
    requires log.Valid() && v in log.Timeline() && v.kind == Row
    ensures v.lines == []
  {
    CardKinds(log, v);
    var s := Shell(v.kind, v.head);
    RowHasNoLines(log, s);
    assert |log.Finish()(s).lines| == |StableSort(log.RawLines(s), TsKey)|;
  }

  lemma RowHasNoLines(log: Log, s: Shell)
    requires RowRule(log, s)
    ensures log.RawLines(s) == []
  {
    HeadVia(log, s);
    forall e | e in log.events ensures log.ViaOf(e) !in {Linked(s.head), Near(s.head), Tail(s.head)} {
      if log.ViaOf(e) in {Linked(s.head), Near(s.head)} {
        LinkedVia(log, s, e);
      } else if log.ViaOf(e) == Tail(s.head) {
        TailVia(log, s, e);
      }
    }
    FilterNone(log.events, log.Is(Linked(s.head)));
    FilterNone(log.events, log.Is(Near(s.head)));
    FilterNone(log.events, log.Is(Tail(s.head)));
  }

  // --- media -----------------------------------------------------------------

  ghost predicate NoRepeat(media: seq<Media>) {
    forall i, j | 0 <= i < j < |media| :: media[i] != media[j]
  }

  ghost predicate Recorded(events: seq<Event>, rel: string, m: Media) {
    exists e | e in events :: e.related == Some(rel) && m in e.media
  }

  lemma {:induction false} AddNewFacts(bucket: seq<Media>, media: seq<Media>)
    requires NoRepeat(bucket)
    ensures NoRepeat(AddNew(bucket, media))
    ensures forall m :: m in AddNew(bucket, media) <==> m in bucket || m in media
  {
    if media != [] {
      var n := |media| - 1;
      AddNewFacts(bucket, media[..n]);
      assert media == media[..n] + [media[n]];
    }
  }

  /** A gallery holds what any event of the episode recorded, each item once. */
  lemma {:induction false} EpisodeMediaFacts(events: seq<Event>, rel: string)
    ensures NoRepeat(EpisodeMedia(events, rel))
    ensures forall m :: m in EpisodeMedia(events, rel) <==> Recorded(events, rel, m)
  {
    if events != [] {
      var n := |events| - 1;
      EpisodeMediaFacts(events[..n], rel);
      AddNewFacts(EpisodeMedia(events[..n], rel), events[n].media);
      assert events == events[..n] + [events[n]];
      forall m ensures Recorded(events, rel, m)
        <==> Recorded(events[..n], rel, m) || (events[n].related == Some(rel) && m in events[n].media)
      {
        assert events[n] in events;
      }
    }
  }

  lemma {:induction false} FirstDone(codes: Codes, lines: seq<Event>, rel: string) returns (i: nat)
    requires exists j | 0 <= j < |lines| :: lines[j].related == Some(rel) && codes.Done(lines[j])
    ensures i < |lines| && lines[i].related == Some(rel) && codes.Done(lines[i])
    ensures forall j | 0 <= j < i :: !(lines[j].related == Some(rel) && codes.Done(lines[j]))
  {
    var n := |lines| - 1;
    if j :| 0 <= j < n && lines[j].related == Some(rel) && codes.Done(lines[j]) {
      assert lines[..n][j] == lines[j];
      i := FirstDone(codes, lines[..n], rel);
    } else {
      i := n;
    }
  }

  lemma {:induction false} LastOf(lines: seq<Event>, rel: string) returns (i: nat)
    requires exists j | 0 <= j < |lines| :: lines[j].related == Some(rel)
    ensures i < |lines| && lines[i].related == Some(rel)
    ensures forall j | i < j < |lines| :: lines[j].related != Some(rel)
  {
    var n := |lines| - 1;
    if lines[n].related == Some(rel) {
      i := n;
    } else {
      i := LastOf(lines[..n], rel);
    }
  }

  /** Of a foreign episode's lines on a card, exactly one is the carrier. */
  lemma OneCarrier(codes: Codes, lines: seq<Event>, own: Option<string>, rel: string) returns (i: nat)
    requires rel != "" && Some(rel) != own && exists j | 0 <= j < |lines| :: lines[j].related == Some(rel)
    ensures i < |lines| && lines[i].related == Some(rel) && codes.Carries(lines, own, i)
    ensures forall j | 0 <= j < |lines| && lines[j].related == Some(rel) && codes.Carries(lines, own, j) :: j == i
  {
    if exists j | 0 <= j < |lines| :: lines[j].related == Some(rel) && codes.Done(lines[j]) {
      i := FirstDone(codes, lines, rel);
    } else {
      i := LastOf(lines, rel);
    }
  }

  lemma FinishedMedia(log: Log, v: View) returns (lines: seq<Event>)
    requires log.Valid() && v in log.Timeline()
    ensures v.lines == log.codes.WithMedia(lines, v.head.related, log.events)
  {
    TimelineCards(log);
    var s :| CardRule(log, s) && v == log.Finish()(s);
    lines := StableSort(log.RawLines(s), TsKey);
  }

  /** Every foreign episode on a card shows what it recorded on exactly one of its lines:
      the first completion line if it has one, else its last line. */
  lemma MediaShownOnce(log: Log, v: View, rel: string) returns (i: nat)
    requires log.Valid() && v in log.Timeline() && rel != "" && Some(rel) != v.head.related
    requires exists l | l in v.lines :: l.event.related == Some(rel)
    ensures i < |v.lines| && v.lines[i].event.related == Some(rel)
    ensures v.lines[i].media == EpisodeMedia(log.events, rel)
    ensures forall j | 0 <= j < |v.lines| && j != i && v.lines[j].event.related == Some(rel) :: v.lines[j].media == []
    ensures (exists l | l in v.lines :: l.event.related == Some(rel) && l.event.eventType in log.codes.primaryDone) ==>
      && v.lines[i].event.eventType in log.codes.primaryDone
      && forall j | 0 <= j < i :: v.lines[j].event.related == Some(rel) ==>
           v.lines[j].event.eventType !in log.codes.primaryDone
    ensures !(exists l | l in v.lines :: l.event.related == Some(rel) && l.event.eventType in log.codes.primaryDone) ==>
      forall j | i < j < |v.lines| :: v.lines[j].event.related != Some(rel)
  {
    hide Log.Timeline, EpisodeMedia, StableSort;
    var lines := FinishedMedia(log, v);
    var l :| l in v.lines && l.event.related == Some(rel);
    var k :| 0 <= k < |v.lines| && v.lines[k] == l;
    assert lines[k].related == Some(rel);
    i := OneCarrier(log.codes, lines, v.head.related, rel);
    CarrierIsFirstDone(log.codes, lines, v.head.related, i, v.lines);
  }

  lemma CarrierIsFirstDone(codes: Codes, lines: seq<Event>, own: Option<string>, i: nat, shown: seq<Line>)
    requires i < |lines| == |shown| && codes.Carries(lines, own, i)
    requires forall j | 0 <= j < |lines| :: shown[j].event == lines[j]
    ensures (exists l | l in shown :: l.event.related == lines[i].related && l.event.eventType in codes.primaryDone) ==>
      && lines[i].eventType in codes.primaryDone
      && forall j | 0 <= j < i :: lines[j].related == lines[i].related ==> lines[j].eventType !in codes.primaryDone
    ensures
      (forall l | l in shown && l.event.related == lines[i].related :: l.event.eventType !in codes.primaryDone) ==>
      forall j | i < j < |lines| :: lines[j].related != lines[i].related
  {
    if l :| l in shown && l.event.related == lines[i].related && l.event.eventType in codes.primaryDone {
      var j :| 0 <= j < |shown| && shown[j] == l;
      assert lines[j].related == lines[i].related && lines[j].eventType in codes.primaryDone;
    } else {
      forall j | 0 <= j < |lines| && lines[j].related == lines[i].related
        ensures lines[j].eventType !in codes.primaryDone
      {
        assert shown[j] in shown;
      }
    }
  }

  /** Lines of the card's own episode, and lines of no episode, show no media. */
  lemma OwnLinesShowNothing(log: Log, v: View, l: Line)
    requires log.Valid() && v in log.Timeline() && l in v.lines
    requires l.event.related == v.head.related || !Truthy(l.event.related)
    ensures l.media == []
  {
    var lines := FinishedMedia(log, v);
  }
}
