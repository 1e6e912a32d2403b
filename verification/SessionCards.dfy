/** Which cards a log has: every card is determined by its head, heads are distinct, and
    every event's owner heads a card. */
module SessionCards {
  import opened Common
  import opened Sessions

  // --- episode ids -----------------------------------------------------------

  lemma {:induction false} RelsFacts(s: seq<Event>)
    ensures forall rel | rel in Rels(s) :: rel != "" && exists e | e in s :: e.related == Some(rel)
    ensures forall e | e in s && Truthy(e.related) :: e.related.value in Rels(s)
    ensures forall i, j | 0 <= i < j < |Rels(s)| :: Rels(s)[i] != Rels(s)[j]
  {
    if s != [] {
      var n := |s| - 1;
      RelsFacts(s[..n]);
      assert s == s[..n] + [s[n]];
      forall rel | rel in Rels(s) ensures rel != "" && exists e | e in s :: e.related == Some(rel) {
        if rel in Rels(s[..n]) {
          var e :| e in s[..n] && e.related == Some(rel);
          assert e in s;
        } else {
          assert s[n] in s;
        }
      }
    }
  }

  // --- heads -----------------------------------------------------------------

  lemma MembersFacts(log: Log, rel: string)
    ensures forall e :: e in log.Members(rel) <==> e in log.events && log.codes.InEpisode(rel)(e)
  {
    SortMember(Filter(log.events, log.codes.InEpisode(rel)), TsKey);
    FilterMember(log.events, log.codes.InEpisode(rel));
  }

  lemma EpisodeHeadFacts(log: Log, rel: string)
    ensures log.EpisodeHead(rel).Some? ==>
      var h := log.EpisodeHead(rel).value; h in log.events && log.codes.Anchor(h) && h.related == Some(rel)
    ensures log.EpisodeHead(rel).None? ==> forall e | e in log.events :: !log.codes.InEpisode(rel)(e)
  {
    MembersFacts(log, rel);
    if log.EpisodeHead(rel).None? {
      forall e | e in log.events ensures !log.codes.InEpisode(rel)(e) {
        assert e !in log.Members(rel);
      }
    }
  }

  function MemberAt(codes: Codes, rel: string, ts: real): Event -> bool {
    (e: Event) => codes.InEpisode(rel)(e) && TsKey(e) == ts
  }

  function CodedAt(codes: Codes, rel: string, ts: real): Event -> bool {
    (e: Event) => codes.InEpisode(rel)(e) && TsKey(e) == ts && e.eventType in codes.anchor
  }

  function StampedAt(ts: real): Event -> bool {
    (e: Event) => TsKey(e) == ts
  }

  function StampedAnd(ts: real, test: Event -> bool): Event -> bool {
    (e: Event) => TsKey(e) == ts && test(e)
  }

  lemma CodedHead(log: Log, rel: string)
    requires log.EpisodeHead(rel).Some? && First(log.Members(rel), log.codes.HasAnchorCode()).Some?
    ensures var h := log.EpisodeHead(rel).value;
            && (forall e | e in log.events && log.codes.InEpisode(rel)(e) && e.eventType in log.codes.anchor ::
              TsKey(h) <= TsKey(e))
            && First(log.events, CodedAt(log.codes, rel, TsKey(h))) == Some(h)
  {
    var anchors := Filter(log.events, log.codes.InEpisode(rel));
    var h := log.EpisodeHead(rel).value;
    var coded := log.codes.HasAnchorCode();
    FilterMember(log.events, log.codes.InEpisode(rel));
    hide Filter, StableSort;
    FirstOfSorted(anchors, TsKey, coded, StampedAt(TsKey(h)), StampedAnd(TsKey(h), coded));
    FilterTwice(log.events, log.codes.InEpisode(rel), StampedAnd(TsKey(h), coded), CodedAt(log.codes, rel, TsKey(h)));
    FilterHead(log.events, CodedAt(log.codes, rel, TsKey(h)));
  }

  lemma PlainHead(log: Log, rel: string)
    requires log.EpisodeHead(rel).Some? && First(log.Members(rel), log.codes.HasAnchorCode()).None?
    ensures var h := log.EpisodeHead(rel).value;
            && (forall e | e in log.events && log.codes.InEpisode(rel)(e) :: TsKey(e) <= TsKey(h))
            && var ties := Filter(log.events, MemberAt(log.codes, rel, TsKey(h)));
               ties != [] && ties[|ties| - 1] == h
  {
    var anchors := Filter(log.events, log.codes.InEpisode(rel));
    var h := log.EpisodeHead(rel).value;
    FilterMember(log.events, log.codes.InEpisode(rel));
    hide Filter, StableSort, First;
    StableSortSpec(anchors, TsKey);
    LastOfSorted(anchors, TsKey, h, StampedAt(TsKey(h)));
    FilterTwice(log.events, log.codes.InEpisode(rel), StampedAt(TsKey(h)), MemberAt(log.codes, rel, TsKey(h)));
  }

  lemma SomeMemberCoded(log: Log, rel: string)
    ensures First(log.Members(rel), log.codes.HasAnchorCode()).Some?
      <==> exists e | e in log.events :: log.codes.InEpisode(rel)(e) && e.eventType in log.codes.anchor
  {
    var anchors := Filter(log.events, log.codes.InEpisode(rel));
    FilterMember(log.events, log.codes.InEpisode(rel));
    SortMember(anchors, TsKey);
    hide Filter, StableSort, First;
  }

  /** Which anchor heads an episode: its earliest anchor-coded event, the first in input order among
      equal times; without one its latest event, the last in input order among equal times. */
  lemma EpisodeHeadIs(log: Log, rel: string)
    requires log.EpisodeHead(rel).Some?
    ensures var h := log.EpisodeHead(rel).value;
            if exists e | e in log.events :: log.codes.InEpisode(rel)(e) && e.eventType in log.codes.anchor then
              && (forall e | e in log.events && log.codes.InEpisode(rel)(e) && e.eventType in log.codes.anchor ::
                    TsKey(h) <= TsKey(e))
              && First(log.events, CodedAt(log.codes, rel, TsKey(h))) == Some(h)
            else
              && (forall e | e in log.events && log.codes.InEpisode(rel)(e) :: TsKey(e) <= TsKey(h))
              && var ties := Filter(log.events, MemberAt(log.codes, rel, TsKey(h)));
                 ties != [] && ties[|ties| - 1] == h
  {
    hide *;
    SomeMemberCoded(log, rel);
    if First(log.Members(rel), log.codes.HasAnchorCode()).Some? {
      CodedHead(log, rel);
    } else {
      PlainHead(log, rel);
    }
  }

  lemma FilterHead(s: seq<Event>, test: Event -> bool)
    requires Filter(s, test) != []
    ensures First(s, test) == Some(Filter(s, test)[0])
  {
    FilterMember(s, test);
    assert Filter(s, test)[0] in Filter(s, test);
    FilterFirst(s, test, test);
  }

  lemma StraysFacts(log: Log, rel: string)
    ensures forall e :: e in log.Strays(rel) <==> e in log.events && log.StrayIn(rel)(e)
  {
    SortMember(Filter(log.events, log.StrayIn(rel)), TsKey);
    FilterMember(log.events, log.StrayIn(rel));
  }

  lemma CycleHeadFacts(log: Log, rel: string)
    ensures log.CycleHead(rel).Some? ==>
      var h := log.CycleHead(rel).value;
      h in log.events && log.Stray(h) && h.related == Some(rel) && h.eventType in log.codes.primaryDone
    ensures log.CycleHead(rel).None? ==>
      forall e | e in log.events && log.StrayIn(rel)(e) :: e.eventType !in log.codes.primaryDone
  {
    StraysFacts(log, rel);
  }

  function DoneAt(log: Log, rel: string, ts: real): Event -> bool {
    (e: Event) => log.StrayIn(rel)(e) && TsKey(e) == ts && e.eventType in log.codes.primaryDone
  }

  /** Which step heads an orphan cycle: its earliest completion step, the first in input order among
      equal times. */
  lemma CycleHeadIs(log: Log, rel: string)
    requires log.CycleHead(rel).Some?
    ensures var h := log.CycleHead(rel).value;
            && (forall e | e in log.events && log.StrayIn(rel)(e) && e.eventType in log.codes.primaryDone ::
                  TsKey(h) <= TsKey(e))
            && First(log.events, DoneAt(log, rel, TsKey(h))) == Some(h)
  {
    var strays := Filter(log.events, log.StrayIn(rel));
    var h := log.CycleHead(rel).value;
    var done := log.codes.IsDone();
    FilterMember(log.events, log.StrayIn(rel));
    hide Filter, StableSort, Log.Stray;
    FirstOfSorted(strays, TsKey, done, StampedAt(TsKey(h)), StampedAnd(TsKey(h), done));
    FilterTwice(log.events, log.StrayIn(rel), StampedAnd(TsKey(h), done), DoneAt(log, rel, TsKey(h)));
    FilterHead(log.events, DoneAt(log, rel, TsKey(h)));
  }

  // --- cards are determined by their heads -----------------------------------

  ghost predicate BaseRule(log: Log, s: Shell) {
    s.head in log.events && log.Based(s.head)
    && if Truthy(s.head.related) then log.EpisodeShell(s.head.related.value) == [s] else s.kind == Visit
  }

  ghost predicate CycleRule(log: Log, s: Shell) {
    s.head in log.events && Truthy(s.head.related) && log.CycleShell(s.head.related.value) == [s]
  }

  ghost predicate RowRule(log: Log, s: Shell) {
    s.head in log.events && log.ViaOf(s.head) == Alone && s.kind == Row
  }

  ghost predicate CardRule(log: Log, s: Shell) {
    BaseRule(log, s) || CycleRule(log, s) || RowRule(log, s)
  }

  lemma {:induction false} EpisodeShellsMember(log: Log, rels: seq<string>)
    ensures forall s | s in log.EpisodeShells(rels) ::
      s.head.related.Some? && s.head.related.value in rels && log.EpisodeShell(s.head.related.value) == [s]
    ensures forall rel, s | rel in rels && log.EpisodeShell(rel) == [s] :: s in log.EpisodeShells(rels)
  {
    hide Log.EpisodeHead, Log.Members, GroupKind;
    if rels != [] {
      var n := |rels| - 1;
      EpisodeShellsMember(log, rels[..n]);
      EpisodeHeadFacts(log, rels[n]);
      assert rels == rels[..n] + [rels[n]];
    }
  }

  lemma {:induction false} CycleShellsMember(log: Log, rels: seq<string>)
    ensures forall s | s in log.CycleShells(rels) ::
      s.head.related.Some? && s.head.related.value in rels && log.CycleShell(s.head.related.value) == [s]
    ensures forall rel, s | rel in rels && log.CycleShell(rel) == [s] :: s in log.CycleShells(rels)
  {
    hide Log.CycleHead, Log.Stray, Log.StrayIn;
    if rels != [] {
      var n := |rels| - 1;
      CycleShellsMember(log, rels[..n]);
      CycleHeadFacts(log, rels[n]);
      assert rels == rels[..n] + [rels[n]];
    }
  }

  lemma BaseShellsMember(log: Log, s: Shell)
    ensures s in log.BaseShells() <==> BaseRule(log, s)
  {
    var rels := Rels(log.Anchors());
    RelsFacts(log.Anchors());
    FilterMember(log.events, log.codes.IsAnchor());
    EpisodeShellsMember(log, rels);
    var loose := Filter(log.events, log.codes.IsLoose());
    FilterMember(log.events, log.codes.IsLoose());
    MapMember(loose, log.VisitShell());
    if s in log.EpisodeShells(rels) {
      EpisodeHeadFacts(log, s.head.related.value);
    }
    if BaseRule(log, s) {
      if Truthy(s.head.related) {
        assert s.head in log.Anchors();
      } else {
        assert log.VisitShell()(s.head) in Map(loose, log.VisitShell());
      }
    }
  }

  lemma CleaningShellsMember(log: Log, s: Shell)
    ensures s in log.CleaningShells() <==> CycleRule(log, s)
  {
    var strays := Filter(log.events, log.IsStray());
    RelsFacts(strays);
    FilterMember(log.events, log.IsStray());
    CycleShellsMember(log, Rels(strays));
    if s.head.related.Some? {
      CycleHeadFacts(log, s.head.related.value);
    }
    if CycleRule(log, s) {
      assert s.head in strays;
    }
  }

  lemma ShellsMember(log: Log, s: Shell)
    ensures s in log.Shells() <==> CardRule(log, s)
  {
    BaseShellsMember(log, s);
    CleaningShellsMember(log, s);
    var rows := Filter(log.events, log.Is(Alone));
    FilterMember(log.events, log.Is(Alone));
    MapMember(rows, log.RowShell());
    if RowRule(log, s) {
      assert s.head in rows;
      assert log.RowShell()(s.head) == s;
    }
  }

  lemma BaseHeadVia(log: Log, s: Shell)
    requires BaseRule(log, s)
    ensures log.Owner(s.head) == s.head && log.ViaOf(s.head) == if Truthy(s.head.related) then Member(s.head) else Loose
    ensures s.kind != Row && s.kind != Episode(Cleaning) && (!Truthy(s.head.related) ==> s.kind == Visit)
  {
    hide Log.LinkTarget, Log.NearTarget, Log.TailTarget, Log.CycleHead, Log.EpisodeHead, Log.Members;
    if s.head.related.Some? {
      EpisodeHeadFacts(log, s.head.related.value);
    }
  }

  lemma CycleHeadVia(log: Log, s: Shell)
    requires CycleRule(log, s)
    ensures log.Owner(s.head) == s.head && log.ViaOf(s.head) == Stranded(s.head)
    ensures s.kind == Episode(Cleaning) && s.head.kind == Cleaning
  {
    hide Log.LinkTarget, Log.NearTarget, Log.TailTarget, Log.CycleHead, Log.EpisodeHead, Log.Members;
    CycleHeadFacts(log, s.head.related.value);
  }

  /** The rule that placed a card's head follows from what kind of card it is. */
  lemma HeadVia(log: Log, s: Shell)
    requires CardRule(log, s)
    ensures s.head in log.events && log.Owner(s.head) == s.head
    ensures BaseRule(log, s) ==> log.ViaOf(s.head) == if Truthy(s.head.related) then Member(s.head) else Loose
    ensures CycleRule(log, s) ==>
      log.ViaOf(s.head) == Stranded(s.head) && s.kind == Episode(Cleaning) && s.head.kind == Cleaning
    ensures BaseRule(log, s) ==> s.kind != Row && s.kind != Episode(Cleaning)
    ensures BaseRule(log, s) && !Truthy(s.head.related) ==> s.kind == Visit
  {
    HeadIsEvent(log, s);
    hide BaseRule, CycleRule, Log.ViaOf;
    if BaseRule(log, s) {
      BaseHeadVia(log, s);
    }
    if CycleRule(log, s) {
      CycleHeadVia(log, s);
    }
  }

  lemma HeadIsEvent(log: Log, s: Shell)
    requires CardRule(log, s)
    ensures s.head in log.events
  {
    hide Log.EpisodeShell, Log.CycleShell, Log.ViaOf;
  }

  lemma CardOfHead(log: Log, s: Shell, t: Shell)
    requires CardRule(log, s) && CardRule(log, t) && s.head == t.head
    ensures s == t
  {
    HeadVia(log, s);
    HeadVia(log, t);
  }

  /** The nearest-card choices really are cards of the kind they look for. */
  lemma NearTargetFacts(log: Log, e: Event)
    ensures log.NearTarget(e).None? ==> forall s | BaseRule(log, s) && s.kind == Visit :: !InWindow(s, e)
    ensures log.NearTarget(e).Some? ==> exists s ::
      && BaseRule(log, s) && s.kind == Visit && InWindow(s, e) && s.head == log.NearTarget(e).value
      && forall t | BaseRule(log, t) && t.kind == Visit && InWindow(t, e) :: Gap(e)(s) <= Gap(e)(t)
  {
    FilterMember(log.BaseShells(), IsVisit);
    FilterMember(log.Visits(), VisitNear(e));
    var c := Filter(log.Visits(), VisitNear(e));
    forall s ensures s in c <==> BaseRule(log, s) && s.kind == Visit && InWindow(s, e) {
      BaseShellsMember(log, s);
    }
    if c != [] {
      var m := MinBy(c, Gap(e));
      assert BaseRule(log, m);
    }
  }

  lemma TailTargetFacts(log: Log, e: Event)
    ensures log.TailTarget(e).None? ==> forall s | CycleRule(log, s) :: !InTailWindow(s, e)
    ensures log.TailTarget(e).Some? ==> exists s ::
      && CycleRule(log, s) && InTailWindow(s, e) && s.head == log.TailTarget(e).value
      && forall t | CycleRule(log, t) && InTailWindow(t, e) :: Distance(e)(s) <= Distance(e)(t)
  {
    FilterMember(log.CleaningShells(), CleaningNear(e));
    var c := Filter(log.CleaningShells(), CleaningNear(e));
    forall s ensures s in c <==> CycleRule(log, s) && InTailWindow(s, e) {
      CleaningShellsMember(log, s);
    }
    if c != [] {
      var m := MinBy(c, Distance(e));
      assert CycleRule(log, m);
    }
  }

  /** An explicit link finds the card of the named episode on the same device whenever there is one. */
  lemma LinkTargetFacts(log: Log, e: Event)
    ensures log.LinkTarget(e).Some? ==> Attachable(e.kind) && exists s ::
      && BaseRule(log, s) && Truthy(s.head.related) && s.head == log.LinkTarget(e).value
      && s.head.related == log.ParentLink(e) && s.head.device == e.device
    ensures log.LinkTarget(e).None? && Attachable(e.kind) && Truthy(log.ParentLink(e)) ==>
      forall s | BaseRule(log, s) && s.head.related == log.ParentLink(e) :: s.head.device != e.device
  {
    if Attachable(e.kind) && Truthy(log.ParentLink(e)) {
      var rel := log.ParentLink(e).value;
      hide Log.EpisodeHead, Log.ParentLink;
      EpisodeHeadFacts(log, rel);
      if log.EpisodeHead(rel).Some? {
        var s := log.EpisodeShell(rel)[0];
        assert BaseRule(log, s);
      }
    }
  }

  /** The card an event ends on. */
  lemma OwnerHeads(log: Log, e: Event)
    requires e in log.events
    ensures exists s :: CardRule(log, s) && s.head == log.Owner(e)
    ensures log.ViaOf(e).Linked? || log.ViaOf(e).Near? ==> exists s :: BaseRule(log, s) && s.head == log.Owner(e)
    ensures log.ViaOf(e).Tail? ==> exists s :: CycleRule(log, s) && s.head == log.Owner(e)
  {
    hide Log.LinkTarget, Log.NearTarget, Log.TailTarget, Log.EpisodeHead, Log.CycleHead;
    match log.ViaOf(e)
    case Member(h) =>
      EpisodeHeadFacts(log, e.related.value);
      assert BaseRule(log, log.EpisodeShell(e.related.value)[0]);
    case Loose => assert BaseRule(log, Shell(Visit, e));
    case Linked(_) => LinkTargetFacts(log, e);
    case Near(_) => NearTargetFacts(log, e);
    case Stranded(h) =>
      CycleHeadFacts(log, e.related.value);
      assert CycleRule(log, log.CycleShell(e.related.value)[0]);
    case Tail(_) => TailTargetFacts(log, e);
    case Alone =>
      if log.Based(e) {
        EpisodeHeadFacts(log, e.related.value);
      }
      assert RowRule(log, Shell(Row, e));
  }

  // --- heads are distinct ----------------------------------------------------

  lemma {:induction false} EpisodeShellsDistinct(log: Log, rels: seq<string>)
    requires forall i, j | 0 <= i < j < |rels| :: rels[i] != rels[j]
    ensures DistinctKeys(log.EpisodeShells(rels), HeadOf)
  {
    hide Log.EpisodeHead, Log.Members, GroupKind;
    if rels != [] {
      var n := |rels| - 1;
      EpisodeShellsDistinct(log, rels[..n]);
      EpisodeShellsMember(log, rels[..n]);
      EpisodeHeadFacts(log, rels[n]);
      AppendDistinct(log.EpisodeShells(rels[..n]), log.EpisodeShell(rels[n]), HeadOf);
    }
  }

  lemma {:induction false} CycleShellsDistinct(log: Log, rels: seq<string>)
    requires forall i, j | 0 <= i < j < |rels| :: rels[i] != rels[j]
    ensures DistinctKeys(log.CycleShells(rels), HeadOf)
  {
    hide Log.CycleHead, Log.Stray, Log.StrayIn;
    if rels != [] {
      var n := |rels| - 1;
      CycleShellsDistinct(log, rels[..n]);
      CycleShellsMember(log, rels[..n]);
      CycleHeadFacts(log, rels[n]);
      AppendDistinct(log.CycleShells(rels[..n]), log.CycleShell(rels[n]), HeadOf);
    }
  }

  lemma BaseShellsDistinct(log: Log)
    requires log.Valid()
    ensures DistinctKeys(log.BaseShells(), HeadOf)
  {
    RelsFacts(log.Anchors());
    EpisodeShellsDistinct(log, Rels(log.Anchors()));
    EpisodeShellsMember(log, Rels(log.Anchors()));
    FilterDistinct(log.events, log.codes.IsLoose(), IdOf);
    FilterMember(log.events, log.codes.IsLoose());
    var loose := Filter(log.events, log.codes.IsLoose());
    MapMember(loose, log.VisitShell());
    AppendDistinct(log.EpisodeShells(Rels(log.Anchors())), Map(loose, log.VisitShell()), HeadOf);
  }

  lemma CardShellsDistinct(log: Log)
    requires log.Valid()
    ensures DistinctKeys(log.BaseShells() + log.CleaningShells(), HeadOf)
  {
    BaseShellsDistinct(log);
    var strays := Filter(log.events, log.IsStray());
    RelsFacts(strays);
    CycleShellsDistinct(log, Rels(strays));
    forall x, y | x in log.BaseShells() && y in log.CleaningShells() ensures x.head != y.head {
      BaseShellsMember(log, x);
      CleaningShellsMember(log, y);
      HeadVia(log, x);
      HeadVia(log, y);
    }
    AppendDistinct(log.BaseShells(), log.CleaningShells(), HeadOf);
  }

  lemma ShellsDistinct(log: Log)
    requires log.Valid()
    ensures DistinctKeys(log.Shells(), HeadOf)
  {
    CardShellsDistinct(log);
    var rows := Filter(log.events, log.Is(Alone));
    FilterDistinct(log.events, log.Is(Alone), IdOf);
    FilterMember(log.events, log.Is(Alone));
    MapMember(rows, log.RowShell());
    forall x, y | x in log.BaseShells() + log.CleaningShells() && y in Map(rows, log.RowShell())
      ensures x.head != y.head
    {
      BaseShellsMember(log, x);
      CleaningShellsMember(log, x);
      HeadVia(log, x);
    }
    AppendDistinct(log.BaseShells() + log.CleaningShells(), Map(rows, log.RowShell()), HeadOf);
  }
}
