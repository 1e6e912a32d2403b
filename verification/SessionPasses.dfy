/** The passes of `group_sessions`: they fill mutable cards and a shared set of used ids,
    and end with exactly the cards `Log.Timeline` describes. */
module SessionPasses {
  import opened Common
  import opened Sessions
  import opened SessionCards

  /** A session dict: its identity is fixed when it is built, its lines grow. */
  class Card {
    const kind: CardKind
    const head: Event
    const media: seq<Media>
    var lines: seq<Line>

    constructor (kind: CardKind, head: Event)
      ensures this.kind == kind && this.head == head && media == head.media && lines == []
    {
      this.kind, this.head, media, lines := kind, head, head.media, [];
    }
  }

  function ShellOf(c: Card): Shell {
    Shell(c.kind, c.head)
  }

  function BareLine(e: Event): Line {
    Line(e, [])
  }

  function Bare(s: seq<Event>): seq<Line> {
    Map(s, BareLine)
  }

  lemma BareAppend(s: seq<Event>, e: Event)
    ensures Bare(s + [e]) == Bare(s) + [BareLine(e)]
  {
  }

  /** `_attach`: hang `e` off `session` and mark it used. */
  method Attach(session: Card, e: Event, used: set<int>) returns (used': set<int>)
    modifies session
    ensures session.lines == old(session.lines) + [BareLine(e)]
    ensures used' == used + {e.id}
  {
    used' := used + {e.id};
    session.lines := session.lines + [BareLine(e)];
  }

  // --- the state between passes ----------------------------------------------

  /** The passes in order; `Alone` is what no pass takes. */
  function Rank(via: Via): nat {
    match via
    case Member(_) => 0
    case Loose => 0
    case Linked(_) => 1
    case Near(_) => 2
    case Stranded(_) => 3
    case Tail(_) => 4
    case Alone => 5
  }

  /** Used are the events the passes before `pass` take, and of those `pass` takes the first `n`. */
  ghost predicate UsedUpTo(log: Log, used: set<int>, pass: nat, n: nat) {
    forall j | 0 <= j < |log.events| ::
      log.events[j].id in used <==>
        Rank(log.ViaOf(log.events[j])) < pass || (Rank(log.ViaOf(log.events[j])) == pass && j < n)
  }

  ghost predicate DistinctCards(sessions: seq<Card>) {
    forall i, j | 0 <= i < j < |sessions| :: sessions[i] != sessions[j] && sessions[i].head != sessions[j].head
  }

  lemma CardsDistinct(log: Log, sessions: seq<Card>)
    requires DistinctKeys(Map(sessions, ShellOf), HeadOf)
    ensures DistinctCards(sessions)
  {
    forall i, j | 0 <= i < j < |sessions| ensures sessions[i].head != sessions[j].head {
      assert HeadOf(Map(sessions, ShellOf)[i]) != HeadOf(Map(sessions, ShellOf)[j]);
    }
  }

  // --- grouping by episode ---------------------------------------------------

  function RelatedTo(rel: string): Event -> bool {
    (e: Event) => e.related == Some(rel)
  }

  /** A dict of lists filled by `setdefault(rel, []).append(e)`, with its keys in insertion order. */
  ghost predicate Grouped(s: seq<Event>, rels: seq<string>, groups: map<string, seq<Event>>) {
    && rels == Rels(s)
    && (forall rel :: rel in groups <==> rel in rels)
    && forall rel | rel in groups :: groups[rel] == Filter(s, RelatedTo(rel))
  }

  method AddToGroup(ghost s: seq<Event>, e: Event, rels: seq<string>, groups: map<string, seq<Event>>)
    returns (rels': seq<string>, groups': map<string, seq<Event>>)
    requires Grouped(s, rels, groups)
    ensures Grouped(s + [e], rels', groups')
  {
    rels', groups' := rels, groups;
    assert (s + [e])[..|s|] == s;
    RelsFacts(s);
    if Truthy(e.related) {
      var rel := e.related.value;
      if rel !in groups {
        rels', groups' := rels + [rel], groups[rel := []];
        FilterNone(s, RelatedTo(rel));
      }
      groups' := groups'[rel := groups'[rel] + [e]];
    }
    forall r
      ensures Filter(s + [e], RelatedTo(r))
        == if e.related == Some(r) then Filter(s, RelatedTo(r)) + [e] else Filter(s, RelatedTo(r))
    {
      FilterSnoc(s, e, RelatedTo(r));
    }
  }

  /** `_episodes_of`: anchors by episode, and the toilet visits that name none. */
  method EpisodesOf(codes: Codes, anchors: seq<Event>)
    returns (rels: seq<string>, byRelated: map<string, seq<Event>>, loose: seq<Event>)
    requires forall e | e in anchors :: codes.Anchor(e)
    ensures Grouped(anchors, rels, byRelated)
    ensures loose == Filter(anchors, codes.IsLoose())
  {
    rels, byRelated, loose := [], map[], [];
    for k := 0 to |anchors|
      invariant Grouped(anchors[..k], rels, byRelated)
      invariant loose == Filter(anchors[..k], codes.IsLoose())
    {
      var e := anchors[k];
      assert anchors[..k + 1] == anchors[..k] + [e];
      FilterSnoc(anchors[..k], e, codes.IsLoose());
      assert e in anchors;
      if !Truthy(e.related) && e.kind == Toilet {
        loose := loose + [e];
      }
      rels, byRelated := AddToGroup(anchors[..k], e, rels, byRelated);
    }
    assert anchors[..|anchors|] == anchors;
  }

  function Ids(s: seq<Event>): set<int> {
    set e | e in s :: e.id
  }

  /** A fresh card with every other member of its (sorted) group as a step. */
  method CardWithSteps(kind: CardKind, anchor: Event, group: seq<Event>, used: set<int>)
    returns (session: Card, used': set<int>)
    ensures fresh(session) && ShellOf(session) == Shell(kind, anchor) && session.media == anchor.media
    ensures session.lines == Bare(Filter(group, Not(anchor)))
    ensures used' == used + {anchor.id} + Ids(group)
  {
    session := new Card(kind, anchor);
    used' := used + {anchor.id};
    for k := 0 to |group|
      invariant session.lines == Bare(Filter(group[..k], Not(anchor)))
      invariant used' == used + {anchor.id} + Ids(group[..k])
    {
      assert group[..k + 1] == group[..k] + [group[k]];
      FilterSnoc(group[..k], group[k], Not(anchor));
      BareAppend(Filter(group[..k], Not(anchor)), group[k]);
      if group[k] != anchor {
        used' := Attach(session, group[k], used');
      }
    }
    assert group[..|group|] == group;
  }

  lemma GroupIsMembers(log: Log, rel: string)
    ensures StableSort(Filter(log.Anchors(), RelatedTo(rel)), TsKey) == log.Members(rel)
  {
    FilterTwice(log.events, log.codes.IsAnchor(), RelatedTo(rel), log.codes.InEpisode(rel));
  }

  /** What the index by episode id says. */
  ghost predicate Indexed(log: Log, sessions: seq<Card>, byEpisode: map<string, Card>, rels: seq<string>) {
    && (forall rel :: rel in byEpisode <==> rel in rels)
    && forall rel | rel in byEpisode :: byEpisode[rel] in sessions && log.EpisodeHead(rel) == Some(byEpisode[rel].head)
  }

  /** The groups handed to `_cards_from_episodes`, up to the sort it does itself. */
  ghost predicate HasMembers(log: Log, byRelated: map<string, seq<Event>>, rel: string) {
    rel in byRelated && log.Members(rel) != [] && StableSort(byRelated[rel], TsKey) == log.Members(rel)
  }

  lemma GroupsHaveMembers(log: Log, rels: seq<string>, byRelated: map<string, seq<Event>>)
    requires Grouped(log.Anchors(), rels, byRelated)
    ensures rels == Rels(log.Anchors())
    ensures forall rel | rel in rels :: rel != "" && HasMembers(log, byRelated, rel)
  {
    RelsFacts(log.Anchors());
    forall rel | rel in rels ensures HasMembers(log, byRelated, rel) {
      GroupIsMembers(log, rel);
      RelsFacts(log.Anchors());
      FilterMember(log.events, log.codes.IsAnchor());
      MembersFacts(log, rel);
      var e :| e in log.Anchors() && e.related == Some(rel);
      assert e in log.Members(rel);
    }
  }

  lemma EpisodeCardFacts(log: Log, rel: string)
    requires log.Members(rel) != []
    ensures var h := log.codes.PickHead(log.Members(rel));
      && log.EpisodeHead(rel) == Some(h)
      && log.EpisodeShell(rel) == [Shell(GroupKind(log.Members(rel), h), h)]
      && (rel != "" ==> log.Steps(Shell(GroupKind(log.Members(rel), h), h)) == Filter(log.Members(rel), Not(h)))
  {
    EpisodeHeadFacts(log, rel);
  }

  /** A card that holds its head and the rest of its own episode. */
  ghost predicate StepsOnly(log: Log, c: Card)
    reads c
  {
    c.lines == Bare(log.Steps(ShellOf(c))) && c.media == c.head.media
  }

  /** One turn of `_cards_from_episodes`: the card of an episode from its unsorted group. */
  method CardFromEpisode(log: Log, rel: string, members: seq<Event>, used: set<int>)
    returns (session: Card, used': set<int>)
    requires rel != "" && log.Members(rel) != [] && StableSort(members, TsKey) == log.Members(rel)
    ensures fresh(session) && StepsOnly(log, session)
    ensures log.EpisodeHead(rel) == Some(session.head) && log.EpisodeShell(rel) == [ShellOf(session)]
    ensures used' == used + Ids(log.Members(rel))
  {
    EpisodeCardFacts(log, rel);
    var group := StableSort(members, TsKey);
    var anchor := log.codes.PickHead(group);
    session, used' := CardWithSteps(GroupKind(group, anchor), anchor, group, used);
    assert anchor.id in Ids(group);
  }

  function MemberIds(log: Log, rels: seq<string>): set<int> {
    if rels == [] then {} else MemberIds(log, rels[..|rels| - 1]) + Ids(log.Members(rels[|rels| - 1]))
  }

  /** What the cards of some episodes look like. */
  ghost predicate EpisodeCards(log: Log, sessions: seq<Card>, byEpisode: map<string, Card>, used: set<int>,
    rels: seq<string>)
    reads sessions
  {
    && Map(sessions, ShellOf) == log.EpisodeShells(rels)
    && (forall c | c in sessions :: StepsOnly(log, c))
    && Indexed(log, sessions, byEpisode, rels)
    && used == MemberIds(log, rels)
  }

  /** `_cards_from_episodes`. */
  method CardsFromEpisodes(log: Log, rels: seq<string>, byRelated: map<string, seq<Event>>)
    returns (sessions: seq<Card>, byEpisode: map<string, Card>, used: set<int>)
    requires forall rel | rel in rels :: rel != "" && HasMembers(log, byRelated, rel)
    ensures fresh(sessions) && EpisodeCards(log, sessions, byEpisode, used, rels)
  {
    hide Log.Steps, Log.EpisodeHead, Log.EpisodeShell, Log.Members, StableSort, Filter;
    hide Log.EpisodeShells, MemberIds, EpisodeCards, StepsOnly;
    sessions, byEpisode, used := [], map[], {};
    NoEpisodeCards(log, rels);
    for k := 0 to |rels|
      invariant fresh(sessions) && EpisodeCards(log, sessions, byEpisode, used, rels[..k])
    {
      assert HasMembers(log, byRelated, rels[k]);
      ghost var usedBefore := used;
      var session;
      session, used := CardFromEpisode(log, rels[k], byRelated[rels[k]], used);
      EpisodeCardsStep(log, sessions, byEpisode, usedBefore, used, rels, k, session);
      sessions := sessions + [session];
      byEpisode := byEpisode[rels[k] := session];
    }
    assert rels[..|rels|] == rels;
  }

  lemma NoEpisodeCards(log: Log, rels: seq<string>)
    ensures EpisodeCards(log, [], map[], {}, rels[..0])
  {
  }

  lemma EpisodeCardsStep(log: Log, sessions: seq<Card>, byEpisode: map<string, Card>, before: set<int>, after: set<int>,
                         rels: seq<string>, k: nat, session: Card)
    requires k < |rels| && EpisodeCards(log, sessions, byEpisode, before, rels[..k])
    requires StepsOnly(log, session) && log.EpisodeHead(rels[k]) == Some(session.head)
    requires log.EpisodeShell(rels[k]) == [ShellOf(session)] && after == before + Ids(log.Members(rels[k]))
    ensures EpisodeCards(log, sessions + [session], byEpisode[rels[k] := session], after, rels[..k + 1])
  {
    hide Log.EpisodeHead, Log.EpisodeShell, Log.Members, StepsOnly, Log.EpisodeShells, MemberIds;
    EpisodeShellsStep(log, rels, k);
    MapAppend(sessions, [session], ShellOf);
  }

  lemma EpisodeShellsStep(log: Log, rels: seq<string>, k: nat)
    requires k < |rels|
    ensures log.EpisodeShells(rels[..k + 1]) == log.EpisodeShells(rels[..k]) + log.EpisodeShell(rels[k])
    ensures MemberIds(log, rels[..k + 1]) == MemberIds(log, rels[..k]) + Ids(log.Members(rels[k]))
    ensures rels[..k + 1] == rels[..k] + [rels[k]]
  {
    assert rels[..k + 1][..k] == rels[..k];
  }

  /** The ids the episode cards use are those of the anchors that name an episode. */
  lemma {:induction false} MemberIdsFacts(log: Log, rels: seq<string>, e: Event)
    requires log.Valid() && e in log.events
    ensures e.id in MemberIds(log, rels) <==> log.codes.Anchor(e) && e.related.Some? && e.related.value in rels
  {
    if rels != [] {
      var n := |rels| - 1;
      MemberIdsFacts(log, rels[..n], e);
      MembersFacts(log, rels[n]);
      IdsOfGroup(log, log.Members(rels[n]));
      assert rels == rels[..n] + [rels[n]];
    }
  }

  lemma IdsOfGroup(log: Log, group: seq<Event>)
    requires log.Valid() && forall e | e in group :: e in log.events
    ensures forall e | e in log.events :: e.id in Ids(group) <==> e in group
  {
    forall e | e in log.events && e.id in Ids(group) ensures e in group {
      var g :| g in group && g.id == e.id;
      SameId(log, e, g);
    }
  }

  lemma SameId(log: Log, x: Event, y: Event)
    requires log.Valid() && x in log.events && y in log.events && x.id == y.id
    ensures x == y
  {
    var i :| 0 <= i < |log.events| && log.events[i] == x;
    var j :| 0 <= j < |log.events| && log.events[j] == y;
    assert IdOf(log.events[i]) == IdOf(log.events[j]);
  }

  /** `_cards_from_loose_visits`. */
  method CardsFromLooseVisits(loose: seq<Event>, used: set<int>) returns (sessions: seq<Card>, used': set<int>)
    ensures fresh(sessions) && |sessions| == |loose|
    ensures forall i | 0 <= i < |loose| ::
      ShellOf(sessions[i]) == Shell(Visit, loose[i]) && sessions[i].lines == [] && sessions[i].media == loose[i].media
    ensures forall i, j | 0 <= i < j < |sessions| :: sessions[i] != sessions[j]
    ensures used' == used + Ids(loose)
  {
    sessions, used' := [], used;
    for k := 0 to |loose|
      invariant fresh(sessions) && |sessions| == k
      invariant forall i | 0 <= i < k ::
        ShellOf(sessions[i]) == Shell(Visit, loose[i]) && sessions[i].lines == [] && sessions[i].media == loose[i].media
      invariant forall i, j | 0 <= i < j < k :: sessions[i] != sessions[j]
      invariant used' == used + Ids(loose[..k])
    {
      assert loose[..k + 1] == loose[..k] + [loose[k]];
      used' := used' + {loose[k].id};
      var session := new Card(Visit, loose[k]);
      sessions := sessions + [session];
    }
    assert loose[..|loose|] == loose;
  }

  // --- the follow-up passes --------------------------------------------------

  /** What `_episode_parents` maps: the parent named by the first event of the episode to name one. */
  ghost predicate ParentsOf(log: Log, events: seq<Event>, parents: map<string, string>) {
    forall rel ::
      match First(events, log.NamesParentOf(Some(rel)))
      case Some(e) => rel in parents && e.parent == Some(parents[rel])
      case None => rel !in parents
  }

  /** `_episode_parents`. */
  method EpisodeParents(log: Log) returns (parents: map<string, string>)
    ensures ParentsOf(log, log.events, parents)
  {
    parents := map[];
    for k := 0 to |log.events|
      invariant ParentsOf(log, log.events[..k], parents)
    {
      var e := log.events[k];
      assert log.events[..k + 1] == log.events[..k] + [e];
      forall rel: string {
        FirstSnoc(log.events[..k], e, log.NamesParentOf(Some(rel)));
      }
      if log.NamesParent(e) && e.related.value !in parents {
        parents := parents[e.related.value := e.parent.value];
      }
    }
    assert log.events[..|log.events|] == log.events;
  }

  /** `parents.get(rel) or parent_event` is the model's parent link. */
  lemma ParentLookup(log: Log, parents: map<string, string>, e: Event)
    requires ParentsOf(log, log.events, parents)
    ensures log.ParentLink(e)
      == if e.related.Some? && e.related.value in parents then Some(parents[e.related.value]) else e.parent
  {
    if e.related.None? {
      assert First(log.events, log.NamesParentOf(e.related)).None?;
    }
  }

  /** The candidate test and the key of a nearest-card choice, over cards. */
  function OnCard(test: Shell -> bool): Card -> bool {
    (c: Card) => test(ShellOf(c))
  }

  function KeyOnCard(key: Shell -> real): Card -> real {
    (c: Card) => key(ShellOf(c))
  }

  /** The nearest card: the source's candidate list and its `min`. Choosing among cards is
      choosing among their shells. */
  method ChooseCard(cards: seq<Card>, test: Shell -> bool, key: Shell -> real) returns (target: Option<Card>)
    ensures match Closest(Filter(Map(cards, ShellOf), test), key)
      case None => target.None?
      case Some(h) => target.Some? && target.value in cards && target.value.head == h
  {
    var candidates := Filter(cards, OnCard(test));
    FilterMember(cards, OnCard(test));
    FilterMap(cards, ShellOf, OnCard(test), test);
    if candidates == [] {
      return None;
    }
    MinByMap(candidates, ShellOf, KeyOnCard(key), key);
    return Some(MinBy(candidates, KeyOnCard(key)));
  }

  // Lines as a function of the card.

  ghost predicate LinesBy(sessions: seq<Card>, base: Shell -> seq<Event>)
    reads sessions
  {
    forall c | c in sessions :: c.lines == Bare(base(ShellOf(c)))
  }

  /** `base`, then the first `k` events that `tag` puts on the card. */
  function Plus(log: Log, base: Shell -> seq<Event>, tag: Event -> Via, k: nat): Shell -> seq<Event>
    requires k <= |log.events|
  {
    (s: Shell) => base(s) + Filter(log.events[..k], log.Is(tag(s.head)))
  }

  lemma PlusStart(log: Log, base: Shell -> seq<Event>, tag: Event -> Via, s: Shell)
    ensures Plus(log, base, tag, 0)(s) == base(s)
  {
    assert log.events[..0] == [];
  }

  lemma PlusStep(log: Log, base: Shell -> seq<Event>, tag: Event -> Via, k: nat, s: Shell)
    requires k < |log.events|
    ensures Plus(log, base, tag, k + 1)(s)
         == Plus(log, base, tag, k)(s) + if log.ViaOf(log.events[k]) == tag(s.head) then [log.events[k]] else []
  {
    FilterStep(log.events, k, log.Is(tag(s.head)));
  }

  lemma UsedStep(log: Log, used: set<int>, pass: nat, k: nat)
    requires log.Valid() && k < |log.events| && UsedUpTo(log, used, pass, k)
    ensures UsedUpTo(
      log, if Rank(log.ViaOf(log.events[k])) == pass then used + {log.events[k].id} else used, pass, k + 1)
  {
    forall j | 0 <= j < |log.events| && log.events[j].id == log.events[k].id ensures j == k {
      assert IdOf(log.events[j]) == IdOf(log.events[k]);
    }
  }

  lemma UsedNext(log: Log, used: set<int>, pass: nat)
    requires UsedUpTo(log, used, pass, |log.events|)
    ensures UsedUpTo(log, used, pass + 1, 0)
  {
  }

  /** The turn of a pass over event `k`: when the pass takes the event, hang it on its card. */
  method Turn(log: Log, k: nat, sessions: seq<Card>, target: Option<Card>, used: set<int>,
              ghost base: Shell -> seq<Event>, ghost tag: Event -> Via, ghost pass: nat)
    returns (used': set<int>)
    requires log.Valid() && k < |log.events| && DistinctCards(sessions)
    requires forall g, h :: tag(g) == tag(h) ==> g == h
    requires target.Some? ==> target.value in sessions && log.ViaOf(log.events[k]) == tag(target.value.head)
    requires target.None? ==> forall c | c in sessions :: log.ViaOf(log.events[k]) != tag(c.head)
    requires target.Some? <==> Rank(log.ViaOf(log.events[k])) == pass
    requires LinesBy(sessions, Plus(log, base, tag, k)) && UsedUpTo(log, used, pass, k)
    modifies sessions
    ensures LinesBy(sessions, Plus(log, base, tag, k + 1)) && UsedUpTo(log, used', pass, k + 1)
  {
    hide Log.ViaOf;
    var e := log.events[k];
    UsedStep(log, used, pass, k);
    used' := used;
    forall c | c in sessions {
      PlusStep(log, base, tag, k, ShellOf(c));
    }
    match target
    case None =>
    case Some(card) =>
      used' := Attach(card, e, used);
      BareAppend(Plus(log, base, tag, k)(ShellOf(card)), e);
  }

  // --- what is left for each pass --------------------------------------------

  lemma LeftAfterBase(log: Log, e: Event)
    requires e in log.events && Rank(log.ViaOf(e)) >= 1
    ensures log.ViaOf(e).Linked? <==> log.LinkTarget(e).Some?
    ensures log.ViaOf(e).Linked? ==> log.ViaOf(e) == Linked(log.LinkTarget(e).value)
  {
    hide Log.LinkTarget, Log.NearTarget, Log.TailTarget, Log.CycleHead;
    if log.Based(e) && Truthy(e.related) {
      EpisodeHeadFacts(log, e.related.value);
    }
  }

  lemma LeftAfterLinks(log: Log, e: Event)
    requires e in log.events && Rank(log.ViaOf(e)) >= 2
    ensures log.ViaOf(e).Near? <==> e.kind == Cleaning && log.NearTarget(e).Some?
    ensures log.ViaOf(e).Near? ==> log.ViaOf(e) == Near(log.NearTarget(e).value)
    ensures log.NearTarget(e).Some? ==> e.ts.Some?
  {
    hide Log.LinkTarget, Log.NearTarget, Log.TailTarget, Log.CycleHead;
    if log.Based(e) && Truthy(e.related) {
      EpisodeHeadFacts(log, e.related.value);
    }
    NearTargetFacts(log, e);
  }

  lemma LeftAfterVisits(log: Log, e: Event)
    requires e in log.events
    ensures log.Stray(e) <==> e.kind == Cleaning && Rank(log.ViaOf(e)) >= 3
    ensures log.Stray(e) ==> (log.ViaOf(e).Stranded? <==> Truthy(e.related) && log.CycleHead(e.related.value).Some?)
    ensures log.ViaOf(e).Stranded? ==> log.Stray(e)
  {
    hide Log.CycleHead, Log.NearTarget, Log.TailTarget, Log.LinkTarget;
    if log.Based(e) && Truthy(e.related) {
      EpisodeHeadFacts(log, e.related.value);
    }
  }

  lemma LeftAfterCycles(log: Log, e: Event)
    requires e in log.events && Rank(log.ViaOf(e)) >= 4
    ensures log.ViaOf(e).Tail? <==> e.kind == Cleaning && log.TailTarget(e).Some?
    ensures log.ViaOf(e).Tail? ==> log.ViaOf(e) == Tail(log.TailTarget(e).value)
    ensures log.TailTarget(e).Some? ==> e.ts.Some?
  {
    hide Log.LinkTarget, Log.NearTarget, Log.TailTarget, Log.CycleHead;
    if log.Based(e) && Truthy(e.related) {
      EpisodeHeadFacts(log, e.related.value);
    }
    if log.TailTarget(e).Some? {
      TailNeedsTime(log, e);
    }
  }

  lemma TailNeedsTime(log: Log, e: Event)
    requires log.TailTarget(e).Some?
    ensures e.ts.Some?
  {
    TailTargetFacts(log, e);
  }

  // --- the passes ------------------------------------------------------------

  function LinkTag(): Event -> Via {
    (h: Event) => Linked(h)
  }

  function NearTag(): Event -> Via {
    (h: Event) => Near(h)
  }

  function TailTag(): Event -> Via {
    (h: Event) => Tail(h)
  }

  /** The index holds a card for every episode that has one. */
  ghost predicate IndexComplete(log: Log, sessions: seq<Card>, byEpisode: map<string, Card>) {
    forall rel | rel != "" ::
      match log.EpisodeHead(rel)
      case Some(h) => rel in byEpisode && byEpisode[rel] in sessions && byEpisode[rel].head == h
      case None => rel !in byEpisode
  }

  lemma LinesStart(log: Log, sessions: seq<Card>, base: Shell -> seq<Event>, tag: Event -> Via)
    requires LinesBy(sessions, base)
    ensures LinesBy(sessions, Plus(log, base, tag, 0))
  {
    forall s {
      PlusStart(log, base, tag, s);
    }
  }

  lemma TagsInjective()
    ensures forall g, h | LinkTag()(g) == LinkTag()(h) :: g == h
    ensures forall g, h | NearTag()(g) == NearTag()(h) :: g == h
    ensures forall g, h | TailTag()(g) == TailTag()(h) :: g == h
  {
  }

  lemma VisitCards(log: Log, sessions: seq<Card>)
    requires Map(sessions, ShellOf) == log.BaseShells()
    ensures forall c | c in Filter(sessions, OnCard(IsVisit)) :: c in sessions
    ensures Map(Filter(sessions, OnCard(IsVisit)), ShellOf) == log.Visits()
  {
    FilterMember(sessions, OnCard(IsVisit));
    FilterMap(sessions, ShellOf, OnCard(IsVisit), IsVisit);
  }

  lemma NearTargetDef(log: Log, e: Event)
    ensures log.NearTarget(e) == Closest(Filter(log.Visits(), VisitNear(e)), Gap(e))
  {
  }

  lemma TailTargetDef(log: Log, e: Event)
    ensures log.TailTarget(e) == Closest(Filter(log.CleaningShells(), CleaningNear(e)), Distance(e))
  {
  }

  /** The card the explicit link of `e` leads to. */
  lemma LinkLookup(log: Log, sessions: seq<Card>, byEpisode: map<string, Card>, e: Event)
    requires IndexComplete(log, sessions, byEpisode)
    ensures log.LinkTarget(e).Some? <==>
      && Attachable(e.kind) && Truthy(log.ParentLink(e)) && log.ParentLink(e).value in byEpisode
      && byEpisode[log.ParentLink(e).value].head.device == e.device
    ensures log.LinkTarget(e).Some? ==>
      && byEpisode[log.ParentLink(e).value] in sessions
      && byEpisode[log.ParentLink(e).value].head == log.LinkTarget(e).value
  {
  }

  /** `_attach_linked_followups`. */
  method AttachLinkedFollowups(log: Log, parents: map<string, string>, byEpisode: map<string, Card>,
                               sessions: seq<Card>, used: set<int>, ghost base: Shell -> seq<Event>)
    returns (used': set<int>)
    requires log.Valid() && ParentsOf(log, log.events, parents) && IndexComplete(log, sessions, byEpisode)
    requires DistinctCards(sessions) && LinesBy(sessions, base) && UsedUpTo(log, used, 1, 0)
    modifies sessions
    ensures LinesBy(sessions, Plus(log, base, LinkTag(), |log.events|)) && UsedUpTo(log, used', 2, 0)
  {
    hide Log.ViaOf, Log.LinkTarget, Log.ParentLink, ParentsOf, IndexComplete, DistinctKeys, DistinctCards;
    used' := used;
    forall s {
      PlusStart(log, base, LinkTag(), s);
    }
    for k := 0 to |log.events|
      invariant LinesBy(sessions, Plus(log, base, LinkTag(), k)) && UsedUpTo(log, used', 1, k)
    {
      var e := log.events[k];
      var target: Option<Card> := None;
      if e.id !in used' && Attachable(e.kind) {
        var parent :=
          if e.related.Some? && e.related.value in parents then Some(parents[e.related.value]) else e.parent;
        ParentLookup(log, parents, e);
        if Truthy(parent) && parent.value in byEpisode && byEpisode[parent.value].head.device == e.device {
          target := Some(byEpisode[parent.value]);
        }
      }
      LinkDecision(log, parents, byEpisode, sessions, used', k, target);
      used' := Turn(log, k, sessions, target, used', base, LinkTag(), 1);
    }
    UsedNext(log, used', 1);
  }

  lemma LinkDecision(log: Log, parents: map<string, string>, byEpisode: map<string, Card>, sessions: seq<Card>,
                     used: set<int>, k: nat, target: Option<Card>)
    requires k < |log.events| && ParentsOf(log, log.events, parents) && IndexComplete(log, sessions, byEpisode)
    requires UsedUpTo(log, used, 1, k)
    requires var e := log.events[k];
      target == if e.id !in used && Attachable(e.kind) && Truthy(log.ParentLink(e))
        && log.ParentLink(e).value in byEpisode
                   && byEpisode[log.ParentLink(e).value].head.device == e.device
                then Some(byEpisode[log.ParentLink(e).value]) else None
    ensures target.Some? ==> target.value in sessions && log.ViaOf(log.events[k]) == Linked(target.value.head)
    ensures target.Some? <==> Rank(log.ViaOf(log.events[k])) == 1
  {
    hide Log.ViaOf, Log.LinkTarget, Log.ParentLink, ParentsOf;
    var e := log.events[k];
    LinkLookup(log, sessions, byEpisode, e);
    if Rank(log.ViaOf(e)) >= 1 {
      LeftAfterBase(log, e);
    }
  }

  /** `_attach_nearby_cleanings`. */
  method AttachNearbyCleanings(log: Log, sessions: seq<Card>, used: set<int>, ghost base: Shell -> seq<Event>)
    returns (used': set<int>)
    requires log.Valid() && Map(sessions, ShellOf) == log.BaseShells()
    requires DistinctCards(sessions) && LinesBy(sessions, base) && UsedUpTo(log, used, 2, 0)
    modifies sessions
    ensures LinesBy(sessions, Plus(log, base, NearTag(), |log.events|)) && UsedUpTo(log, used', 3, 0)
  {
    hide *;
    used' := used;
    var visits := Filter(sessions, OnCard(IsVisit));
    VisitCards(log, sessions);
    LinesStart(log, sessions, base, NearTag());
    for k := 0 to |log.events|
      invariant LinesBy(sessions, Plus(log, base, NearTag(), k)) && UsedUpTo(log, used', 2, k)
    {
      var e := log.events[k];
      var target: Option<Card> := None;
      if e.id !in used' && e.kind == Cleaning && e.ts.Some? {
        target := ChooseCard(visits, VisitNear(e), Gap(e));
      }
      NearTargetDef(log, e);
      NearDecision(log, used', k, target);
      TagsInjective();
      used' := Turn(log, k, sessions, target, used', base, NearTag(), 2);
    }
    UsedNext(log, used', 2);
  }

  lemma NearDecision(log: Log, used: set<int>, k: nat, target: Option<Card>)
    requires k < |log.events| && UsedUpTo(log, used, 2, k)
    requires var e := log.events[k];
      && (target.Some? <==> e.id !in used && e.kind == Cleaning && e.ts.Some? && log.NearTarget(e).Some?)
      && (target.Some? ==> target.value.head == log.NearTarget(e).value)
    ensures target.Some? ==> log.ViaOf(log.events[k]) == NearTag()(target.value.head)
    ensures target.None? ==> forall h :: log.ViaOf(log.events[k]) != NearTag()(h)
    ensures target.Some? <==> Rank(log.ViaOf(log.events[k])) == 2
  {
    hide Log.ViaOf, Log.NearTarget;
    if Rank(log.ViaOf(log.events[k])) >= 2 {
      LeftAfterLinks(log, log.events[k]);
    }
  }

  // --- cleaning cycles nobody claimed ----------------------------------------

  /** `_cards_from_orphan_cleanings`, first half: the unclaimed cleaning steps by episode. */
  method StrandedEpisodes(log: Log, used: set<int>) returns (rels: seq<string>, groups: map<string, seq<Event>>)
    requires log.Valid() && UsedUpTo(log, used, 3, 0)
    ensures Grouped(Filter(log.events, log.IsStray()), rels, groups)
  {
    hide Log.ViaOf, Log.Stray, Grouped;
    rels, groups := [], map[];
    assert log.events[..0] == [];
    assert Grouped([], rels, groups) by {
      EmptyGroups();
    }
    for k := 0 to |log.events|
      invariant Grouped(Filter(log.events[..k], log.IsStray()), rels, groups)
    {
      var e := log.events[k];
      FilterStep(log.events, k, log.IsStray());
      LeftAfterVisits(log, e);
      if Truthy(e.related) && e.id !in used && e.kind == Cleaning {
        rels, groups := AddToGroup(Filter(log.events[..k], log.IsStray()), e, rels, groups);
      } else if log.Stray(e) {
        GroupsIgnore(Filter(log.events[..k], log.IsStray()), e, rels, groups);
      }
    }
    assert log.events[..|log.events|] == log.events;
  }

  lemma EmptyGroups()
    ensures Grouped([], [], map[])
  {
  }

  lemma GroupsIgnore(s: seq<Event>, e: Event, rels: seq<string>, groups: map<string, seq<Event>>)
    requires Grouped(s, rels, groups) && !Truthy(e.related)
    ensures Grouped(s + [e], rels, groups)
  {
    assert (s + [e])[..|s|] == s;
    RelsFacts(s);
    forall rel | rel in groups ensures Filter(s + [e], RelatedTo(rel)) == Filter(s, RelatedTo(rel)) {
      FilterSnoc(s, e, RelatedTo(rel));
    }
  }

  /** The groups handed to the second half, up to the sort it does itself. */
  ghost predicate HasStrays(log: Log, groups: map<string, seq<Event>>, rel: string) {
    rel in groups && StableSort(groups[rel], TsKey) == log.Strays(rel)
  }

  lemma GroupsHaveStrays(log: Log, rels: seq<string>, groups: map<string, seq<Event>>)
    requires Grouped(Filter(log.events, log.IsStray()), rels, groups)
    ensures forall rel | rel in rels :: rel != "" && HasStrays(log, groups, rel)
    ensures rels == Rels(Filter(log.events, log.IsStray()))
  {
    RelsFacts(Filter(log.events, log.IsStray()));
    forall rel | rel in rels ensures HasStrays(log, groups, rel) {
      FilterTwice(log.events, log.IsStray(), RelatedTo(rel), log.StrayIn(rel));
    }
  }

  /** The ids of the cleaning episodes that got a card. */
  function CycleIds(log: Log, rels: seq<string>): set<int> {
    if rels == [] then {} else
      CycleIds(log, rels[..|rels| - 1])
      + if log.CycleHead(rels[|rels| - 1]).Some? then Ids(log.Strays(rels[|rels| - 1])) else {}
  }

  lemma CycleStep(log: Log, rels: seq<string>, k: nat)
    requires k < |rels|
    ensures log.CycleShells(rels[..k + 1]) == log.CycleShells(rels[..k]) + log.CycleShell(rels[k])
    ensures CycleIds(log, rels[..k + 1])
         == CycleIds(log, rels[..k]) + if log.CycleHead(rels[k]).Some? then Ids(log.Strays(rels[k])) else {}
  {
    assert rels[..k + 1][..k] == rels[..k];
  }

  lemma CycleCardFacts(log: Log, rel: string)
    requires rel != ""
    ensures log.CycleHead(rel) == First(log.Strays(rel), log.codes.IsDone())
    ensures log.CycleHead(rel).None? ==> log.CycleShell(rel) == []
    ensures log.CycleHead(rel).Some? ==> var s := Shell(Episode(Cleaning), log.CycleHead(rel).value);
      log.CycleShell(rel) == [s] && log.Steps(s) == Filter(log.Strays(rel), Not(s.head))
  {
    CycleHeadFacts(log, rel);
  }

  ghost predicate CycleCards(log: Log, sessions: seq<Card>, used0: set<int>, used: set<int>, rels: seq<string>)
    reads sessions
  {
    && Map(sessions, ShellOf) == log.CycleShells(rels)
    && (forall c | c in sessions :: StepsOnly(log, c))
    && used == used0 + CycleIds(log, rels)
  }

  /** `_cards_from_orphan_cleanings`, second half: a card for every episode with a completion step. */
  method CardsFromOrphanCleanings(log: Log, rels: seq<string>, groups: map<string, seq<Event>>, used: set<int>)
    returns (sessions: seq<Card>, used': set<int>)
    requires forall rel | rel in rels :: rel != "" && HasStrays(log, groups, rel)
    ensures fresh(sessions) && CycleCards(log, sessions, used, used', rels)
  {
    hide Log.Steps, Log.CycleHead, Log.CycleShell, Log.Strays, Log.CycleShells, CycleIds, StableSort, Filter;
    hide CycleCards, StepsOnly;
    sessions, used' := [], used;
    NoCycleCards(log, used, rels);
    for k := 0 to |rels|
      invariant fresh(sessions) && CycleCards(log, sessions, used, used', rels[..k])
    {
      var rel := rels[k];
      assert HasStrays(log, groups, rel);
      var group := StableSort(groups[rel], TsKey);
      CycleCardFacts(log, rel);
      match First(group, log.codes.IsDone())
      case None =>
        CycleCardsSkip(log, sessions, used, used', rels, k);
      case Some(anchor) =>
        ghost var usedBefore := used';
        var session;
        session, used' := CardWithSteps(Episode(Cleaning), anchor, group, used');
        assert anchor.id in Ids(group);
        CycleCardsStep(log, sessions, used, usedBefore, used', rels, k, session);
        sessions := sessions + [session];
    }
    assert rels[..|rels|] == rels;
  }

  lemma NoCycleCards(log: Log, used: set<int>, rels: seq<string>)
    ensures CycleCards(log, [], used, used, rels[..0])
  {
  }

  lemma CycleCardsSkip(log: Log, sessions: seq<Card>, used0: set<int>, used: set<int>, rels: seq<string>, k: nat)
    requires k < |rels| && CycleCards(log, sessions, used0, used, rels[..k])
    requires log.CycleHead(rels[k]).None? && log.CycleShell(rels[k]) == []
    ensures CycleCards(log, sessions, used0, used, rels[..k + 1])
  {
    hide Log.CycleHead, Log.CycleShell, Log.CycleShells, CycleIds, StepsOnly;
    CycleStep(log, rels, k);
  }

  lemma CycleCardsStep(log: Log, sessions: seq<Card>, used0: set<int>, before: set<int>, after: set<int>,
                       rels: seq<string>, k: nat, session: Card)
    requires k < |rels| && CycleCards(log, sessions, used0, before, rels[..k])
    requires log.CycleHead(rels[k]).Some? && log.CycleShell(rels[k]) == [ShellOf(session)]
    requires ShellOf(session) == Shell(Episode(Cleaning), log.CycleHead(rels[k]).value)
    requires session.media == session.head.media
    requires session.lines == Bare(log.Steps(ShellOf(session))) && after == before + Ids(log.Strays(rels[k]))
    ensures CycleCards(log, sessions + [session], used0, after, rels[..k + 1])
  {
    hide Log.CycleHead, Log.CycleShell, Log.CycleShells, CycleIds, Log.Strays, Log.Steps;
    CycleStep(log, rels, k);
    MapAppend(sessions, [session], ShellOf);
  }
}
