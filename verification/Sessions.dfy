/** The Timeline's cards: how stored event rows are grouped into visits, episodes,
    cleaning cycles and standalone rows (events/sessions.py).

    The datatype `Log` says declaratively on which card every event belongs and what the
    finished timeline is; SessionPasses.dfy holds the passes that compute it and
    SessionLaws.dfy what is true of it. */
module Sessions {
  import opened Common

  datatype Kind = Toilet | Cleaning | Pet | Motion | Error | Feeding | Drinking | Other | Unset

  datatype Media = Media(id: int)

  /** One stored row. `None` is a NULL column. */
  datatype Event = Event(
    id: int, related: Option<string>, parent: Option<string>, device: int, deviceType: string,
    eventType: string, kind: Kind, ts: Option<real>, media: seq<Media>)

  /** What a card is: a visit, an episode of some other kind, or a bare row. */
  datatype CardKind = Visit | Episode(kind: Kind) | Row

  /** A card before anything hangs off it. */
  datatype Shell = Shell(kind: CardKind, head: Event)

  datatype Line = Line(event: Event, media: seq<Media>)

  /** A finished card. */
  datatype View = View(kind: CardKind, head: Event, lines: seq<Line>, media: seq<Media>)

  /** Why an event is on the card it is on; the payload is the head of that card. */
  datatype Via = Member(head: Event) | Loose | Linked(head: Event) | Near(head: Event)
               | Stranded(head: Event) | Tail(head: Event) | Alone

  const SUB_EVENT_WINDOW_SEC := 600.0
  const CYCLE_TAIL_WINDOW_SEC := 120.0

  /** Python truth of a text column. */
  predicate Truthy(text: Option<string>) {
    text.Some? && text.value != ""
  }

  function TsKey(e: Event): real {
    e.ts.GetOr(0.0)
  }

  function IdOf(e: Event): int {
    e.id
  }

  function HeadOf(s: Shell): Event {
    s.head
  }

  function NewestFirst(s: Shell): real {
    -TsKey(s.head)
  }

  function Abs(x: real): real {
    if x < 0.0 then -x else x
  }

  predicate Attachable(k: Kind) {
    k in {Cleaning, Pet, Motion, Error}
  }

  function Not(h: Event): Event -> bool {
    (e: Event) => e != h
  }

  /** Distinct truthy episode ids, in order of first appearance: the keys of a dict filled by `setdefault`. */
  function Rels(s: seq<Event>): seq<string> {
    if s == [] then [] else
      var rest := Rels(s[..|s| - 1]);
      var rel := s[|s| - 1].related;
      if Truthy(rel) && rel.value !in rest then rest + [rel.value] else rest
  }

  /** A group with a toilet visit in it is a visit; any other takes its head's kind. */
  function GroupKind(group: seq<Event>, head: Event): CardKind {
    if exists e | e in group :: e.kind == Toilet then Visit else Episode(head.kind)
  }

  // --- nearest cards ---------------------------------------------------------

  predicate IsVisit(s: Shell) {
    s.kind == Visit
  }

  predicate InWindow(s: Shell, e: Event) {
    s.head.device == e.device && s.head.ts.Some? && e.ts.Some?
    && 0.0 <= e.ts.value - s.head.ts.value <= SUB_EVENT_WINDOW_SEC
  }

  function VisitNear(e: Event): Shell -> bool {
    (s: Shell) => InWindow(s, e)
  }

  function Gap(e: Event): Shell -> real {
    (s: Shell) => TsKey(e) - TsKey(s.head)
  }

  predicate InTailWindow(s: Shell, e: Event) {
    s.head.device == e.device && s.head.related != e.related && s.head.ts.Some? && e.ts.Some?
    && Abs(e.ts.value - s.head.ts.value) <= CYCLE_TAIL_WINDOW_SEC
  }

  function CleaningNear(e: Event): Shell -> bool {
    (s: Shell) => InTailWindow(s, e)
  }

  function Distance(e: Event): Shell -> real {
    (s: Shell) => Abs(TsKey(e) - TsKey(s.head))
  }

  /** The head of the first candidate of least key. */
  function Closest(candidates: seq<Shell>, key: Shell -> real): Option<Event> {
    if candidates == [] then None else Some(MinBy(candidates, key).head)
  }

  // --- media -----------------------------------------------------------------

  function AddNew(bucket: seq<Media>, media: seq<Media>): seq<Media> {
    if media == [] then bucket else
      var rest := AddNew(bucket, media[..|media| - 1]);
      if media[|media| - 1] in rest then rest else rest + [media[|media| - 1]]
  }

  /** Everything the episode recorded, each item once. */
  function EpisodeMedia(events: seq<Event>, rel: string): seq<Media> {
    if events == [] then [] else
      var rest := EpisodeMedia(events[..|events| - 1], rel);
      var e := events[|events| - 1];
      if e.related == Some(rel) then AddNew(rest, e.media) else rest
  }

  // --- the codes tables ------------------------------------------------------

  /** The three code sets of events/codes.py the grouping consults; `detail` is
      `is_detail_event` on (event type, device type). */
  datatype Codes = Codes(anchor: set<string>, primaryDone: set<string>, detail: set<(string, string)>) {

    /** Eligible to head a card of its own. */
    predicate Anchor(e: Event) {
      e.kind in {Toilet, Feeding, Drinking}
      || (e.kind in {Pet, Motion, Error} && (e.eventType, e.deviceType) !in detail)
    }

    function IsAnchor(): Event -> bool {
      (e: Event) => Anchor(e)
    }

    predicate LooseVisit(e: Event) {
      Anchor(e) && !Truthy(e.related) && e.kind == Toilet
    }

    function IsLoose(): Event -> bool {
      (e: Event) => LooseVisit(e)
    }

    function InEpisode(rel: string): Event -> bool {
      (e: Event) => Anchor(e) && e.related == Some(rel)
    }

    function HasAnchorCode(): Event -> bool {
      (e: Event) => e.eventType in anchor
    }

    predicate Done(e: Event) {
      e.eventType in primaryDone
    }

    function IsDone(): Event -> bool {
      (e: Event) => Done(e)
    }

    /** The first anchor-coded member, else the last one. */
    function PickHead(members: seq<Event>): (h: Event)
      requires members != []
      ensures h in members
    {
      match First(members, HasAnchorCode())
      case Some(h) => h
      case None => members[|members| - 1]
    }

    /** Whether line `i` is the one that shows its episode's media on a card whose own
        episode is `own`: the episode's first completion line, or failing that its last line. */
    predicate Carries(lines: seq<Event>, own: Option<string>, i: nat)
      requires i < |lines|
    {
      Truthy(lines[i].related) && lines[i].related != own
      && if exists j | 0 <= j < |lines| :: lines[j].related == lines[i].related && Done(lines[j])
         then Done(lines[i]) && forall j | 0 <= j < i :: !(lines[j].related == lines[i].related && Done(lines[j]))
         else forall j | i < j < |lines| :: lines[j].related != lines[i].related
    }

    /** The lines with every foreign episode's media on its carrier. */
    function WithMedia(lines: seq<Event>, own: Option<string>, events: seq<Event>): (r: seq<Line>)
      ensures |r| == |lines|
      ensures forall i | 0 <= i < |r| :: r[i].event == lines[i]
      ensures forall i | 0 <= i < |r| ::
        r[i].media == if Carries(lines, own, i) then EpisodeMedia(events, lines[i].related.value) else []
    {
      seq(|lines|, i requires 0 <= i < |lines| =>
        Line(lines[i], if Carries(lines, own, i) then EpisodeMedia(events, lines[i].related.value) else []))
    }
  }

  // --- where every event belongs ---------------------------------------------

  datatype Log = Log(codes: Codes, events: seq<Event>) {

    /** Event ids are primary keys. */
    ghost predicate Valid() {
      DistinctKeys(events, IdOf)
    }

    // Episode cards.

    /** The anchors of one episode, oldest first. */
    function Members(rel: string): seq<Event> {
      StableSort(Filter(events, codes.InEpisode(rel)), TsKey)
    }

    function EpisodeHead(rel: string): Option<Event> {
      if Members(rel) == [] then None else Some(codes.PickHead(Members(rel)))
    }

    function EpisodeShell(rel: string): seq<Shell> {
      match EpisodeHead(rel)
      case Some(h) => [Shell(GroupKind(Members(rel), h), h)]
      case None => []
    }

    function EpisodeShells(rels: seq<string>): seq<Shell> {
      if rels == [] then [] else EpisodeShells(rels[..|rels| - 1]) + EpisodeShell(rels[|rels| - 1])
    }

    function Anchors(): seq<Event> {
      Filter(events, codes.IsAnchor())
    }

    function VisitShell(): Event -> Shell {
      (e: Event) => Shell(Visit, e)
    }

    function BaseShells(): seq<Shell> {
      EpisodeShells(Rels(Anchors())) + Map(Filter(events, codes.IsLoose()), VisitShell())
    }

    // The device's own links.

    predicate NamesParent(e: Event) {
      Truthy(e.related) && Truthy(e.parent) && e.related != e.parent
    }

    function NamesParentOf(rel: Option<string>): Event -> bool {
      (e: Event) => NamesParent(e) && e.related == rel
    }

    /** The parent an event follows up on: the one its episode names, else its own. */
    function ParentLink(e: Event): Option<string> {
      match First(events, NamesParentOf(e.related))
      case Some(teller) => teller.parent
      case None => e.parent
    }

    function LinkTarget(e: Event): Option<Event> {
      if Attachable(e.kind) && Truthy(ParentLink(e)) then
        match EpisodeHead(ParentLink(e).value)
        case Some(h) => if h.device == e.device then Some(h) else None
        case None => None
      else None
    }

    // Timestamp proximity to a visit.

    function Visits(): seq<Shell> {
      Filter(BaseShells(), IsVisit)
    }

    function NearTarget(e: Event): Option<Event> {
      Closest(Filter(Visits(), VisitNear(e)), Gap(e))
    }

    // Cleaning episodes nobody claimed.

    predicate Based(e: Event) {
      codes.Anchor(e) && (Truthy(e.related) || e.kind == Toilet)
    }

    predicate Stray(e: Event) {
      !Based(e) && e.kind == Cleaning && LinkTarget(e).None? && NearTarget(e).None?
    }

    function IsStray(): Event -> bool {
      (e: Event) => Stray(e)
    }

    function StrayIn(rel: string): Event -> bool {
      (e: Event) => Stray(e) && e.related == Some(rel)
    }

    function Strays(rel: string): seq<Event> {
      StableSort(Filter(events, StrayIn(rel)), TsKey)
    }

    function CycleHead(rel: string): Option<Event> {
      First(Strays(rel), codes.IsDone())
    }

    function CycleShell(rel: string): seq<Shell> {
      match CycleHead(rel)
      case Some(h) => [Shell(Episode(Cleaning), h)]
      case None => []
    }

    function CycleShells(rels: seq<string>): seq<Shell> {
      if rels == [] then [] else CycleShells(rels[..|rels| - 1]) + CycleShell(rels[|rels| - 1])
    }

    function CleaningShells(): seq<Shell> {
      CycleShells(Rels(Filter(events, IsStray())))
    }

    // The tail of a cycle.

    function TailTarget(e: Event): Option<Event> {
      Closest(Filter(CleaningShells(), CleaningNear(e)), Distance(e))
    }

    /** The rule that places an event. */
    function ViaOf(e: Event): Via {
      if Based(e) then
        (if !Truthy(e.related) then Loose else
           match EpisodeHead(e.related.value)
           case Some(h) => Member(h)
           case None => Alone)
      else if LinkTarget(e).Some? then Linked(LinkTarget(e).value)
      else if e.kind != Cleaning then Alone
      else if NearTarget(e).Some? then Near(NearTarget(e).value)
      else if Truthy(e.related) && CycleHead(e.related.value).Some? then Stranded(CycleHead(e.related.value).value)
      else
        match TailTarget(e)
        case Some(h) => Tail(h)
        case None => Alone
    }

    function Is(via: Via): Event -> bool {
      (e: Event) => ViaOf(e) == via
    }

    /** The head of the card an event ends on; itself when it heads one. */
    function Owner(e: Event): Event {
      match ViaOf(e)
      case Loose => e
      case Alone => e
      case via => via.head
    }

    function OwnedBy(h: Event): Event -> bool {
      (e: Event) => Owner(e) == h
    }

    // The finished timeline.

    /** The other events of the card's own episode. */
    function Steps(s: Shell): seq<Event> {
      if s.kind == Row || !Truthy(s.head.related) then []
      else if s.kind == Episode(Cleaning) then Filter(Strays(s.head.related.value), Not(s.head))
      else Filter(Members(s.head.related.value), Not(s.head))
    }

    /** The lines of a card in the order the passes hang them. */
    function RawLines(s: Shell): seq<Event> {
      Steps(s) + Filter(events, Is(Linked(s.head)))
      + Filter(events, Is(Near(s.head))) + Filter(events, Is(Tail(s.head)))
    }

    function RowShell(): Event -> Shell {
      (e: Event) => Shell(Row, e)
    }

    function Shells(): seq<Shell> {
      BaseShells() + CleaningShells() + Map(Filter(events, Is(Alone)), RowShell())
    }

    function Finish(): Shell -> View {
      (s: Shell) =>
        View(s.kind, s.head, codes.WithMedia(StableSort(RawLines(s), TsKey), s.head.related, events), s.head.media)
    }

    /** `group_sessions(events)`: the cards, newest first. */
    function Timeline(): seq<View> {
      Map(StableSort(Shells(), NewestFirst), Finish())
    }
  }
}
