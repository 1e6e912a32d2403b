/** What every run of the session and delivery protocol keeps. */
module DeliveryLaws {
  import opened Common
  import opened Delivery

  /** Where a device's commands have got to. */
  datatype Track = Track(
    accepted: multiset<Command>, inFlight: multiset<Command>, cancelled: multiset<Command>,
    published: seq<Command>, drained: seq<Command>)

  /** The code's state and what happened so far: each device's last accepted session, the sessions
      torn down, every session accepted, and its commands. */
  datatype World = World(
    core: Core, latest: map<Id, Session>, ended: set<Session>, used: set<Session>, tracks: map<Id, Track>)

  function Start(ids: set<Id>): World {
    World(Core(map d | d in ids :: Device(false, false, 0.0, 0.0, 0.0, 0.0, 0.0, []), map[]),
          map[], {}, {}, map d | d in ids :: Track(multiset{}, multiset{}, multiset{}, [], []))
  }

  /** A CONNECT brings a session of its own, a session is torn down under its own client id, and
      only a publish that was begun can end. */
  ghost predicate Enabled(w: World, act: Action) {
    match act
    case Connect(_, _, session, _) => session !in w.used
    case Ended(client, ending) =>
      ending.Some? ==> ending.value in w.used && forall d | d in w.latest && w.latest[d] == ending.value :: d == client
    case PublishDone(client, command) => client in w.tracks && command in w.tracks[client].inFlight
    case PublishFailed(client, command) => client in w.tracks && command in w.tracks[client].inFlight
    case PublishCancelled(client, command) => client in w.tracks && command in w.tracks[client].inFlight
    case _ => true
  }

  function TrackStep(dev: Device, t: Track, act: Action): Track {
    match act
    case Heartbeat(_, _, _) => t.(drained := t.drained + dev.queue)
    case Deliver(_, command, sinkUp) =>
      if GoesDirect(dev, sinkUp)
      then t.(accepted := t.accepted + multiset{command}, inFlight := t.inFlight + multiset{command})
      else t.(accepted := t.accepted + multiset{command})
    case PublishDone(_, command) =>
      t.(inFlight := t.inFlight - multiset{command}, published := t.published + [command])
    case PublishFailed(_, command) => t.(inFlight := t.inFlight - multiset{command})
    case PublishCancelled(_, command) =>
      t.(inFlight := t.inFlight - multiset{command}, cancelled := t.cancelled + multiset{command})
    case _ => t
  }

  function Step(w: World, act: Action, strict: bool): World {
    var core := CoreStep(w.core, act, strict);
    match act
    case Connect(_, _, session, _) =>
      (match AcceptedFor(w.core, act, strict)
       case Some(d) => w.(core := core, latest := w.latest[d := session], used := w.used + {session})
       case None => w.(core := core, used := w.used + {session}))
    case Ended(_, ending) => w.(core := core, ended := if ending.Some? then w.ended + {ending.value} else w.ended)
    case Packet(_, _) => w.(core := core)
    case _ =>
      if act.client in w.tracks && act.client in w.core.devices
      then
        var t := TrackStep(w.core.devices[act.client], w.tracks[act.client], act);
        w.(core := core, tracks := w.tracks[act.client := t])
      else w.(core := core)
  }

  ghost predicate Legal(w: World, acts: seq<Action>, strict: bool)
    decreases acts
  {
    acts != [] ==> Enabled(w, acts[0]) && Legal(Step(w, acts[0], strict), acts[1..], strict)
  }

  function Run(w: World, acts: seq<Action>, strict: bool): World
    decreases acts
  {
    if acts == [] then w else Run(Step(w, acts[0], strict), acts[1..], strict)
  }

  // --- sessions --------------------------------------------------------------

  /** A recorded session is the one last accepted, and a raised flag has one that is not torn down. */
  ghost predicate SessionsOk(w: World) {
    && (forall d | d in w.core.live :: d in w.latest && w.core.live[d] == w.latest[d])
    && (forall d | d in w.latest :: w.latest[d] in w.used)
    && (forall s | s in w.ended :: s in w.used)
    && (forall d, e | d in w.latest && e in w.latest && w.latest[d] == w.latest[e] :: d == e)
    && (forall d | d in w.core.devices && w.core.devices[d].connected :: d in w.core.live && w.latest[d] !in w.ended)
  }

  /** Anything but a CONNECT or a teardown: it concerns one device and can only take its flag down. */
  predicate Local(act: Action) {
    !act.Connect? && !act.Ended? && !act.Packet?
  }

  lemma LocalStep(w: World, act: Action, strict: bool)
    requires Local(act)
    ensures var w' := Step(w, act, strict);
            && w' == w.(core := w'.core, tracks := w'.tracks) && w'.core.live == w.core.live
            && (if act.client in w.core.devices
                then w'.core.devices == w.core.devices[act.client := DeviceStep(w.core.devices[act.client], act)]
                else w'.core.devices == w.core.devices)
            && (if act.client in w.tracks && act.client in w.core.devices
                then var t := TrackStep(w.core.devices[act.client], w.tracks[act.client], act);
                     w'.tracks == w.tracks[act.client := t]
                else w'.tracks == w.tracks)
  {
    hide DeviceStep, TrackStep;
  }

  lemma OnlyConnectRaises(dev: Device, act: Action)
    requires Local(act)
    ensures DeviceStep(dev, act).connected ==> dev.connected
    ensures !IsBackstop(act) ==> DeviceStep(dev, act).connected == dev.connected
  {
  }

  lemma SessionsConnect(w: World, act: Action, strict: bool)
    requires SessionsOk(w) && Enabled(w, act) && act.Connect?
    ensures SessionsOk(Step(w, act, strict))
  {
  }

  lemma SessionsEnded(w: World, act: Action, strict: bool)
    requires SessionsOk(w) && Enabled(w, act) && act.Ended?
    ensures SessionsOk(Step(w, act, strict))
  {
  }

  lemma SessionsPacket(w: World, act: Action, strict: bool)
    requires SessionsOk(w) && act.Packet?
    ensures SessionsOk(Step(w, act, strict))
  {
  }

  lemma SessionsStep(w: World, act: Action, strict: bool)
    requires SessionsOk(w) && Enabled(w, act)
    ensures SessionsOk(Step(w, act, strict))
  {
    hide Step, Enabled, DeviceStep, TrackStep;
    match act
    case Connect(_, _, _, _) => SessionsConnect(w, act, strict);
    case Ended(_, _) => SessionsEnded(w, act, strict);
    case Packet(_, _) => SessionsPacket(w, act, strict);
    case _ =>
      LocalStep(w, act, strict);
      if act.client in w.core.devices {
        OnlyConnectRaises(w.core.devices[act.client], act);
      }
  }

  lemma {:induction false} SessionsRun(w: World, acts: seq<Action>, strict: bool)
    requires SessionsOk(w) && Legal(w, acts, strict)
    ensures SessionsOk(Run(w, acts, strict))
    decreases acts
  {
    hide SessionsOk, Step, Enabled;
    if acts != [] {
      SessionsStep(w, acts[0], strict);
      SessionsRun(Step(w, acts[0], strict), acts[1..], strict);
    }
  }

  /** In every reachable state a device marked connected has its most recently accepted session
      recorded as the live one, and that session has not been torn down. */
  lemma ConnectedMeansLiveLatest(ids: set<Id>, acts: seq<Action>, strict: bool, d: Id)
    requires Legal(Start(ids), acts, strict)
    requires var w := Run(Start(ids), acts, strict); d in w.core.devices && w.core.devices[d].connected
    ensures var w := Run(Start(ids), acts, strict);
            d in w.core.live && d in w.latest && w.core.live[d] == w.latest[d] && w.latest[d] !in w.ended
  {
    SessionsRun(Start(ids), acts, strict);
    hide Run, Legal, Step;
  }

  /** Tearing down a session that a later CONNECT replaced clears nothing; tearing down the last one does. */
  lemma TakeOver(w: World, d: Id, s: Session, strict: bool)
    requires SessionsOk(w) && Enabled(w, Ended(d, Some(s)))
    requires d in w.core.devices && w.core.devices[d].connected
    ensures w.latest[d] != s ==> Step(w, Ended(d, Some(s)), strict).core == w.core
    ensures w.latest[d] == s ==> !Step(w, Ended(d, Some(s)), strict).core.devices[d].connected
  {
  }

  /** The backstops: the watchdog, a believed `iotStatus`, a teardown that names no session. */
  predicate IsBackstop(act: Action) {
    act.Watch? || (act.Heartbeat? && act.iotDown) || (act.Ended? && act.ending.None?)
  }

  ghost predicate Exact(w: World) {
    && (forall d | d in w.latest :: d in w.core.devices)
    && (forall d | d in w.core.devices :: w.core.devices[d].connected <==> d in w.latest && w.latest[d] !in w.ended)
  }

  /** A backstop that fires: the device's flag is up before it and down after it. */
  ghost predicate Fires(w: World, act: Action, strict: bool) {
    IsBackstop(act) && act.client in w.core.devices && w.core.devices[act.client].connected
    && var after := Step(w, act, strict).core.devices; act.client in after && !after[act.client].connected
  }

  ghost predicate NoneFires(w: World, acts: seq<Action>, strict: bool)
    decreases acts
  {
    acts != [] ==> !Fires(w, acts[0], strict) && NoneFires(Step(w, acts[0], strict), acts[1..], strict)
  }

  lemma ExactConnect(w: World, act: Action, strict: bool)
    requires SessionsOk(w) && Exact(w) && Enabled(w, act) && act.Connect?
    ensures Exact(Step(w, act, strict))
  {
  }

  lemma ExactEnded(w: World, act: Action, strict: bool)
    requires SessionsOk(w) && Exact(w) && Enabled(w, act) && act.Ended? && !Fires(w, act, strict)
    ensures Exact(Step(w, act, strict))
  {
  }

  lemma ExactPacket(w: World, act: Action, strict: bool)
    requires Exact(w) && act.Packet?
    ensures Exact(Step(w, act, strict))
  {
  }

  lemma FiringIff(w: World, act: Action, strict: bool)
    requires Local(act) && IsBackstop(act) && act.client in w.core.devices
    ensures Fires(w, act, strict)
      <==> w.core.devices[act.client].connected && !DeviceStep(w.core.devices[act.client], act).connected
  {
    hide DeviceStep, TrackStep;
    LocalStep(w, act, strict);
  }

  lemma ExactLocal(w: World, act: Action, strict: bool)
    requires Exact(w) && Local(act) && !Fires(w, act, strict)
    ensures Exact(Step(w, act, strict))
  {
    hide Step, DeviceStep, TrackStep, IsBackstop, Fires;
    LocalStep(w, act, strict);
    if act.client in w.core.devices {
      OnlyConnectRaises(w.core.devices[act.client], act);
      if IsBackstop(act) {
        FiringIff(w, act, strict);
      }
    }
  }

  lemma ExactStep(w: World, act: Action, strict: bool)
    requires SessionsOk(w) && Exact(w) && Enabled(w, act) && !Fires(w, act, strict)
    ensures Exact(Step(w, act, strict))
  {
    hide Step, Enabled, DeviceStep, TrackStep, SessionsOk, Fires;
    match act
    case Connect(_, _, _, _) => ExactConnect(w, act, strict);
    case Ended(_, _) => ExactEnded(w, act, strict);
    case Packet(_, _) => ExactPacket(w, act, strict);
    case _ => ExactLocal(w, act, strict);
  }

  lemma {:induction false} ExactRun(w: World, acts: seq<Action>, strict: bool)
    requires SessionsOk(w) && Exact(w) && Legal(w, acts, strict) && NoneFires(w, acts, strict)
    ensures Exact(Run(w, acts, strict))
    decreases acts
  {
    hide SessionsOk, Exact, Step, Enabled, Fires;
    if acts != [] {
      SessionsStep(w, acts[0], strict);
      ExactStep(w, acts[0], strict);
      ExactRun(Step(w, acts[0], strict), acts[1..], strict);
    }
  }

  /** As long as no backstop fires, the flag is up exactly while the last accepted session lives. */
  lemma FlagIsExact(ids: set<Id>, acts: seq<Action>, strict: bool, d: Id)
    requires Legal(Start(ids), acts, strict) && NoneFires(Start(ids), acts, strict)
    requires d in Run(Start(ids), acts, strict).core.devices
    ensures var w := Run(Start(ids), acts, strict);
            w.core.devices[d].connected <==> d in w.latest && w.latest[d] !in w.ended
  {
    ExactRun(Start(ids), acts, strict);
    hide Run, Legal, Step;
  }

  // --- commands --------------------------------------------------------------

  ghost predicate Balanced(dev: Device, t: Track) {
    t.accepted == t.inFlight + t.cancelled + multiset(t.published) + multiset(dev.queue) + multiset(t.drained)
  }

  ghost predicate Accounted(w: World) {
    && w.tracks.Keys == w.core.devices.Keys
    && forall d | d in w.tracks :: Balanced(w.core.devices[d], w.tracks[d])
  }

  lemma BalancedMove(dev: Device, t: Track, act: Action)
    requires Balanced(dev, t)
    requires act.PublishDone? || act.PublishFailed? || act.PublishCancelled?
    requires act.command in t.inFlight
    ensures Balanced(DeviceStep(dev, act), TrackStep(dev, t, act))
  {
  }

  lemma BalancedHeartbeat(dev: Device, t: Track, act: Action)
    requires Balanced(dev, t) && act.Heartbeat?
    ensures Balanced(DeviceStep(dev, act), TrackStep(dev, t, act))
  {
    hide Stale, BelievesLoss;
    assert multiset(t.drained + dev.queue) == multiset(t.drained) + multiset(dev.queue);
  }

  lemma BalancedDeliver(dev: Device, t: Track, act: Action)
    requires Balanced(dev, t) && act.Deliver?
    ensures Balanced(DeviceStep(dev, act), TrackStep(dev, t, act))
  {
    hide Stale, BelievesLoss;
    assert multiset(dev.queue + [act.command]) == multiset(dev.queue) + multiset{act.command};
  }

  lemma BalancedStep(dev: Device, t: Track, act: Action)
    requires Balanced(dev, t) && Local(act)
    requires act.PublishDone? || act.PublishFailed? || act.PublishCancelled? ==> act.command in t.inFlight
    ensures Balanced(DeviceStep(dev, act), TrackStep(dev, t, act))
  {
    if act.Watch? || act.Frame? {
      assert DeviceStep(dev, act).queue == dev.queue && TrackStep(dev, t, act) == t;
      hide DeviceStep, TrackStep;
    } else {
      hide DeviceStep, TrackStep, Balanced;
      match act
      case Heartbeat(_, _, _) => BalancedHeartbeat(dev, t, act);
      case Deliver(_, _, _) => BalancedDeliver(dev, t, act);
      case _ => BalancedMove(dev, t, act);
    }
  }

  /** CONNECTs, teardowns and packets leave every queue and track alone. */
  lemma QueuesStay(w: World, act: Action, strict: bool)
    requires !Local(act)
    ensures var w' := Step(w, act, strict);
            && w'.tracks == w.tracks && w'.core.devices.Keys == w.core.devices.Keys
            && forall d | d in w.core.devices :: w'.core.devices[d].queue == w.core.devices[d].queue
  {
  }

  lemma EnabledPublish(w: World, act: Action)
    requires Enabled(w, act) && (act.PublishDone? || act.PublishFailed? || act.PublishCancelled?)
    ensures act.client in w.tracks && act.command in w.tracks[act.client].inFlight
  {
  }

  lemma SameQueueBalanced(before: Device, after: Device, t: Track)
    requires Balanced(before, t) && after.queue == before.queue
    ensures Balanced(after, t)
  {
  }

  lemma AccountedElse(w: World, act: Action, strict: bool)
    requires Accounted(w) && !Local(act)
    ensures Accounted(Step(w, act, strict))
  {
    hide Step, Balanced;
    QueuesStay(w, act, strict);
    var w' := Step(w, act, strict);
    forall d | d in w'.tracks ensures Balanced(w'.core.devices[d], w'.tracks[d]) {
      SameQueueBalanced(w.core.devices[d], w'.core.devices[d], w.tracks[d]);
    }
  }

  /** What a local action leaves of one device and its track. */
  lemma LocalAt(w: World, act: Action, strict: bool, d: Id)
    requires Local(act) && d in w.core.devices && d in w.tracks
    ensures var w' := Step(w, act, strict);
            && d in w'.core.devices && d in w'.tracks
            && (if act.client == d then
                  && w'.core.devices[d] == DeviceStep(w.core.devices[d], act)
                  && w'.tracks[d] == TrackStep(w.core.devices[d], w.tracks[d], act)
                else w'.core.devices[d] == w.core.devices[d] && w'.tracks[d] == w.tracks[d])
  {
    hide Step, DeviceStep, TrackStep;
    LocalStep(w, act, strict);
  }

  lemma LocalKeys(w: World, act: Action, strict: bool)
    requires Local(act) && w.tracks.Keys == w.core.devices.Keys
    ensures var w' := Step(w, act, strict);
            w'.tracks.Keys == w'.core.devices.Keys == w.core.devices.Keys
  {
    hide Step, DeviceStep, TrackStep;
    LocalStep(w, act, strict);
  }

  lemma AccountedAt(w: World, act: Action, strict: bool, d: Id)
    requires Accounted(w) && Enabled(w, act) && Local(act) && d in w.tracks
    ensures var w' := Step(w, act, strict);
            d in w'.core.devices && d in w'.tracks && Balanced(w'.core.devices[d], w'.tracks[d])
  {
    hide Step, DeviceStep, TrackStep, Enabled, Balanced;
    LocalAt(w, act, strict, d);
    if act.client == d {
      if act.PublishDone? || act.PublishFailed? || act.PublishCancelled? {
        EnabledPublish(w, act);
      }
      BalancedStep(w.core.devices[d], w.tracks[d], act);
    }
  }

  lemma AccountedStep(w: World, act: Action, strict: bool)
    requires Accounted(w) && Enabled(w, act)
    ensures Accounted(Step(w, act, strict))
  {
    if !Local(act) {
      AccountedElse(w, act, strict);
    } else {
      hide Step, Enabled, Balanced;
      LocalKeys(w, act, strict);
      var w' := Step(w, act, strict);
      forall d | d in w'.tracks ensures Balanced(w'.core.devices[d], w'.tracks[d]) {
        AccountedAt(w, act, strict, d);
      }
    }
  }

  lemma {:induction false} AccountedRun(w: World, acts: seq<Action>, strict: bool)
    requires Accounted(w) && Legal(w, acts, strict)
    ensures Accounted(Run(w, acts, strict))
    decreases acts
  {
    hide Accounted, Step, Enabled;
    if acts != [] {
      AccountedStep(w, acts[0], strict);
      AccountedRun(Step(w, acts[0], strict), acts[1..], strict);
    }
  }

  /** No command is lost or sent twice: in every reachable state each accepted command is in exactly
      one of published, queued, drained, still being published, or cut off by shutdown. */
  lemma CommandsAreConserved(ids: set<Id>, acts: seq<Action>, strict: bool, d: Id)
    requires Legal(Start(ids), acts, strict) && d in ids
    ensures var w := Run(Start(ids), acts, strict);
            && d in w.core.devices && d in w.tracks
            && w.tracks[d].accepted == w.tracks[d].inFlight + w.tracks[d].cancelled + multiset(w.tracks[d].published)
                                       + multiset(w.core.devices[d].queue) + multiset(w.tracks[d].drained)
  {
    AccountedRun(Start(ids), acts, strict);
    SameDevices(Start(ids), acts, strict);
    hide Run, Legal, Step;
  }

  lemma SameDevicesStep(w: World, act: Action, strict: bool)
    ensures Step(w, act, strict).core.devices.Keys == w.core.devices.Keys
  {
    hide Step, DeviceStep, TrackStep;
    if Local(act) {
      LocalStep(w, act, strict);
    } else {
      QueuesStay(w, act, strict);
    }
  }

  lemma {:induction false} SameDevices(w: World, acts: seq<Action>, strict: bool)
    ensures Run(w, acts, strict).core.devices.Keys == w.core.devices.Keys
    decreases acts
  {
    hide Step;
    if acts != [] {
      SameDevicesStep(w, acts[0], strict);
      SameDevices(Step(w, acts[0], strict), acts[1..], strict);
    }
  }

  /** What an action puts into a device's queue. */
  function EnqueuedBy(w: World, act: Action, d: Id): seq<Command> {
    if d !in w.core.devices then []
    else if act.Deliver? && act.client == d && !GoesDirect(w.core.devices[d], act.sinkUp) then [act.command]
    else if act.PublishFailed? && act.client == d then [act.command]
    else []
  }

  function Enqueued(w: World, acts: seq<Action>, strict: bool, d: Id): seq<Command>
    decreases acts
  {
    if acts == [] then [] else EnqueuedBy(w, acts[0], d) + Enqueued(Step(w, acts[0], strict), acts[1..], strict, d)
  }

  /** What has been drained, then what is queued. */
  function Line(w: World, d: Id): seq<Command>
    requires d in w.core.devices && d in w.tracks
  {
    w.tracks[d].drained + w.core.devices[d].queue
  }

  lemma HeartbeatLine(dev: Device, t: Track, act: Action)
    requires act.Heartbeat?
    ensures TrackStep(dev, t, act).drained + DeviceStep(dev, act).queue == t.drained + dev.queue
  {
    hide BelievesLoss;
  }

  lemma DeliverLine(dev: Device, t: Track, act: Action)
    requires act.Deliver? || act.PublishFailed?
    ensures TrackStep(dev, t, act).drained + DeviceStep(dev, act).queue
      == t.drained + dev.queue + if act.Deliver? && GoesDirect(dev, act.sinkUp) then [] else [act.command]
  {
    hide GoesDirect;
  }

  lemma OtherLine(dev: Device, t: Track, act: Action)
    requires Local(act) && !act.Heartbeat? && !act.Deliver? && !act.PublishFailed?
    ensures TrackStep(dev, t, act).drained == t.drained && DeviceStep(dev, act).queue == dev.queue
  {
    hide Stale;
  }

  lemma DeviceLine(w: World, dev: Device, t: Track, act: Action)
    requires Local(act) && act.client in w.core.devices && w.core.devices[act.client] == dev
    ensures TrackStep(dev, t, act).drained + DeviceStep(dev, act).queue
      == t.drained + dev.queue + EnqueuedBy(w, act, act.client)
  {
    hide TrackStep, DeviceStep, GoesDirect;
    var line := t.drained + dev.queue;
    assert line + [] == line;
    if act.Heartbeat? {
      HeartbeatLine(dev, t, act);
    } else if act.Deliver? || act.PublishFailed? {
      DeliverLine(dev, t, act);
    } else {
      OtherLine(dev, t, act);
    }
  }

  lemma LineStep(w: World, act: Action, strict: bool, d: Id)
    requires d in w.core.devices && d in w.tracks
    ensures var w' := Step(w, act, strict);
            d in w'.core.devices && d in w'.tracks && Line(w', d) == Line(w, d) + EnqueuedBy(w, act, d)
  {
    hide Step, DeviceStep, TrackStep;
    if !Local(act) {
      QueuesStay(w, act, strict);
    } else {
      LocalStep(w, act, strict);
      if act.client == d {
        DeviceLine(w, w.core.devices[d], w.tracks[d], act);
      }
    }
  }

  /** The queue is first in, first out: heartbeats hand commands over in the order they were queued. */
  lemma {:induction false} FirstInFirstOut(w: World, acts: seq<Action>, strict: bool, d: Id)
    requires d in w.core.devices && d in w.tracks
    ensures var w' := Run(w, acts, strict);
            d in w'.core.devices && d in w'.tracks && Line(w', d) == Line(w, d) + Enqueued(w, acts, strict, d)
    decreases acts
  {
    hide Step, Line, EnqueuedBy;
    if acts != [] {
      LineStep(w, acts[0], strict, d);
      FirstInFirstOut(Step(w, acts[0], strict), acts[1..], strict, d);
    }
  }

  ghost predicate Sent(w: World, d: Id, c: Command) {
    d in w.tracks && (c in w.tracks[d].inFlight || c in w.tracks[d].published || c in w.tracks[d].cancelled)
  }

  /** At some step the command was delivered while the flag was up. */
  ghost predicate DeliveredWhileUp(w: World, acts: seq<Action>, strict: bool, d: Id, c: Command) {
    exists k | 0 <= k < |acts| :: WentDirect(Run(w, acts[..k], strict), acts[k], d, c)
  }

  ghost predicate WentDirect(w: World, act: Action, d: Id, c: Command) {
    act == Deliver(d, c, true) && d in w.core.devices && w.core.devices[d].connected
  }

  predicate InTrack(t: Track, c: Command) {
    c in t.inFlight || c in t.published || c in t.cancelled
  }

  lemma TrackSent(dev: Device, t: Track, act: Action, c: Command)
    requires Local(act) && InTrack(TrackStep(dev, t, act), c)
    requires act.PublishDone? || act.PublishCancelled? ==> act.command in t.inFlight
    ensures InTrack(t, c) || (act == Deliver(act.client, c, true) && dev.connected)
  {
    hide DeviceStep;
  }

  lemma SentStep(w: World, act: Action, strict: bool, d: Id, c: Command)
    requires Enabled(w, act) && Sent(Step(w, act, strict), d, c)
    ensures Sent(w, d, c) || WentDirect(w, act, d, c)
  {
    hide Step, DeviceStep, TrackStep, Enabled, InTrack;
    SentIsInTrack(w, d, c);
    SentIsInTrack(Step(w, act, strict), d, c);
    if !Local(act) {
      QueuesStay(w, act, strict);
    } else {
      LocalStep(w, act, strict);
      if act.client == d && d in w.core.devices && d in w.tracks {
        if act.PublishDone? || act.PublishCancelled? {
          EnabledPublish(w, act);
        }
        TrackSent(w.core.devices[d], w.tracks[d], act, c);
      }
    }
  }

  lemma SentIsInTrack(w: World, d: Id, c: Command)
    ensures Sent(w, d, c) <==> d in w.tracks && InTrack(w.tracks[d], c)
  {
  }

  lemma {:induction false} SentRun(w: World, acts: seq<Action>, strict: bool, d: Id, c: Command)
    requires Legal(w, acts, strict) && Sent(Run(w, acts, strict), d, c)
    ensures Sent(w, d, c) || DeliveredWhileUp(w, acts, strict, d, c)
    decreases acts
  {
    hide Step, Enabled, Sent, WentDirect;
    if acts != [] {
      var w1 := Step(w, acts[0], strict);
      SentRun(w1, acts[1..], strict, d, c);
      if Sent(w1, d, c) {
        SentStep(w, acts[0], strict, d, c);
        if WentDirect(w, acts[0], d, c) {
          assert Run(w, acts[..0], strict) == w;
        }
      } else {
        var k :| 0 <= k < |acts[1..]| && WentDirect(Run(w1, acts[1..][..k], strict), acts[1..][k], d, c);
        assert acts[..k + 1][1..] == acts[1..][..k] && acts[..k + 1][0] == acts[0];
        assert WentDirect(Run(w, acts[..k + 1], strict), acts[k + 1], d, c);
      }
    }
  }

  lemma {:induction false} LegalPrefix(w: World, acts: seq<Action>, strict: bool, k: nat)
    requires Legal(w, acts, strict) && k <= |acts|
    ensures Legal(w, acts[..k], strict)
    decreases acts
  {
    hide Step, Enabled;
    if k > 0 {
      LegalPrefix(Step(w, acts[0], strict), acts[1..], strict, k - 1);
      assert acts[..k][1..] == acts[1..][..k - 1] && acts[..k][0] == acts[0];
    }
  }

  /** A command is published only if, when it was delivered, the device's last accepted session was
      up and recorded: nothing is ever published into a session known to be gone. */
  lemma PublishedOnlyIntoALiveSession(ids: set<Id>, acts: seq<Action>, strict: bool, d: Id, c: Command)
    requires Legal(Start(ids), acts, strict) && Sent(Run(Start(ids), acts, strict), d, c)
    ensures exists k | 0 <= k < |acts| ::
      var w := Run(Start(ids), acts[..k], strict);
      && acts[k] == Deliver(d, c, true)
      && d in w.core.live && d in w.latest && w.core.live[d] == w.latest[d] && w.latest[d] !in w.ended
  {
    SentRun(Start(ids), acts, strict, d, c);
    var k :| 0 <= k < |acts| && WentDirect(Run(Start(ids), acts[..k], strict), acts[k], d, c);
    LegalPrefix(Start(ids), acts, strict, k);
    ConnectedMeansLiveLatest(ids, acts[..k], strict, d);
  }

  // --- liveness stamps -------------------------------------------------------

  /** Nothing that should take `d` off MQTT: no teardown of its session `live` and no reconnect, no
      stamp earlier than `since`, no sweep more than its timeout after it, and no report of a lost
      session but one that lags the CONNECT at `at`. Teardowns of other sessions, its own superseded
      ones among them, are allowed. */
  predicate Uneventful(act: Action, d: Id, live: Session, since: real, at: real) {
    match act
    case Connect(who, _, _, _) => who != Owned(d)
    case Ended(client, ending) => client != d || (ending.Some? && ending.value != live)
    case Packet(_, now) => now >= since
    case Frame(_, now) => now >= since
    case Watch(_, now, timeout) => now - timeout <= since
    case Heartbeat(client, now, iotDown) => client == d && iotDown ==> now - at < IOT_STATUS_GRACE
    case _ => true
  }

  ghost predicate HeardSince(w: World, d: Id, live: Session, since: real, at: real) {
    && d in w.core.devices && w.core.devices[d].connected && d in w.core.live && w.core.live[d] == live
    && w.core.devices[d].lastMqtt >= since && w.core.devices[d].connectedAt == at
  }

  lemma HeardLocal(dev: Device, act: Action, live: Session, since: real)
    requires Local(act) && dev.connected && dev.lastMqtt >= since
    requires Uneventful(act, act.client, live, since, dev.connectedAt)
    ensures var dev' := DeviceStep(dev, act);
            dev'.connected && dev'.lastMqtt >= since && dev'.connectedAt == dev.connectedAt
  {
  }

  lemma HeardStep(w: World, act: Action, strict: bool, d: Id, live: Session, since: real, at: real)
    requires HeardSince(w, d, live, since, at) && Uneventful(act, d, live, since, at)
    ensures HeardSince(Step(w, act, strict), d, live, since, at)
  {
    if Local(act) {
      hide Step, DeviceStep, TrackStep;
      LocalStep(w, act, strict);
      if act.client == d {
        HeardLocal(w.core.devices[d], act, live, since);
      }
    }
  }

  lemma {:induction false} HeardRun(w: World, acts: seq<Action>, strict: bool, d: Id, live: Session, since: real,
    at: real)
    requires HeardSince(w, d, live, since, at) && forall a | a in acts :: Uneventful(a, d, live, since, at)
    ensures HeardSince(Run(w, acts, strict), d, live, since, at)
    decreases acts
  {
    hide HeardSince, Step, Uneventful;
    if acts != [] {
      HeardStep(w, acts[0], strict, d, live, since, at);
      HeardRun(Step(w, acts[0], strict), acts[1..], strict, d, live, since, at);
    }
  }

  /** The watchdog is sound: one packet of the live session, a PINGREQ will do, keeps the flag up
      through every sweep that starts within the timeout, whatever the other devices do. */
  lemma OnePacketIsEnough(w: World, d: Id, now: real, acts: seq<Action>, strict: bool)
    requires SessionsOk(w) && d in w.core.devices && w.core.devices[d].connected
    requires forall a | a in acts :: Uneventful(a, d, w.core.live[d], now, w.core.devices[d].connectedAt)
    ensures var w' := Run(Step(w, Packet(w.core.live[d], now), strict), acts, strict);
            d in w'.core.devices && w'.core.devices[d].connected
  {
    var live, at := w.core.live[d], w.core.devices[d].connectedAt;
    HeardRun(Step(w, Packet(live, now), strict), acts, strict, d, live, now, at);
  }

  /** A CONNECT is contact in its own right, and outlives the heartbeats that still report the time
      before it: accepted, it keeps the flag up through lagging reports and timely sweeps. */
  lemma ConnectOutlivesLaggingReports(w: World, d: Id, signed: bool, s: Session, now: real, acts: seq<Action>,
    strict: bool)
    requires d in w.core.devices && (signed || !strict)
    requires forall a | a in acts :: Uneventful(a, d, s, now, now)
    ensures var w' := Run(Step(w, Connect(Owned(d), signed, s, now), strict), acts, strict);
            d in w'.core.devices && w'.core.devices[d].connected
  {
    HeardRun(Step(w, Connect(Owned(d), signed, s, now), strict), acts, strict, d, s, now, now);
  }

  // --- the watchdog fires ----------------------------------------------------

  /** A sweep takes a device off, its flag with it, exactly when it is online, was heard from in some
      way, and none of the four ways was within the timeout; otherwise it changes nothing. */
  lemma WatchClearsIff(dev: Device, client: Id, now: real, timeout: real)
    ensures DeviceStep(dev, Watch(client, now, timeout)) ==
      if && dev.online
         && (dev.lastHeartbeat > 0.0 || dev.lastState > 0.0 || dev.lastSeen > 0.0 || dev.lastMqtt > 0.0)
         && now - dev.lastHeartbeat > timeout && now - dev.lastState > timeout
         && now - dev.lastSeen > timeout && now - dev.lastMqtt > timeout
      then dev.(online := false, connected := false) else dev
  {
  }

  /** No contact of `d`: no CONNECT, frame or heartbeat of it and no packet of its session. */
  predicate Silent(act: Action, d: Id, live: map<Id, Session>) {
    match act
    case Connect(who, _, _, _) => who != Owned(d)
    case Packet(from, _) => !(d in live && live[d] == from)
    case Frame(client, _) => client != d
    case Heartbeat(client, _, _) => client != d
    case _ => true
  }

  /** Last heard from no later than `since`, and heard from at all. */
  ghost predicate HeardUntil(w: World, d: Id, live: map<Id, Session>, since: real) {
    && d in w.core.devices && (d in w.core.live ==> d in live && live[d] == w.core.live[d])
    && var dev := w.core.devices[d];
       && (dev.connected ==> dev.online)
       && dev.lastHeartbeat <= since && dev.lastState <= since && dev.lastSeen <= since && dev.lastMqtt <= since
       && (dev.lastHeartbeat > 0.0 || dev.lastState > 0.0 || dev.lastSeen > 0.0 || dev.lastMqtt > 0.0)
  }

  predicate Off(w: World, d: Id) {
    d in w.core.devices && !w.core.devices[d].online && !w.core.devices[d].connected
  }

  lemma SilentLocal(dev: Device, act: Action)
    requires Local(act) && Silent(act, act.client, map[])
    ensures var dev' := DeviceStep(dev, act);
            && dev'.lastHeartbeat == dev.lastHeartbeat && dev'.lastState == dev.lastState
            && dev'.lastSeen == dev.lastSeen && dev'.lastMqtt == dev.lastMqtt
            && (dev'.connected ==> dev.connected) && (dev'.online ==> dev.online)
            && ((dev.connected ==> dev.online) ==> (dev'.connected ==> dev'.online))
  {
    hide Stale;
  }

  lemma SilentStep(w: World, act: Action, strict: bool, d: Id, live: map<Id, Session>, since: real)
    requires HeardUntil(w, d, live, since) && Silent(act, d, live)
    ensures HeardUntil(Step(w, act, strict), d, live, since)
    ensures Off(w, d) ==> Off(Step(w, act, strict), d)
  {
    if Local(act) {
      hide Step, DeviceStep, TrackStep;
      LocalStep(w, act, strict);
      if act.client == d {
        SilentLocal(w.core.devices[d], act);
      }
    }
  }

  lemma {:induction false} SilentRun(w: World, acts: seq<Action>, strict: bool, d: Id, live: map<Id, Session>,
    since: real)
    requires HeardUntil(w, d, live, since) && forall a | a in acts :: Silent(a, d, live)
    ensures HeardUntil(Run(w, acts, strict), d, live, since)
    ensures Off(w, d) ==> Off(Run(w, acts, strict), d)
    decreases acts
  {
    hide HeardUntil, Off, Step, Silent;
    if acts != [] {
      SilentStep(w, acts[0], strict, d, live, since);
      SilentRun(Step(w, acts[0], strict), acts[1..], strict, d, live, since);
    }
  }

  /** The watchdog is complete: without any contact of a device since `since`, the first sweep more
      than its timeout later finds it off or takes it off, flag and all, and it stays off until the
      next contact, whatever the other devices do. */
  lemma SilenceTakesItDown(w: World, d: Id, since: real, acts: seq<Action>, now: real, timeout: real,
    more: seq<Action>, strict: bool)
    requires HeardUntil(w, d, w.core.live, since) && now > since + timeout
    requires forall a | a in acts || a in more :: Silent(a, d, w.core.live)
    ensures Off(Run(Step(Run(w, acts, strict), Watch(d, now, timeout), strict), more, strict), d)
  {
    var live := w.core.live;
    SilentRun(w, acts, strict, d, live, since);
    var u := Run(w, acts, strict);
    var v := Step(u, Watch(d, now, timeout), strict);
    SilentStep(u, Watch(d, now, timeout), strict, d, live, since);
    LocalStep(u, Watch(d, now, timeout), strict);
    WatchClearsIff(u.core.devices[d], d, now, timeout);
    assert Off(v, d);
    SilentRun(v, more, strict, d, live, since);
  }

  // --- the fallback ----------------------------------------------------------

  /** A frame is contact. */
  lemma FrameIsContact(w: World, d: Id, now: real, strict: bool)
    requires d in w.core.devices
    ensures var dev, dev' := w.core.devices[d], Step(w, Frame(d, now), strict).core.devices[d];
            dev'.online && dev'.lastMqtt == now && dev'.connected == dev.connected
            && dev'.connectedAt == dev.connectedAt && dev'.queue == dev.queue
  {
  }

  /** A heartbeat is contact; it takes the flag down exactly when it reports the session lost 15 s or
      more after the CONNECT. */
  lemma HeartbeatClearsIff(w: World, d: Id, now: real, iotDown: bool, strict: bool)
    requires d in w.core.devices
    ensures var dev, dev' := w.core.devices[d], Step(w, Heartbeat(d, now, iotDown), strict).core.devices[d];
            && dev'.online && dev'.lastHeartbeat == now && dev'.queue == [] && dev'.connectedAt == dev.connectedAt
            && (dev'.connected <==> dev.connected && (iotDown ==> now < dev.connectedAt + 15.0))
  {
  }

  /** A command is published exactly when the sink is up and the flag is; otherwise it is queued behind
      those that wait. */
  lemma PublishedIff(w: World, d: Id, c: Command, sinkUp: bool, strict: bool)
    requires d in w.core.devices && d in w.tracks
    ensures var w' := Step(w, Deliver(d, c, sinkUp), strict);
            var begun := sinkUp && w.core.devices[d].connected;
            && w'.tracks[d].inFlight == (if begun then w.tracks[d].inFlight + multiset{c} else w.tracks[d].inFlight)
            && w'.core.devices[d].queue
               == (if begun then w.core.devices[d].queue else w.core.devices[d].queue + [c])
  {
  }

  /** So a half-open session swallows no command for longer than the grace: once the device reports it
      lost, the next command is handed over by the heartbeat after that, behind all that waited. */
  lemma LostSessionFallsBack(w: World, d: Id, now: real, c: Command, sinkUp: bool, later: real, iotDown: bool,
    strict: bool)
    requires d in w.core.devices && d in w.tracks && now >= w.core.devices[d].connectedAt + 15.0
    ensures var acts := [Heartbeat(d, now, true), Deliver(d, c, sinkUp), Heartbeat(d, later, iotDown)];
            var w' := Run(w, acts, strict);
            d in w'.tracks && w'.tracks[d].drained == w.tracks[d].drained + w.core.devices[d].queue + [c]
  {
    var a, b, e := Heartbeat(d, now, true), Deliver(d, c, sinkUp), Heartbeat(d, later, iotDown);
    var u := Step(w, a, strict);
    var v := Step(u, b, strict);
    var x := Step(v, e, strict);
    LocalStep(w, a, strict);
    LocalStep(u, b, strict);
    LocalStep(v, e, strict);
    HeartbeatClearsIff(w, d, now, true, strict);
    PublishedIff(u, d, c, sinkUp, strict);
    hide Step, DeviceStep;
    assert [a, b, e][1..] == [b, e] && [b, e][1..] == [e] && [e][1..] == [];
    assert Run(w, [a, b, e], strict) == Run(u, [b, e], strict) == Run(v, [e], strict) == Run(x, [], strict) == x;
    assert [] + [c] == [c];
  }

  // --- online ----------------------------------------------------------------

  /** In every run a connected device is online, as the watchdog takes for granted. */
  ghost predicate OnlineIfConnected(w: World) {
    forall d | d in w.core.devices && w.core.devices[d].connected :: w.core.devices[d].online
  }

  lemma OnlineStep(w: World, act: Action, strict: bool)
    requires OnlineIfConnected(w)
    ensures OnlineIfConnected(Step(w, act, strict))
  {
    if Local(act) {
      hide Step, TrackStep, Stale;
      LocalStep(w, act, strict);
    }
  }

  lemma {:induction false} OnlineRun(w: World, acts: seq<Action>, strict: bool)
    requires OnlineIfConnected(w)
    ensures OnlineIfConnected(Run(w, acts, strict))
    decreases acts
  {
    hide OnlineIfConnected, Step;
    if acts != [] {
      OnlineStep(w, acts[0], strict);
      OnlineRun(Step(w, acts[0], strict), acts[1..], strict);
    }
  }

  lemma ConnectedIsOnline(ids: set<Id>, acts: seq<Action>, strict: bool)
    ensures OnlineIfConnected(Run(Start(ids), acts, strict))
  {
    OnlineRun(Start(ids), acts, strict);
  }
}
