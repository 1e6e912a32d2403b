/** MQTT sessions and command delivery: the broker's auth plugin (mqtt/auth.py), the delivery end
    of the command router (ha/command_router.py), the availability watchdog (ha/publisher.py)
    and the heartbeat queue (http/handlers/heartbeat.py, devices/base.py).

    A device keeps its MQTT name for the length of a session, so a client id stands for its
    device here. A coroutine is split where it awaits the publish. */
module Delivery {
  import opened Common

  type Id = nat
  type Session = nat
  type Command = nat

  const IOT_STATUS_GRACE := 15.0

  datatype Device = Device(
    online: bool, connected: bool, connectedAt: real, lastMqtt: real, lastHeartbeat: real,
    lastState: real, lastSeen: real, queue: seq<Command>)

  /** The registry's devices and the plugin's `_live_sessions`. */
  datatype Core = Core(devices: map<Id, Device>, live: map<Id, Session>)

  /** Whose a client id is: not of the Aliyun shape (our own bridge), of no registered device, or a
      device's. */
  datatype Client = Bridge | Stranger | Owned(id: Id)

  datatype Action =
    | Connect(who: Client, signed: bool, session: Session, now: real)
    | Ended(client: Id, ending: Option<Session>)
    | Packet(from: Session, now: real)
    | Frame(client: Id, now: real)
    | Watch(client: Id, now: real, timeout: real)
    | Heartbeat(client: Id, now: real, iotDown: bool)
    | Deliver(client: Id, command: Command, sinkUp: bool)
    | PublishDone(client: Id, command: Command)
    | PublishFailed(client: Id, command: Command)
    | PublishCancelled(client: Id, command: Command)

  // --- one step of the code --------------------------------------------------

  function Max(a: real, b: real): real {
    if a < b then b else a
  }

  /** `device_is_stale`. */
  predicate Stale(dev: Device, now: real, timeout: real) {
    var heard := Max(Max(dev.lastHeartbeat, dev.lastState), Max(dev.lastSeen, dev.lastMqtt));
    heard > 0.0 && now - heard > timeout
  }

  /** The device a CONNECT is accepted for, if any: strict mode turns bad signatures away. */
  function AcceptedFor(core: Core, act: Action, strict: bool): Option<Id>
    requires act.Connect?
  {
    if act.who.Owned? && act.who.id in core.devices && (act.signed || !strict) then Some(act.who.id) else None
  }

  /** `_mark_mqtt_connected`, with the `online` set just before it. */
  function Connected(dev: Device, now: real): Device {
    dev.(online := true, connected := true, connectedAt := now, lastMqtt := now)
  }

  /** A teardown that belongs to a session since replaced. */
  predicate Superseded(core: Core, client: Id, ending: Option<Session>) {
    ending.Some? && client in core.live && core.live[client] != ending.value
  }

  /** `note_iot_status` believes the device. */
  predicate BelievesLoss(dev: Device, now: real, iotDown: bool) {
    dev.connected && iotDown && now - dev.connectedAt >= IOT_STATUS_GRACE
  }

  /** The command goes out over MQTT rather than into the queue. */
  predicate GoesDirect(dev: Device, sinkUp: bool) {
    sinkUp && dev.connected
  }

  /** What an action makes of the device it concerns. */
  function DeviceStep(dev: Device, act: Action): Device {
    match act
    case Frame(_, now) => dev.(online := true, lastMqtt := now)
    case Watch(_, now, timeout) =>
      if dev.online && Stale(dev, now, timeout) then dev.(online := false, connected := false) else dev
    case Heartbeat(_, now, iotDown) =>
      dev.(lastHeartbeat := now, online := true, queue := [],
           connected := dev.connected && !BelievesLoss(dev, now, iotDown))
    case Deliver(_, command, sinkUp) =>
      if GoesDirect(dev, sinkUp) then dev else dev.(queue := dev.queue + [command])
    case PublishFailed(_, command) => dev.(queue := dev.queue + [command])
    case _ => dev
  }

  function CoreStep(core: Core, act: Action, strict: bool): Core {
    match act
    case Connect(_, _, session, now) =>
      (match AcceptedFor(core, act, strict)
       case Some(d) => Core(core.devices[d := Connected(core.devices[d], now)], core.live[d := session])
       case None => core)
    case Ended(client, ending) =>
      if client !in core.devices || !core.devices[client].connected || Superseded(core, client, ending) then core
      else Core(core.devices[client := core.devices[client].(connected := false)], core.live - {client})
    case Packet(from, now) =>
      core.(devices := map d | d in core.devices ::
        if d in core.live && core.live[d] == from then core.devices[d].(lastMqtt := now) else core.devices[d])
    case _ =>
      if act.client !in core.devices then core
      else core.(devices := core.devices[act.client := DeviceStep(core.devices[act.client], act)])
  }

  // --- the methods -----------------------------------------------------------

  class Plugin {
    var devices: map<Id, Device>
    var live: map<Id, Session>
    var strict: bool

    function Now(): Core
      reads this
    {
      Core(devices, live)
    }

    /** Each CONNECT has a session object of its own. */
    ghost predicate Valid()
      reads this
    {
      forall d, e | d in live && e in live && live[d] == live[e] :: d == e
    }

    /** `authenticate`: our bridge always gets in, a stranger or a bad signature only if not strict. */
    method Authenticate(who: Client, signed: bool, session: Session, now: real) returns (accepted: bool)
      requires Valid() && session !in live.Values
      modifies this
      ensures Valid() && strict == old(strict)
      ensures Now() == CoreStep(old(Now()), Connect(who, signed, session, now), strict)
      ensures accepted <==>
        !strict || who.Bridge? || AcceptedFor(old(Now()), Connect(who, signed, session, now), strict).Some?
    {
      if who.Bridge? {
        return true;
      }
      if who.Stranger? || who.id !in devices {
        return !strict;
      }
      if !signed && strict {
        return false;
      }
      devices := devices[who.id := Connected(devices[who.id], now)];
      live := live[who.id := session];
      accepted := true;
    }

    /** `on_broker_client_disconnected`. */
    method OnDisconnected(client: Id, ending: Option<Session>)
      requires Valid()
      modifies this
      ensures Valid() && strict == old(strict)
      ensures Now() == CoreStep(old(Now()), Ended(client, ending), strict)
    {
      if client !in devices || !devices[client].connected {
        return;
      }
      if ending.Some? && client in live && live[client] != ending.value {
        return;
      }
      live := live - {client};
      devices := devices[client := devices[client].(connected := false)];
    }

    /** `on_mqtt_packet_received`: a scan of the live sessions, stopping at the sender's. */
    method OnPacket(from: Session, now: real)
      requires Valid()
      modifies this
      ensures Valid() && strict == old(strict)
      ensures Now() == CoreStep(old(Now()), Packet(from, now), strict)
    {
      var rest := live.Keys;
      while rest != {}
        invariant rest <= live.Keys && Now() == old(Now())
        invariant forall d | d in live.Keys - rest :: live[d] != from
      {
        var d :| d in rest;
        if live[d] == from {
          if d in devices {
            devices := devices[d := devices[d].(lastMqtt := now)];
          }
          return;
        }
        rest := rest - {d};
      }
    }

    /** One device of an `availability_watchdog` sweep that sampled `now`. */
    method WatchDevice(client: Id, now: real, timeout: real)
      requires Valid()
      modifies this
      ensures Valid() && strict == old(strict)
      ensures Now() == CoreStep(old(Now()), Watch(client, now, timeout), strict)
    {
      if client in devices {
        var dev := devices[client];
        if dev.online && Stale(dev, now, timeout) {
          dev := dev.(online := false);
          dev := dev.(connected := false);
        }
        devices := devices[client := dev];
      }
    }

    /** `pop_commands`. */
    method PopCommands(client: Id) returns (cmds: seq<Command>)
      requires client in devices
      modifies this
      ensures cmds == old(devices[client].queue)
      ensures live == old(live) && strict == old(strict)
      ensures devices == old(devices)[client := old(devices[client]).(queue := [])]
    {
      cmds := devices[client].queue;
      devices := devices[client := devices[client].(queue := [])];
    }

    /** `handle_heartbeat` with `note_iot_status`; nothing can come between its steps. */
    method OnHeartbeat(client: Id, now: real, iotDown: bool) returns (cmds: seq<Command>)
      requires Valid()
      modifies this
      ensures Valid() && strict == old(strict)
      ensures Now() == CoreStep(old(Now()), Heartbeat(client, now, iotDown), strict)
      ensures cmds == if client in old(devices) then old(devices)[client].queue else []
    {
      if client !in devices {
        return [];
      }
      var dev := devices[client].(lastHeartbeat := now, online := true);
      if dev.connected && iotDown && now - dev.connectedAt >= IOT_STATUS_GRACE {
        dev := dev.(connected := false);
      }
      devices := devices[client := dev];
      cmds := PopCommands(client);
    }

    /** `handle_command` up to the publish; `direct` says the publish is now awaited. */
    method BeginDelivery(client: Id, command: Command, sinkUp: bool) returns (direct: bool)
      requires Valid() && client in devices
      modifies this
      ensures Valid() && strict == old(strict)
      ensures Now() == CoreStep(old(Now()), Deliver(client, command, sinkUp), strict)
      ensures direct <==> GoesDirect(old(devices)[client], sinkUp)
    {
      direct := sinkUp && devices[client].connected;
      if !direct {
        devices := devices[client := devices[client].(queue := devices[client].queue + [command])];
      }
    }

    /** The rest of `handle_command` once the publish raised. */
    method FallBack(client: Id, command: Command)
      requires Valid() && client in devices
      modifies this
      ensures Valid() && strict == old(strict)
      ensures Now() == CoreStep(old(Now()), PublishFailed(client, command), strict)
    {
      devices := devices[client := devices[client].(queue := devices[client].queue + [command])];
    }
  }
}
