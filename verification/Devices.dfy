/** The device registry proper (devices/registry.py) and the persisted form of a device
    (devices/base.py): first contact, later signups, and what a restart brings back. */
module Devices {
  import opened Common

  /** A device type: its name, or a list or object, which prints as some text and cannot be hashed. */
  datatype Type = Named(text: string) | Compound(text: string)

  datatype Settings = Missing | NotADict | Block(values: map<string, string>)

  datatype Config = Config(settings: Settings, others: map<string, string>)

  /** The fields of `to_dict`. */
  datatype Record = Record(
    deviceType: Type, petkitId: int, serial: string, mac: string, firmware: string, wireType: string,
    productKey: string, deviceName: string, deviceSecret: string, apiSecret: string, config: Config, createdAt: real)

  /** Live state, which is not persisted. */
  datatype Live = Live(online: bool, connected: bool, queue: seq<string>, lastSeen: real)

  datatype Device = Device(record: Record, live: Live)

  const FRESH := Live(false, false, [], 0.0)

  /** Default settings by device type. */
  type Defaults = string -> map<string, string>

  function IntText(n: int): string {
    if n < 0 then "-" + Decimal(-n) else Decimal(n)
  }

  function MqttName(deviceType: string, tail: string): string {
    "d_" + deviceType + "_" + tail
  }

  /** `_merge_default_settings`: gaps are filled, values never overwritten. */
  function Fill(config: Config, defaults: map<string, string>): Config {
    match config.settings
    case Missing => config.(settings := Block(defaults))
    case NotADict => config
    case Block(values) => config.(settings := Block(defaults + values))
  }

  function Filled(r: Record, defaults: Defaults): Record {
    r.(config := Fill(r.config, defaults(r.deviceType.text)))
  }

  // --- devices.json -----------------------------------------------------------

  /** `petkit_id` and `config` as an entry of devices.json has them. */
  datatype StoredId = NoId | Number(n: int) | NotANumber
  datatype StoredConfig = NoConfig | Mapping(config: Config) | NotAMap

  /** An object in devices.json; None is a missing key. A type that is neither list nor object counts
      as the name it prints as. */
  datatype Stored = Stored(
    deviceType: Option<Type>, petkitId: StoredId, serial: Option<string>, mac: Option<string>,
    firmware: Option<string>, wireType: Option<string>, productKey: Option<string>, deviceName: Option<string>,
    deviceSecret: Option<string>, apiSecret: Option<string>, config: StoredConfig, createdAt: Option<real>)

  /** What the generators and the clock answer while an entry is read. */
  datatype Minted = Minted(productKey: string, secret: string, now: real)

  /** Per entry: of entries that are alike only the last one counts. */
  type Mint = Stored -> Minted

  datatype Entry = NotAnObject | Object(stored: Stored)

  /** `to_dict`: every key is there. */
  function Written(r: Record): Entry {
    Object(Stored(Some(r.deviceType), Number(r.petkitId), Some(r.serial), Some(r.mac), Some(r.firmware),
                  Some(r.wireType), Some(r.productKey), Some(r.deviceName), Some(r.deviceSecret), Some(r.apiSecret),
                  Mapping(r.config), Some(r.createdAt)))
  }

  // --- signing up ------------------------------------------------------------

  /** A signup; an empty text is a field the device did not send. `productKey`, `secret` and `now`
      are what the generators and the clock would answer on a first contact. */
  datatype Signup = Signup(
    petkitId: int, deviceType: string, serial: string, mac: string, firmware: string,
    productKey: string, secret: string, now: real)

  function NewDevice(s: Signup, defaults: Defaults): Device {
    var name := MqttName(s.deviceType, if s.serial != "" then s.serial else IntText(s.petkitId));
    var record := Record(Named(s.deviceType), s.petkitId, s.serial, s.mac, s.firmware, "", s.productKey, name,
                         s.secret, "", Config(Missing, map[]), s.now);
    Device(Filled(record, defaults), FRESH)
  }

  /** What a later signup makes of a known device. */
  function Refreshed(r: Record, s: Signup): Record {
    var r := if s.serial != "" && r.serial == "" then
      r.(serial := s.serial, deviceName := MqttName(r.deviceType.text, s.serial)) else r;
    var r := if s.mac != "" && r.mac == "" then r.(mac := s.mac) else r;
    if s.firmware != "" then r.(firmware := s.firmware) else r
  }

  function HasId(id: int): Device -> bool {
    (d: Device) => d.record.petkitId == id
  }

  function IdOf(d: Device): int {
    d.record.petkitId
  }

  /** `_devices.get`. */
  function Get(devices: seq<Device>, id: int): Option<Device> {
    First(devices, HasId(id))
  }

  /** `_devices[id] = d`, a dict kept in insertion order. */
  function Put(devices: seq<Device>, d: Device): seq<Device> {
    if devices == [] then [d]
    else if devices[0].record.petkitId == d.record.petkitId then [d] + devices[1..]
    else [devices[0]] + Put(devices[1..], d)
  }

  function EntryOf(d: Device): Entry {
    Written(d.record)
  }

  /** `_serialize`, in the dict's order. */
  function Serialize(devices: seq<Device>): seq<Entry> {
    Map(devices, EntryOf)
  }

  /** The flusher: idle, waiting for a worker thread that writes `text`, or told how that went. */
  datatype Flight = Idle | Writing(text: seq<Entry>) | Returned(ok: bool)

  /** Memory, the file as last written, the dirty flag and the flusher. */
  datatype Registry = Registry(devices: seq<Device>, file: seq<Entry>, dirty: bool, flight: Flight)

  /** What happens to the registry: a signup, whose write-through may fail; another part of the add-on
      marking it dirty (what it changed is left out); and the three parts of a background flush:
      encode and hand over, the worker thread's write, and the flusher's return. */
  datatype Event = Contact(signup: Signup, saved: bool) | Mark | BeginFlush | Land(ok: bool) | EndFlush

  function After(reg: Registry, e: Event, defaults: Defaults): Registry {
    match e
    case Contact(s, saved) =>
      (match Get(reg.devices, s.petkitId)
       case Some(d) =>
         var d' := d.(record := Refreshed(d.record, s));
         reg.(devices := Put(reg.devices, d'), dirty := reg.dirty || d' != d)
       case None =>
         var devices := Put(reg.devices, NewDevice(s, defaults));
         reg.(devices := devices, file := if saved then Serialize(devices) else reg.file, dirty := !saved))
    case Mark => reg.(dirty := true)
    case BeginFlush =>
      if reg.dirty && reg.flight.Idle? then reg.(dirty := false, flight := Writing(Serialize(reg.devices))) else reg
    case Land(ok) =>
      if reg.flight.Writing?
      then reg.(file := if ok then reg.flight.text else reg.file, flight := Returned(ok)) else reg
    case EndFlush =>
      if reg.flight.Returned? then reg.(dirty := reg.dirty || !reg.flight.ok, flight := Idle) else reg
  }

  function AfterAll(reg: Registry, events: seq<Event>, defaults: Defaults): Registry {
    if events == [] then reg else After(AfterAll(reg, events[..|events| - 1], defaults), events[|events| - 1], defaults)
  }

  class DeviceRegistry {
    var devices: seq<Device>
    var file: seq<Entry>
    var dirty: bool
    var flight: Flight

    function Now(): Registry
      reads this
    {
      Registry(devices, file, dirty, flight)
    }

    /** `save`. */
    method Save(ok: bool)
      modifies this
      ensures Now() == old(Now()).(file := if ok then Serialize(old(devices)) else old(file), dirty := !ok)
    {
      dirty := false;
      if ok {
        file := Serialize(devices);
      } else {
        dirty := true;
      }
    }

    /** `get_or_create`. */
    method GetOrCreate(s: Signup, saved: bool, defaults: Defaults) returns (device: Device)
      modifies this
      ensures Now() == After(old(Now()), Contact(s, saved), defaults)
      ensures device ==
        match Get(old(devices), s.petkitId)
        case Some(d) => d.(record := Refreshed(d.record, s))
        case None => NewDevice(s, defaults)
    {
      hide Put;
      var known := Get(devices, s.petkitId);
      if known.Some? {
        device := known.value;
        var changed := false;
        if s.serial != "" && device.record.serial == "" {
          device := device.(record := device.record.(
            serial := s.serial, deviceName := MqttName(device.record.deviceType.text, s.serial)));
          changed := true;
        }
        if s.mac != "" && device.record.mac == "" {
          device := device.(record := device.record.(mac := s.mac));
          changed := true;
        }
        if s.firmware != "" && s.firmware != device.record.firmware {
          device := device.(record := device.record.(firmware := s.firmware));
          changed := true;
        }
        devices := Put(devices, device);
        if changed {
          dirty := true;
        }
        return device;
      }
      device := NewDevice(s, defaults);
      devices := Put(devices, device);
      Save(saved);
    }
  }

  // --- identities ------------------------------------------------------------

  lemma {:induction false} GetPut(devices: seq<Device>, d: Device, id: int)
    ensures Get(Put(devices, d), id) == if d.record.petkitId == id then Some(d) else Get(devices, id)
  {
    if devices == [] {
      assert [d][1..] == [];
    } else if devices[0].record.petkitId != d.record.petkitId {
      assert Put(devices, d)[1..] == Put(devices[1..], d);
      GetPut(devices[1..], d, id);
    } else {
      assert Put(devices, d)[1..] == devices[1..];
    }
  }

  lemma GetHasId(devices: seq<Device>, id: int)
    ensures Get(devices, id).Some? ==> Get(devices, id).value.record.petkitId == id
  {
  }

  /** The first serial number a device sends in a run of events. */
  function FirstSerial(events: seq<Event>, id: int): Option<string> {
    if events == [] then None else
      var rest, e := FirstSerial(events[..|events| - 1], id), events[|events| - 1];
      if rest.None? && e.Contact? && e.signup.petkitId == id && e.signup.serial != ""
      then Some(e.signup.serial) else rest
  }

  /** What a signup after the first can never touch. */
  ghost predicate SameIdentity(a: Record, b: Record) {
    && a.deviceType == b.deviceType && a.petkitId == b.petkitId && a.wireType == b.wireType
    && a.productKey == b.productKey && a.deviceSecret == b.deviceSecret && a.apiSecret == b.apiSecret
    && a.config == b.config && a.createdAt == b.createdAt
  }

  lemma RefreshedKeeps(r: Record, s: Signup)
    ensures SameIdentity(r, Refreshed(r, s))
    ensures r.serial != "" ==> Refreshed(r, s).serial == r.serial && Refreshed(r, s).deviceName == r.deviceName
    ensures r.mac != "" ==> Refreshed(r, s).mac == r.mac
    ensures r.serial == "" && s.serial != "" ==>
      Refreshed(r, s).serial == s.serial && Refreshed(r, s).deviceName == MqttName(r.deviceType.text, s.serial)
    ensures r.serial == "" && s.serial == ""
      ==> Refreshed(r, s).serial == "" && Refreshed(r, s).deviceName == r.deviceName
  {
  }

  /** `r` is what became of `d` once its device first sent the serial number `first`, if it did: the
      same identity, with a serial number and a MAC kept once known, and the MQTT name but for a
      device first met without a serial number. */
  ghost predicate KeepsIdentity(d: Record, first: Option<string>, r: Record) {
    && SameIdentity(d, r)
    && (d.mac != "" ==> r.mac == d.mac)
    && (d.serial != "" ==> r.serial == d.serial)
    && (d.serial == "" ==> r.serial == first.GetOr(""))
    && r.deviceName ==
       if d.serial == "" && first.Some? then MqttName(d.deviceType.text, first.value) else d.deviceName
  }

  lemma KeepsIdentityStep(d: Record, first: Option<string>, r: Record, s: Signup)
    requires KeepsIdentity(d, first, r) && (first.Some? ==> first.value != "")
    ensures KeepsIdentity(d, if first.None? && s.serial != "" then Some(s.serial) else first, Refreshed(r, s))
  {
    RefreshedKeeps(r, s);
    hide Refreshed, MqttName;
  }

  lemma SignupStep(reg: Registry, s: Signup, saved: bool, defaults: Defaults, id: int)
    requires Get(reg.devices, id).Some?
    ensures var after := Get(After(reg, Contact(s, saved), defaults).devices, id);
            && after.Some?
            && after.value.record == if s.petkitId == id then Refreshed(Get(reg.devices, id).value.record, s)
                                     else Get(reg.devices, id).value.record
  {
    hide Get, Put, Refreshed, NewDevice, Serialize;
    var known := Get(reg.devices, s.petkitId);
    GetHasId(reg.devices, s.petkitId);
    if known.Some? {
      RefreshedKeeps(known.value.record, s);
      GetPut(reg.devices, known.value.(record := Refreshed(known.value.record, s)), id);
    } else {
      NewDeviceId(s, defaults);
      GetPut(reg.devices, NewDevice(s, defaults), id);
    }
  }

  /** No run of signups rewrites an identity the broker issued credentials against, but for the MQTT
      name of a device first met without a serial number: that becomes the name of its first one. */
  lemma {:induction false} IdentityIsKept(reg: Registry, events: seq<Event>, defaults: Defaults, id: int)
    requires Get(reg.devices, id).Some?
    ensures var after := Get(AfterAll(reg, events, defaults).devices, id);
            after.Some? && KeepsIdentity(Get(reg.devices, id).value.record, FirstSerial(events, id), after.value.record)
  {
    if events == [] {
      SerialOfNone(id);
      assert AfterAll(reg, [], defaults) == reg;
    } else {
      var n := |events| - 1;
      IdentityIsKept(reg, events[..n], defaults, id);
      hide *;
      OneEvent(reg, events, defaults, id);
      var before, e := AfterAll(reg, events[..n], defaults), events[n];
      if e.Contact? {
        SerialsAreGiven(events[..n], id);
        SignupStep(before, e.signup, e.saved, defaults, id);
        KeepsIdentityStep(Get(reg.devices, id).value.record, FirstSerial(events[..n], id),
                          Get(before.devices, id).value.record, e.signup);
      }
    }
  }

  /** What the last event of a run does to the registry and to the first serial number. */
  lemma OneEvent(reg: Registry, events: seq<Event>, defaults: Defaults, id: int)
    requires events != []
    ensures var n := |events| - 1;
            var before, e := AfterAll(reg, events[..n], defaults), events[n];
            && AfterAll(reg, events, defaults) == After(before, e, defaults)
            && (!e.Contact? ==> After(before, e, defaults).devices == before.devices)
            && FirstSerial(events, id) ==
               if e.Contact? && e.signup.petkitId == id && FirstSerial(events[..n], id).None? && e.signup.serial != ""
               then Some(e.signup.serial) else FirstSerial(events[..n], id)
  {
    hide Get, Put, Refreshed, NewDevice, Serialize;
  }

  lemma SerialOfNone(id: int)
    ensures FirstSerial([], id) == None
  {
  }

  lemma {:induction false} SerialsAreGiven(events: seq<Event>, id: int)
    ensures FirstSerial(events, id).Some? ==> FirstSerial(events, id).value != ""
  {
    if events != [] {
      SerialsAreGiven(events[..|events| - 1], id);
    }
  }

  lemma NewDeviceId(s: Signup, defaults: Defaults)
    ensures NewDevice(s, defaults).record.petkitId == s.petkitId
  {
  }

  /** The MQTT name a device got on first contact stays its name exactly when it came with a serial
      number, never sends one, or the one it sends first gives the same name. */
  lemma NameIsKeptIff(reg: Registry, events: seq<Event>, defaults: Defaults, id: int)
    requires Get(reg.devices, id).Some?
    ensures var d := Get(reg.devices, id).value.record;
            Get(AfterAll(reg, events, defaults).devices, id).Some? &&
            (Get(AfterAll(reg, events, defaults).devices, id).value.record.deviceName == d.deviceName <==>
              || d.serial != "" || FirstSerial(events, id).None?
              || MqttName(d.deviceType.text, FirstSerial(events, id).value) == d.deviceName)
  {
    IdentityIsKept(reg, events, defaults, id);
  }

  /** What a first contact registers: the device as it described itself, with newly minted keys and no
      API secret yet, named after its serial number or failing that its id, with the default settings
      of its type and nothing else configured, neither online nor connected. */
  lemma FirstContactIs(reg: Registry, s: Signup, saved: bool, defaults: Defaults)
    requires Get(reg.devices, s.petkitId).None?
    ensures var d := Get(After(reg, Contact(s, saved), defaults).devices, s.petkitId);
            && d.Some?
            && var r := d.value.record;
               && r.petkitId == s.petkitId && r.deviceType == Named(s.deviceType) && r.wireType == ""
               && r.serial == s.serial && r.mac == s.mac && r.firmware == s.firmware
               && r.productKey == s.productKey && r.deviceSecret == s.secret && r.apiSecret == ""
               && r.deviceName
                    == "d_" + s.deviceType + "_" + (if s.serial != "" then s.serial else IntText(s.petkitId))
               && r.config == Config(Block(defaults(s.deviceType)), map[]) && r.createdAt == s.now
               && !d.value.live.online && !d.value.live.connected && d.value.live.queue == []
  {
    GetPut(reg.devices, NewDevice(s, defaults), s.petkitId);
    hide Get, Put;
  }

  /** The first MAC a device reports in a run of events. */
  function FirstMac(events: seq<Event>, id: int): string {
    if events == [] then "" else
      var earlier, e := FirstMac(events[..|events| - 1], id), events[|events| - 1];
      if earlier != "" then earlier
      else if e.Contact? && e.signup.petkitId == id then e.signup.mac else ""
  }

  /** A MAC is filled in once and then kept. */
  lemma {:induction false} MacIsFirst(reg: Registry, events: seq<Event>, defaults: Defaults, id: int)
    requires Get(reg.devices, id).Some?
    ensures var before, after := Get(reg.devices, id).value, Get(AfterAll(reg, events, defaults).devices, id);
            after.Some?
            && after.value.record.mac == if before.record.mac != "" then before.record.mac else FirstMac(events, id)
  {
    if events == [] {
      assert AfterAll(reg, [], defaults) == reg;
    } else {
      var n := |events| - 1;
      MacIsFirst(reg, events[..n], defaults, id);
      var before, e := AfterAll(reg, events[..n], defaults), events[n];
      OneEvent(reg, events, defaults, id);
      hide AfterAll, After, Get, Refreshed;
      if e.Contact? {
        SignupStep(before, e.signup, e.saved, defaults, id);
        RefreshedMac(Get(before.devices, id).value.record, e.signup);
      }
    }
  }

  lemma RefreshedMac(r: Record, s: Signup)
    ensures Refreshed(r, s).mac == if r.mac != "" then r.mac else s.mac
  {
  }

  /** The last firmware version a device reports in a run of events. */
  function LastFirmware(events: seq<Event>, id: int): Option<string> {
    if events == [] then None else
      var e := events[|events| - 1];
      if e.Contact? && e.signup.petkitId == id && e.signup.firmware != "" then Some(e.signup.firmware)
      else LastFirmware(events[..|events| - 1], id)
  }

  /** Firmware, unlike the identity, follows the latest report. */
  lemma {:induction false} FirmwareFollows(reg: Registry, events: seq<Event>, defaults: Defaults, id: int)
    requires Get(reg.devices, id).Some?
    ensures var after := Get(AfterAll(reg, events, defaults).devices, id);
            && after.Some?
            && after.value.record.firmware
                 == LastFirmware(events, id).GetOr(Get(reg.devices, id).value.record.firmware)
  {
    if events == [] {
      assert AfterAll(reg, [], defaults) == reg;
    } else {
      var n := |events| - 1;
      FirmwareFollows(reg, events[..n], defaults, id);
      var before, e := AfterAll(reg, events[..n], defaults), events[n];
      OneEvent(reg, events, defaults, id);
      hide AfterAll, After, Get, Refreshed;
      if e.Contact? {
        SignupStep(before, e.signup, e.saved, defaults, id);
        RefreshedFirmware(Get(before.devices, id).value.record, e.signup);
      }
    }
  }

  lemma RefreshedFirmware(r: Record, s: Signup)
    ensures Refreshed(r, s).firmware == if s.firmware != "" then s.firmware else r.firmware
  {
  }

  // --- a restart -------------------------------------------------------------

  /** `from_dict` takes it: an object with a type and an id. Any other exception is caught and the
      entry skipped. */
  predicate Readable(e: Entry) {
    e.Object? && e.stored.deviceType.Some? && !e.stored.petkitId.NoId?
  }

  function ConfigOf(c: StoredConfig): Config {
    if c.Mapping? then c.config else Config(Missing, map[])
  }

  /** The MQTT name an entry gives its device. */
  function NameOf(s: Stored): string
    requires s.deviceType.Some? && s.petkitId.Number?
  {
    var serial := s.serial.GetOr("");
    s.deviceName.GetOr(MqttName(s.deviceType.value.text, if serial != "" then serial else IntText(s.petkitId.n)))
  }

  /** `from_dict`, for a numeric id and a config that is a map. */
  function FromDict(s: Stored, m: Minted): Record
    requires s.deviceType.Some? && s.petkitId.Number?
  {
    Record(s.deviceType.value, s.petkitId.n, s.serial.GetOr(""), s.mac.GetOr(""), s.firmware.GetOr(""),
           s.wireType.GetOr(""), s.productKey.GetOr(m.productKey), NameOf(s), s.deviceSecret.GetOr(m.secret),
           s.apiSecret.GetOr(""), ConfigOf(s.config), s.createdAt.GetOr(m.now))
  }

  function Revive(r: Record, defaults: Defaults): Device {
    Device(Filled(r, defaults), FRESH)
  }

  /** What one turn of the loop comes to; `Crash` is an exception outside its `try`. */
  datatype Turn = Skipped | Loaded(device: Device) | Crash

  function TurnOf(e: Entry, mint: Mint, defaults: Defaults): Turn {
    if !Readable(e) then Skipped
    else if !e.stored.petkitId.Number? then Crash
    else if e.stored.petkitId.n <= 0 then Skipped
    else if e.stored.config.NotAMap? then Crash
    else if !ConfigOf(e.stored.config).settings.NotADict? && e.stored.deviceType.value.Compound? then Crash
    else Loaded(Revive(FromDict(e.stored, mint(e.stored)), defaults))
  }

  /** The registry as `_restore` leaves it, or the exception that stops the add-on from starting. */
  datatype Load = Up(devices: seq<Device>) | Down

  /** `_restore`, given a JSON object. */
  function Restore(entries: seq<Entry>, mint: Mint, defaults: Defaults): Load {
    if entries == [] then Up([]) else
      match Restore(entries[..|entries| - 1], mint, defaults)
      case Down => Down
      case Up(devices) =>
        match TurnOf(entries[|entries| - 1], mint, defaults)
        case Skipped => Up(devices)
        case Loaded(d) => Up(Put(devices, d))
        case Crash => Down
  }

  lemma {:induction false} DownStays(entries: seq<Entry>, k: nat, mint: Mint, defaults: Defaults)
    requires k <= |entries| && Restore(entries[..k], mint, defaults).Down?
    ensures Restore(entries, mint, defaults).Down?
    decreases |entries|
  {
    if k == |entries| {
      assert entries[..k] == entries;
    } else {
      assert entries[..|entries| - 1][..k] == entries[..k];
      DownStays(entries[..|entries| - 1], k, mint, defaults);
    }
  }

  lemma RestoreStep(entries: seq<Entry>, k: nat, mint: Mint, defaults: Defaults)
    requires k < |entries|
    ensures Restore(entries[..k + 1], mint, defaults) ==
      match Restore(entries[..k], mint, defaults)
      case Down => Down
      case Up(devices) =>
        match TurnOf(entries[k], mint, defaults)
        case Skipped => Up(devices)
        case Loaded(d) => Up(Put(devices, d))
        case Crash => Down
  {
    hide TurnOf;
    assert entries[..k + 1][..k] == entries[..k];
  }

  method RestoreAll(entries: seq<Entry>, mint: Mint, defaults: Defaults) returns (load: Load)
    ensures load == Restore(entries, mint, defaults)
  {
    hide Put, Restore, Revive, FromDict;
    var devices: seq<Device> := [];
    NothingLoaded(entries, mint, defaults);
    for k := 0 to |entries|
      invariant Restore(entries[..k], mint, defaults) == Up(devices)
    {
      RestoreStep(entries, k, mint, defaults);
      if !Readable(entries[k]) {
        continue;
      }
      var s := entries[k].stored;
      if s.petkitId.NotANumber? {
        DownStays(entries, k + 1, mint, defaults);
        return Down;
      }
      if s.petkitId.n <= 0 {
        continue;
      }
      if s.config.NotAMap? {
        DownStays(entries, k + 1, mint, defaults);
        return Down;
      }
      if !ConfigOf(s.config).settings.NotADict? && s.deviceType.value.Compound? {
        DownStays(entries, k + 1, mint, defaults);
        return Down;
      }
      devices := Put(devices, Revive(FromDict(s, mint(s)), defaults));
    }
    assert entries[..|entries|] == entries;
    return Up(devices);
  }

  lemma NothingLoaded(entries: seq<Entry>, mint: Mint, defaults: Defaults)
    ensures Restore(entries[..0], mint, defaults) == Up([])
  {
  }

  /** The record that costs every device its credentials: read without complaint, and then its id is
      no number, or (for a real id) its config is no map, or its type cannot be looked up. */
  predicate Fatal(e: Entry) {
    Readable(e) && match e.stored.petkitId
                   case Number(n) =>
                     n > 0 && (|| e.stored.config.NotAMap?
                               || (e.stored.deviceType.value.Compound?
                                 && !ConfigOf(e.stored.config).settings.NotADict?))
                   case _ => true
  }

  lemma FatalIff(e: Entry, mint: Mint, defaults: Defaults)
    ensures TurnOf(e, mint, defaults).Crash? <==> Fatal(e)
  {
    hide Revive, FromDict;
  }

  /** An object with a type and an id, the id no number; or a positive one, and its config no object,
      or its type one that cannot be looked up and its settings to be filled. */
  lemma FatalIs(e: Entry)
    ensures Fatal(e) <==> e.Object? && var s := e.stored;
      && s.deviceType.Some?
      && (|| s.petkitId == NotANumber
          || (&& s.petkitId.Number? && s.petkitId.n > 0
              && (|| s.config == NotAMap
                  || (&& s.deviceType.value.Compound?
                      && (s.config == NoConfig || s.config.config.settings != NotADict)))))
  {
  }

  /** The load completes exactly when no entry is fatal. */
  lemma {:induction false} LoadCompletesIff(entries: seq<Entry>, mint: Mint, defaults: Defaults)
    ensures Restore(entries, mint, defaults).Up? <==> forall e | e in entries :: !Fatal(e)
  {
    if entries != [] {
      hide Put, TurnOf, Fatal;
      var n := |entries| - 1;
      RestoreLast(entries, mint, defaults);
      LoadCompletesIff(entries[..n], mint, defaults);
      FatalIff(entries[n], mint, defaults);
      assert entries == entries[..n] + [entries[n]];
    }
  }

  /** The device the last usable entry of an id describes. */
  function LastFor(entries: seq<Entry>, id: int, mint: Mint, defaults: Defaults): Option<Device> {
    if entries == [] then None else
      var rest := LastFor(entries[..|entries| - 1], id, mint, defaults);
      match TurnOf(entries[|entries| - 1], mint, defaults)
      case Loaded(d) => if d.record.petkitId == id then Some(d) else rest
      case _ => rest
  }

  /** A load that completes gives each id what its own last usable entry says, whatever else is in
      the file. */
  lemma {:induction false} EachFromItsOwnEntry(entries: seq<Entry>, mint: Mint, defaults: Defaults, id: int)
    requires Restore(entries, mint, defaults).Up?
    ensures Get(Restore(entries, mint, defaults).devices, id) == LastFor(entries, id, mint, defaults)
  {
    if entries == [] {
      assert Get([], id).None?;
    } else {
      hide Get, Put, TurnOf;
      var n := |entries| - 1;
      RestoreLast(entries, mint, defaults);
      EachFromItsOwnEntry(entries[..n], mint, defaults, id);
      if TurnOf(entries[n], mint, defaults).Loaded? {
        GetPut(Restore(entries[..n], mint, defaults).devices, TurnOf(entries[n], mint, defaults).device, id);
      }
    }
  }

  /** An entry `from_dict` refuses costs no other device anything, wherever it stands. */
  lemma {:induction false} UnreadableCostsNothing(a: seq<Entry>, bad: Entry, b: seq<Entry>, mint: Mint,
    defaults: Defaults)
    requires !Readable(bad)
    ensures Restore(a + [bad] + b, mint, defaults) == Restore(a + b, mint, defaults)
    decreases |b|
  {
    hide Put, Revive, FromDict;
    if b == [] {
      assert (a + [bad] + b)[..|a|] == a && a + b == a;
    } else {
      var n := |b| - 1;
      hide TurnOf;
      assert (a + [bad] + b)[..|a| + 1 + n] == a + [bad] + b[..n] && (a + b)[..|a| + n] == a + b[..n];
      UnreadableCostsNothing(a, bad, b[..n], mint, defaults);
    }
  }

  /** Settings after a signup or a load: every default that was missing, and whatever was set. */
  lemma FilledSettings(c: Config, defaults: map<string, string>, key: string)
    requires c.settings.Block?
    ensures var f := Fill(c, defaults);
            && f.others == c.others && f.settings.Block?
            && (key in f.settings.values <==> key in c.settings.values || key in defaults)
            && (key in c.settings.values ==> f.settings.values[key] == c.settings.values[key])
            && (key in defaults && key !in c.settings.values ==> f.settings.values[key] == defaults[key])
  {
  }

  /** A file of one usable entry: every field it has is restored, and one it lacks is empty or, for the
      keys and the time, generated; the MQTT name is made from the serial number or failing that the
      id, and the missing settings are the defaults. */
  lemma RestoredFields(s: Stored, mint: Mint, defaults: Defaults)
    requires s.deviceType.Some? && s.petkitId.Number? && s.petkitId.n > 0 && !Fatal(Object(s))
    ensures var load := Restore([Object(s)], mint, defaults);
            && load.Up? && |load.devices| == 1
            && var r, m := load.devices[0].record, mint(s);
               && r.deviceType == s.deviceType.value && r.petkitId == s.petkitId.n
               && r.serial == (if s.serial.Some? then s.serial.value else "")
               && r.mac == (if s.mac.Some? then s.mac.value else "")
               && r.firmware == (if s.firmware.Some? then s.firmware.value else "")
               && r.wireType == (if s.wireType.Some? then s.wireType.value else "")
               && r.apiSecret == (if s.apiSecret.Some? then s.apiSecret.value else "")
               && r.productKey == (if s.productKey.Some? then s.productKey.value else m.productKey)
               && r.deviceSecret == (if s.deviceSecret.Some? then s.deviceSecret.value else m.secret)
               && r.createdAt == (if s.createdAt.Some? then s.createdAt.value else m.now)
               && (s.deviceName.Some? ==> r.deviceName == s.deviceName.value)
               && (s.deviceName.None? ==>
                     r.deviceName == "d_" + r.deviceType.text + "_"
                                     + (if r.serial == "" then IntText(s.petkitId.n) else r.serial))
               && (s.config == NoConfig ==> r.config == Config(Block(defaults(r.deviceType.text)), map[]))
               && load.devices[0].live == FRESH
  {
    assert [Object(s)][..0] == [];
    assert Restore([Object(s)][..0], mint, defaults) == Up([]);
    hide Restore;
    RestoreLast([Object(s)], mint, defaults);
  }

  function Positive(d: Device): bool {
    d.record.petkitId > 0
  }

  function Revived(defaults: Defaults): Device -> Device {
    (d: Device) => Revive(d.record, defaults)
  }

  /** A record every part of the code can handle. */
  predicate Usable(r: Record) {
    r.deviceType.Compound? ==> r.config.settings.NotADict?
  }

  lemma RereadTurn(r: Record, mint: Mint, defaults: Defaults)
    requires Usable(r)
    ensures TurnOf(Written(r), mint, defaults) == if r.petkitId > 0 then Loaded(Revive(r, defaults)) else Skipped
  {
    hide Revive;
  }

  lemma {:induction false} PutNew(devices: seq<Device>, d: Device)
    requires forall e | e in devices :: e.record.petkitId != d.record.petkitId
    ensures Put(devices, d) == devices + [d]
  {
    if devices != [] {
      PutNew(devices[1..], d);
      assert [devices[0]] + (devices[1..] + [d]) == devices + [d];
    } else {
      assert devices + [d] == [d];
    }
  }

  /** The restored front has none of the last device's id. */
  lemma FrontHasNoSuchId(devices: seq<Device>, defaults: Defaults)
    requires devices != [] && DistinctKeys(devices, IdOf)
    ensures var n := |devices| - 1;
            forall e | e in Map(Filter(devices[..n], Positive), Revived(defaults)) ::
              e.record.petkitId != devices[n].record.petkitId
  {
    hide Filter;
    var n := |devices| - 1;
    var kept := Filter(devices[..n], Positive);
    FilterMember(devices[..n], Positive);
    var revived := Map(kept, Revived(defaults));
    forall e | e in revived ensures e.record.petkitId != devices[n].record.petkitId {
      var i :| 0 <= i < |revived| && revived[i] == e;
      assert kept[i] in devices[..n];
      var j :| 0 <= j < n && devices[..n][j] == kept[i];
      assert IdOf(devices[j]) != IdOf(devices[n]);
    }
  }

  lemma SerializeSplit(devices: seq<Device>)
    requires devices != []
    ensures var n := |devices| - 1;
            var file := Serialize(devices);
            && |file| == n + 1 && file[..n] == Serialize(devices[..n])
            && file[n] == Written(devices[n].record)
  {
  }

  lemma KeptSplit(devices: seq<Device>, defaults: Defaults)
    requires devices != []
    ensures var n := |devices| - 1;
            Map(Filter(devices, Positive), Revived(defaults))
            == Map(Filter(devices[..n], Positive), Revived(defaults))
               + if Positive(devices[n]) then [Revive(devices[n].record, defaults)] else []
  {
    hide Revive, Filter, Map, Revived, Positive;
    var n := |devices| - 1;
    var front, back := devices[..n], devices[n];
    assert devices == front + [back];
    FilterSnoc(front, back, Positive);
    var kept := Filter(front, Positive);
    if Positive(back) {
      MapAppend(kept, [back], Revived(defaults));
      MapOne(back, defaults);
    } else {
      assert Map(kept, Revived(defaults)) + [] == Map(kept, Revived(defaults));
    }
  }

  lemma MapOne(d: Device, defaults: Defaults)
    ensures Map([d], Revived(defaults)) == [Revive(d.record, defaults)]
  {
    hide Revive;
  }

  lemma RestoreLast(entries: seq<Entry>, mint: Mint, defaults: Defaults)
    requires entries != []
    ensures var n := |entries| - 1;
            Restore(entries, mint, defaults) ==
            match Restore(entries[..n], mint, defaults)
            case Down => Down
            case Up(devices) =>
              match TurnOf(entries[n], mint, defaults)
              case Skipped => Up(devices)
              case Loaded(d) => Up(Put(devices, d))
              case Crash => Down
  {
    hide TurnOf;
  }

  /** A restart brings back every device with an id, in order, with its whole record and any new
      default settings; only the live state starts afresh, and nothing is minted anew. */
  lemma {:induction false} RestartKeepsDevices(devices: seq<Device>, mint: Mint, defaults: Defaults)
    requires DistinctKeys(devices, IdOf) && forall d | d in devices :: Usable(d.record)
    ensures Restore(Serialize(devices), mint, defaults) == Up(Map(Filter(devices, Positive), Revived(defaults)))
  {
    if devices != [] {
      var n := |devices| - 1;
      hide Filter, Restore, TurnOf, Written, Revived, Put, Usable, Serialize;
      assert devices[n] in devices && forall d | d in devices[..n] :: d in devices;
      SerializeSplit(devices);
      RestoreLast(Serialize(devices), mint, defaults);
      RestartKeepsDevices(devices[..n], mint, defaults);
      RereadTurn(devices[n].record, mint, defaults);
      KeptSplit(devices, defaults);
      FrontHasNoSuchId(devices, defaults);
      if Positive(devices[n]) {
        ReviveId(devices[n].record, defaults);
        PutNew(Map(Filter(devices[..n], Positive), Revived(defaults)), Revive(devices[n].record, defaults));
      }
    }
  }

  lemma ReviveId(r: Record, defaults: Defaults)
    ensures Revive(r, defaults).record.petkitId == r.petkitId
  {
  }

  lemma FillTwice(c: Config, defaults: map<string, string>)
    ensures Fill(Fill(c, defaults), defaults) == Fill(c, defaults)
  {
    if c.settings.Block? {
      assert defaults + (defaults + c.settings.values) == defaults + c.settings.values;
    } else if c.settings.Missing? {
      assert defaults + defaults == defaults;
    }
  }

  /** What a restore leaves: ids distinct and positive, settings filled, nothing live. */
  ghost predicate Settled(devices: seq<Device>, defaults: Defaults) {
    DistinctKeys(devices, IdOf) && forall d | d in devices :: SettledOne(d, defaults)
  }

  ghost predicate SettledOne(d: Device, defaults: Defaults) {
    Positive(d) && d == Revive(d.record, defaults) && Usable(d.record)
  }

  lemma {:induction false} PutMembers(devices: seq<Device>, d: Device)
    ensures forall e | e in Put(devices, d) :: e in devices || e == d
  {
    if devices != [] && devices[0].record.petkitId != d.record.petkitId {
      PutMembers(devices[1..], d);
    }
  }

  lemma {:induction false} PutDistinct(devices: seq<Device>, d: Device)
    requires DistinctKeys(devices, IdOf)
    ensures DistinctKeys(Put(devices, d), IdOf)
  {
    if devices == [] {
    } else if devices[0].record.petkitId == d.record.petkitId {
      var t := [d] + devices[1..];
      forall i, j | 0 <= i < j < |t| ensures IdOf(t[i]) != IdOf(t[j]) {
        assert IdOf(devices[i]) != IdOf(devices[j]);
      }
    } else {
      forall i, j | 0 <= i < j < |devices[1..]| ensures IdOf(devices[1..][i]) != IdOf(devices[1..][j]) {
        assert IdOf(devices[i + 1]) != IdOf(devices[j + 1]);
      }
      PutDistinct(devices[1..], d);
      PutMembers(devices[1..], d);
      var rest := Put(devices[1..], d);
      forall j | 0 <= j < |rest| ensures IdOf(devices[0]) != IdOf(rest[j]) {
        if rest[j] != d {
          assert rest[j] in devices[1..];
          var k :| 0 <= k < |devices[1..]| && devices[1..][k] == rest[j];
          assert IdOf(devices[0]) != IdOf(devices[k + 1]);
        }
      }
      AppendDistinct([devices[0]], rest, IdOf);
    }
  }

  lemma TurnSettles(e: Entry, mint: Mint, defaults: Defaults)
    requires TurnOf(e, mint, defaults).Loaded?
    ensures SettledOne(TurnOf(e, mint, defaults).device, defaults)
  {
    FillTwice(ConfigOf(e.stored.config), defaults(e.stored.deviceType.value.text));
  }

  lemma {:induction false} RestoreSettles(entries: seq<Entry>, mint: Mint, defaults: Defaults)
    requires Restore(entries, mint, defaults).Up?
    ensures Settled(Restore(entries, mint, defaults).devices, defaults)
  {
    if entries != [] {
      hide Put, TurnOf, SettledOne;
      var n := |entries| - 1;
      RestoreSettles(entries[..n], mint, defaults);
      if TurnOf(entries[n], mint, defaults).Loaded? {
        TurnSettles(entries[n], mint, defaults);
        PutDistinct(Restore(entries[..n], mint, defaults).devices, TurnOf(entries[n], mint, defaults).device);
        PutMembers(Restore(entries[..n], mint, defaults).devices, TurnOf(entries[n], mint, defaults).device);
      }
    }
  }

  /** Whatever the file held, once it has loaded a second restart changes nothing more. */
  lemma SecondRestartChangesNothing(entries: seq<Entry>, mint: Mint, defaults: Defaults)
    requires Restore(entries, mint, defaults).Up?
    ensures var devices := Restore(entries, mint, defaults).devices;
            Restore(Serialize(devices), mint, defaults) == Up(devices)
  {
    hide Put, Serialize;
    RestoreSettles(entries, mint, defaults);
    var devices := Restore(entries, mint, defaults).devices;
    hide Restore;
    RestartKeepsDevices(devices, mint, defaults);
    FilterAll(devices, Positive);
    var revived := Map(devices, Revived(defaults));
    forall i | 0 <= i < |devices| ensures revived[i] == devices[i] {
      assert devices[i] in devices && SettledOne(devices[i], defaults);
    }
    assert revived == devices;
  }
}
