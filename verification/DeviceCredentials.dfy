/** What a crash can cost a device: which of its credentials a restart from devices.json would bring
    back, through every run of signups and background flushes (devices/registry.py). */
module DeviceCredentials {
  import opened Common
  import opened Devices

  /** The MQTT triple and the API secret: what a device keeps using and the add-on must recognise. */
  ghost predicate SameCredentials(a: Record, b: Record) {
    && a.productKey == b.productKey && a.deviceName == b.deviceName
    && a.deviceSecret == b.deviceSecret && a.apiSecret == b.apiSecret
  }

  /** A restart from this text brings the device back with the credentials it has now. */
  ghost predicate ComesBack(r: Record, text: seq<Entry>, mint: Mint, defaults: Defaults) {
    var load := Restore(text, mint, defaults);
    load.Up? && Get(load.devices, r.petkitId).Some?
    && SameCredentials(Get(load.devices, r.petkitId).value.record, r)
  }

  /** It does so whatever would be minted meanwhile. */
  ghost predicate Survives(r: Record, text: seq<Entry>, defaults: Defaults) {
    forall mint: Mint :: ComesBack(r, text, mint, defaults)
  }

  /** A crash now would cost no device its credentials. (An id that is not positive is no device's.) */
  ghost predicate OnRecord(reg: Registry, defaults: Defaults) {
    forall d | d in reg.devices && Positive(d) :: Survives(d.record, reg.file, defaults)
  }

  /** The entry that counts for an id: the last one. */
  function Said(text: seq<Entry>, id: int): Option<Stored> {
    if text == [] then None else
      var last := text[|text| - 1];
      if Readable(last) && last.stored.petkitId == Number(id) && id > 0 then Some(last.stored)
      else Said(text[..|text| - 1], id)
  }

  /** An entry with the keys that would otherwise be minted anew. */
  predicate Keyed(s: Stored) {
    s.productKey.Some? && s.deviceSecret.Some?
  }

  /** The entry is from before the device's first serial number, and has another MQTT name. */
  predicate OldName(r: Record, s: Stored)
    requires s.deviceType.Some? && s.petkitId.Number?
  {
    r.serial != "" && s.serial.GetOr("") == "" && NameOf(s) != MqttName(r.deviceType.text, r.serial)
  }

  /** The text names the device, with its keys, and not under an old name. */
  ghost predicate Kept(r: Record, text: seq<Entry>) {
    var s := Said(text, r.petkitId);
    s.Some? && s.value.deviceType.Some? && s.value.petkitId.Number? && Keyed(s.value) && !OldName(r, s.value)
  }

  ghost predicate AllKept(devices: seq<Device>, text: seq<Entry>) {
    forall d | d in devices && Positive(d) :: Kept(d.record, text)
  }

  /** An entry is right about a device, but for a first serial number sent since and the name made
      from it. */
  ghost predicate Agrees(r: Record, s: Stored) {
    && s.deviceType.Some? && s.petkitId == Number(r.petkitId)
    && s.productKey.GetOr(r.productKey) == r.productKey && s.deviceSecret.GetOr(r.deviceSecret) == r.deviceSecret
    && s.apiSecret.GetOr("") == r.apiSecret
    && if s.serial.GetOr("") == r.serial then NameOf(s) == r.deviceName
       else s.serial.GetOr("") == "" && r.deviceName == MqttName(r.deviceType.text, r.serial)
  }

  /** A text that can be loaded, with only devices of memory in it, and right about them. */
  ghost predicate Fits(devices: seq<Device>, text: seq<Entry>) {
    && (forall e | e in text :: !Fatal(e))
    && forall id | Said(text, id).Some? ::
         Get(devices, id).Some? && Agrees(Get(devices, id).value.record, Said(text, id).value)
  }

  /** Every text about fits. */
  ghost predicate Truthful(reg: Registry) {
    && DistinctKeys(reg.devices, IdOf) && (forall d | d in reg.devices :: Usable(d.record))
    && Fits(reg.devices, reg.file) && (reg.flight.Writing? ==> Fits(reg.devices, reg.flight.text))
  }

  // What a restart makes of a text.

  lemma {:induction false} SaidIs(text: seq<Entry>, id: int)
    ensures Said(text, id).Some? ==>
      var s := Said(text, id).value; Object(s) in text && Readable(Object(s)) && s.petkitId == Number(id) && id > 0
  {
    if text != [] {
      SaidIs(text[..|text| - 1], id);
    }
  }

  lemma {:induction false} LastForSaid(text: seq<Entry>, id: int, mint: Mint, defaults: Defaults)
    requires forall e | e in text :: !Fatal(e)
    ensures var s := Said(text, id);
            LastFor(text, id, mint, defaults) ==
            if s.Some? && s.value.deviceType.Some? && s.value.petkitId.Number?
            then Some(Revive(FromDict(s.value, mint(s.value)), defaults)) else None
  {
    SaidIs(text, id);
    if text != [] {
      var n := |text| - 1;
      assert text[n] in text && forall e | e in text[..n] :: e in text;
      LastForSaid(text[..n], id, mint, defaults);
      SaidIs(text[..n], id);
      FatalIff(text[n], mint, defaults);
      TurnId(text[n], mint, defaults);
      hide TurnOf, Revive, FromDict, Fatal;
    }
  }

  lemma TurnId(e: Entry, mint: Mint, defaults: Defaults)
    ensures match TurnOf(e, mint, defaults)
            case Loaded(d) =>
              && Readable(e) && e.stored.petkitId.Number? && e.stored.petkitId.n > 0
              && d == Revive(FromDict(e.stored, mint(e.stored)), defaults) && d.record.petkitId == e.stored.petkitId.n
            case Skipped => !Readable(e) || (e.stored.petkitId.Number? && e.stored.petkitId.n <= 0)
            case Crash => true
  {
  }

  /** A loadable text gives an id the credentials of the entry that counts, minting what it lacks. */
  lemma ComesBackIff(r: Record, text: seq<Entry>, mint: Mint, defaults: Defaults)
    requires forall e | e in text :: !Fatal(e)
    ensures var s := Said(text, r.petkitId);
            ComesBack(r, text, mint, defaults) <==>
              && s.Some? && s.value.deviceType.Some? && s.value.petkitId.Number?
              && SameCredentials(FromDict(s.value, mint(s.value)), r)
  {
    LoadCompletesIff(text, mint, defaults);
    EachFromItsOwnEntry(text, mint, defaults, r.petkitId);
    LastForSaid(text, r.petkitId, mint, defaults);
    hide Restore, LastFor, Said, Fatal, FromDict;
  }

  lemma SurvivesIff(r: Record, text: seq<Entry>, defaults: Defaults)
    requires forall e | e in text :: !Fatal(e)
    requires Said(text, r.petkitId).Some? ==> Agrees(r, Said(text, r.petkitId).value)
    ensures Survives(r, text, defaults) <==> Kept(r, text)
  {
    hide Said, Restore, Get, ComesBack, Fatal;
    var other: Mint := (s: Stored) => Minted(r.productKey + "x", r.deviceSecret + "x", 0.0);
    ComesBackIff(r, text, other, defaults);
    if Kept(r, text) {
      forall mint: Mint ensures ComesBack(r, text, mint, defaults) {
        ComesBackIff(r, text, mint, defaults);
      }
    } else {
      assert !ComesBack(r, text, other, defaults);
    }
  }

  lemma GetOfMember(devices: seq<Device>, d: Device)
    requires DistinctKeys(devices, IdOf) && d in devices
    ensures Get(devices, d.record.petkitId) == Some(d)
  {
    var i :| 0 <= i < |devices| && devices[i] == d;
    var g := Get(devices, d.record.petkitId);
    assert HasId(d.record.petkitId)(d);
    var j :| 0 <= j < |devices| && devices[j] == g.value;
    assert IdOf(devices[i]) == IdOf(devices[j]);
  }

  /** Of a text that fits, everyone survives exactly if everyone is kept. */
  lemma AllSurviveIff(devices: seq<Device>, text: seq<Entry>, defaults: Defaults)
    requires DistinctKeys(devices, IdOf) && Fits(devices, text)
    ensures (forall d | d in devices && Positive(d) :: Survives(d.record, text, defaults)) <==> AllKept(devices, text)
  {
    hide Survives, Kept, Get, Agrees, Said;
    forall d | d in devices && Positive(d) ensures Survives(d.record, text, defaults) <==> Kept(d.record, text) {
      GetOfMember(devices, d);
      SurvivesIff(d.record, text, defaults);
    }
  }

  // What each step keeps.

  lemma {:induction false} SaidWritten(devices: seq<Device>, id: int)
    requires DistinctKeys(devices, IdOf)
    ensures var d := Get(devices, id);
            Said(Serialize(devices), id) == if d.Some? && id > 0 then Some(Written(d.value.record).stored) else None
  {
    if devices != [] {
      hide Written;
      var n := |devices| - 1;
      SaidWritten(devices[..n], id);
      assert devices == devices[..n] + [devices[n]];
      FirstSnoc(devices[..n], devices[n], HasId(id));
      if Get(devices[..n], id).Some? {
        GetHasId(devices[..n], id);
        var d := Get(devices[..n], id).value;
        var i :| 0 <= i < n && devices[..n][i] == d;
        assert IdOf(devices[i]) != IdOf(devices[n]);
      }
      SerializeSplit(devices);
      WrittenId(devices[n].record);
    }
  }

  lemma WrittenId(r: Record)
    ensures Readable(Written(r)) && Written(r).stored.petkitId == Number(r.petkitId)
  {
  }

  lemma WrittenAgrees(r: Record)
    ensures Agrees(r, Written(r).stored) && Keyed(Written(r).stored) && !OldName(r, Written(r).stored)
    ensures Usable(r) ==> !Fatal(Written(r))
  {
  }

  /** The text of a whole registry fits it and keeps everyone. */
  lemma SerializedFits(devices: seq<Device>)
    requires DistinctKeys(devices, IdOf) && forall d | d in devices :: Usable(d.record)
    ensures Fits(devices, Serialize(devices)) && AllKept(devices, Serialize(devices))
  {
    hide Get, Said, Agrees, Fatal, Written, OldName, Usable, Keyed;
    var text := Serialize(devices);
    forall e | e in text ensures !Fatal(e) {
      var i :| 0 <= i < |text| && text[i] == e;
      assert devices[i] in devices;
      WrittenAgrees(devices[i].record);
    }
    forall id | Said(text, id).Some?
      ensures Get(devices, id).Some? && Agrees(Get(devices, id).value.record, Said(text, id).value)
    {
      SaidWritten(devices, id);
      WrittenAgrees(Get(devices, id).value.record);
    }
    forall d | d in devices && Positive(d) ensures Kept(d.record, text) {
      SaidWritten(devices, d.record.petkitId);
      GetOfMember(devices, d);
      WrittenAgrees(d.record);
      WrittenId(d.record);
    }
  }

  lemma RefreshedAgrees(r: Record, signup: Signup, s: Stored)
    requires Agrees(r, s)
    ensures Agrees(Refreshed(r, signup), s)
  {
  }

  /** What a known device becomes by a signup, or a new device: the one `After` puts. */
  function Signed(devices: seq<Device>, s: Signup, defaults: Defaults): Device {
    match Get(devices, s.petkitId)
    case Some(d) => d.(record := Refreshed(d.record, s))
    case None => NewDevice(s, defaults)
  }

  lemma SignedIs(devices: seq<Device>, s: Signup, defaults: Defaults)
    requires forall d | d in devices :: Usable(d.record)
    ensures var d := Signed(devices, s, defaults); d.record.petkitId == s.petkitId && Usable(d.record)
    ensures forall flight, file, dirty, saved ::
      After(Registry(devices, file, dirty, flight), Contact(s, saved), defaults).devices
      == Put(devices, Signed(devices, s, defaults))
  {
    GetHasId(devices, s.petkitId);
    hide Put;
  }

  lemma StillFits(devices: seq<Device>, s: Signup, defaults: Defaults, text: seq<Entry>)
    requires Fits(devices, text) && forall d | d in devices :: Usable(d.record)
    ensures Fits(Put(devices, Signed(devices, s, defaults)), text)
  {
    hide Put, Get, Said, Agrees, Fatal, NewDevice, Refreshed, Usable;
    var d := Signed(devices, s, defaults);
    SignedIs(devices, s, defaults);
    GetHasId(devices, s.petkitId);
    forall id | Said(text, id).Some?
      ensures Get(Put(devices, d), id).Some? && Agrees(Get(Put(devices, d), id).value.record, Said(text, id).value)
    {
      GetPut(devices, d, id);
      if id == s.petkitId {
        RefreshedAgrees(Get(devices, id).value.record, s, Said(text, id).value);
      }
    }
  }

  lemma TruthfulStep(reg: Registry, e: Event, defaults: Defaults)
    requires Truthful(reg)
    ensures Truthful(After(reg, e, defaults))
  {
    hide Put, Signed, NewDevice, Refreshed, Serialize, Fits, AllKept, Get, Usable;
    match e
    case Contact(s, _) =>
      var d := Signed(reg.devices, s, defaults);
      ContactPuts(reg, e, defaults);
      SignedIs(reg.devices, s, defaults);
      PutDistinct(reg.devices, d);
      PutMembers(reg.devices, d);
      StillFits(reg.devices, s, defaults, reg.file);
      if reg.flight.Writing? {
        StillFits(reg.devices, s, defaults, reg.flight.text);
      }
      SerializedFits(Put(reg.devices, d));
    case Mark =>
    case BeginFlush => SerializedFits(reg.devices);
    case Land(_) =>
    case EndFlush =>
  }

  lemma ContactPuts(reg: Registry, e: Event, defaults: Defaults)
    requires e.Contact?
    ensures var after := After(reg, e, defaults);
            && after.devices == Put(reg.devices, Signed(reg.devices, e.signup, defaults))
            && after.flight == reg.flight
            && after.file == (if Get(reg.devices, e.signup.petkitId).None? && e.saved then Serialize(after.devices)
                              else reg.file)
  {
    hide Put, NewDevice, Refreshed, Serialize;
  }

  lemma {:induction false} TruthfulRun(reg: Registry, events: seq<Event>, defaults: Defaults)
    requires Truthful(reg)
    ensures Truthful(AfterAll(reg, events, defaults))
  {
    hide Truthful, After;
    if events != [] {
      TruthfulRun(reg, events[..|events| - 1], defaults);
      TruthfulStep(AfterAll(reg, events[..|events| - 1], defaults), events[|events| - 1], defaults);
    }
  }

  // Where runs begin.

  /** After a write of the whole registry, or with both empty, everyone is on record. */
  lemma WrittenIsTruthful(devices: seq<Device>, dirty: bool, defaults: Defaults)
    requires DistinctKeys(devices, IdOf) && forall d | d in devices :: Usable(d.record)
    ensures var reg := Registry(devices, Serialize(devices), dirty, Idle); Truthful(reg) && OnRecord(reg, defaults)
  {
    hide Fits, AllKept, Survives, Serialize;
    SerializedFits(devices);
    AllSurviveIff(devices, Serialize(devices), defaults);
  }

  lemma LoadedAgrees(s: Stored, m: Minted, defaults: Defaults)
    requires s.deviceType.Some? && s.petkitId.Number?
    ensures Agrees(Revive(FromDict(s, m), defaults).record, s)
    ensures !OldName(Revive(FromDict(s, m), defaults).record, s)
  {
  }

  /** After any load that completes, whatever the file held, everyone is on record exactly if every
      entry that counts has its keys: what a load mints is not in the file. */
  lemma LoadedIsTruthful(text: seq<Entry>, mint: Mint, defaults: Defaults)
    requires Restore(text, mint, defaults).Up?
    ensures var reg := Registry(Restore(text, mint, defaults).devices, text, false, Idle);
            && Truthful(reg)
            && (OnRecord(reg, defaults) <==> forall id | Said(text, id).Some? :: Keyed(Said(text, id).value))
  {
    hide Restore, LastFor, Said, Get, Fatal, Revive, FromDict, Agrees, OldName, Survives, Usable, Keyed;
    var devices := Restore(text, mint, defaults).devices;
    LoadCompletesIff(text, mint, defaults);
    RestoreSettles(text, mint, defaults);
    forall id ensures
      match Said(text, id)
      case Some(s) =>
        && Readable(Object(s)) && s.petkitId == Number(id) && id > 0
        && Get(devices, id) == Some(Revive(FromDict(s, mint(s)), defaults))
      case None => Get(devices, id).None?
    {
      SaidIs(text, id);
      EachFromItsOwnEntry(text, mint, defaults, id);
      LastForSaid(text, id, mint, defaults);
    }
    forall id | Said(text, id).Some?
      ensures var s := Said(text, id).value;
              && Get(devices, id).Some? && Agrees(Get(devices, id).value.record, s)
              && !OldName(Get(devices, id).value.record, s)
    {
      LoadedAgrees(Said(text, id).value, mint(Said(text, id).value), defaults);
    }
    assert Fits(devices, text);
    AllSurviveIff(devices, text, defaults);
    KeptAreKeyed(devices, text);
  }

  lemma KeptAreKeyed(devices: seq<Device>, text: seq<Entry>)
    requires DistinctKeys(devices, IdOf)
    requires forall id :: Said(text, id).Some? <==> Get(devices, id).Some?
    requires forall id | Said(text, id).Some? ::
      var s := Said(text, id).value;
      && s.deviceType.Some? && s.petkitId.Number? && Get(devices, id).Some? && id > 0
      && !OldName(Get(devices, id).value.record, s)
    ensures AllKept(devices, text) <==> forall id | Said(text, id).Some? :: Keyed(Said(text, id).value)
  {
    hide Said, Get, OldName, Keyed;
    if AllKept(devices, text) {
      forall id | Said(text, id).Some? ensures Keyed(Said(text, id).value) {
        var d := Get(devices, id).value;
        GetHasId(devices, id);
        GetIsMember(devices, id);
        assert Kept(d.record, text);
      }
    } else {
      var d :| d in devices && Positive(d) && !Kept(d.record, text);
      GetOfMember(devices, d);
      assert !Keyed(Said(text, d.record.petkitId).value);
    }
  }

  lemma GetIsMember(devices: seq<Device>, id: int)
    ensures Get(devices, id).Some? ==> Get(devices, id).value in devices
  {
  }

  // The laws.

  /** From any load or write on, in every run of signups, marks and background flushes, whatever fails
      and however they interleave: a crash costs a device its credentials exactly when the file does
      not name it, or names it from before its first serial number and under another MQTT name, or
      has named it without its keys ever since it was loaded. */
  lemma CrashCostsIff(reg: Registry, events: seq<Event>, defaults: Defaults)
    requires Truthful(reg)
    ensures var end := AfterAll(reg, events, defaults); OnRecord(end, defaults) <==> AllKept(end.devices, end.file)
  {
    TruthfulRun(reg, events, defaults);
    hide AfterAll, Fits, AllKept, Survives;
    var end := AfterAll(reg, events, defaults);
    AllSurviveIff(end.devices, end.file, defaults);
  }

  /** A background write that lands leaves everyone on record exactly when the text it encoded
      earlier keeps everyone: no device has signed up since, and no MQTT name has changed. */
  lemma LandingCostsIff(reg: Registry, events: seq<Event>, defaults: Defaults)
    requires Truthful(reg) && AfterAll(reg, events, defaults).flight.Writing?
    ensures var now := AfterAll(reg, events, defaults);
            OnRecord(After(now, Land(true), defaults), defaults) <==> AllKept(now.devices, now.flight.text)
  {
    TruthfulRun(reg, events, defaults);
    hide AfterAll, Fits, AllKept, Survives;
    var now := AfterAll(reg, events, defaults);
    AllSurviveIff(now.devices, now.flight.text, defaults);
  }

  /** A signup of a known device that changes its MQTT name. */
  predicate Renames(d: Device, s: Signup) {
    Positive(d) && Refreshed(d.record, s).deviceName != d.record.deviceName
  }

  /** The event issues no credentials: it is no first contact and changes no MQTT name. */
  predicate Quiet(reg: Registry, e: Event) {
    e.Contact? ==> var d := Get(reg.devices, e.signup.petkitId); d.Some? && !Renames(d.value, e.signup)
  }

  /** First contacts are written through, none while a background write is in flight, and no MQTT
      name changes. */
  ghost predicate Calm(reg: Registry, events: seq<Event>, defaults: Defaults)
    decreases events
  {
    events != [] ==>
      var n := |events| - 1;
      var before := AfterAll(reg, events[..n], defaults);
      && Calm(reg, events[..n], defaults)
      && (Quiet(before, events[n])
          || (events[n].Contact? && Get(before.devices, events[n].signup.petkitId).None?
              && events[n].saved && !before.flight.Writing?))
  }

  /** Everyone is kept on file, and on its way there. */
  ghost predicate Covered(reg: Registry) {
    AllKept(reg.devices, reg.file) && (reg.flight.Writing? ==> AllKept(reg.devices, reg.flight.text))
  }

  lemma KeptStays(r: Record, signup: Signup, s: Stored)
    requires Agrees(r, s) && !OldName(r, s)
    ensures OldName(Refreshed(r, signup), s) <==> Refreshed(r, signup).deviceName != r.deviceName
  {
  }

  /** A signup of a known device keeps a text that kept everyone exactly unless it changes the name. */
  lemma StillKeptIff(devices: seq<Device>, s: Signup, defaults: Defaults, text: seq<Entry>)
    requires DistinctKeys(devices, IdOf) && Fits(devices, text) && AllKept(devices, text)
    requires Get(devices, s.petkitId).Some? && forall d | d in devices :: Usable(d.record)
    ensures AllKept(Put(devices, Signed(devices, s, defaults)), text) <==> !Renames(Get(devices, s.petkitId).value, s)
  {
    hide Put, Get, Said, Agrees, Fatal, NewDevice, Refreshed, Usable, OldName, Keyed;
    var k, d := Get(devices, s.petkitId).value, Signed(devices, s, defaults);
    SignedIs(devices, s, defaults);
    GetHasId(devices, s.petkitId);
    GetIsMember(devices, s.petkitId);
    PutMembers(devices, d);
    GetPut(devices, d, s.petkitId);
    GetIsMember(Put(devices, d), s.petkitId);
    if Positive(k) {
      assert Kept(k.record, text);
      KeptStays(k.record, s, Said(text, s.petkitId).value);
    }
  }

  lemma CoveredStep(reg: Registry, e: Event, defaults: Defaults)
    requires Truthful(reg) && Covered(reg)
    requires Quiet(reg, e)
      || (e.Contact? && Get(reg.devices, e.signup.petkitId).None? && e.saved && !reg.flight.Writing?)
    ensures Covered(After(reg, e, defaults))
  {
    hide Put, Signed, NewDevice, Refreshed, Serialize, Fits, AllKept, Get, Usable, Renames;
    match e
    case Contact(s, _) =>
      var d := Signed(reg.devices, s, defaults);
      ContactPuts(reg, e, defaults);
      if Get(reg.devices, s.petkitId).Some? {
        StillKeptIff(reg.devices, s, defaults, reg.file);
        if reg.flight.Writing? {
          StillKeptIff(reg.devices, s, defaults, reg.flight.text);
        }
      } else {
        SignedIs(reg.devices, s, defaults);
        PutDistinct(reg.devices, d);
        PutMembers(reg.devices, d);
        SerializedFits(Put(reg.devices, d));
      }
    case Mark =>
    case BeginFlush => SerializedFits(reg.devices);
    case Land(_) =>
    case EndFlush =>
  }

  lemma {:induction false} CoveredRun(reg: Registry, events: seq<Event>, defaults: Defaults)
    requires Truthful(reg) && Covered(reg) && Calm(reg, events, defaults)
    ensures Covered(AfterAll(reg, events, defaults))
    decreases events
  {
    hide Covered, Truthful, After, Quiet;
    if events != [] {
      var n := |events| - 1;
      CoveredRun(reg, events[..n], defaults);
      TruthfulRun(reg, events[..n], defaults);
      CoveredStep(AfterAll(reg, events[..n], defaults), events[n], defaults);
    }
  }

  /** As long as each first contact is written, none is made while a background write is in flight,
      and no first serial number changes an MQTT name, a crash at any moment finds every device's
      MQTT triple and API secret in the file. */
  lemma CrashLosesNoCredentials(reg: Registry, events: seq<Event>, defaults: Defaults)
    requires Truthful(reg) && OnRecord(reg, defaults) && Calm(reg, events, defaults)
    requires reg.flight.Writing? ==> AllKept(reg.devices, reg.flight.text)
    ensures OnRecord(AfterAll(reg, events, defaults), defaults)
  {
    hide Truthful, OnRecord, AllKept, Calm;
    CrashCostsIff(reg, [], defaults);
    CoveredRun(reg, events, defaults);
    CrashCostsIff(reg, events, defaults);
  }

  /** A signup of a known device, everyone being on record: it costs credentials exactly when it
      changes the MQTT name, which is only marked dirty. */
  lemma FirstSerialCostsIff(reg: Registry, s: Signup, saved: bool, defaults: Defaults)
    requires Truthful(reg) && OnRecord(reg, defaults) && Get(reg.devices, s.petkitId).Some?
    ensures var after, d := After(reg, Contact(s, saved), defaults), Get(reg.devices, s.petkitId).value;
            && (OnRecord(after, defaults) <==> !Renames(d, s))
            && (Renames(d, s) ==> after.dirty && after.file == reg.file)
  {
    TruthfulStep(reg, Contact(s, saved), defaults);
    ContactPuts(reg, Contact(s, saved), defaults);
    hide Put, Signed, NewDevice, Serialize, Fits, AllKept, Get, Usable, Survives;
    var after := After(reg, Contact(s, saved), defaults);
    AllSurviveIff(reg.devices, reg.file, defaults);
    AllSurviveIff(after.devices, after.file, defaults);
    StillKeptIff(reg.devices, s, defaults, reg.file);
  }

  /** It does happen: a device first met without a serial number, all of it written, sends one that
      is not its id. */
  lemma FirstSerialIsLost(devices: seq<Device>, s: Signup, saved: bool, defaults: Defaults)
    requires DistinctKeys(devices, IdOf) && (forall d | d in devices :: Usable(d.record))
    requires Get(devices, s.petkitId).Some? && s.petkitId > 0 && s.serial != "" && s.serial != IntText(s.petkitId)
    requires var r := Get(devices, s.petkitId).value.record;
             r.serial == "" && r.deviceName == MqttName(r.deviceType.text, IntText(r.petkitId))
    ensures var reg := Registry(devices, Serialize(devices), false, Idle);
            var after := After(reg, Contact(s, saved), defaults);
            && OnRecord(reg, defaults)
            && Said(after.file, s.petkitId).Some? && Keyed(Said(after.file, s.petkitId).value)
            && !OnRecord(after, defaults) && after.dirty && after.file == reg.file
  {
    var d := Get(devices, s.petkitId).value;
    GetHasId(devices, s.petkitId);
    SaidWritten(devices, s.petkitId);
    WrittenAgrees(d.record);
    FirstSerialRenames(d, s);
    hide *;
    WrittenIsTruthful(devices, false, defaults);
    FirstSerialCostsIff(Registry(devices, Serialize(devices), false, Idle), s, saved, defaults);
  }

  lemma FirstSerialRenames(d: Device, s: Signup)
    requires Positive(d) && d.record.petkitId == s.petkitId && s.serial != "" && s.serial != IntText(s.petkitId)
    requires d.record.serial == "" && d.record.deviceName == MqttName(d.record.deviceType.text, IntText(s.petkitId))
    ensures Renames(d, s)
  {
    hide IntText;
    NamesDiffer(d.record.deviceType.text, s.serial, IntText(s.petkitId));
    hide MqttName;
  }

  lemma NamesDiffer(deviceType: string, a: string, b: string)
    requires a != b
    ensures MqttName(deviceType, a) != MqttName(deviceType, b)
  {
    var front := "d_" + deviceType + "_";
    assert MqttName(deviceType, a)[|front|..] == a && MqttName(deviceType, b)[|front|..] == b;
  }

  /** The cost is repaid by the next background flush: whatever was not on record before it began, it
      is once its write has landed, if no credentials were issued meanwhile. */
  lemma FlushRecords(reg: Registry, events: seq<Event>, defaults: Defaults)
    requires Truthful(reg) && reg.dirty && reg.flight.Idle?
    requires Calm(After(reg, BeginFlush, defaults), events, defaults) && forall e | e in events :: e.Contact? || e.Mark?
    ensures var now := AfterAll(After(reg, BeginFlush, defaults), events, defaults);
            OnRecord(After(now, Land(true), defaults), defaults)
  {
    var begun := After(reg, BeginFlush, defaults);
    TruthfulStep(reg, BeginFlush, defaults);
    SerializedFits(reg.devices);
    hide After, Truthful, AllKept, OnRecord, Calm;
    InFlight(begun, events, defaults);
    LandingCostsIff(begun, events, defaults);
  }

  lemma {:induction false} InFlight(reg: Registry, events: seq<Event>, defaults: Defaults)
    requires Truthful(reg) && reg.flight.Writing? && AllKept(reg.devices, reg.flight.text)
    requires Calm(reg, events, defaults) && forall e | e in events :: e.Contact? || e.Mark?
    ensures var now := AfterAll(reg, events, defaults);
            now.flight == reg.flight && AllKept(now.devices, reg.flight.text)
    decreases events
  {
    hide AllKept, Truthful, After, Get, Renames;
    if events != [] {
      var n := |events| - 1;
      var before := AfterAll(reg, events[..n], defaults);
      InFlight(reg, events[..n], defaults);
      TruthfulRun(reg, events[..n], defaults);
      assert events[n] in events;
      if events[n].Contact? {
        ContactPuts(before, events[n], defaults);
        FlightKept(before, events[n], defaults);
      } else {
        MarkOnlyMarks(before, defaults);
      }
    }
  }

  lemma MarkOnlyMarks(reg: Registry, defaults: Defaults)
    ensures After(reg, Mark, defaults) == reg.(dirty := true)
  {
  }

  lemma FlightKept(reg: Registry, e: Event, defaults: Defaults)
    requires Truthful(reg) && reg.flight.Writing? && AllKept(reg.devices, reg.flight.text)
    requires e.Contact? && Quiet(reg, e)
    ensures AllKept(After(reg, e, defaults).devices, reg.flight.text)
  {
    hide AllKept, After, Get, Renames, Fits, Usable;
    ContactPuts(reg, e, defaults);
    StillKeptIff(reg.devices, e.signup, defaults, reg.flight.text);
  }

  lemma FourEvents(reg: Registry, a: Event, b: Event, c: Event, d: Event, defaults: Defaults)
    ensures AfterAll(reg, [a, b, c, d], defaults)
      == After(After(After(After(reg, a, defaults), b, defaults), c, defaults), d, defaults)
  {
    hide After;
    assert [a, b, c, d][..3] == [a, b, c] && [a, b, c][..2] == [a, b] && [a, b][..1] == [a] && [a][..0] == [];
    assert AfterAll(reg, [a], defaults) == After(reg, a, defaults);
    assert AfterAll(reg, [a, b], defaults) == After(AfterAll(reg, [a], defaults), b, defaults);
    assert AfterAll(reg, [a, b, c], defaults) == After(AfterAll(reg, [a, b], defaults), c, defaults);
  }

  /** A first contact during a background write costs credentials: a flush encodes, a new device
      signs up and its write-through succeeds, the older text lands. The registry is clean and idle,
      and the device is not on file. */
  lemma SignupDuringFlushIsLost(reg: Registry, s: Signup, defaults: Defaults)
    requires Truthful(reg) && reg.dirty && reg.flight.Idle? && Get(reg.devices, s.petkitId).None?
    ensures var end := AfterAll(reg, [BeginFlush, Contact(s, true), Land(true), EndFlush], defaults);
            && !end.dirty && end.flight.Idle? && end.file == Serialize(reg.devices)
            && Get(end.devices, s.petkitId) == Some(NewDevice(s, defaults))
            && (forall e | e in end.file :: e.Object? && e.stored.petkitId != Number(s.petkitId))
            && (s.petkitId > 0 ==> !OnRecord(end, defaults))
  {
    hide Put, NewDevice, Serialize, Get, Survives, Fits, Said;
    var events := [BeginFlush, Contact(s, true), Land(true), EndFlush];
    FourEvents(reg, BeginFlush, Contact(s, true), Land(true), EndFlush, defaults);
    CrashCostsIff(reg, events, defaults);
    hide AfterAll;
    var end := AfterAll(reg, events, defaults);
    assert end == Registry(Put(reg.devices, NewDevice(s, defaults)), Serialize(reg.devices), false, Idle);
    NewDeviceId(s, defaults);
    GetPut(reg.devices, NewDevice(s, defaults), s.petkitId);
    NotSerialized(reg.devices, s.petkitId);
    GetHasId(end.devices, s.petkitId);
    GetIsMember(end.devices, s.petkitId);
    SaidWritten(reg.devices, s.petkitId);
    assert !Kept(NewDevice(s, defaults).record, end.file);
  }

  lemma NotSerialized(devices: seq<Device>, id: int)
    requires Get(devices, id).None?
    ensures forall e | e in Serialize(devices) :: e.Object? && e.stored.petkitId != Number(id)
  {
    var text := Serialize(devices);
    forall e | e in text ensures e.Object? && e.stored.petkitId != Number(id) {
      var i :| 0 <= i < |text| && text[i] == e;
      assert devices[i] in devices && !HasId(id)(devices[i]);
    }
  }
}
