/** The device registry is a write-behind file: what its signups and background flushes do to memory,
    file and flag are steps of the state machine in Registry.dfy (devices/registry.py). */
module DeviceFile {
  import opened Common
  import opened D = Devices
  import R = Registry

  /** `json.dumps` of the entries. */
  type Encoding = seq<Entry> -> string

  function StateOf(reg: D.Registry, encode: Encoding): R.State {
    R.State(
      R.Snapshot(encode(Serialize(reg.devices)), true), encode(reg.file), reg.dirty,
      match reg.flight
      case Idle => R.Idle
      case Writing(_) => R.Waiting
      case Returned(ok) => R.Returned(ok),
      match reg.flight
      case Writing(text) => [R.Worker(encode(text), true)]
      case _ => [])
  }

  /** The steps an event takes. Those of a flush are taken where they are possible. */
  function StepsOf(reg: D.Registry, e: Event, defaults: Defaults, encode: Encoding): seq<R.Action> {
    var now := R.Snapshot(encode(Serialize(D.After(reg, e, defaults).devices)), true);
    match e
    case Contact(s, saved) =>
      (match Get(reg.devices, s.petkitId)
       case Some(d) => if Refreshed(d.record, s) != d.record then [R.Mutate(now)] else []
       case None => [R.Mutate(now), R.Save(saved)])
    case Mark => [R.Mutate(now)]
    case BeginFlush => if reg.flight.Idle? then [R.FlushBegin] else []
    case Land(ok) => if reg.flight.Writing? then [R.WorkerDone(0, ok)] else []
    case EndFlush => if reg.flight.Returned? then [R.FlushEnd] else []
  }

  /** These steps, each possible where it is taken, lead from `s` to `t`. */
  ghost predicate Leads(s: R.State, steps: seq<R.Action>, t: R.State)
    decreases steps
  {
    if steps == [] then s == t
    else R.Enabled(s, steps[0]) && Leads(R.Step(s, steps[0]), steps[1..], t)
  }

  lemma {:induction false} PutSame(devices: seq<Device>, d: Device)
    requires Get(devices, d.record.petkitId) == Some(d)
    ensures Put(devices, d) == devices
  {
    if devices[0].record.petkitId != d.record.petkitId {
      PutSame(devices[1..], d);
    }
  }

  lemma OneStep(s: R.State, a: R.Action, t: R.State)
    requires R.Enabled(s, a) && R.Step(s, a) == t
    ensures Leads(s, [a], t)
  {
    assert [a][1..] == [];
  }

  lemma TwoSteps(s: R.State, a: R.Action, b: R.Action, t: R.State)
    requires R.Enabled(s, a) && R.Enabled(R.Step(s, a), b) && R.Step(R.Step(s, a), b) == t
    ensures Leads(s, [a, b], t)
  {
    assert [a, b][1..] == [b];
    OneStep(R.Step(s, a), b, t);
  }

  /** One event: a known device's signup that changes it is a mutation, a first contact a mutation and
      a save, and a flush is a flush. */
  lemma EventIsSteps(reg: D.Registry, e: Event, defaults: Defaults, encode: Encoding)
    ensures Leads(StateOf(reg, encode), StepsOf(reg, e, defaults, encode), StateOf(D.After(reg, e, defaults), encode))
  {
    hide Put, NewDevice, Refreshed, Serialize, Get, Leads;
    var s, t := StateOf(reg, encode), StateOf(D.After(reg, e, defaults), encode);
    match e
    case Contact(signup, saved) =>
      ContactIsSteps(reg, signup, saved, defaults, encode);
    case Mark => OneStep(s, R.Mutate(t.memory), t);
    case BeginFlush =>
      if reg.flight.Idle? {
        OneStep(s, R.FlushBegin, t);
      } else {
        NoStep(s);
      }
    case Land(ok) =>
      if reg.flight.Writing? {
        OneStep(s, R.WorkerDone(0, ok), t);
      } else {
        NoStep(s);
      }
    case EndFlush =>
      if reg.flight.Returned? {
        OneStep(s, R.FlushEnd, t);
      } else {
        NoStep(s);
      }
  }

  lemma NoStep(s: R.State)
    ensures Leads(s, [], s)
  {
  }

  lemma ContactIsSteps(reg: D.Registry, signup: Signup, saved: bool, defaults: Defaults, encode: Encoding)
    ensures var e := Contact(signup, saved);
            Leads(StateOf(reg, encode), StepsOf(reg, e, defaults, encode), StateOf(D.After(reg, e, defaults), encode))
  {
    hide Put, NewDevice, Refreshed, Serialize, Get, Leads;
    var s, t := StateOf(reg, encode), StateOf(D.After(reg, Contact(signup, saved), defaults), encode);
    match Get(reg.devices, signup.petkitId)
    case Some(d) =>
      if Refreshed(d.record, signup) != d.record {
        OneStep(s, R.Mutate(t.memory), t);
      } else {
        GetHasId(reg.devices, signup.petkitId);
        PutSame(reg.devices, d);
        NoStep(s);
      }
    case None => TwoSteps(s, R.Mutate(t.memory), R.Save(saved), t);
  }

  function AllSteps(reg: D.Registry, events: seq<Event>, defaults: Defaults, encode: Encoding): seq<R.Action> {
    if events == [] then [] else
      var n := |events| - 1;
      AllSteps(reg, events[..n], defaults, encode)
      + StepsOf(AfterAll(reg, events[..n], defaults), events[n], defaults, encode)
  }

  lemma {:induction false} LeadsOn(s: R.State, a: seq<R.Action>, t: R.State, b: seq<R.Action>, u: R.State)
    requires Leads(s, a, t) && Leads(t, b, u)
    ensures Leads(s, a + b, u)
    decreases a
  {
    if a == [] {
      assert a + b == b;
    } else {
      assert (a + b)[0] == a[0] && (a + b)[1..] == a[1..] + b;
      LeadsOn(R.Step(s, a[0]), a[1..], t, b, u);
    }
  }

  /** Any run: what is proved of the write-behind file holds of the device registry. */
  lemma {:induction false} RunIsSteps(reg: D.Registry, events: seq<Event>, defaults: Defaults, encode: Encoding)
    ensures Leads(StateOf(reg, encode), AllSteps(reg, events, defaults, encode),
                  StateOf(AfterAll(reg, events, defaults), encode))
  {
    hide Leads, StateOf, StepsOf, D.After;
    if events == [] {
      NoStep(StateOf(reg, encode));
    } else {
      var n := |events| - 1;
      var before := AfterAll(reg, events[..n], defaults);
      RunIsSteps(reg, events[..n], defaults, encode);
      EventIsSteps(before, events[n], defaults, encode);
      LeadsOn(StateOf(reg, encode), AllSteps(reg, events[..n], defaults, encode), StateOf(before, encode),
              StepsOf(before, events[n], defaults, encode), StateOf(AfterAll(reg, events, defaults), encode));
    }
  }
}
