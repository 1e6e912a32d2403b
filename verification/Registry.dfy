/** The write-behind registry (devices/registry.py): a dirty flag, a flusher that encodes on
    the event loop and writes in a worker thread, a synchronous `save`, and `stop`.

    Every step between two `await`s is one action of a state machine; the class performs
    the actions on its fields. */
module Registry {
  import opened Common

  /** What `_serialize()` returns, as text; `encodable` is false when `json.dumps` would raise. */
  datatype Snapshot = Snapshot(text: string, encodable: bool)

  /** A write handed to a worker thread; `awaited` while the flusher still waits for it. */
  datatype Worker = Worker(text: string, awaited: bool)

  /** Where the flusher task is inside `flush`. */
  datatype Flusher = Idle | Waiting | Returned(ok: bool)

  datatype State = State(memory: Snapshot, disk: string, dirty: bool, flusher: Flusher, workers: seq<Worker>)

  datatype Action =
    | Mutate(v: Snapshot)            // a mutation and its mark_dirty(), in one step of the loop
    | FlushBegin                     // flush() up to the await
    | WorkerDone(i: nat, ok: bool)   // a worker thread finishes, or fails without touching the file
    | FlushEnd                       // flush() after the await
    | Save(ok: bool)                 // save()
    | SaveIfDirty(ok: bool)          // the guarded save() of _on_flusher_done and of stop()
    | Cancel                         // stop() cancels the flusher; its worker runs on

  /** `save()`: encode, clear the flag, write; a failed write sets the flag again. */
  function AfterSave(s: State, ok: bool): State {
    if !s.memory.encodable then s.(dirty := false)
    else if ok then s.(dirty := false, disk := s.memory.text)
    else s.(dirty := true)
  }

  function Abandon(workers: seq<Worker>): seq<Worker> {
    Map(workers, (w: Worker) => w.(awaited := false))
  }

  predicate Enabled(s: State, a: Action) {
    match a
    case FlushBegin => s.flusher.Idle?
    case WorkerDone(i, _) => i < |s.workers|
    case FlushEnd => s.flusher.Returned?
    case _ => true
  }

  function Step(s: State, a: Action): State
    requires Enabled(s, a)
  {
    match a
    case Mutate(v) => s.(memory := v, dirty := true)
    case FlushBegin =>
      if !s.dirty then s
      else if !s.memory.encodable then s.(dirty := false)
      else s.(dirty := false, flusher := Waiting, workers := s.workers + [Worker(s.memory.text, true)])
    case WorkerDone(i, ok) =>
      var w := s.workers[i];
      var t := s.(workers := s.workers[..i] + s.workers[i + 1..],
                  disk := if ok then w.text else s.disk);
      if w.awaited then t.(flusher := Returned(ok)) else t
    case FlushEnd => s.(flusher := Idle, dirty := s.dirty || !s.flusher.ok)
    case Save(ok) => AfterSave(s, ok)
    case SaveIfDirty(ok) => if s.dirty then AfterSave(s, ok) else s
    case Cancel => s.(flusher := Idle, workers := Abandon(s.workers))
  }

  /** Whether this action starts a write. */
  predicate StartsWrite(s: State, a: Action) {
    s.memory.encodable && (a.Save? || (s.dirty && (a.FlushBegin? || a.SaveIfDirty?)))
  }

  /** The first hypothesis of the safety theorem: no write starts while another is in flight. */
  predicate NoOverlap(s: State, a: Action) {
    StartsWrite(s, a) ==> s.workers == []
  }

  /** The second: a write the flusher no longer waits for does not fail unnoticed. */
  predicate NoLostFailure(s: State, a: Action) {
    match a
    case WorkerDone(i, ok) => i < |s.workers| && !s.workers[i].awaited ==> ok
    case Cancel => s.flusher != Returned(false)
    case _ => true
  }

  predicate Orderly(s: State, a: Action) {
    Enabled(s, a) && NoOverlap(s, a) && NoLostFailure(s, a)
  }

  /** Every action of the run is possible and orderly where it happens. */
  predicate OrderlyRun(s: State, run: seq<Action>)
    decreases run
  {
    run == [] || (Orderly(s, run[0]) && OrderlyRun(Step(s, run[0]), run[1..]))
  }

  function After(s: State, run: seq<Action>): State
    requires OrderlyRun(s, run)
    decreases run
  {
    if run == [] then s else After(Step(s, run[0]), run[1..])
  }

  predicate OnDisk(s: State) {
    s.memory.encodable ==> s.disk == s.memory.text
  }

  /** What the dirty flag means: clean and idle is on disk; clean with a write in flight is
      being written; a failed write the flusher has not noticed yet is owed to it. */
  ghost predicate Safe(s: State) {
    && |s.workers| <= 1
    && (s.flusher.Waiting? <==> |s.workers| == 1 && s.workers[0].awaited)
    && (!s.dirty && s.workers == [] && s.flusher != Returned(false) ==> OnDisk(s))
    && (!s.dirty && |s.workers| == 1 && s.memory.encodable ==> s.workers[0].text == s.memory.text)
    && (s.flusher.Returned? ==> s.workers == [])
  }

  lemma SafeStep(s: State, a: Action)
    requires Safe(s) && Orderly(s, a)
    ensures Safe(Step(s, a))
  {
  }

  lemma {:induction false} SafeRun(s: State, run: seq<Action>)
    requires Safe(s) && OrderlyRun(s, run)
    ensures Safe(After(s, run))
    decreases run
  {
    if run != [] {
      SafeStep(s, run[0]);
      SafeRun(Step(s, run[0]), run[1..]);
    }
  }

  /** A registry as the constructor leaves it: loaded from its file, nothing pending. */
  ghost predicate Loaded(s: State) {
    !s.dirty && s.flusher.Idle? && s.workers == [] && OnDisk(s)
  }

  /** Write-behind safety, over every orderly interleaving: a clean idle registry is on
      disk, and a clean registry with a write in flight is writing what memory holds. */
  lemma WriteBehindSafety(start: State, run: seq<Action>)
    requires Loaded(start) && OrderlyRun(start, run)
    ensures var s := After(start, run);
      && |s.workers| <= 1
      && (!s.dirty && s.workers == [] && s.flusher != Returned(false) ==> OnDisk(s))
      && (!s.dirty && s.workers != [] && s.memory.encodable ==> s.workers[0].text == s.memory.text)
  {
    SafeRun(start, run);
  }

  /** A run that only lets the abandoned writes finish, each successfully. */
  predicate Draining(run: seq<Action>) {
    forall a | a in run :: a.WorkerDone? && a.ok
  }

  /** `stop()`: cancel the flusher, save if dirty (the done-callback, then `stop` itself),
      and whatever the worker threads still had to write. The registry ends on disk. */
  lemma StopSavesEverything(start: State, run: seq<Action>, ok: bool, rest: seq<Action>)
    requires Loaded(start)
    requires OrderlyRun(start, run)
    requires var s := After(start, run);
      Orderly(s, Cancel) && Orderly(Step(s, Cancel), SaveIfDirty(ok))
      && Orderly(Step(Step(s, Cancel), SaveIfDirty(ok)), SaveIfDirty(true))
    requires var s := Step(Step(Step(After(start, run), Cancel), SaveIfDirty(ok)), SaveIfDirty(true));
      OrderlyRun(s, rest) && Draining(rest) && After(s, rest).workers == []
    ensures var s := Step(Step(Step(After(start, run), Cancel), SaveIfDirty(ok)), SaveIfDirty(true));
      !After(s, rest).dirty && OnDisk(After(s, rest)) && After(s, rest).memory == After(start, run).memory
  {
    SafeRun(start, run);
    var s := After(start, run);
    SafeStep(s, Cancel);
    SafeStep(Step(s, Cancel), SaveIfDirty(ok));
    var t := Step(Step(s, Cancel), SaveIfDirty(ok));
    SafeStep(t, SaveIfDirty(true));
    DrainKeeps(Step(t, SaveIfDirty(true)), rest);
  }

  lemma {:induction false} DrainKeeps(s: State, rest: seq<Action>)
    requires Safe(s) && !s.dirty && s.flusher.Idle? && OrderlyRun(s, rest) && Draining(rest)
    ensures Safe(After(s, rest)) && !After(s, rest).dirty && After(s, rest).memory == s.memory
    ensures After(s, rest).flusher.Idle?
    decreases rest
  {
    if rest != [] {
      assert rest[0] in rest;
      SafeStep(s, rest[0]);
      assert forall a | a in rest[1..] :: a in rest;
      DrainKeeps(Step(s, rest[0]), rest[1..]);
    }
  }

  // --- both hypotheses are needed --------------------------------------------

  /** A save that overlaps a write in flight: once that write lands, the clean registry is
      on disk if and only if the older text happened to be the newer one. */
  lemma OverlapIsExact(s: State, text: string)
    requires s.workers == [Worker(text, true)] && s.flusher.Waiting? && s.memory.encodable
    ensures var t := Step(Step(Step(s, Save(true)), WorkerDone(0, true)), FlushEnd);
      !t.dirty && t.workers == [] && t.flusher.Idle? && (OnDisk(t) <==> text == s.memory.text)
  {
    var t := Step(s, Save(true));
    assert t.workers[..0] + t.workers[1..] == [];
  }

  /** … and that loses data from every freshly loaded registry: a change, a flush up to its
      await, a second change, a save, and then the worker lands. "Clean means on disk" is
      false of the code without `NoOverlap`. */
  lemma OverlapLosesData(s: State, first: Snapshot, second: Snapshot)
    requires Loaded(s) && first.encodable && second.encodable && first.text != second.text
    ensures var t := Step(Step(Step(Step(s, Mutate(first)), FlushBegin), Mutate(second)), Save(true));
      var u := Step(Step(t, WorkerDone(0, true)), FlushEnd);
      !u.dirty && u.workers == [] && u.flusher.Idle? && u.disk == first.text && !OnDisk(u)
  {
    var t := Step(Step(Step(s, Mutate(first)), FlushBegin), Mutate(second));
    assert t.workers == [Worker(first.text, true)];
    OverlapIsExact(t, first.text);
  }

  /** A write abandoned by `stop()` that then fails: nothing is dirty and the registry is on
      disk if and only if the file already held the text. */
  lemma LostFailureIsExact(s: State)
    requires s.workers == [Worker(s.memory.text, true)] && s.flusher.Waiting? && s.memory.encodable && !s.dirty
    ensures var t := Step(Step(Step(Step(s, Cancel), SaveIfDirty(true)), SaveIfDirty(true)), WorkerDone(0, false));
      !t.dirty && t.workers == [] && (OnDisk(t) <==> s.disk == s.memory.text)
  {
    var t := Step(s, Cancel);
    assert t.workers == [Worker(s.memory.text, false)];
    assert t.workers[..0] + t.workers[1..] == [];
  }

  /** What usually happens is orderly: a change, a whole flush whether it succeeds or not, a save. What
      the theorem excludes is not: a save while a worker writes. */
  lemma OrdinaryIsOrderly(s: State, v: Snapshot, ok: bool, saved: bool)
    requires Loaded(s) && v.encodable
    ensures OrderlyRun(s, [Mutate(v), FlushBegin, WorkerDone(0, ok), FlushEnd, Save(saved)])
    ensures !OrderlyRun(s, [Mutate(v), FlushBegin, Save(saved)])
  {
    OrdinarySteps(s, v, ok, saved);
    hide *;
    var a := Step(s, Mutate(v));
    var b := Step(a, FlushBegin);
    var c := Step(b, WorkerDone(0, ok));
    var d := Step(c, FlushEnd);
    OrderlyCons(d, Save(saved), []);
    OrderlyCons(c, FlushEnd, [Save(saved)]);
    OrderlyCons(b, WorkerDone(0, ok), [FlushEnd, Save(saved)]);
    OrderlyCons(a, FlushBegin, [WorkerDone(0, ok), FlushEnd, Save(saved)]);
    OrderlyCons(s, Mutate(v), [FlushBegin, WorkerDone(0, ok), FlushEnd, Save(saved)]);
    OrderlyCons(b, Save(saved), []);
    OrderlyCons(a, FlushBegin, [Save(saved)]);
    OrderlyCons(s, Mutate(v), [FlushBegin, Save(saved)]);
    assert [Mutate(v)] + [FlushBegin, Save(saved)] == [Mutate(v), FlushBegin, Save(saved)];
    assert [FlushBegin] + [Save(saved)] == [FlushBegin, Save(saved)];
    assert [Save(saved)] + [] == [Save(saved)];
    assert [FlushEnd] + [Save(saved)] == [FlushEnd, Save(saved)];
    assert [WorkerDone(0, ok)] + [FlushEnd, Save(saved)] == [WorkerDone(0, ok), FlushEnd, Save(saved)];
    assert [FlushBegin] + [WorkerDone(0, ok), FlushEnd, Save(saved)]
      == [FlushBegin, WorkerDone(0, ok), FlushEnd, Save(saved)];
    assert [Mutate(v)] + [FlushBegin, WorkerDone(0, ok), FlushEnd, Save(saved)]
      == [Mutate(v), FlushBegin, WorkerDone(0, ok), FlushEnd, Save(saved)];
  }

  lemma OrdinarySteps(s: State, v: Snapshot, ok: bool, saved: bool)
    requires Loaded(s) && v.encodable
    ensures Orderly(s, Mutate(v))
    ensures var a := Step(s, Mutate(v));
            Orderly(a, FlushBegin)
            && var b := Step(a, FlushBegin);
               !Orderly(b, Save(saved)) && Orderly(b, WorkerDone(0, ok))
               && var c := Step(b, WorkerDone(0, ok));
                  Orderly(c, FlushEnd) && Orderly(Step(c, FlushEnd), Save(saved))
  {
    var b := Step(Step(s, Mutate(v)), FlushBegin);
    assert b.workers == [Worker(v.text, true)];
    assert b.workers[..0] + b.workers[1..] == [];
  }

  lemma OrderlyCons(s: State, a: Action, rest: seq<Action>)
    ensures OrderlyRun(s, [a] + rest) <==> Orderly(s, a) && OrderlyRun(Step(s, a), rest)
    ensures OrderlyRun(s, [])
  {
    assert ([a] + rest)[1..] == rest;
    hide Orderly;
  }

  // --- single outcomes -------------------------------------------------------

  /** A failed save is not forgotten: the file is as it was, and the next flush writes the memory. */
  lemma FailedSaveIsRetried(s: State)
    requires s.memory.encodable && s.flusher.Idle?
    ensures var t := Step(Step(s, Save(false)), FlushBegin);
            t.disk == s.disk && t.memory == s.memory && t.workers == s.workers + [Worker(s.memory.text, true)]
  {
  }

  /** A whole flush on its own: written and clean, or the file as it was and dirty again. */
  lemma FlushSettles(s: State, ok: bool)
    requires s.memory.encodable && s.dirty && s.flusher.Idle? && s.workers == []
    ensures Step(Step(Step(s, FlushBegin), WorkerDone(0, ok)), FlushEnd)
      == s.(disk := if ok then s.memory.text else s.disk, dirty := !ok)
  {
    var t := Step(s, FlushBegin);
    assert t.workers == [Worker(s.memory.text, true)];
    assert t.workers[..0] + t.workers[1..] == [];
  }

  /** What cannot be encoded is given up on: no write, nothing dirty, the file and its writers left
      alone. */
  lemma UnencodableIsDropped(s: State, ok: bool)
    requires !s.memory.encodable
    ensures Step(s, Save(ok)) == s.(dirty := false) && Step(s, SaveIfDirty(ok)) == s.(dirty := false)
    ensures s.flusher.Idle? ==> Step(s, FlushBegin) == s.(dirty := false)
  {
  }

  // --- the class -------------------------------------------------------------

  class PersistedRegistry {
    var memory: Snapshot
    var disk: string
    var dirty: bool
    var flusher: Flusher
    var workers: seq<Worker>

    function Now(): State
      reads this
    {
      State(memory, disk, dirty, flusher, workers)
    }

    constructor (file: Snapshot)
      requires file.encodable
      ensures Loaded(Now()) && memory == file
    {
      memory, disk, dirty, flusher, workers := file, file.text, false, Idle, [];
    }

    /** A change to the registry, followed by `mark_dirty()` before any await. */
    method MarkDirty(changed: Snapshot)
      modifies this
      ensures Now() == Step(old(Now()), Mutate(changed))
    {
      memory := changed;
      dirty := true;
    }

    /** `save()`; `ok` is whether the file system takes the write. */
    method SaveNow(ok: bool)
      modifies this
      ensures Now() == Step(old(Now()), Save(ok))
    {
      var payload := memory;
      dirty := false;
      if payload.encodable {
        if ok {
          disk := payload.text;
        } else {
          dirty := true;
        }
      }
    }

    /** `flush()` up to its await. */
    method BeginFlush()
      requires flusher.Idle?
      modifies this
      ensures Now() == Step(old(Now()), FlushBegin)
    {
      if !dirty {
        return;
      }
      dirty := false;
      if memory.encodable {
        flusher := Waiting;
        workers := workers + [Worker(memory.text, true)];
      }
    }

    /** The worker thread: `atomic_write_text` replaces the file or leaves it alone. */
    method FinishWrite(i: nat, ok: bool)
      requires i < |workers|
      modifies this
      ensures Now() == Step(old(Now()), WorkerDone(i, ok))
    {
      var w := workers[i];
      workers := workers[..i] + workers[i + 1..];
      if ok {
        disk := w.text;
      }
      if w.awaited {
        flusher := Returned(ok);
      }
    }

    /** `flush()` after its await. */
    method EndFlush()
      requires flusher.Returned?
      modifies this
      ensures Now() == Step(old(Now()), FlushEnd)
    {
      if !flusher.ok {
        dirty := true;
      }
      flusher := Idle;
    }

    /** `_on_flusher_done` and the last lines of `stop()`. */
    method SavePending(ok: bool)
      modifies this
      ensures Now() == Step(old(Now()), SaveIfDirty(ok))
    {
      if dirty {
        SaveNow(ok);
      }
    }

    /** `stop()` with no step of another task in between: cancel, the done-callback, the
        final save. */
    method Stop(callbackOk: bool, ok: bool)
      modifies this
      ensures Now() == Step(Step(Step(old(Now()), Cancel), SaveIfDirty(callbackOk)), SaveIfDirty(ok))
    {
      flusher := Idle;
      workers := Abandon(workers);
      SavePending(callbackOk);
      SavePending(ok);
    }
  }
}
