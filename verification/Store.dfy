/** The single-writer event store (events/store.py). `events.event_uid` has no unique
    constraint: that it is unique rests on the write lock, which every `upsert_event` and
    every `transaction()` batch holds from its first SELECT to its COMMIT. */
module Store {
  import opened Common

  type Fields = map<string, string>

  datatype Row = Row(id: nat, uid: string, fields: Fields, createdAt: real)

  /** The `events` table; `nextId` is SQLite's AUTOINCREMENT counter. */
  datatype Table = Table(rows: seq<Row>, nextId: nat)

  /** One `upsert_event(row)`: `uid` is "" when the row carries none. */
  datatype Request = Request(uid: string, fields: Fields, createdAt: real)

  // --- one upsert ------------------------------------------------------------

  /** `SELECT … WHERE event_uid = ?`: the position of the first match. */
  function Find(t: Table, uid: string): (r: Option<nat>)
    ensures r.Some? ==> r.value < |t.rows| && t.rows[r.value].uid == uid && uid != ""
    ensures r.None? && uid != "" ==> forall i | 0 <= i < |t.rows| :: t.rows[i].uid != uid
  {
    if uid == "" then None else FindFrom(t.rows, uid, 0)
  }

  function FindFrom(rows: seq<Row>, uid: string, k: nat): (r: Option<nat>)
    requires k <= |rows|
    ensures r.Some? ==> k <= r.value < |rows| && rows[r.value].uid == uid
    ensures r.None? ==> forall i | k <= i < |rows| :: rows[i].uid != uid
    decreases |rows| - k
  {
    if k == |rows| then None else if rows[k].uid == uid then Some(k) else FindFrom(rows, uid, k + 1)
  }

  /** The write that follows the SELECT: `setattr` every given column, or INSERT. */
  function Write(t: Table, req: Request, found: Option<nat>): Table {
    match found
    case Some(i) =>
      if i < |t.rows| then t.(rows := t.rows[i := t.rows[i].(fields := t.rows[i].fields + req.fields)]) else t
    case None => Table(t.rows + [Row(t.nextId, req.uid, req.fields, req.createdAt)], t.nextId + 1)
  }

  function Upsert(t: Table, req: Request): Table {
    Write(t, req, Find(t, req.uid))
  }

  /** The id `upsert_event` returns. */
  function UpsertId(t: Table, req: Request): nat {
    match Find(t, req.uid)
    case Some(i) => t.rows[i].id
    case None => t.nextId
  }

  function Replay(t: Table, reqs: seq<Request>): Table {
    if reqs == [] then t else Upsert(Replay(t, reqs[..|reqs| - 1]), reqs[|reqs| - 1])
  }

  ghost predicate Unique(t: Table) {
    && (forall i, j | 0 <= i < j < |t.rows| :: t.rows[i].uid != "" ==> t.rows[i].uid != t.rows[j].uid)
    && (forall i, j | 0 <= i < j < |t.rows| :: t.rows[i].id != t.rows[j].id)
    && forall i | 0 <= i < |t.rows| :: t.rows[i].id < t.nextId
  }

  /** Every row of `t` is still there, with its id, its uid and its `created_at`. */
  ghost predicate Keeps(t: Table, u: Table) {
    && |t.rows| <= |u.rows| && t.nextId <= u.nextId
    && forall i | 0 <= i < |t.rows| ::
         t.rows[i].id == u.rows[i].id && t.rows[i].uid == u.rows[i].uid && t.rows[i].createdAt == u.rows[i].createdAt
  }

  lemma InsertKeeps(t: Table, row: Row)
    requires Unique(t) && row.id == t.nextId
    requires row.uid == "" || forall i | 0 <= i < |t.rows| :: t.rows[i].uid != row.uid
    ensures var u := Table(t.rows + [row], t.nextId + 1); Unique(u) && Keeps(t, u)
  {
  }

  lemma UpdateKeeps(t: Table, i: nat, fields: Fields)
    requires Unique(t) && i < |t.rows|
    ensures var u := t.(rows := t.rows[i := t.rows[i].(fields := fields)]); Unique(u) && Keeps(t, u)
  {
  }

  lemma UpsertKeeps(t: Table, req: Request)
    requires Unique(t)
    ensures Unique(Upsert(t, req)) && Keeps(t, Upsert(t, req))
  {
    hide Unique, Keeps;
    match Find(t, req.uid)
    case Some(i) => UpdateKeeps(t, i, t.rows[i].fields + req.fields);
    case None => InsertKeeps(t, Row(t.nextId, req.uid, req.fields, req.createdAt));
  }

  lemma {:induction false} ReplayKeeps(t: Table, reqs: seq<Request>)
    requires Unique(t)
    ensures Unique(Replay(t, reqs)) && Keeps(t, Replay(t, reqs))
  {
    if reqs != [] {
      ReplayKeeps(t, reqs[..|reqs| - 1]);
      UpsertKeeps(Replay(t, reqs[..|reqs| - 1]), reqs[|reqs| - 1]);
    }
  }

  lemma {:induction false} ReplayAppend(t: Table, a: seq<Request>, b: seq<Request>)
    ensures Replay(t, a + b) == Replay(Replay(t, a), b)
  {
    if b == [] {
      assert a + b == a;
    } else {
      var n := |b| - 1;
      ReplayAppend(t, a, b[..n]);
      assert (a + b)[..|a + b| - 1] == a + b[..n];
    }
  }

  /** A device retrying a report gets the id its first attempt got. */
  lemma {:induction false} RetrySameId(t: Table, req: Request, more: seq<Request>, again: Request)
    requires Unique(t) && req.uid != "" && again.uid == req.uid
    ensures UpsertId(Replay(Upsert(t, req), more), again) == UpsertId(t, req)
  {
    var u := Upsert(t, req);
    UpsertKeeps(t, req);
    ReplayKeeps(u, more);
    var v := Replay(u, more);
    var i := match Find(t, req.uid) case Some(k) => k case None => |t.rows|;
    assert u.rows[i].uid == req.uid && u.rows[i].id == UpsertId(t, req);
    assert v.rows[i].uid == req.uid;
    assert Find(v, req.uid).Some?;
  }

  // --- what a replayed table means -------------------------------------------

  /** The requests for one uid, in order. */
  function For(reqs: seq<Request>, uid: string): seq<Request> {
    if reqs == [] then [] else
      For(reqs[..|reqs| - 1], uid) + if reqs[|reqs| - 1].uid == uid then [reqs[|reqs| - 1]] else []
  }

  function Merged(reqs: seq<Request>): Fields {
    if reqs == [] then map[] else Merged(reqs[..|reqs| - 1]) + reqs[|reqs| - 1].fields
  }

  function RowOf(t: Table, uid: string): Option<Row> {
    match Find(t, uid)
    case Some(i) => Some(t.rows[i])
    case None => None
  }

  /** What an upsert changes, seen through the SELECT. */
  lemma UpsertRow(t: Table, req: Request, uid: string)
    requires Unique(t) && uid != ""
    ensures RowOf(Upsert(t, req), uid) ==
      if req.uid != uid then RowOf(t, uid)
      else
        match RowOf(t, uid)
        case Some(row) => Some(row.(fields := row.fields + req.fields))
        case None => Some(Row(t.nextId, uid, req.fields, req.createdAt))
  {
    UpsertKeeps(t, req);
    var u := Upsert(t, req);
    var f := Find(t, uid);
    if f.Some? {
      assert u.rows[f.value].uid == uid;
      SameFind(u, uid, f.value);
    } else if req.uid == uid {
      assert u.rows[|t.rows|].uid == uid;
      SameFind(u, uid, |t.rows|);
    }
  }

  lemma SameFind(t: Table, uid: string, i: nat)
    requires Unique(t) && i < |t.rows| && t.rows[i].uid == uid != ""
    ensures Find(t, uid) == Some(i)
  {
    assert Find(t, uid).Some?;
  }

  /** The row the reports of one uid should have left: none without a report, otherwise the
      later reports win column by column and the first one sets `created_at`. */
  ghost predicate Means(row: Option<Row>, reports: seq<Request>) {
    && (row.None? <==> reports == [])
    && (row.Some? ==> row.value.fields == Merged(reports) && row.value.createdAt == reports[0].createdAt)
  }

  lemma MeansStep(row: Option<Row>, reports: seq<Request>, req: Request, id: nat)
    requires Means(row, reports)
    ensures Means(
      match row
      case Some(r) => Some(r.(fields := r.fields + req.fields))
      case None => Some(Row(id, req.uid, req.fields, req.createdAt)),
      reports + [req])
  {
    assert (reports + [req])[..|reports|] == reports;
    assert Merged(reports + [req]) == Merged(reports) + req.fields;
    assert map[] + req.fields == req.fields;
  }

  lemma ReplayStep(t: Table, reqs: seq<Request>, uid: string)
    requires reqs != []
    ensures Replay(t, reqs) == Upsert(Replay(t, reqs[..|reqs| - 1]), reqs[|reqs| - 1])
    ensures For(reqs, uid)
      == For(reqs[..|reqs| - 1], uid) + if reqs[|reqs| - 1].uid == uid then [reqs[|reqs| - 1]] else []
  {
  }

  lemma NothingYet(uid: string)
    ensures Means(RowOf(Replay(Table([], 1), []), uid), For([], uid)) && Unique(Table([], 1))
  {
  }

  /** An initially empty table holds, for every non-empty uid, the row its reports mean. */
  lemma {:induction false} ReplayMeaning(reqs: seq<Request>, uid: string)
    requires uid != ""
    ensures Means(RowOf(Replay(Table([], 1), reqs), uid), For(reqs, uid))
  {
    hide *;
    NothingYet(uid);
    if reqs != [] {
      var before, req := reqs[..|reqs| - 1], reqs[|reqs| - 1];
      ReplayMeaning(before, uid);
      ReplayStep(Table([], 1), reqs, uid);
      ReplayKeeps(Table([], 1), before);
      var t := Replay(Table([], 1), before);
      UpsertRow(t, req, uid);
      if req.uid == uid {
        MeansStep(RowOf(t, uid), For(before, uid), req, t.nextId);
      } else {
        assert For(before, uid) + [] == For(before, uid);
      }
    }
  }

  // --- tasks under the write lock --------------------------------------------

  /** A task that writes: one `upsert_event`, or a `transaction()` of several. `found` is
      the answer of a SELECT whose write has not happened yet. */
  datatype Task =
    | Queued(batch: seq<Request>)
    | Open(view: Table, done: seq<Request>, todo: seq<Request>, found: Option<Option<nat>>)
    | Closed

  datatype Store = Store(committed: Table, log: seq<Request>, lock: Option<nat>, tasks: map<nat, Task>)

  datatype Action = Acquire(t: nat) | Select(t: nat) | Apply(t: nat) | Commit(t: nat) | Abort(t: nat)

  predicate Enabled(s: Store, a: Action) {
    a.t in s.tasks &&
    match a
    case Acquire(t) => s.lock.None? && s.tasks[t].Queued?
    case Select(t) => s.tasks[t].Open? && s.tasks[t].found.None? && s.tasks[t].todo != []
    case Apply(t) => s.tasks[t].Open? && s.tasks[t].found.Some? && s.tasks[t].todo != []
    case Commit(t) => s.tasks[t].Open? && s.tasks[t].found.None? && s.tasks[t].todo == []
    case Abort(t) => s.tasks[t].Open?
  }

  function Step(s: Store, a: Action): Store
    requires Enabled(s, a)
  {
    var task := s.tasks[a.t];
    match a
    case Acquire(t) => s.(lock := Some(t), tasks := s.tasks[t := Open(s.committed, [], task.batch, None)])
    case Select(t) => s.(tasks := s.tasks[t := task.(found := Some(Find(task.view, task.todo[0].uid)))])
    case Apply(t) =>
      var view := Write(task.view, task.todo[0], task.found.value);
      s.(tasks := s.tasks[t := Open(view, task.done + [task.todo[0]], task.todo[1..], None)])
    case Commit(t) =>
      s.(committed := task.view, log := s.log + task.done, lock := None, tasks := s.tasks[t := Closed])
    case Abort(t) => s.(lock := None, tasks := s.tasks[t := Closed])
  }

  predicate Possible(s: Store, run: seq<Action>)
    decreases run
  {
    run == [] || (Enabled(s, run[0]) && Possible(Step(s, run[0]), run[1..]))
  }

  function After(s: Store, run: seq<Action>): Store
    requires Possible(s, run)
    decreases run
  {
    if run == [] then s else After(Step(s, run[0]), run[1..])
  }

  ghost predicate Started(s: Store) {
    Unique(s.committed) && s.log == [] && s.lock.None? && forall t | t in s.tasks :: s.tasks[t].Queued?
  }

  /** The table is what the committed requests give one after another, the lock holder's view
      adds the requests it has done, and nobody else is inside. */
  ghost predicate Serial(start: Table, s: Store) {
    && s.committed == Replay(start, s.log)
    && (forall t | t in s.tasks && s.tasks[t].Open? :: s.lock == Some(t))
    && forall t | t in s.tasks && s.tasks[t].Open? ::
         && s.tasks[t].view == Replay(s.committed, s.tasks[t].done)
         && (s.tasks[t].found.Some? ==>
               s.tasks[t].todo != [] && s.tasks[t].found.value == Find(s.tasks[t].view, s.tasks[t].todo[0].uid))
  }

  lemma SerialStep(start: Table, s: Store, a: Action)
    requires Serial(start, s) && Enabled(s, a)
    ensures Serial(start, Step(s, a))
  {
    var task := s.tasks[a.t];
    if a.Commit? {
      ReplayAppend(start, s.log, task.done);
    } else if a.Apply? {
      assert (task.done + [task.todo[0]])[..|task.done|] == task.done;
    }
  }

  lemma {:induction false} SerialRun(start: Table, s: Store, run: seq<Action>)
    requires Serial(start, s) && Possible(s, run)
    ensures Serial(start, After(s, run))
    decreases run
  {
    if run != [] {
      SerialStep(start, s, run[0]);
      SerialRun(start, Step(s, run[0]), run[1..]);
    }
  }

  /** Any interleaving of upserts and batches leaves the table a sequential replay of the
      committed requests would leave: so at most one row per non-empty uid, no row ever
      changes its id, uid or `created_at`, and the lock holder sees the same. */
  lemma UniqueInEveryRun(s: Store, run: seq<Action>)
    requires Started(s) && Possible(s, run)
    ensures var t := After(s, run);
      && t.committed == Replay(s.committed, t.log)
      && Unique(t.committed) && Keeps(s.committed, t.committed)
      && forall k | k in t.tasks && t.tasks[k].Open? :: Unique(t.tasks[k].view) && Keeps(t.committed, t.tasks[k].view)
  {
    SerialRun(s.committed, s, run);
    var t := After(s, run);
    ReplayKeeps(s.committed, t.log);
    forall k | k in t.tasks && t.tasks[k].Open? ensures Unique(t.tasks[k].view) && Keeps(t.committed, t.tasks[k].view) {
      ReplayKeeps(t.committed, t.tasks[k].done);
    }
  }

  // --- what a run commits ----------------------------------------------------

  /** The whole batches of the tasks a run commits, in the order it commits them. */
  function CommittedBatches(tasks: map<nat, Task>, run: seq<Action>): seq<Request> {
    if run == [] then [] else
      var rest, a := CommittedBatches(tasks, run[..|run| - 1]), run[|run| - 1];
      if a.Commit? && a.t in tasks && tasks[a.t].Queued? then rest + tasks[a.t].batch else rest
  }

  /** A task has not begun, or is through part of its batch in order, or is done with. */
  ghost predicate InOrder(tasks: map<nat, Task>, s: Store) {
    && s.tasks.Keys == tasks.Keys && (forall t | t in tasks :: tasks[t].Queued?)
    && forall t | t in tasks ::
         match s.tasks[t]
         case Queued(_) => s.tasks[t] == tasks[t]
         case Open(_, done, todo, _) => done + todo == tasks[t].batch
         case Closed => true
  }

  lemma InOrderStep(tasks: map<nat, Task>, s: Store, a: Action)
    requires InOrder(tasks, s) && Enabled(s, a)
    ensures InOrder(tasks, Step(s, a))
    ensures a.Commit? ==> s.tasks[a.t].Open? && s.tasks[a.t].done == tasks[a.t].batch
  {
    var task := s.tasks[a.t];
    if a.Apply? {
      assert (task.done + [task.todo[0]]) + task.todo[1..] == task.done + task.todo;
    } else if a.Commit? {
      assert task.done + [] == task.done;
    } else if a.Acquire? {
      assert [] + task.batch == task.batch;
    }
  }

  lemma {:induction false} AfterSnoc(s: Store, run: seq<Action>)
    requires run != [] && Possible(s, run)
    ensures var n := |run| - 1;
            Possible(s, run[..n]) && Enabled(After(s, run[..n]), run[n])
            && After(s, run) == Step(After(s, run[..n]), run[n])
    decreases run
  {
    hide Enabled, Step;
    var n := |run| - 1;
    if n > 0 {
      AfterSnoc(Step(s, run[0]), run[1..]);
      assert run[1..][..n - 1] == run[..n][1..];
    }
  }

  lemma {:induction false} InOrderRun(s: Store, run: seq<Action>)
    requires Started(s) && Possible(s, run)
    ensures InOrder(s.tasks, After(s, run))
    decreases |run|
  {
    if run != [] {
      var n := |run| - 1;
      AfterSnoc(s, run);
      InOrderRun(s, run[..n]);
      hide *;
      InOrderStep(s.tasks, After(s, run[..n]), run[n]);
    }
  }

  /** What one action does to the committed table: a commit puts the task's whole view there, and
      nothing else touches it. */
  lemma CommitIs(s: Store, a: Action)
    requires Enabled(s, a)
    ensures Step(s, a).committed == if a.Commit? && s.tasks[a.t].Open? then s.tasks[a.t].view else s.committed
  {
  }

  /** The table is what the run's commits make it: the whole batches of the tasks that committed, one
      task after another in the order of their commits. A task that aborted or has not committed has
      left nothing. */
  lemma {:induction false} CommitsPublish(s: Store, run: seq<Action>)
    requires Started(s) && Possible(s, run)
    ensures After(s, run).committed == Replay(s.committed, CommittedBatches(s.tasks, run))
    decreases |run|
  {
    if run != [] {
      var n := |run| - 1;
      AfterSnoc(s, run);
      var before, a := After(s, run[..n]), run[n];
      CommitsPublish(s, run[..n]);
      InOrderRun(s, run[..n]);
      SerialRun(s.committed, s, run[..n]);
      hide Step, Possible, After, Replay;
      CommitIs(before, a);
      InOrderStep(s.tasks, before, a);
      if a.Commit? {
        ReplayAppend(s.committed, CommittedBatches(s.tasks, run[..n]), s.tasks[a.t].batch);
      }
    }
  }

  lemma {:induction false} ClosedStays(s: Store, run: seq<Action>, t: nat)
    requires Possible(s, run) && t in s.tasks && s.tasks[t].Closed?
    ensures forall i | 0 <= i < |run| :: run[i].t != t
    decreases run
  {
    if run != [] {
      ClosedStays(Step(s, run[0]), run[1..], t);
      assert forall i | 1 <= i < |run| :: run[i] == run[1..][i - 1];
    }
  }

  /** So a task contributes once or never: nothing of it follows its commit or its abort. */
  lemma {:induction false} OneEnding(s: Store, run: seq<Action>, i: nat, j: nat)
    requires Possible(s, run) && i < j < |run| && (run[i].Commit? || run[i].Abort?)
    ensures run[j].t != run[i].t
    decreases run
  {
    if i == 0 {
      ClosedStays(Step(s, run[0]), run[1..], run[0].t);
      assert run[j] == run[1..][j - 1];
    } else {
      OneEnding(Step(s, run[0]), run[1..], i - 1, j - 1);
    }
  }

  /** Without the lock around SELECT and INSERT the promise is false: two tasks that both
      look for a new uid before either writes leave two rows for it, from any table. */
  lemma WithoutTheLockDuplicates(t: Table, req: Request)
    requires Unique(t) && req.uid != "" && Find(t, req.uid).None?
    ensures var first, second := Find(t, req.uid), Find(t, req.uid);
      var u := Write(Write(t, req, first), req, second);
      !Unique(u)
  {
    var u := Write(Write(t, req, None), req, None);
    assert u.rows[|t.rows|].uid == req.uid == u.rows[|t.rows| + 1].uid;
  }

  // --- the class -------------------------------------------------------------

  /** The store as the holder of the write lock sees it. */
  class EventStore {
    var table: Table

    /** `upsert_event`, between taking the lock and the commit. */
    method UpsertEvent(req: Request) returns (id: nat)
      requires Unique(table)
      modifies this
      ensures table == Upsert(old(table), req) && id == UpsertId(old(table), req)
      ensures Unique(table) && Keeps(old(table), table)
    {
      UpsertKeeps(table, req);
      if req.uid != "" {
        for k := 0 to |table.rows|
          invariant table == old(table)
          invariant FindFrom(table.rows, req.uid, 0) == FindFrom(table.rows, req.uid, k)
        {
          var row := table.rows[k];
          if row.uid == req.uid {
            table := table.(rows := table.rows[k := row.(fields := row.fields + req.fields)]);
            return row.id;
          }
        }
      }
      id := table.nextId;
      table := Table(table.rows + [Row(id, req.uid, req.fields, req.createdAt)], id + 1);
    }

    /** A `transaction()` batch: every upsert of the batch, in order. */
    method UpsertAll(reqs: seq<Request>)
      requires Unique(table)
      modifies this
      ensures table == Replay(old(table), reqs) && Unique(table) && Keeps(old(table), table)
    {
      for k := 0 to |reqs|
        invariant table == Replay(old(table), reqs[..k]) && Unique(table) && Keeps(old(table), table)
      {
        assert reqs[..k + 1][..k] == reqs[..k];
        var _ := UpsertEvent(reqs[k]);
      }
      assert reqs[..|reqs|] == reqs;
    }
  }
}
