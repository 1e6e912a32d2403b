/** Reserving an unused file name (media/pipeline.py): the name itself, then " (2)", " (3)", ...,
    each tried with one exclusive create. */
module ClaimPath {
  import opened Common

  // --- the candidate names ---------------------------------------------------

  /** A path as `splitext` parts it: `base` and `ext` together are the path. */
  datatype Wanted = Wanted(base: string, ext: string)

  /** The name tried when the counter is `n`. */
  function Candidate(w: Wanted, n: nat): string
    requires n >= 1
  {
    if n == 1 then w.base + w.ext else w.base + " (" + Decimal(n) + ")" + w.ext
  }

  /** The names as they read: the wanted one, then with a number from two on before the extension. */
  lemma FirstNames(w: Wanted)
    ensures Candidate(w, 1) == w.base + w.ext
    ensures Candidate(w, 2) == w.base + " (2)" + w.ext
    ensures Candidate(w, 3) == w.base + " (3)" + w.ext
    ensures Candidate(w, 10) == w.base + " (10)" + w.ext
  {
    assert Decimal(2) == "2" && Decimal(3) == "3" && Decimal(1) == "1" && Decimal(10) == "10";
    assert w.base + " (2)" + w.ext == w.base + " (" + "2" + ")" + w.ext;
    assert w.base + " (3)" + w.ext == w.base + " (" + "3" + ")" + w.ext;
    assert w.base + " (10)" + w.ext == w.base + " (" + "10" + ")" + w.ext;
  }

  /** No two counters give the same name. */
  lemma CandidateInjective(w: Wanted, n: nat, m: nat)
    requires n >= 1 && m >= 1 && Candidate(w, n) == Candidate(w, m)
    ensures n == m
  {
    if n != 1 && m != 1 {
      var s, t := Candidate(w, n), Candidate(w, m);
      var from, back := |w.base| + 2, |w.ext| + 1;
      assert s[from..|s| - back] == Decimal(n);
      assert t[from..|t| - back] == Decimal(m);
      DecimalInjective(n, m);
    }
  }

  /** The names tried before the counter reached `n`. */
  function Tried(w: Wanted, n: nat): set<string>
    requires n >= 1
  {
    if n == 1 then {} else Tried(w, n - 1) + {Candidate(w, n - 1)}
  }

  lemma {:induction false} TriedBefore(w: Wanted, n: nat, m: nat)
    requires 1 <= n <= m
    ensures Candidate(w, m) !in Tried(w, n)
  {
    if n > 1 {
      TriedBefore(w, n - 1, m);
      if Candidate(w, n - 1) == Candidate(w, m) {
        CandidateInjective(w, n - 1, m);
      }
    }
  }

  lemma {:induction false} TriedCount(w: Wanted, n: nat)
    requires n >= 1
    ensures |Tried(w, n)| == n - 1
  {
    if n > 1 {
      TriedCount(w, n - 1);
      TriedBefore(w, n - 1, n - 1);
    }
  }

  lemma SubsetSize(a: set<string>, b: set<string>)
    requires a <= b
    ensures |a| <= |b|
  {
    assert b == a + (b - a);
  }

  /** The counter never gets ahead of the number of names taken. */
  lemma TriedBound(w: Wanted, n: nat, files: set<string>)
    requires n >= 1 && Tried(w, n) <= files
    ensures n - 1 <= |files|
  {
    TriedCount(w, n);
    SubsetSize(Tried(w, n), files);
  }

  // --- one call --------------------------------------------------------------

  class Directory {
    var files: set<string>

    /** `os.open` with O_CREAT and O_EXCL: false is FileExistsError. */
    method OpenExclusive(name: string) returns (created: bool)
      modifies this
      ensures created <==> name !in old(files)
      ensures files == old(files) + {name}
    {
      created := name !in files;
      files := files + {name};
    }

    /** `_claim_unique_path`, undisturbed: the first candidate not taken, which is then taken. */
    method ClaimUniquePath(w: Wanted) returns (claimed: string)
      modifies this
      ensures claimed !in old(files) && files == old(files) + {claimed}
      ensures exists n: nat | n >= 1 :: claimed == Candidate(w, n) && Tried(w, n) <= old(files)
    {
      var candidate, n := w.base + w.ext, 1;
      while true
        invariant n >= 1 && candidate == Candidate(w, n)
        invariant files == old(files) && Tried(w, n) <= files
        decreases |old(files)| + 1 - n
      {
        var created := OpenExclusive(candidate);
        if created {
          return candidate;
        }
        assert files == old(files);
        TriedBound(w, n + 1, files);
        n := n + 1;
        candidate := w.base + " (" + Decimal(n) + ")" + w.ext;
      }
    }
  }

  // --- any number of calls at once -------------------------------------------

  /** A call under way: its counter, and its name once it has one. */
  datatype Task = Task(wanted: Wanted, n: nat, claimed: Option<string>)

  datatype World = World(files: set<string>, tasks: seq<Task>)

  /** A call's next exclusive create, or a file that something else makes or removes. */
  datatype Action = Try(task: nat) | Create(name: string) | Remove(name: string)

  ghost predicate Enabled(w: World, act: Action) {
    match act
    case Try(k) => k < |w.tasks| && w.tasks[k].n >= 1 && w.tasks[k].claimed.None?
    case Create(_) => true
    case Remove(name) => forall k | 0 <= k < |w.tasks| :: w.tasks[k].claimed != Some(name)
  }

  function Step(w: World, act: Action): World {
    match act
    case Try(k) =>
      if k >= |w.tasks| || w.tasks[k].n < 1 then w else
        var t := w.tasks[k];
        var name := Candidate(t.wanted, t.n);
        if name in w.files then w.(tasks := w.tasks[k := t.(n := t.n + 1)])
        else World(w.files + {name}, w.tasks[k := t.(claimed := Some(name))])
    case Create(name) => w.(files := w.files + {name})
    case Remove(name) => w.(files := w.files - {name})
  }

  ghost predicate Legal(w: World, acts: seq<Action>)
    decreases acts
  {
    acts != [] ==> Enabled(w, acts[0]) && Legal(Step(w, acts[0]), acts[1..])
  }

  function Run(w: World, acts: seq<Action>): World
    decreases acts
  {
    if acts == [] then w else Run(Step(w, acts[0]), acts[1..])
  }

  /** Calls about to begin. */
  function Begin(files: set<string>, wanted: seq<Wanted>): World {
    World(files, Map(wanted, (w: Wanted) => Task(w, 1, None)))
  }

  ghost predicate Distinct(w: World) {
    && (forall k | 0 <= k < |w.tasks| && w.tasks[k].claimed.Some? :: w.tasks[k].claimed.value in w.files)
    && (forall j, k | 0 <= j < k < |w.tasks| && w.tasks[j].claimed.Some? && w.tasks[k].claimed.Some? ::
          w.tasks[j].claimed != w.tasks[k].claimed)
  }

  lemma DistinctStep(w: World, act: Action)
    requires Distinct(w) && Enabled(w, act)
    ensures Distinct(Step(w, act))
  {
    hide Candidate;
  }

  lemma {:induction false} DistinctRun(w: World, acts: seq<Action>)
    requires Distinct(w) && Legal(w, acts)
    ensures Distinct(Run(w, acts))
    decreases acts
  {
    hide Distinct, Step, Enabled;
    if acts != [] {
      DistinctStep(w, acts[0]);
      DistinctRun(Step(w, acts[0]), acts[1..]);
    }
  }

  /** However the calls and anything else interleave, no two calls get the same name, as long as a
      claimed file is not removed meanwhile. */
  lemma ClaimsAreDistinct(files: set<string>, wanted: seq<Wanted>, acts: seq<Action>)
    requires Legal(Begin(files, wanted), acts)
    ensures var tasks := Run(Begin(files, wanted), acts).tasks;
            forall j, k | 0 <= j < k < |tasks| && tasks[j].claimed.Some? && tasks[k].claimed.Some? ::
              tasks[j].claimed != tasks[k].claimed
  {
    DistinctRun(Begin(files, wanted), acts);
  }

  /** Where a name was claimed: absent just before, and a candidate of the call's own. */
  ghost predicate ClaimedAt(w: World, act: Action, k: nat, name: string) {
    && act == Try(k) && k < |w.tasks| && w.tasks[k].n >= 1
    && name == Candidate(w.tasks[k].wanted, w.tasks[k].n) && name !in w.files
  }

  lemma {:induction false} AbsentWhenClaimed(w: World, acts: seq<Action>, k: nat, name: string)
    requires Legal(w, acts) && k < |w.tasks| && w.tasks[k].claimed.None?
    requires k < |Run(w, acts).tasks| && Run(w, acts).tasks[k].claimed == Some(name)
    ensures exists i | 0 <= i < |acts| :: ClaimedAt(Run(w, acts[..i]), acts[i], k, name)
    decreases acts
  {
    hide Candidate;
    var w1 := Step(w, acts[0]);
    if w1.tasks[k].claimed.None? {
      AbsentWhenClaimed(w1, acts[1..], k, name);
      var i :| 0 <= i < |acts[1..]| && ClaimedAt(Run(w1, acts[1..][..i]), acts[1..][i], k, name);
      assert acts[..i + 1][1..] == acts[1..][..i] && acts[..i + 1][0] == acts[0];
      assert ClaimedAt(Run(w, acts[..i + 1]), acts[i + 1], k, name);
    } else {
      ClaimStays(w1, acts[1..], k);
      assert Run(w, acts[..0]) == w;
      assert ClaimedAt(Run(w, acts[..0]), acts[0], k, name);
    }
  }

  lemma {:induction false} ClaimStays(w: World, acts: seq<Action>, k: nat)
    requires Legal(w, acts) && k < |w.tasks| && w.tasks[k].claimed.Some?
    ensures k < |Run(w, acts).tasks| && Run(w, acts).tasks[k].claimed == w.tasks[k].claimed
    decreases acts
  {
    hide Candidate;
    if acts != [] {
      ClaimStays(Step(w, acts[0]), acts[1..], k);
    }
  }

  ghost predicate TriedTaken(w: World) {
    forall k | 0 <= k < |w.tasks| :: w.tasks[k].n >= 1 && Tried(w.tasks[k].wanted, w.tasks[k].n) <= w.files
  }

  lemma TriedStep(w: World, act: Action)
    requires TriedTaken(w) && Enabled(w, act) && !act.Remove?
    ensures TriedTaken(Step(w, act))
  {
  }

  lemma {:induction false} TriedRun(w: World, acts: seq<Action>)
    requires TriedTaken(w) && Legal(w, acts) && forall a | a in acts :: !a.Remove?
    ensures TriedTaken(Run(w, acts))
    decreases acts
  {
    hide TriedTaken, Step, Enabled;
    if acts != [] {
      TriedStep(w, acts[0]);
      TriedRun(Step(w, acts[0]), acts[1..]);
    }
  }

  /** Every call ends: while nothing is removed, no call has failed more often than there are files,
      so only files made by others in the meantime can keep it trying. */
  lemma TriesAreBounded(files: set<string>, wanted: seq<Wanted>, acts: seq<Action>, k: nat)
    requires Legal(Begin(files, wanted), acts) && forall a | a in acts :: !a.Remove?
    requires k < |Run(Begin(files, wanted), acts).tasks|
    ensures Run(Begin(files, wanted), acts).tasks[k].n <= |Run(Begin(files, wanted), acts).files| + 1
  {
    TriedRun(Begin(files, wanted), acts);
    var w := Run(Begin(files, wanted), acts);
    TriedBound(w.tasks[k].wanted, w.tasks[k].n, w.files);
  }
}
