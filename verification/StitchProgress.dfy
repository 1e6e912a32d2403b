/** The stitcher converges: every attempt that does not raise uses up an unmarked row, so only
    so many attempts fit into any run of passes. */
module StitchProgress {
  import opened Common
  import opened Stitch
  import opened StitchLaws

  function UnmarkedIn(ids: set<nat>): Media -> bool {
    (r: Media) => Unmarked(r) && r.id in ids
  }

  function Open(rows: seq<Media>): nat {
    |Filter(rows, Unmarked)|
  }

  function Hits(rows: seq<Media>, ids: set<nat>): nat {
    |Filter(rows, UnmarkedIn(ids))|
  }

  lemma {:induction false} MarkLowers(rows: seq<Media>, ids: set<nat>, reason: string)
    ensures Open(Mark(rows, ids, reason)) + Hits(rows, ids) == Open(rows)
  {
    if rows != [] {
      var n := |rows| - 1;
      MarkLowers(rows[..n], ids, reason);
      assert Mark(rows, ids, reason)[..n] == Mark(rows[..n], ids, reason);
    }
  }

  lemma {:induction false} OutsideLowers(rows: seq<Media>, ids: set<nat>)
    ensures Open(Filter(rows, Outside(ids))) + Hits(rows, ids) == Open(rows)
  {
    if rows != [] {
      var n := |rows| - 1;
      OutsideLowers(rows[..n], ids);
      FilterSnoc(Filter(rows[..n], Outside(ids)), rows[n], Unmarked);
    }
  }

  lemma SwapLowers(rows: seq<Media>, ids: set<nat>, merged: Media)
    requires !Unmarked(merged)
    ensures Open(Swap(rows, ids, merged)) + Hits(rows, ids) == Open(rows)
  {
    OutsideLowers(rows, ids);
    FilterSnoc(Filter(rows, Outside(ids)), merged, Unmarked);
  }

  lemma HitsPositive(rows: seq<Media>, ids: set<nat>, c: Media)
    requires c in rows && Unmarked(c) && c.id in ids
    ensures Hits(rows, ids) >= 1
  {
    FilterMember(rows, UnmarkedIn(ids));
    assert c in Filter(rows, UnmarkedIn(ids));
  }

  /** Which rows an attempt that does not raise takes out of the running: at least one chunk. */
  lemma SomeChunkIsHit(lib: Library, ep: Episode, chunks: seq<Media>)
    requires Offered(lib.rows, ep) && chunks != [] && forall c | c in chunks :: c in ep.chunks
    ensures Hits(lib.rows, Ids(chunks)) >= 1
  {
    assert chunks[0] in chunks;
    HitsPositive(lib.rows, Ids(chunks), chunks[0]);
  }

  /** A path with a chunk. */
  lemma PickedIsNonempty(chunks: seq<Media>, files: map<Path, Clip>, keep: Path -> bool)
    requires Filter(ExistingPaths(chunks, files), keep) != []
    ensures Filter(chunks, WithPathIn(Filter(ExistingPaths(chunks, files), keep))) != []
    ensures forall c | c in Filter(chunks, WithPathIn(Filter(ExistingPaths(chunks, files), keep))) :: c in chunks
  {
    hide Filter;
    PickedChunks(chunks, files, keep);
    FilterMember(chunks, WithPathIn(Filter(ExistingPaths(chunks, files), keep)));
  }

  lemma SkipHits(lib: Library, ep: Episode, luck: Luck)
    requires Offered(lib.rows, ep) && PlanOf(lib, ep, luck).Skip?
    ensures Hits(lib.rows, PlanOf(lib, ep, luck).ids) >= 1
  {
    hide Filter, Ids, ExistingPaths, Hits;
    SomeChunkIsHit(lib, ep, ep.chunks);
    var existing := ExistingPaths(ep.chunks, lib.files);
    var keys := StreamKeys(existing, luck.streams);
    var paths := MajorityPaths(existing, luck.streams);
    if |existing| >= 2 && |paths| >= 2 {
      var key := MinBy(keys, Stitch.Count(existing, luck.streams));
      PickedIsNonempty(ep.chunks, lib.files, HasStream(luck.streams, key));
      SomeChunkIsHit(lib, ep, Filter(ep.chunks, WithPathIn(paths)));
      var good := Filter(paths, Decodes(luck));
      if good != [] {
        FilterTwice(existing, HasStream(luck.streams, key), Decodes(luck), HasStreamAnd(luck, key));
        PickedIsNonempty(ep.chunks, lib.files, HasStreamAnd(luck, key));
        SomeChunkIsHit(lib, ep, Filter(ep.chunks, WithPathIn(good)));
      }
    }
  }

  lemma FinishLowers(lib: Library, ep: Episode, paths: seq<Path>, excluded: set<nat>, luck: Luck)
    requires Hits(lib.rows, Ids(Filter(ep.chunks, WithPathIn(paths)))) >= 1
    ensures var r := Finish(lib, ep, paths, excluded, luck);
            (r.1.Raised? && r.0.rows == lib.rows) || Open(r.0.rows) < Open(lib.rows)
  {
    hide Filter, Ids, Hits, Open, Mark, Swap, AfterRemove, JoinOf, Durations;
    var chunks := Filter(ep.chunks, WithPathIn(paths));
    MarkLowers(lib.rows, Ids(chunks), "move-failed");
    if chunks != [] {
      var merged := MergedRow(ep, chunks, lib.nextId, luck);
      SwapLowers(lib.rows, Ids(chunks), merged);
      MarkLowers(Swap(lib.rows, Ids(chunks), merged), excluded, "excluded-stream-mismatch");
    }
  }

  /** Success, failed join, missing files, failed move: each attempt strictly lowers the number of
      unmarked rows, unless an exception leaves every row as it was. */
  lemma EveryAttemptCounts(lib: Library, ep: Episode, luck: Luck)
    requires Offered(lib.rows, ep)
    ensures var (after, outcome) := StitchOne(lib, ep, luck);
            (outcome.Raised? && after.rows == lib.rows) || Open(after.rows) < Open(lib.rows)
  {
    hide PlanOf, Finish, Open, Hits, Mark, Filter, Ids;
    match PlanOf(lib, ep, luck)
    case Skip(ids, reason) =>
      SkipHits(lib, ep, luck);
      MarkLowers(lib.rows, ids, reason);
    case Blocked =>
    case Go(paths, excluded) =>
      JoinedChunks(lib, ep, luck);
      FilterMember(ep.chunks, WithPathIn(paths));
      SomeChunkIsHit(lib, ep, Filter(ep.chunks, WithPathIn(paths)));
      FinishLowers(lib, ep, paths, excluded, luck);
  }

  // --- a pass ----------------------------------------------------------------

  ghost predicate Apart(a: Episode, b: Episode) {
    forall c, d | c in a.chunks && d in b.chunks :: c.id != d.id
  }

  /** What a pass works through: each episode offered, no chunk in two of them. */
  ghost predicate Batch(rows: seq<Media>, eps: seq<Episode>) {
    && (forall k | 0 <= k < |eps| :: Offered(rows, eps[k]))
    && (forall j, k | 0 <= j < k < |eps| :: Apart(eps[j], eps[k]))
  }

  /** An attempt leaves every row that is not its own chunk alone. */
  lemma OthersStay(lib: Library, ep: Episode, luck: Luck, c: Media)
    requires c in lib.rows && c.id !in Ids(ep.chunks)
    ensures c in StitchOne(lib, ep, luck).0.rows
  {
    hide PlanOf, Finish, Mark, Filter, Ids;
    match PlanOf(lib, ep, luck)
    case Skip(ids, reason) =>
      SkippedIds(lib, ep, luck);
      MarkMember(lib.rows, ids, reason);
    case Blocked =>
    case Go(paths, excluded) =>
      JoinedChunks(lib, ep, luck);
      FilterIds(ep.chunks, WithPathIn(paths));
      FilterIds(ep.chunks, WithPathOutside(paths));
      FinishSpares(lib, ep, paths, excluded, luck, c);
  }

  lemma SwapSpares(rows: seq<Media>, ids: set<nat>, merged: Media, c: Media)
    requires c in rows && c.id !in ids
    ensures c in Swap(rows, ids, merged)
  {
    FilterMember(rows, Outside(ids));
  }

  lemma FinishRows(lib: Library, ep: Episode, paths: seq<Path>, excluded: set<nat>, luck: Luck)
    ensures var chunks := Filter(ep.chunks, WithPathIn(paths));
            var after := Finish(lib, ep, paths, excluded, luck).0;
            || (after.nextId == lib.nextId
                && (after.rows == lib.rows || after.rows == Mark(lib.rows, Ids(chunks), "move-failed")))
            || (chunks != [] && after.nextId == lib.nextId + 1
                && var swapped := Swap(lib.rows, Ids(chunks), MergedRow(ep, chunks, lib.nextId, luck));
                   after.rows == swapped || after.rows == Mark(swapped, excluded, "excluded-stream-mismatch"))
  {
    hide Filter, Ids, Mark, Swap, MergedRow, AfterRemove, JoinOf, WithPathIn;
  }

  lemma FinishSpares(lib: Library, ep: Episode, paths: seq<Path>, excluded: set<nat>, luck: Luck, c: Media)
    requires c in lib.rows && c.id !in excluded && c.id !in Ids(Filter(ep.chunks, WithPathIn(paths)))
    ensures c in Finish(lib, ep, paths, excluded, luck).0.rows
  {
    hide *;
    var chunks := Filter(ep.chunks, WithPathIn(paths));
    FinishRows(lib, ep, paths, excluded, luck);
    MarkMember(lib.rows, Ids(chunks), "move-failed");
    if chunks != [] {
      var merged := MergedRow(ep, chunks, lib.nextId, luck);
      SwapSpares(lib.rows, Ids(chunks), merged, c);
      MarkMember(Swap(lib.rows, Ids(chunks), merged), excluded, "excluded-stream-mismatch");
    }
  }

  lemma BatchStays(lib: Library, eps: seq<Episode>, luck: Luck)
    requires eps != [] && Batch(lib.rows, eps)
    ensures Batch(StitchOne(lib, eps[0], luck).0.rows, eps[1..])
  {
    hide StitchOne;
    var after := StitchOne(lib, eps[0], luck).0;
    forall k | 0 <= k < |eps[1..]| ensures Offered(after.rows, eps[1..][k]) {
      assert eps[1..][k] == eps[k + 1] && Apart(eps[0], eps[k + 1]);
      forall c | c in eps[k + 1].chunks ensures c in after.rows {
        OthersStay(lib, eps[0], luck, c);
      }
    }
  }

  /** How many attempts of a pass did not raise. */
  function Settled(lib: Library, eps: seq<Episode>, lucks: seq<Luck>): nat
    requires |lucks| >= |eps|
    decreases eps
  {
    if eps == [] then 0 else
      var (after, outcome) := StitchOne(lib, eps[0], lucks[0]);
      (if outcome.Raised? then 0 else 1) + Settled(after, eps[1..], lucks[1..])
  }

  lemma {:induction false} PassLowers(lib: Library, eps: seq<Episode>, lucks: seq<Luck>)
    requires |lucks| >= |eps| && Batch(lib.rows, eps)
    ensures Open(RunOver(lib, eps, lucks).rows) + Settled(lib, eps, lucks) <= Open(lib.rows)
    decreases eps
  {
    hide StitchOne, Open, Batch;
    if eps != [] {
      FirstOffered(lib.rows, eps);
      EveryAttemptCounts(lib, eps[0], lucks[0]);
      BatchStays(lib, eps, lucks[0]);
      PassLowers(StitchOne(lib, eps[0], lucks[0]).0, eps[1..], lucks[1..]);
    }
  }

  lemma FirstOffered(rows: seq<Media>, eps: seq<Episode>)
    requires eps != [] && Batch(rows, eps)
    ensures Offered(rows, eps[0])
  {
  }

  // --- the candidates --------------------------------------------------------

  lemma {:induction false} GroupKeyMember(rows: seq<Media>, categories: set<string>)
    ensures forall key | key in GroupKeys(rows, categories) :: exists r ::
      r in rows && Countable(r, categories) && KeyOf(r) == key
    ensures forall r | r in rows && Countable(r, categories) :: KeyOf(r) in GroupKeys(rows, categories)
    ensures forall i, j | 0 <= i < j < |GroupKeys(rows, categories)| ::
      GroupKeys(rows, categories)[i] != GroupKeys(rows, categories)[j]
  {
    if rows != [] {
      GroupKeyMember(rows[..|rows| - 1], categories);
    }
  }

  lemma {:induction false} FilterCovers<T>(s: seq<T>, p: T -> bool, q: T -> bool)
    requires forall x | x in s && p(x) :: q(x)
    ensures |Filter(s, p)| <= |Filter(s, q)|
  {
    if s != [] {
      FilterCovers(s[..|s| - 1], p, q);
    }
  }

  /** The chunks of a key: all its unmarked rows and nothing else, in play order. */
  lemma ChunksOfKey(rows: seq<Media>, key: Key, categories: set<string>, before: real)
    requires DistinctKeys(rows, IdOf) && Qualifies(rows, key, categories, before)
    ensures var ep := Episode(key, PlayOrder(Filter(rows, ChunkOf(key))));
            && Offered(rows, ep)
            && SortedByBoth(ep.chunks, PlayTime, CreatedAt)
            && (forall c :: c in ep.chunks <==> c in rows && Unmarked(c) && c.related.Some? && KeyOf(c) == key)
  {
    hide Filter, StableSort, KeyOf, Countable;
    var found := Filter(rows, ChunkOf(key));
    FilterMember(rows, ChunkOf(key));
    CountableIsChunk(rows, key, categories);
    FilterCovers(rows, CountableIn(key, categories), ChunkOf(key));
    FilterDistinct(rows, ChunkOf(key), IdOf);
    var byAge := StableSort(found, CreatedAt);
    StableSortSpec(found, CreatedAt);
    SortMember(found, CreatedAt);
    SortDistinct(found, CreatedAt, IdOf);
    StableSortSpec(byAge, PlayTime);
    SortTwice(byAge, PlayTime, CreatedAt);
    SortMember(byAge, PlayTime);
    SortDistinct(byAge, PlayTime, IdOf);
  }

  lemma CountableIsChunk(rows: seq<Media>, key: Key, categories: set<string>)
    ensures forall r | r in rows && CountableIn(key, categories)(r) :: ChunkOf(key)(r)
  {
  }

  lemma {:induction false} CandidatesAreABatch(rows: seq<Media>, keys: seq<Key>, categories: set<string>, before: real)
    requires DistinctKeys(rows, IdOf)
    requires forall i, j | 0 <= i < j < |keys| :: keys[i] != keys[j]
    ensures Batch(rows, CandidatesFor(rows, keys, categories, before))
    ensures forall ep | ep in CandidatesFor(rows, keys, categories, before) :: ep.key in keys && ChunksAre(rows, ep)
  {
    hide Filter, PlayOrder, KeyOf, Offered, Apart, ChunksAre, Qualifies;
    if keys != [] {
      var n := |keys| - 1;
      CandidatesAreABatch(rows, keys[..n], categories, before);
      if Qualifies(rows, keys[n], categories, before) {
        var ep := Episode(keys[n], PlayOrder(Filter(rows, ChunkOf(keys[n]))));
        QualifyingEpisode(rows, keys[n], categories, before);
        var others := CandidatesFor(rows, keys[..n], categories, before);
        forall k | 0 <= k < |others| ensures Apart(others[k], ep) {
          assert others[k] in others;
          KeysApart(rows, others[k], ep);
        }
      }
    }
  }

  /** An episode's chunks are exactly its key's unmarked rows. */
  ghost predicate ChunksAre(rows: seq<Media>, ep: Episode) {
    forall c | c in ep.chunks :: c in rows && KeyOf(c) == ep.key
  }

  lemma QualifyingEpisode(rows: seq<Media>, key: Key, categories: set<string>, before: real)
    requires DistinctKeys(rows, IdOf) && Qualifies(rows, key, categories, before)
    ensures var ep := Episode(key, PlayOrder(Filter(rows, ChunkOf(key)))); Offered(rows, ep) && ChunksAre(rows, ep)
  {
    hide Filter, PlayOrder, KeyOf, Offered, Qualifies;
    ChunksOfKey(rows, key, categories, before);
  }

  lemma KeysApart(rows: seq<Media>, a: Episode, b: Episode)
    requires DistinctKeys(rows, IdOf)
    requires ChunksAre(rows, a) && ChunksAre(rows, b) && a.key != b.key
    ensures Apart(a, b)
  {
    hide KeyOf;
    forall c, d | c in a.chunks && d in b.chunks ensures c.id != d.id {
      var i :| 0 <= i < |rows| && rows[i] == c;
      var j :| 0 <= j < |rows| && rows[j] == d;
      assert i != j;
      assert IdOf(rows[i]) != IdOf(rows[j]);
    }
  }

  /** No two candidates of one query share a chunk, and each is offered at least two. */
  lemma CandidatesOffered(rows: seq<Media>, categories: set<string>, before: real)
    requires DistinctKeys(rows, IdOf)
    ensures Batch(rows, Candidates(rows, categories, before))
  {
    GroupKeyMember(rows, categories);
    CandidatesAreABatch(rows, GroupKeys(rows, categories), categories, before);
  }

  // --- any number of passes --------------------------------------------------

  datatype Pass = Pass(before: real, lucks: seq<Luck>)

  /** A run of passes, each over the candidates it finds, in the world's luck for it. */
  ghost predicate Run(lib: Library, passes: seq<Pass>, categories: set<string>)
    decreases passes
  {
    passes != [] ==>
      && |passes[0].lucks| >= |Candidates(lib.rows, categories, passes[0].before)|
      && Run(AfterPass(lib, passes[0], categories), passes[1..], categories)
  }

  ghost function AfterPass(lib: Library, pass: Pass, categories: set<string>): Library
    requires |pass.lucks| >= |Candidates(lib.rows, categories, pass.before)|
  {
    RunOver(lib, Candidates(lib.rows, categories, pass.before), pass.lucks)
  }

  ghost function AfterRun(lib: Library, passes: seq<Pass>, categories: set<string>): Library
    requires Run(lib, passes, categories)
    decreases passes
  {
    if passes == [] then lib else AfterRun(AfterPass(lib, passes[0], categories), passes[1..], categories)
  }

  /** Attempts that did not raise, over the whole run. */
  ghost function Attempts(lib: Library, passes: seq<Pass>, categories: set<string>): nat
    requires Run(lib, passes, categories)
    decreases passes
  {
    if passes == [] then 0 else
      Settled(lib, Candidates(lib.rows, categories, passes[0].before), passes[0].lucks)
      + Attempts(AfterPass(lib, passes[0], categories), passes[1..], categories)
  }

  lemma SoundMark(rows: seq<Media>, nextId: nat, ids: set<nat>, reason: string)
    requires SoundRows(rows, nextId)
    ensures SoundRows(Mark(rows, ids, reason), nextId)
  {
    var marked := Mark(rows, ids, reason);
    forall r | r in marked ensures r.id < nextId {
      var i :| 0 <= i < |marked| && marked[i] == r;
      assert rows[i] in rows;
    }
    forall i, j | 0 <= i < j < |marked| ensures IdOf(marked[i]) != IdOf(marked[j]) {
      assert IdOf(rows[i]) != IdOf(rows[j]);
    }
  }

  lemma SoundSwap(rows: seq<Media>, nextId: nat, ids: set<nat>, merged: Media)
    requires SoundRows(rows, nextId) && merged.id == nextId
    ensures SoundRows(Swap(rows, ids, merged), nextId + 1)
  {
    hide Filter;
    FilterMember(rows, Outside(ids));
    FilterDistinct(rows, Outside(ids), IdOf);
    AppendDistinct(Filter(rows, Outside(ids)), [merged], IdOf);
  }

  /** Row ids stay unique: the one new row has the next id. */
  lemma SoundStays(lib: Library, ep: Episode, luck: Luck)
    requires Sound(lib)
    ensures Sound(StitchOne(lib, ep, luck).0)
  {
    hide PlanOf, Finish, Mark, Swap, Filter, Ids, Map, SoundRows;
    match PlanOf(lib, ep, luck)
    case Skip(ids, reason) =>
      SoundMark(lib.rows, lib.nextId, ids, reason);
    case Blocked =>
    case Go(paths, excluded) =>
      var chunks := Filter(ep.chunks, WithPathIn(paths));
      FinishRows(lib, ep, paths, excluded, luck);
      SoundMark(lib.rows, lib.nextId, Ids(chunks), "move-failed");
      if chunks != [] {
        var merged := MergedRow(ep, chunks, lib.nextId, luck);
        SoundSwap(lib.rows, lib.nextId, Ids(chunks), merged);
        SoundMark(Swap(lib.rows, Ids(chunks), merged), lib.nextId + 1, excluded, "excluded-stream-mismatch");
      }
  }

  lemma {:induction false} PassStaysSound(lib: Library, eps: seq<Episode>, lucks: seq<Luck>)
    requires Sound(lib) && |lucks| >= |eps|
    ensures Sound(RunOver(lib, eps, lucks))
    decreases eps
  {
    hide StitchOne, Sound;
    if eps != [] {
      SoundStays(lib, eps[0], lucks[0]);
      PassStaysSound(StitchOne(lib, eps[0], lucks[0]).0, eps[1..], lucks[1..]);
    }
  }

  /** With no new uploads the stitcher comes to rest: over any run of passes, whatever ffmpeg, the
      files and the database answer, the attempts that do not raise are at most the unmarked rows
      the run began with, less those it ends with. */
  lemma {:induction false} AttemptsAreBounded(lib: Library, passes: seq<Pass>, categories: set<string>)
    requires Sound(lib) && Run(lib, passes, categories)
    ensures Attempts(lib, passes, categories) + Open(AfterRun(lib, passes, categories).rows) <= Open(lib.rows)
    decreases passes
  {
    hide Candidates, Open, Settled, RunOver, Batch;
    if passes != [] {
      var eps := Candidates(lib.rows, categories, passes[0].before);
      CandidatesOffered(lib.rows, categories, passes[0].before);
      PassLowers(lib, eps, passes[0].lucks);
      PassStaysSound(lib, eps, passes[0].lucks);
      AttemptsAreBounded(AfterPass(lib, passes[0], categories), passes[1..], categories);
    }
  }

  /** An attempt raises exactly when it cannot be prepared once a join is called for, when a verified
      and moved join cannot swap its rows, or when rows to mark cannot be marked. */
  lemma RaisesIff(lib: Library, ep: Episode, luck: Luck)
    ensures StitchOne(lib, ep, luck).1.Raised? <==>
      (match PlanOf(lib, ep, luck)
       case Skip(ids, _) => ids != {} && !luck.markOk
       case Blocked => true
       case Go(_, excluded) =>
         if luck.move.Moved? then !luck.swapOk || (excluded != {} && !luck.markOk) else !luck.markOk)
    ensures PlanOf(lib, ep, luck).Blocked? ==> !luck.prepared
  {
    hide Filter, Map, Mark, Swap, MergedRow, JoinOf, AfterRemove, ExistingPaths, MajorityPaths;
    if PlanOf(lib, ep, luck).Go? {
      JoinedChunks(lib, ep, luck);
      var chunks := Filter(ep.chunks, WithPathIn(PlanOf(lib, ep, luck).paths));
      assert chunks[0].id in Ids(chunks);
    }
  }

  /** Attempts can be prepared, and row swaps and marks commit. */
  ghost predicate Commits(lucks: seq<Luck>) {
    forall l | l in lucks :: l.prepared && l.swapOk && l.markOk
  }

  lemma {:induction false} AllSettled(lib: Library, eps: seq<Episode>, lucks: seq<Luck>)
    requires |lucks| >= |eps| && Commits(lucks)
    ensures Settled(lib, eps, lucks) == |eps|
    decreases eps
  {
    hide StitchOne, PlanOf;
    if eps != [] {
      assert lucks[0] in lucks;
      RaisesIff(lib, eps[0], lucks[0]);
      AllSettled(StitchOne(lib, eps[0], lucks[0]).0, eps[1..], lucks[1..]);
    }
  }

  // --- rest ------------------------------------------------------------------

  /** The pass comes late enough: everything worth joining has been quiet since before it. */
  ghost predicate Late(rows: seq<Media>, categories: set<string>, before: real) {
    forall r | r in rows && Countable(r, categories) :: r.createdAt < before
  }

  /** No query finds a candidate any more, whenever it is made. */
  ghost predicate AtRest(rows: seq<Media>, categories: set<string>) {
    forall before: real :: Candidates(rows, categories, before) == []
  }

  lemma {:induction false} NoneQualify(rows: seq<Media>, keys: seq<Key>, categories: set<string>, before: real)
    ensures CandidatesFor(rows, keys, categories, before) == []
      <==> forall key | key in keys :: !Qualifies(rows, key, categories, before)
  {
    hide Qualifies, PlayOrder;
    if keys != [] {
      NoneQualify(rows, keys[..|keys| - 1], categories, before);
      assert keys == keys[..|keys| - 1] + [keys[|keys| - 1]];
    }
  }

  /** A late pass waits for no one: what does not qualify then never will. */
  lemma LateQualifies(rows: seq<Media>, key: Key, categories: set<string>, before: real, other: real)
    requires Late(rows, categories, before) && Qualifies(rows, key, categories, other)
    ensures Qualifies(rows, key, categories, before)
  {
    hide Filter, Countable, KeyOf;
    FilterMember(rows, CountableIn(key, categories));
  }

  lemma EmptyLatePassIsRest(rows: seq<Media>, categories: set<string>, before: real)
    requires Late(rows, categories, before) && Candidates(rows, categories, before) == []
    ensures AtRest(rows, categories)
  {
    hide Qualifies, Late, GroupKeys, CandidatesFor;
    var keys := GroupKeys(rows, categories);
    NoneQualify(rows, keys, categories, before);
    forall other: real ensures Candidates(rows, categories, other) == [] {
      forall key | key in keys ensures !Qualifies(rows, key, categories, other) {
        if Qualifies(rows, key, categories, other) {
          LateQualifies(rows, key, categories, before, other);
        }
      }
      NoneQualify(rows, keys, categories, other);
    }
  }

  /** Passes over a library at rest leave it as it is. */
  lemma {:induction false} RestStays(lib: Library, passes: seq<Pass>, categories: set<string>)
    requires AtRest(lib.rows, categories)
    ensures Run(lib, passes, categories) && AfterRun(lib, passes, categories) == lib
    decreases passes
  {
    hide Candidates;
    if passes != [] {
      assert Candidates(lib.rows, categories, passes[0].before) == [];
      assert AfterPass(lib, passes[0], categories) == lib;
      RestStays(lib, passes[1..], categories);
    }
  }

  lemma MarkedRows(rows: seq<Media>, ids: set<nat>, reason: string, categories: set<string>, r: Media)
    requires r in Mark(rows, ids, reason) && Countable(r, categories)
    ensures r in rows
  {
    var i :| 0 <= i < |rows| && Mark(rows, ids, reason)[i] == r;
    assert rows[i] in rows;
  }

  lemma SwappedRows(rows: seq<Media>, ids: set<nat>, merged: Media, categories: set<string>, r: Media)
    requires r in Swap(rows, ids, merged) && Countable(r, categories) && !Unmarked(merged)
    ensures r in rows
  {
    FilterMember(rows, Outside(ids));
  }

  lemma MergedIsMarked(ep: Episode, chunks: seq<Media>, id: nat, luck: Luck)
    requires chunks != []
    ensures !Unmarked(MergedRow(ep, chunks, id, luck))
  {
  }

  /** No attempt makes a row worth joining. */
  lemma NothingNewToJoin(lib: Library, ep: Episode, luck: Luck, categories: set<string>, r: Media)
    requires r in StitchOne(lib, ep, luck).0.rows && Countable(r, categories)
    ensures r in lib.rows
  {
    hide PlanOf, Finish, Mark, Swap, MergedRow, Filter, Ids, Countable, Unmarked;
    match PlanOf(lib, ep, luck)
    case Skip(ids, reason) =>
      if r !in lib.rows {
        MarkedRows(lib.rows, ids, reason, categories, r);
      }
    case Blocked =>
    case Go(paths, excluded) =>
      FinishMakesNothing(lib, ep, paths, excluded, luck, categories, r);
  }

  lemma FinishMakesNothing(lib: Library, ep: Episode, paths: seq<Path>, excluded: set<nat>, luck: Luck,
                           categories: set<string>, r: Media)
    requires r in Finish(lib, ep, paths, excluded, luck).0.rows && Countable(r, categories)
    ensures r in lib.rows
  {
    hide *;
    FinishRows(lib, ep, paths, excluded, luck);
    var chunks := Filter(ep.chunks, WithPathIn(paths));
    if r in Mark(lib.rows, Ids(chunks), "move-failed") {
      MarkedRows(lib.rows, Ids(chunks), "move-failed", categories, r);
    } else if r !in lib.rows {
      var merged := MergedRow(ep, chunks, lib.nextId, luck);
      var swapped := Swap(lib.rows, Ids(chunks), merged);
      MergedIsMarked(ep, chunks, lib.nextId, luck);
      if r !in swapped {
        MarkedRows(swapped, excluded, "excluded-stream-mismatch", categories, r);
      }
      SwappedRows(lib.rows, Ids(chunks), merged, categories, r);
    }
  }

  lemma {:induction false} PassStaysLate(lib: Library, eps: seq<Episode>, lucks: seq<Luck>, categories: set<string>,
    before: real)
    requires |lucks| >= |eps| && Late(lib.rows, categories, before)
    ensures Late(RunOver(lib, eps, lucks).rows, categories, before)
    decreases eps
  {
    hide StitchOne, Countable;
    if eps != [] {
      var after := StitchOne(lib, eps[0], lucks[0]).0;
      forall r | r in after.rows && Countable(r, categories) ensures r.createdAt < before {
        NothingNewToJoin(lib, eps[0], lucks[0], categories, r);
      }
      PassStaysLate(after, eps[1..], lucks[1..], categories, before);
    }
  }

  /** Every pass of the run is late and commits. */
  ghost predicate Diligent(rows: seq<Media>, passes: seq<Pass>, categories: set<string>) {
    forall p | p in passes :: Late(rows, categories, p.before) && Commits(p.lucks)
  }

  lemma DiligentStays(lib: Library, passes: seq<Pass>, categories: set<string>)
    requires passes != [] && Run(lib, passes, categories) && Diligent(lib.rows, passes, categories)
    ensures Diligent(AfterPass(lib, passes[0], categories).rows, passes[1..], categories)
  {
    hide Late, Candidates, RunOver, Commits;
    var eps := Candidates(lib.rows, categories, passes[0].before);
    forall p | p in passes[1..] ensures Late(AfterPass(lib, passes[0], categories).rows, categories, p.before) {
      assert p in passes;
      PassStaysLate(lib, eps, passes[0].lucks, categories, p.before);
    }
  }

  lemma {:induction false} RestsOrWorks(lib: Library, passes: seq<Pass>, categories: set<string>)
    requires Run(lib, passes, categories) && Diligent(lib.rows, passes, categories)
    ensures AtRest(AfterRun(lib, passes, categories).rows, categories) || Attempts(lib, passes, categories) >= |passes|
    decreases passes
  {
    hide Candidates, Settled, RunOver, Commits, Late, AtRest, Diligent;
    if passes != [] {
      var eps := Candidates(lib.rows, categories, passes[0].before);
      FirstIsDiligent(lib.rows, passes, categories);
      if eps == [] {
        EmptyLatePassIsRest(lib.rows, categories, passes[0].before);
        RestStays(lib, passes, categories);
      } else {
        AllSettled(lib, eps, passes[0].lucks);
        DiligentStays(lib, passes, categories);
        RestsOrWorks(AfterPass(lib, passes[0], categories), passes[1..], categories);
      }
    }
  }

  lemma FirstIsDiligent(rows: seq<Media>, passes: seq<Pass>, categories: set<string>)
    requires passes != [] && Diligent(rows, passes, categories)
    ensures Late(rows, categories, passes[0].before) && Commits(passes[0].lucks)
  {
    hide Late, Commits;
    assert passes[0] in passes;
  }

  /** The stitcher converges: after more passes than there were unmarked rows, each made when the
      uploads had gone quiet and with its commits going through, no query finds a candidate, whenever
      it is made, and further passes change nothing. */
  lemma Converges(lib: Library, passes: seq<Pass>, categories: set<string>, more: seq<Pass>)
    requires Sound(lib) && Run(lib, passes, categories) && Diligent(lib.rows, passes, categories)
    requires |passes| > Open(lib.rows)
    ensures var end := AfterRun(lib, passes, categories);
            && AtRest(end.rows, categories)
            && Run(end, more, categories) && AfterRun(end, more, categories) == end
  {
    hide Candidates, AtRest, Diligent;
    AttemptsAreBounded(lib, passes, categories);
    RestsOrWorks(lib, passes, categories);
    RestStays(AfterRun(lib, passes, categories), more, categories);
  }
}
