/** What a stitch attempt comes to, said of the chunks, the files and the world's answers: when it
    joins, which chunks, into which row, and what it marks when it does not. */
module StitchOutcomes {
  import opened Common
  import opened Stitch
  import opened StitchLaws
  import opened StitchProgress

  /** The commonest stream's chunks on disk. */
  function Majority(lib: Library, ep: Episode, luck: Luck): seq<Path> {
    MajorityPaths(ExistingPaths(ep.chunks, lib.files), luck.streams)
  }

  function Sound(luck: Luck): Path -> bool {
    (p: Path) => p !in luck.undecodable
  }

  /** The majority's decodable part. */
  function Good(lib: Library, ep: Episode, luck: Luck): seq<Path> {
    Filter(Majority(lib, ep, luck), Sound(luck))
  }

  /** The first join came out wrong, and leaving broken chunks out leaves enough. */
  predicate Retried(lib: Library, ep: Episode, luck: Luck) {
    && !luck.joinOk && |Majority(lib, ep, luck)| > 2 && |Good(lib, ep, luck)| >= 2
    && exists p | p in Majority(lib, ep, luck) :: p in luck.undecodable
  }

  /** The paths whose join was tried last. */
  function Tried(lib: Library, ep: Episode, luck: Luck): seq<Path> {
    if Retried(lib, ep, luck) then Good(lib, ep, luck) else Majority(lib, ep, luck)
  }

  /** A join was made and verified. */
  predicate Verified(lib: Library, ep: Episode, luck: Luck) {
    |Majority(lib, ep, luck)| >= 2 && luck.prepared && (luck.joinOk || (Retried(lib, ep, luck) && luck.retryOk))
  }

  lemma BrokenIff(paths: seq<Path>, luck: Luck)
    ensures Filter(paths, Breaks(luck)) != [] <==> exists p | p in paths :: p in luck.undecodable
    ensures Filter(paths, Decodes(luck)) == Filter(paths, Sound(luck))
  {
    hide Filter;
    FilterMember(paths, Breaks(luck));
    FilterAgree(paths, Decodes(luck), Sound(luck));
    if p :| p in paths && p in luck.undecodable {
      assert p in Filter(paths, Breaks(luck));
    } else {
      FilterNone(paths, Breaks(luck));
    }
  }

  lemma {:induction false} FilterShorter<T>(s: seq<T>, keep: T -> bool)
    ensures |Filter(s, keep)| <= |s|
  {
    if s != [] {
      FilterShorter(s[..|s| - 1], keep);
    }
  }

  lemma MajorityIsShorter(paths: seq<Path>, streams: map<Path, string>)
    ensures |MajorityPaths(paths, streams)| <= |paths|
  {
    hide Filter, StreamKeys;
    var keys := StreamKeys(paths, streams);
    if keys != [] {
      FilterShorter(paths, HasStream(streams, MinBy(keys, Stitch.Count(paths, streams))));
    }
  }

  /** Which plan the attempt has, in those terms. */
  lemma PlanIs(lib: Library, ep: Episode, luck: Luck)
    ensures var plan := PlanOf(lib, ep, luck);
            && (plan.Go? <==> Verified(lib, ep, luck))
            && (plan.Go? ==> plan.paths == Tried(lib, ep, luck))
            && (plan.Blocked? <==> |Majority(lib, ep, luck)| >= 2 && !luck.prepared)
  {
    hide Filter, Ids, MajorityPaths, ExistingPaths;
    MajorityIsShorter(ExistingPaths(ep.chunks, lib.files), luck.streams);
    BrokenIff(Majority(lib, ep, luck), luck);
  }

  /** Row by row, `stitch_state` is set for `ids` and nothing else changes. */
  ghost predicate MarkedAs(before: seq<Media>, after: seq<Media>, ids: set<nat>, reason: string) {
    && |after| == |before|
    && forall i | 0 <= i < |before| ::
         after[i] == before[i].(stitchState := if before[i].id in ids then Some(reason) else before[i].stitchState)
  }

  lemma MarkIs(rows: seq<Media>, ids: set<nat>, reason: string)
    ensures MarkedAs(rows, Mark(rows, ids, reason), ids, reason)
  {
  }

  /** The ids of the chunks at these paths. */
  ghost predicate IdsAt(chunks: seq<Media>, paths: seq<Path>, ids: set<nat>) {
    forall id :: id in ids <==> exists c | c in chunks :: c.id == id && c.path.Some? && c.path.value in paths
  }

  lemma IdsAtPaths(chunks: seq<Media>, paths: seq<Path>)
    ensures IdsAt(chunks, paths, Ids(Filter(chunks, WithPathIn(paths))))
  {
    hide Filter;
    FilterMember(chunks, WithPathIn(paths));
  }

  /** What is marked, and why, when nothing is joined: all chunks when too few are on disk or of one
      stream; otherwise those whose join was tried last. */
  lemma SkipIs(lib: Library, ep: Episode, luck: Luck)
    requires PlanOf(lib, ep, luck).Skip?
    ensures var plan := PlanOf(lib, ep, luck);
            if |ExistingPaths(ep.chunks, lib.files)| < 2 then plan == Skip(Ids(ep.chunks), "missing-files")
            else if |Majority(lib, ep, luck)| < 2 then plan == Skip(Ids(ep.chunks), "inconsistent-streams")
            else plan.reason == "failed" && IdsAt(ep.chunks, Tried(lib, ep, luck), plan.ids)
  {
    hide Filter, Ids, MajorityPaths, ExistingPaths, IdsAt;
    BrokenIff(Majority(lib, ep, luck), luck);
    IdsAtPaths(ep.chunks, Majority(lib, ep, luck));
    IdsAtPaths(ep.chunks, Good(lib, ep, luck));
  }

  /** Nothing is lost before a join is verified: without one every file is as it was, no clip is made,
      and rows differ in the mark on chunks of this episode only, which says what went wrong. */
  lemma NoJoinNoLoss(lib: Library, ep: Episode, luck: Luck)
    requires !Verified(lib, ep, luck)
    ensures var (after, outcome) := StitchOne(lib, ep, luck);
            && after.files == lib.files && after.nextId == lib.nextId && !outcome.Stitched?
            && (outcome.Raised? ==> after.rows == lib.rows)
            && (outcome == Nothing ==>
                  if |ExistingPaths(ep.chunks, lib.files)| < 2
                  then MarkedAs(lib.rows, after.rows, Ids(ep.chunks), "missing-files")
                  else if |Majority(lib, ep, luck)| < 2
                  then MarkedAs(lib.rows, after.rows, Ids(ep.chunks), "inconsistent-streams")
                  else exists ids ::
                    IdsAt(ep.chunks, Tried(lib, ep, luck), ids) && MarkedAs(lib.rows, after.rows, ids, "failed"))
  {
    PlanIs(lib, ep, luck);
    hide PlanOf, Filter, Ids, Mark, MarkedAs, IdsAt, Verified, Majority, ExistingPaths, Tried;
    if PlanOf(lib, ep, luck).Skip? {
      SkipIs(lib, ep, luck);
      MarkIs(lib.rows, PlanOf(lib, ep, luck).ids, PlanOf(lib, ep, luck).reason);
    }
  }

  /** When an attempt ends with a clip, and what is in it: the whole majority if its join came out
      right, else its decodable part if that was joined and came out right. */
  lemma StitchedIff(lib: Library, ep: Episode, luck: Luck)
    ensures var (after, outcome) := StitchOne(lib, ep, luck);
            && (outcome.Stitched? <==>
                && Verified(lib, ep, luck) && luck.move.Moved? && luck.swapOk
                && (luck.markOk || forall c | c in ep.chunks :: WithPathIn(Tried(lib, ep, luck))(c)))
            && (outcome.Stitched? ==>
                && outcome.path == luck.finalPath && luck.finalPath in after.files
                && IsClipOf(after.files[luck.finalPath], lib.files, Tried(lib, ep, luck)))
  {
    PlanIs(lib, ep, luck);
    if Verified(lib, ep, luck) {
      JoinedChunks(lib, ep, luck);
      NobodyOutside(ep.chunks, Tried(lib, ep, luck));
      FinishIsStitched(lib, ep, luck);
      hide *;
    } else {
      NoJoinNoLoss(lib, ep, luck);
      hide *;
    }
  }

  lemma NobodyOutside(chunks: seq<Media>, paths: seq<Path>)
    ensures Ids(Filter(chunks, WithPathOutside(paths))) == {} <==> forall c | c in chunks :: WithPathIn(paths)(c)
  {
    hide Filter;
    FilterMember(chunks, WithPathOutside(paths));
    if c :| c in chunks && !WithPathIn(paths)(c) {
      assert c.id in Ids(Filter(chunks, WithPathOutside(paths)));
    }
  }

  lemma FinishIsStitched(lib: Library, ep: Episode, luck: Luck)
    requires PlanOf(lib, ep, luck).Go?
    ensures var (after, outcome) := StitchOne(lib, ep, luck);
            var plan := PlanOf(lib, ep, luck);
            && (outcome.Stitched? <==> luck.move.Moved? && luck.swapOk && (luck.markOk || plan.excluded == {}))
            && (outcome.Stitched? ==>
                && outcome.path == luck.finalPath && luck.finalPath in after.files
                && IsClipOf(after.files[luck.finalPath], lib.files, plan.paths))
  {
    SomeJoined(lib, ep, luck);
    hide *;
    var plan := PlanOf(lib, ep, luck);
    GoIsFinish(lib, ep, luck);
    FinishOutcome(lib, ep, plan.paths, plan.excluded, luck);
    JoinIs(lib.files, plan.paths);
  }

  lemma SomeJoined(lib: Library, ep: Episode, luck: Luck)
    requires PlanOf(lib, ep, luck).Go?
    ensures var plan := PlanOf(lib, ep, luck);
            Filter(ep.chunks, WithPathIn(plan.paths)) != [] && forall p | p in plan.paths :: p in lib.files
  {
    JoinedChunks(lib, ep, luck);
    hide PlanOf, Filter;
  }

  lemma GoIsFinish(lib: Library, ep: Episode, luck: Luck)
    requires PlanOf(lib, ep, luck).Go?
    ensures var plan := PlanOf(lib, ep, luck);
            StitchOne(lib, ep, luck) == Finish(lib, ep, plan.paths, plan.excluded, luck)
  {
    hide PlanOf, Finish;
  }

  lemma FinishOutcome(lib: Library, ep: Episode, paths: seq<Path>, excluded: set<nat>, luck: Luck)
    requires Filter(ep.chunks, WithPathIn(paths)) != []
    ensures var (after, outcome) := Finish(lib, ep, paths, excluded, luck);
            && (outcome.Stitched? <==> luck.move.Moved? && luck.swapOk && (luck.markOk || excluded == {}))
            && (outcome.Stitched? ==>
                && outcome.path == luck.finalPath && luck.finalPath in after.files
                && after.files[luck.finalPath] == JoinOf(lib.files, paths))
  {
    hide Filter, Ids, Mark, Swap, MergedRow, AfterRemove, WithPathIn, WithPathOutside, JoinOf;
  }

  /** The clip has one part for each path, in order: what that file held. */
  ghost predicate IsClipOf(clip: Clip, files: map<Path, Clip>, paths: seq<Path>) {
    && clip.Joined? && |clip.parts| == |paths|
    && forall i | 0 <= i < |paths| :: paths[i] in files && clip.parts[i] == files[paths[i]]
  }

  lemma JoinIs(files: map<Path, Clip>, paths: seq<Path>)
    requires forall p | p in paths :: p in files
    ensures IsClipOf(JoinOf(files, paths), files, paths)
  {
  }

  /** The decodable part is what it is called, in order. */
  lemma GoodIs(lib: Library, ep: Episode, luck: Luck)
    ensures forall p :: p in Good(lib, ep, luck) <==> p in Majority(lib, ep, luck) && p !in luck.undecodable
  {
    hide Filter;
    FilterMember(Majority(lib, ep, luck), Sound(luck));
  }

  /** A verified join that cannot be moved into place leaves the mark for that on the chunks joined. */
  lemma MoveFailedMarks(lib: Library, ep: Episode, luck: Luck)
    requires Verified(lib, ep, luck) && !luck.move.Moved? && luck.markOk
    ensures var (after, outcome) := StitchOne(lib, ep, luck);
            && outcome == Nothing
            && exists ids :: IdsAt(ep.chunks, Tried(lib, ep, luck), ids)
                             && MarkedAs(lib.rows, after.rows, ids, "move-failed")
  {
    PlanIs(lib, ep, luck);
    hide PlanOf, Filter, Ids, Mark, MarkedAs, IdsAt, Verified, Tried, AfterRemove, JoinOf;
    var ids := Ids(Filter(ep.chunks, WithPathIn(Tried(lib, ep, luck))));
    IdsAtPaths(ep.chunks, Tried(lib, ep, luck));
    MarkIs(lib.rows, ids, "move-failed");
  }

  // --- the merged row --------------------------------------------------------

  /** The one row that stands for a successful stitch: a new id, the episode's own columns, ready, at
      the clip's path, from the first joined chunk's start to the last one's end. */
  lemma MergedRowIs(lib: Library, ep: Episode, luck: Luck)
    requires StitchLaws.Sound(lib) && Offered(lib.rows, ep) && StitchOne(lib, ep, luck).1.Stitched?
    ensures var rows := StitchOne(lib, ep, luck).0.rows;
            var chunks := Filter(ep.chunks, WithPathIn(Tried(lib, ep, luck)));
            && rows != [] && chunks != []
            && var r := rows[|rows| - 1];
               && r.id == lib.nextId && (forall q | q in lib.rows :: q.id != r.id)
               && r.device == ep.key.device && r.related == Some(ep.key.related) && r.category == ep.key.category
               && r.ready && r.stitchState == Some("stitched") && r.path == Some(luck.finalPath)
               && r.startTs == chunks[0].startTs && r.endTs == chunks[|chunks| - 1].endTs
               && r.durationMs == Durations(chunks) && r.createdAt == luck.now
  {
    ClipRow(lib, ep, luck);
    hide Filter, Durations, StitchOne, Tried, Offered;
  }

  lemma ClipRow(lib: Library, ep: Episode, luck: Luck)
    requires StitchLaws.Sound(lib) && Offered(lib.rows, ep) && StitchOne(lib, ep, luck).1.Stitched?
    ensures var rows := StitchOne(lib, ep, luck).0.rows;
            var chunks := Filter(ep.chunks, WithPathIn(Tried(lib, ep, luck)));
            rows != [] && chunks != [] && rows[|rows| - 1] == MergedRow(ep, chunks, lib.nextId, luck)
  {
    hide *;
    PlanIs(lib, ep, luck);
    StitchedIff(lib, ep, luck);
    StitchedClip(lib, ep, luck);
  }

  /** Durations add up. */
  lemma {:induction false} DurationsAdd(a: seq<Media>, b: seq<Media>)
    ensures Durations(a + b) == Durations(a) + Durations(b)
    ensures forall c: Media :: Durations([c]) == c.durationMs
  {
    if b == [] {
      assert a + b == a;
    } else {
      var n := |b| - 1;
      assert (a + b)[..|a| + n] == a + b[..n];
      DurationsAdd(a, b[..n]);
    }
    forall c: Media ensures Durations([c]) == c.durationMs {
      assert [c][..0] == [];
    }
  }

  /** An attempt makes a row when it ends with a clip, and otherwise only if it raises on the mark
      after the swap has committed. */
  lemma NewRowIff(lib: Library, ep: Episode, luck: Luck)
    ensures var (after, outcome) := StitchOne(lib, ep, luck);
            && lib.nextId <= after.nextId <= lib.nextId + 1
            && (outcome.Stitched? ==> after.nextId == lib.nextId + 1)
            && (!outcome.Stitched? && luck.markOk ==> after.nextId == lib.nextId)
  {
    hide PlanOf, Filter, Ids, Mark, Swap, MergedRow, AfterRemove, JoinOf;
  }

  /** What a pass counts is the rows it made, as long as its marks commit. */
  lemma {:induction false} CountIsNewRows(lib: Library, eps: seq<Episode>, lucks: seq<Luck>)
    requires |lucks| >= |eps|
    ensures RunOver(lib, eps, lucks).nextId >= lib.nextId + StitchedIn(lib, eps, lucks)
    ensures (forall l | l in lucks :: l.markOk)
      ==> RunOver(lib, eps, lucks).nextId == lib.nextId + StitchedIn(lib, eps, lucks)
    decreases eps
  {
    hide StitchOne;
    if eps != [] {
      NewRowIff(lib, eps[0], lucks[0]);
      assert lucks[0] in lucks && forall l | l in lucks[1..] :: l in lucks;
      CountIsNewRows(StitchOne(lib, eps[0], lucks[0]).0, eps[1..], lucks[1..]);
    }
  }

  // --- who is offered --------------------------------------------------------

  /** A chunk the grouping query counts: ready, unmarked, of an episode and a category worth joining,
      with a path. */
  predicate Counts(r: Media, key: Key, categories: set<string>) {
    && r.ready && r.stitchState == None && r.path != None && r.related == Some(key.related)
    && r.device == key.device && r.category == key.category && r.category in categories
  }

  /** At least two of them, all quiet since before `before`. */
  ghost predicate QuietPair(rows: seq<Media>, key: Key, categories: set<string>, before: real) {
    && (exists i, j | 0 <= i < j < |rows| :: Counts(rows[i], key, categories) && Counts(rows[j], key, categories))
    && forall r | r in rows && Counts(r, key, categories) :: r.createdAt < before
  }

  lemma {:induction false} TwoOf<T>(s: seq<T>, keep: T -> bool)
    ensures |Filter(s, keep)| >= 1 <==> exists i | 0 <= i < |s| :: keep(s[i])
    ensures |Filter(s, keep)| >= 2 <==> exists i, j | 0 <= i < j < |s| :: keep(s[i]) && keep(s[j])
  {
    if s != [] {
      var n := |s| - 1;
      TwoOf(s[..n], keep);
      if i :| 0 <= i < n && keep(s[i]) {
        assert keep(s[..n][i]);
      }
      if i, j :| 0 <= i < j < n && keep(s[i]) && keep(s[j]) {
        assert keep(s[..n][i]) && keep(s[..n][j]);
      }
      if i, j :| 0 <= i < j < |s| && keep(s[i]) && keep(s[j]) {
        assert j == n ==> keep(s[..n][i]);
      }
    }
  }

  lemma QualifiesIff(rows: seq<Media>, key: Key, categories: set<string>, before: real)
    ensures Qualifies(rows, key, categories, before) && key.category in categories
      ==> QuietPair(rows, key, categories, before)
    ensures QuietPair(rows, key, categories, before) ==> Qualifies(rows, key, categories, before)
  {
    hide Filter;
    TwoOf(rows, CountableIn(key, categories));
    FilterMember(rows, CountableIn(key, categories));
    forall r: Media ensures CountableIn(key, categories)(r) ==> key.category in categories {
    }
  }

  lemma {:induction false} CandidatesAre(rows: seq<Media>, keys: seq<Key>, categories: set<string>, before: real)
    ensures forall ep | ep in CandidatesFor(rows, keys, categories, before) ::
      && ep.key in keys && Qualifies(rows, ep.key, categories, before)
      && ep.chunks == PlayOrder(Filter(rows, ChunkOf(ep.key)))
    ensures forall key | key in keys && Qualifies(rows, key, categories, before) ::
      Episode(key, PlayOrder(Filter(rows, ChunkOf(key)))) in CandidatesFor(rows, keys, categories, before)
  {
    hide Qualifies, PlayOrder, Filter;
    if keys != [] {
      CandidatesAre(rows, keys[..|keys| - 1], categories, before);
      assert keys == keys[..|keys| - 1] + [keys[|keys| - 1]];
    }
  }

  /** A query offers an episode exactly when it has two chunks that count and all such are quiet. */
  lemma OfferedIff(rows: seq<Media>, categories: set<string>, before: real, key: Key)
    ensures (exists ep :: ep in Candidates(rows, categories, before) && ep.key == key)
      <==> QuietPair(rows, key, categories, before)
  {
    hide Qualifies, PlayOrder, Filter, GroupKeys, CandidatesFor;
    var keys := GroupKeys(rows, categories);
    GroupKeyMember(rows, categories);
    CandidatesAre(rows, keys, categories, before);
    QualifiesIff(rows, key, categories, before);
    if QuietPair(rows, key, categories, before) {
      var i, j :| 0 <= i < j < |rows| && Counts(rows[i], key, categories) && Counts(rows[j], key, categories);
      assert rows[i] in rows && Countable(rows[i], categories) && KeyOf(rows[i]) == key;
    }
  }

  /** When a chunk plays: at its own start, failing that when its row was made. */
  function Plays(c: Media): real {
    match c.startTs
    case Some(t) => t
    case None => c.createdAt
  }

  /** It offers all ready, unmarked rows of the episode, in the order they play; of those that start
      together, in the order they were made. */
  lemma OfferedInPlayOrder(rows: seq<Media>, categories: set<string>, before: real, ep: Episode)
    requires DistinctKeys(rows, Stitch.IdOf) && ep in Candidates(rows, categories, before)
    ensures forall i, j | 0 <= i < j < |ep.chunks| ::
      var c, d := ep.chunks[i], ep.chunks[j];
      Plays(c) < Plays(d) || (Plays(c) == Plays(d) && c.createdAt <= d.createdAt)
    ensures forall c :: c in ep.chunks <==>
      && c in rows && c.ready && c.stitchState == None && c.related == Some(ep.key.related)
      && c.device == ep.key.device && c.category == ep.key.category
  {
    hide Qualifies, PlayOrder, Filter, GroupKeys, CandidatesFor;
    CandidatesAre(rows, GroupKeys(rows, categories), categories, before);
    ChunksOfKey(rows, ep.key, categories, before);
  }
}
