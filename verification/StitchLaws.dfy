/** What a stitch attempt keeps, when it loses footage, and why the passes come to an end. */
module StitchLaws {
  import opened Common
  import opened Stitch

  // --- which chunks are joined -----------------------------------------------

  function KeptBy(files: map<Path, Clip>, keep: Path -> bool): Media -> bool {
    (c: Media) => c.path.Some? && c.path.value in files && keep(c.path.value)
  }

  function OnPath(keep: Path -> bool): Media -> bool {
    (c: Media) => keep(PathOf(c))
  }

  /** Any sub-list of the existing paths picked by path is the list of the chunks having those paths. */
  lemma PickedChunks(chunks: seq<Media>, files: map<Path, Clip>, keep: Path -> bool)
    ensures var paths := Filter(ExistingPaths(chunks, files), keep);
            paths == Map(Filter(chunks, WithPathIn(paths)), PathOf)
  {
    hide Filter, Map;
    var existing := ExistingPaths(chunks, files);
    var paths := Filter(existing, keep);
    FilterMap(Filter(chunks, OnDisk(files)), PathOf, OnPath(keep), keep);
    FilterTwice(chunks, OnDisk(files), OnPath(keep), KeptBy(files, keep));
    FilterMember(existing, keep);
    ExistingMember(chunks, files);
    FilterAgree(chunks, KeptBy(files, keep), WithPathIn(paths));
  }

  lemma ExistingMember(chunks: seq<Media>, files: map<Path, Clip>)
    ensures forall p | p in ExistingPaths(chunks, files) :: p in files
    ensures forall c | c in chunks && OnDisk(files)(c) :: c.path.value in ExistingPaths(chunks, files)
  {
    hide Filter;
    FilterMember(chunks, OnDisk(files));
    var there := Filter(chunks, OnDisk(files));
    var paths := Map(there, PathOf);
    forall p | p in paths ensures p in files {
      var i :| 0 <= i < |paths| && paths[i] == p;
      assert there[i] in there;
    }
    forall c | c in chunks && OnDisk(files)(c) ensures c.path.value in paths {
      var i :| 0 <= i < |there| && there[i] == c;
      assert paths[i] == c.path.value;
    }
  }

  function HasStreamAnd(luck: Luck, key: string): Path -> bool {
    (p: Path) => HasStream(luck.streams, key)(p) && Decodes(luck)(p)
  }

  /** What a verified join consists of: the chunks it names, in candidate order, all of one stream
      and on disk; the excluded ids are exactly the other chunks. */
  lemma JoinedChunks(lib: Library, ep: Episode, luck: Luck)
    requires PlanOf(lib, ep, luck).Go?
    ensures var plan := PlanOf(lib, ep, luck);
            var chunks := Filter(ep.chunks, WithPathIn(plan.paths));
            && |plan.paths| >= 2
            && plan.paths == Map(chunks, PathOf)
            && (forall p | p in plan.paths :: p in lib.files && p in luck.streams)
            && (forall p, q | p in plan.paths && q in plan.paths :: luck.streams[p] == luck.streams[q])
            && plan.excluded == Ids(Filter(ep.chunks, WithPathOutside(plan.paths)))
  {
    hide Filter, Map, Ids, ExistingPaths;
    var existing := ExistingPaths(ep.chunks, lib.files);
    var keys := StreamKeys(existing, luck.streams);
    var key := MinBy(keys, Stitch.Count(existing, luck.streams));
    var paths := Filter(existing, HasStream(luck.streams, key));
    var plan := PlanOf(lib, ep, luck);
    FilterMember(existing, HasStream(luck.streams, key));
    ExistingMember(ep.chunks, lib.files);
    if luck.joinOk {
      PickedChunks(ep.chunks, lib.files, HasStream(luck.streams, key));
    } else {
      FilterTwice(existing, HasStream(luck.streams, key), Decodes(luck), HasStreamAnd(luck, key));
      PickedChunks(ep.chunks, lib.files, HasStreamAnd(luck, key));
      FilterMember(existing, HasStreamAnd(luck, key));
      ExcludedTwice(ep.chunks, paths, luck);
    }
  }

  /** Left out at first or dropped on the retry: together the chunks not joined. */
  lemma ExcludedTwice(chunks: seq<Media>, paths: seq<Path>, luck: Luck)
    ensures Ids(Filter(chunks, WithPathOutside(paths))) + Ids(Filter(chunks, WithPathIn(Filter(paths, Breaks(luck)))))
      == Ids(Filter(chunks, WithPathOutside(Filter(paths, Decodes(luck)))))
  {
    hide Filter;
    var good, broken := Filter(paths, Decodes(luck)), Filter(paths, Breaks(luck));
    FilterMember(paths, Decodes(luck));
    FilterMember(paths, Breaks(luck));
    FilterMember(chunks, WithPathOutside(paths));
    FilterMember(chunks, WithPathIn(broken));
    FilterMember(chunks, WithPathOutside(good));
  }

  /** No stream shape has more chunks than the one joined. */
  lemma MajorityWins(paths: seq<Path>, streams: map<Path, string>, key: string)
    ensures |Filter(paths, HasStream(streams, key))| <= |MajorityPaths(paths, streams)|
  {
    hide Filter;
    StreamKeyMember(paths, streams);
    if key !in StreamKeys(paths, streams) {
      FilterNone(paths, HasStream(streams, key));
    } else {
      assert Stitch.Count(paths, streams)(MinBy(StreamKeys(paths, streams), Stitch.Count(paths, streams)))
          <= Stitch.Count(paths, streams)(key);
    }
  }

  /** Of equally common shapes the one seen first is joined. */
  lemma FirstMajorityWins(paths: seq<Path>, streams: map<Path, string>) returns (i: nat)
    requires StreamKeys(paths, streams) != []
    ensures i < |StreamKeys(paths, streams)|
    ensures MajorityPaths(paths, streams) == Filter(paths, HasStream(streams, StreamKeys(paths, streams)[i]))
    ensures forall j | 0 <= j < i ::
      |Filter(paths, HasStream(streams, StreamKeys(paths, streams)[j]))| < |MajorityPaths(paths, streams)|
  {
    hide Filter, StreamKeys;
    var keys := StreamKeys(paths, streams);
    i := MinByFirst(keys, Stitch.Count(paths, streams));
    forall j | 0 <= j < i ensures |Filter(paths, HasStream(streams, keys[j]))| < |MajorityPaths(paths, streams)| {
      assert Stitch.Count(paths, streams)(keys[j]) > Stitch.Count(paths, streams)(keys[i]);
    }
  }

  lemma {:induction false} StreamKeyMember(paths: seq<Path>, streams: map<Path, string>)
    ensures forall p | p in paths && p in streams :: streams[p] in StreamKeys(paths, streams)
  {
    if paths != [] {
      StreamKeyMember(paths[..|paths| - 1], streams);
    }
  }

  // --- what failure leaves ---------------------------------------------------

  function Unlabelled(r: Media): Media {
    r.(stitchState := None)
  }

  /** Nothing but `stitch_state` differs, and that only on `ids`. */
  ghost predicate OnlyMarked(before: seq<Media>, after: seq<Media>, ids: set<nat>) {
    && |after| == |before|
    && forall i | 0 <= i < |before| ::
         Unlabelled(after[i]) == Unlabelled(before[i]) && (before[i].id !in ids ==> after[i] == before[i])
  }

  /** Every chunk that was on disk is still there, unchanged. */
  ghost predicate ChunksKept(chunks: seq<Media>, before: map<Path, Clip>, after: map<Path, Clip>) {
    forall c | c in chunks && OnDisk(before)(c) ::
      c.path.value in after && after[c.path.value] == before[c.path.value]
  }

  /** The chunk at `p` survives once a join of `paths` is verified, whatever comes of the attempt. */
  predicate Spared(files: map<Path, Clip>, paths: seq<Path>, luck: Luck, p: Path)
    requires p in files
  {
    if p == luck.finalPath then luck.move.NotMoved? || files[p] == JoinOf(files, paths)
    else p !in paths || p in luck.stuck
  }

  lemma MarkedOnly(rows: seq<Media>, ids: set<nat>, all: set<nat>, reason: string)
    requires ids <= all
    ensures OnlyMarked(rows, Mark(rows, ids, reason), all)
  {
  }

  lemma FilterIds(chunks: seq<Media>, keep: Media -> bool)
    ensures Ids(Filter(chunks, keep)) <= Ids(chunks)
  {
    FilterMember(chunks, keep);
  }

  /** Every chunk on disk that a verified join would cost its file is spared. */
  ghost predicate AllSpared(lib: Library, ep: Episode, luck: Luck) {
    PlanOf(lib, ep, luck).Go? ==>
      forall c | c in ep.chunks && OnDisk(lib.files)(c) ::
        Spared(lib.files, PlanOf(lib, ep, luck).paths, luck, c.path.value)
  }

  lemma FinishFiles(lib: Library, ep: Episode, paths: seq<Path>, excluded: set<nat>, luck: Luck)
    ensures var left := AfterRemove(lib.files, paths, luck);
            Finish(lib, ep, paths, excluded, luck).0.files
            == if luck.move.NotMoved? then left else left[luck.finalPath := JoinOf(lib.files, paths)]
  {
    hide Filter, Ids, Mark, Swap, MergedRow, AfterRemove, JoinOf, WithPathIn;
  }

  lemma SparedIff(lib: Library, ep: Episode, paths: seq<Path>, excluded: set<nat>, luck: Luck, c: Media)
    requires OnDisk(lib.files)(c)
    ensures var after := Finish(lib, ep, paths, excluded, luck).0.files;
            Spared(lib.files, paths, luck, c.path.value) <==>
            c.path.value in after && after[c.path.value] == lib.files[c.path.value]
  {
    FinishFiles(lib, ep, paths, excluded, luck);
    hide Finish, JoinOf;
  }

  /** After any attempt the chunks' files are all there and unchanged exactly when no join was
      verified, or each of them was spared by the deletion and the move. */
  lemma FilesKeptIff(lib: Library, ep: Episode, luck: Luck)
    ensures ChunksKept(ep.chunks, lib.files, StitchOne(lib, ep, luck).0.files) <==> AllSpared(lib, ep, luck)
  {
    hide PlanOf, Finish, JoinOf, Spared;
    match PlanOf(lib, ep, luck)
    case Skip(_, _) =>
    case Blocked =>
    case Go(paths, excluded) =>
      forall c | c in ep.chunks && OnDisk(lib.files)(c) {
        SparedIff(lib, ep, paths, excluded, luck, c);
      }
  }

  /** "None means the chunks are still there": as far as rows go always, as far as files go
      exactly when no join was verified or every joined source resisted deletion. */
  lemma WhatNoneMeans(lib: Library, ep: Episode, luck: Luck)
    requires StitchOne(lib, ep, luck).1 == Nothing
    ensures var after := StitchOne(lib, ep, luck).0;
            && OnlyMarked(lib.rows, after.rows, Ids(ep.chunks))
            && after.nextId == lib.nextId
            && (ChunksKept(ep.chunks, lib.files, after.files) <==> AllSpared(lib, ep, luck))
            && (PlanOf(lib, ep, luck).Skip? ==> after.files == lib.files)
  {
    hide Filter, Ids, Mark, JoinOf, Map, AfterRemove, ChunksKept, AllSpared, PlanOf, OnlyMarked, Swap, MergedRow;
    FilesKeptIff(lib, ep, luck);
    match PlanOf(lib, ep, luck)
    case Skip(ids, reason) =>
      SkippedIds(lib, ep, luck);
      MarkedOnly(lib.rows, ids, Ids(ep.chunks), reason);
    case Blocked =>
    case Go(paths, excluded) =>
      FilterIds(ep.chunks, WithPathIn(paths));
      MarkedOnly(lib.rows, Ids(Filter(ep.chunks, WithPathIn(paths))), Ids(ep.chunks), "move-failed");
  }

  /** What an exception leaves: the rows as they were, unless the swap had committed and only the
      excluded marks failed; the chunks' files under the same condition as ever. */
  lemma WhatRaisedMeans(lib: Library, ep: Episode, luck: Luck)
    requires StitchOne(lib, ep, luck).1 == Raised
    ensures var after := StitchOne(lib, ep, luck).0;
            var plan := PlanOf(lib, ep, luck);
            && (if plan.Go? && luck.move.Moved? && luck.swapOk then
                  var chunks := Filter(ep.chunks, WithPathIn(plan.paths));
                  chunks != [] && after.rows == Swap(lib.rows, Ids(chunks), MergedRow(ep, chunks, lib.nextId, luck))
                else after.rows == lib.rows && after.nextId == lib.nextId)
            && (ChunksKept(ep.chunks, lib.files, after.files) <==> AllSpared(lib, ep, luck))
  {
    hide Filter, Ids, Mark, JoinOf, Map, AfterRemove, ChunksKept, AllSpared, PlanOf, Swap, MergedRow;
    FilesKeptIff(lib, ep, luck);
    if PlanOf(lib, ep, luck).Go? {
      JoinedChunks(lib, ep, luck);
    }
  }

  lemma SkippedIds(lib: Library, ep: Episode, luck: Luck)
    requires PlanOf(lib, ep, luck).Skip?
    ensures PlanOf(lib, ep, luck).ids <= Ids(ep.chunks)
  {
    hide Filter, Ids;
    var paths := MajorityPaths(ExistingPaths(ep.chunks, lib.files), luck.streams);
    FilterIds(ep.chunks, WithPathIn(paths));
    FilterIds(ep.chunks, WithPathIn(Filter(paths, Decodes(luck))));
  }

  /** A verified join whose rename fails: None comes back (if the marking commits) and a joined
      source is gone all the same. */
  lemma FailedMoveLosesFootage(lib: Library, ep: Episode, luck: Luck, c: Media)
    requires PlanOf(lib, ep, luck).Go? && luck.move.NotMoved?
    requires c in ep.chunks && c.path.Some? && c.path.value in PlanOf(lib, ep, luck).paths
    requires c.path.value != luck.finalPath && c.path.value !in luck.stuck
    ensures StitchOne(lib, ep, luck).1 == if luck.markOk then Nothing else Raised
    ensures c.path.value in lib.files && c.path.value !in StitchOne(lib, ep, luck).0.files
  {
    hide Filter, Map, Mark;
    JoinedChunks(lib, ep, luck);
    var chunks := Filter(ep.chunks, WithPathIn(PlanOf(lib, ep, luck).paths));
    assert chunks[0].id in Ids(chunks);
  }

  /** A swap that does not commit: the rows survive, the files they name do not. */
  lemma FailedSwapStrandsRows(lib: Library, ep: Episode, luck: Luck, c: Media)
    requires PlanOf(lib, ep, luck).Go? && luck.move.Moved? && !luck.swapOk
    requires c in ep.chunks && c.path.Some? && c.path.value in PlanOf(lib, ep, luck).paths
    requires c.path.value != luck.finalPath && c.path.value !in luck.stuck
    ensures StitchOne(lib, ep, luck).1 == Raised
    ensures StitchOne(lib, ep, luck).0.rows == lib.rows
    ensures c.path.value in lib.files && c.path.value !in StitchOne(lib, ep, luck).0.files
  {
    hide Filter, Map, Ids, Mark;
    JoinedChunks(lib, ep, luck);
  }

  // --- what success conserves ------------------------------------------------

  /** What the queries give an attempt: at least two rows of the table, all unmarked, no id twice. */
  ghost predicate Offered(rows: seq<Media>, ep: Episode) {
    && |ep.chunks| >= 2
    && DistinctKeys(ep.chunks, IdOf)
    && forall c | c in ep.chunks :: c in rows && Unmarked(c)
  }

  /** Row ids are unique and handed out in order. */
  ghost predicate Sound(lib: Library) {
    SoundRows(lib.rows, lib.nextId)
  }

  ghost predicate SoundRows(rows: seq<Media>, nextId: nat) {
    DistinctKeys(rows, IdOf) && forall r | r in rows :: r.id < nextId
  }

  lemma JoinedOrExcluded(ep: Episode, paths: seq<Path>, c: Media)
    requires DistinctKeys(ep.chunks, IdOf) && c in ep.chunks
    ensures WithPathIn(paths)(c) <==> c.id in Ids(Filter(ep.chunks, WithPathIn(paths)))
    ensures !WithPathIn(paths)(c) <==> c.id in Ids(Filter(ep.chunks, WithPathOutside(paths)))
  {
    hide Filter;
    FilterMember(ep.chunks, WithPathIn(paths));
    FilterMember(ep.chunks, WithPathOutside(paths));
    forall d | d in ep.chunks && d.id == c.id ensures d == c {
      var i :| 0 <= i < |ep.chunks| && ep.chunks[i] == c;
      var j :| 0 <= j < |ep.chunks| && ep.chunks[j] == d;
      assert IdOf(ep.chunks[i]) == IdOf(ep.chunks[j]);
    }
  }

  /** A stitched chunk: its content is one part of the clip and its row is gone. */
  ghost predicate InTheClip(lib: Library, after: Library, path: Path, c: Media) {
    && c.path.Some? && c.path.value in lib.files
    && path in after.files && after.files[path].Joined? && lib.files[c.path.value] in after.files[path].parts
    && forall r | r in after.rows :: r.id != c.id
  }

  /** An excluded chunk: its row is only marked, and its file is kept. */
  ghost predicate LeftOut(lib: Library, after: Library, c: Media) {
    && c.(stitchState := Some("excluded-stream-mismatch")) in after.rows
    && (OnDisk(lib.files)(c) ==> c.path.value in after.files && after.files[c.path.value] == lib.files[c.path.value])
  }

  /** The clip of a successful stitch is the joined chunks in candidate order, and one new row
      stands for them; every other row and file is as it was, bar the excluded marks. */
  lemma StitchedClip(lib: Library, ep: Episode, luck: Luck)
    requires Sound(lib) && Offered(lib.rows, ep)
    requires StitchOne(lib, ep, luck).1.Stitched?
    ensures var after := StitchOne(lib, ep, luck).0;
            var plan := PlanOf(lib, ep, luck);
            var chunks := Filter(ep.chunks, WithPathIn(plan.paths));
            && plan.Go? && |chunks| >= 2
            && StitchOne(lib, ep, luck).1 == Stitched(luck.finalPath)
            && luck.finalPath in after.files
            && after.files[luck.finalPath] == Joined(Map(chunks, (c: Media) => ContentOf(lib.files)(PathOf(c))))
            && after.rows == Mark(Filter(lib.rows, Outside(Ids(chunks))), plan.excluded, "excluded-stream-mismatch")
                             + [MergedRow(ep, chunks, lib.nextId, luck)]
            && (forall p | p in plan.paths && p != luck.finalPath && p !in luck.stuck :: p !in after.files)
            && (forall p | p != luck.finalPath && p !in plan.paths ::
                  (p in after.files <==> p in lib.files) && (p in lib.files ==> after.files[p] == lib.files[p]))
  {
    hide Filter, Ids, Map, Durations, ExistingPaths, MajorityPaths;
    var plan := PlanOf(lib, ep, luck);
    JoinedChunks(lib, ep, luck);
    var chunks := Filter(ep.chunks, WithPathIn(plan.paths));
    MapTwice(chunks, PathOf, ContentOf(lib.files), (c: Media) => ContentOf(lib.files)(PathOf(c)));
    ExcludedAreOld(lib, ep, plan.paths);
    MarkAppend(Filter(lib.rows, Outside(Ids(chunks))), MergedRow(ep, chunks, lib.nextId, luck),
               plan.excluded, "excluded-stream-mismatch");
  }

  lemma MapTwice<T, U, V>(s: seq<T>, f: T -> U, g: U -> V, h: T -> V)
    requires forall x :: h(x) == g(f(x))
    ensures Map(Map(s, f), g) == Map(s, h)
  {
  }

  lemma MarkAppend(rows: seq<Media>, r: Media, ids: set<nat>, reason: string)
    requires r.id !in ids
    ensures Mark(rows + [r], ids, reason) == Mark(rows, ids, reason) + [r]
  {
  }

  lemma ExcludedAreOld(lib: Library, ep: Episode, paths: seq<Path>)
    requires Sound(lib) && Offered(lib.rows, ep)
    ensures lib.nextId !in Ids(Filter(ep.chunks, WithPathOutside(paths)))
  {
    FilterMember(ep.chunks, WithPathOutside(paths));
  }

  lemma JoinedChunkIsAPart(lib: Library, ep: Episode, luck: Luck, c: Media)
    requires Sound(lib) && Offered(lib.rows, ep)
    requires StitchOne(lib, ep, luck).1.Stitched? && c in ep.chunks
    requires WithPathIn(PlanOf(lib, ep, luck).paths)(c)
    ensures var files := StitchOne(lib, ep, luck).0.files;
            && c.path.value in lib.files && luck.finalPath in files
            && files[luck.finalPath].Joined? && lib.files[c.path.value] in files[luck.finalPath].parts
  {
    hide *;
    StitchedClip(lib, ep, luck);
    JoinedChunks(lib, ep, luck);
    var plan := PlanOf(lib, ep, luck);
    var chunks := Filter(ep.chunks, WithPathIn(plan.paths));
    FilterMember(ep.chunks, WithPathIn(plan.paths));
    MapMember(chunks, (c: Media) => ContentOf(lib.files)(PathOf(c)));
    PathFacts(plan.paths, lib.files, c);
  }

  lemma PathFacts(paths: seq<Path>, files: map<Path, Clip>, c: Media)
    requires WithPathIn(paths)(c)
    ensures c.path.Some? && c.path.value in paths
    ensures c.path.value in files ==> ContentOf(files)(PathOf(c)) == files[c.path.value]
  {
  }

  lemma JoinedRowIsGone(lib: Library, ep: Episode, luck: Luck, c: Media)
    requires Sound(lib) && Offered(lib.rows, ep)
    requires StitchOne(lib, ep, luck).1.Stitched? && c in ep.chunks
    requires WithPathIn(PlanOf(lib, ep, luck).paths)(c)
    ensures forall r | r in StitchOne(lib, ep, luck).0.rows :: r.id != c.id
  {
    StitchedClip(lib, ep, luck);
    var plan := PlanOf(lib, ep, luck);
    JoinedOrExcluded(ep, plan.paths, c);
    hide *;
    var chunks := Filter(ep.chunks, WithPathIn(plan.paths));
    var others := Filter(lib.rows, Outside(Ids(chunks)));
    NewIdIsNew(lib, ep, chunks, luck, c);
    MarkMember(others, plan.excluded, "excluded-stream-mismatch");
    OutsideHasNoId(lib.rows, Ids(chunks), c.id);
  }

  lemma OutsideHasNoId(rows: seq<Media>, ids: set<nat>, id: nat)
    requires id in ids
    ensures forall r | r in Filter(rows, Outside(ids)) :: r.id != id
  {
    FilterMember(rows, Outside(ids));
  }

  lemma JoinedChunkIsInTheClip(lib: Library, ep: Episode, luck: Luck, c: Media)
    requires Sound(lib) && Offered(lib.rows, ep)
    requires StitchOne(lib, ep, luck).1.Stitched? && c in ep.chunks
    requires WithPathIn(PlanOf(lib, ep, luck).paths)(c)
    ensures InTheClip(lib, StitchOne(lib, ep, luck).0, luck.finalPath, c)
  {
    hide Filter, StitchOne, PlanOf;
    JoinedChunkIsAPart(lib, ep, luck, c);
    JoinedRowIsGone(lib, ep, luck, c);
  }

  lemma NewIdIsNew(lib: Library, ep: Episode, chunks: seq<Media>, luck: Luck, c: Media)
    requires Sound(lib) && Offered(lib.rows, ep) && c in ep.chunks && chunks != []
    ensures MergedRow(ep, chunks, lib.nextId, luck).id != c.id
  {
  }

  lemma ExcludedChunkKeepsItsRow(lib: Library, ep: Episode, luck: Luck, c: Media)
    requires Sound(lib) && Offered(lib.rows, ep)
    requires StitchOne(lib, ep, luck).1.Stitched? && c in ep.chunks
    requires !WithPathIn(PlanOf(lib, ep, luck).paths)(c)
    ensures c.(stitchState := Some("excluded-stream-mismatch")) in StitchOne(lib, ep, luck).0.rows
  {
    hide Filter, Ids, Map, Mark, PlanOf, StitchOne, MergedRow;
    StitchedClip(lib, ep, luck);
    JoinedChunks(lib, ep, luck);
    var plan := PlanOf(lib, ep, luck);
    JoinedOrExcluded(ep, plan.paths, c);
    var chunks := Filter(ep.chunks, WithPathIn(plan.paths));
    var others := Filter(lib.rows, Outside(Ids(chunks)));
    FilterMember(lib.rows, Outside(Ids(chunks)));
    MarkMember(others, plan.excluded, "excluded-stream-mismatch");
  }

  lemma ClipIsJoin(lib: Library, ep: Episode, luck: Luck)
    requires StitchOne(lib, ep, luck).1.Stitched?
    ensures PlanOf(lib, ep, luck).Go? && luck.finalPath in StitchOne(lib, ep, luck).0.files
    ensures StitchOne(lib, ep, luck).0.files[luck.finalPath] == JoinOf(lib.files, PlanOf(lib, ep, luck).paths)
  {
    hide PlanOf, JoinOf, Filter, Ids, Mark, Swap, MergedRow, AfterRemove;
  }

  /** An excluded chunk loses its file only to a clip moved onto it. */
  lemma ExcludedChunksFile(lib: Library, ep: Episode, luck: Luck, c: Media)
    requires Sound(lib) && Offered(lib.rows, ep)
    requires StitchOne(lib, ep, luck).1.Stitched? && c in ep.chunks && OnDisk(lib.files)(c)
    requires PlanOf(lib, ep, luck).Go? && !WithPathIn(PlanOf(lib, ep, luck).paths)(c)
    ensures var files := StitchOne(lib, ep, luck).0.files;
            c.path.value in files &&
            (files[c.path.value] == lib.files[c.path.value] <==>
             || c.path.value != luck.finalPath
             || lib.files[luck.finalPath] == JoinOf(lib.files, PlanOf(lib, ep, luck).paths))
  {
    assert c.path.value !in PlanOf(lib, ep, luck).paths;
    assert c.path.value in lib.files;
    hide *;
    StitchedClip(lib, ep, luck);
    ClipIsJoin(lib, ep, luck);
  }

  /** Footage is conserved by a successful stitch, provided the final path is no excluded chunk's:
      every chunk is in the clip, or keeps its file and, marked, its row; never both. */
  lemma FootageIsConserved(lib: Library, ep: Episode, luck: Luck, c: Media)
    requires Sound(lib) && Offered(lib.rows, ep)
    requires StitchOne(lib, ep, luck).1.Stitched? && c in ep.chunks
    ensures PlanOf(lib, ep, luck).Go?
    ensures WithPathIn(PlanOf(lib, ep, luck).paths)(c) ==> InTheClip(lib, StitchOne(lib, ep, luck).0, luck.finalPath, c)
    ensures !WithPathIn(PlanOf(lib, ep, luck).paths)(c) ==>
      (LeftOut(lib, StitchOne(lib, ep, luck).0, c) <==>
       !OnDisk(lib.files)(c) || c.path.value != luck.finalPath
       || lib.files[luck.finalPath] == JoinOf(lib.files, PlanOf(lib, ep, luck).paths))
  {
    hide StitchOne, PlanOf, JoinOf, InTheClip, Sound, Offered;
    ClipIsJoin(lib, ep, luck);
    if WithPathIn(PlanOf(lib, ep, luck).paths)(c) {
      JoinedChunkIsInTheClip(lib, ep, luck, c);
    } else {
      ExcludedChunkKeepsItsRow(lib, ep, luck, c);
      if OnDisk(lib.files)(c) {
        ExcludedChunksFile(lib, ep, luck, c);
      }
    }
  }

  lemma MarkMember(rows: seq<Media>, ids: set<nat>, reason: string)
    ensures forall r | r in rows && r.id in ids :: r.(stitchState := Some(reason)) in Mark(rows, ids, reason)
    ensures forall r | r in rows && r.id !in ids :: r in Mark(rows, ids, reason)
    ensures forall m | m in Mark(rows, ids, reason) :: exists r :: r in rows && r.id == m.id
  {
    forall r | r in rows
      ensures (if r.id in ids then r.(stitchState := Some(reason)) else r) in Mark(rows, ids, reason)
    {
      var i :| 0 <= i < |rows| && rows[i] == r;
      assert Mark(rows, ids, reason)[i] == if r.id in ids then r.(stitchState := Some(reason)) else r;
    }
    forall m | m in Mark(rows, ids, reason) ensures exists r :: r in rows && r.id == m.id {
      var i :| 0 <= i < |rows| && Mark(rows, ids, reason)[i] == m;
      assert rows[i] in rows && rows[i].id == m.id;
    }
  }

  // --- an excluded first chunk -----------------------------------------------

  lemma ThreePaths(chunks: seq<Media>, files: map<Path, Clip>, a: Media, b: Media, c: Media)
    requires chunks == [a, b, c] && OnDisk(files)(a) && OnDisk(files)(b) && OnDisk(files)(c)
    ensures ExistingPaths(chunks, files) == [a.path.value, b.path.value, c.path.value]
  {
    FilterAll(chunks, OnDisk(files));
  }

  lemma CountThree(p: Path, q: Path, r: Path, keep: Path -> bool)
    ensures Filter([p, q, r], keep)
      == (if keep(p) then [p] else []) + (if keep(q) then [q] else []) + (if keep(r) then [r] else [])
  {
    assert [p, q, r] == ([] + [p] + [q]) + [r];
    FilterSnoc([], p, keep);
    FilterSnoc([] + [p], q, keep);
    FilterSnoc([] + [p] + [q], r, keep);
  }

  /** The stream of two chunks wins over that of one. */
  lemma TwoAgainstOne(p: Path, q: Path, r: Path, streams: map<Path, string>)
    requires p in streams && q in streams && r in streams && streams[p] != streams[q] == streams[r]
    ensures MajorityPaths([p, q, r], streams) == [q, r]
  {
    var paths, key := [p, q, r], streams[q];
    CountThree(p, q, r, HasStream(streams, key));
    MajorityWins(paths, streams, key);
    StreamKeyMember(paths, streams);
    var i := FirstMajorityWins(paths, streams);
    CountThree(p, q, r, HasStream(streams, StreamKeys(paths, streams)[i]));
  }

  /** Two chunks of one stream behind a first chunk of another, which gives the clip its name. */
  ghost predicate OutlierFirst(lib: Library, ep: Episode, luck: Luck, a: Media, b: Media, c: Media) {
    && ep.chunks == [a, b, c] && OnDisk(lib.files)(a) && OnDisk(lib.files)(b) && OnDisk(lib.files)(c)
    && a.path != b.path && a.path != c.path && lib.files[a.path.value].Recorded?
    && a.path.value in luck.streams && b.path.value in luck.streams && c.path.value in luck.streams
    && luck.streams[a.path.value] != luck.streams[b.path.value] == luck.streams[c.path.value]
    && luck.finalPath == a.path.value
    && luck.prepared && luck.joinOk && luck.move.Moved? && luck.swapOk && luck.markOk
  }

  lemma OutlierPlan(lib: Library, ep: Episode, luck: Luck, a: Media, b: Media, c: Media)
    requires OutlierFirst(lib, ep, luck, a, b, c)
    ensures PlanOf(lib, ep, luck).Go? && PlanOf(lib, ep, luck).paths == [b.path.value, c.path.value]
  {
    hide Filter, Ids, MajorityPaths, ExistingPaths;
    ThreePaths(ep.chunks, lib.files, a, b, c);
    TwoAgainstOne(a.path.value, b.path.value, c.path.value, luck.streams);
  }

  lemma OutlierStitched(lib: Library, ep: Episode, luck: Luck, a: Media, b: Media, c: Media)
    requires OutlierFirst(lib, ep, luck, a, b, c)
    ensures StitchOne(lib, ep, luck).1 == Stitched(a.path.value)
  {
    hide Filter, Ids, Map, PlanOf, Swap, Mark, MergedRow, JoinOf, AfterRemove;
    OutlierPlan(lib, ep, luck, a, b, c);
    JoinedChunks(lib, ep, luck);
  }

  /** "Excluded ones keep their row and file" is false then: the stitch succeeds, the first chunk is
      excluded and keeps its row, and its file now holds the clip of the others. */
  lemma ExcludedFirstChunkLosesItsFile(lib: Library, ep: Episode, luck: Luck, a: Media, b: Media, c: Media)
    requires Sound(lib) && Offered(lib.rows, ep) && OutlierFirst(lib, ep, luck, a, b, c)
    ensures StitchOne(lib, ep, luck).1 == Stitched(a.path.value)
    ensures var after := StitchOne(lib, ep, luck).0;
            && a.(stitchState := Some("excluded-stream-mismatch")) in after.rows
            && a.path.value in after.files && after.files[a.path.value] != lib.files[a.path.value]
            && !LeftOut(lib, after, a)
  {
    OutlierPlan(lib, ep, luck, a, b, c);
    OutlierStitched(lib, ep, luck, a, b, c);
    assert a in ep.chunks && !WithPathIn([b.path.value, c.path.value])(a);
    hide PlanOf, StitchOne, Offered, Sound;
    ExcludedChunkKeepsItsRow(lib, ep, luck, a);
    ClipIsJoin(lib, ep, luck);
  }
}
