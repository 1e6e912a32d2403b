/** The episode stitcher (media/stitch.py) on the media rows and files it works on, with the
    stitch queries of events/store.py.

    ffmpeg, ffprobe, the file system and the database commit answer as they like: every
    answer of one attempt is a field of `Luck`. */
module Stitch {
  import opened Common

  type Path = string

  /** What a media file holds. */
  datatype Clip = Recorded(frames: seq<int>) | Joined(parts: seq<Clip>)

  datatype Media = Media(
    id: nat, device: int, related: Option<string>, category: string, ready: bool, stitchState: Option<string>,
    path: Option<Path>, startTs: Option<real>, endTs: Option<real>, createdAt: real, durationMs: int)

  datatype Library = Library(rows: seq<Media>, files: map<Path, Clip>, nextId: nat)

  datatype Key = Key(device: int, related: string, category: string)

  /** One row of `stitch_candidates`. */
  datatype Episode = Episode(key: Key, chunks: seq<Media>)

  datatype Move = Moved | Unsized | NotMoved

  /** The world's answers during one attempt. `streams` has a path's stream key unless it is
      unreadable; `prepared` is the final path looked up and the work directory made; `stuck` paths
      cannot be unlinked; `Unsized` is a rename whose `getsize` fails; `swapOk` and `markOk` are the
      commits of the row swap and of the one marking an attempt makes. */
  datatype Luck = Luck(
    streams: map<Path, string>, prepared: bool, joinOk: bool, undecodable: set<Path>, retryOk: bool,
    finalPath: Path, stuck: set<Path>, move: Move, swapOk: bool, markOk: bool, now: real)

  /** The joined file's path, None, or an exception that `run_once` logs. */
  datatype Outcome = Stitched(path: Path) | Nothing | Raised

  // --- the rows --------------------------------------------------------------

  /** Ready and not yet marked by any attempt. */
  predicate Unmarked(r: Media) {
    r.ready && r.stitchState.None?
  }

  function IdOf(r: Media): nat {
    r.id
  }

  function Ids(chunks: seq<Media>): set<nat> {
    set c | c in chunks :: c.id
  }

  /** `mark_stitch_failed`. */
  function Mark(rows: seq<Media>, ids: set<nat>, reason: string): seq<Media> {
    Map(rows, (r: Media) => if r.id in ids then r.(stitchState := Some(reason)) else r)
  }

  function Outside(ids: set<nat>): Media -> bool {
    (r: Media) => r.id !in ids
  }

  /** The rows of `replace_chunks_with_stitched`: delete the chunks, insert the merged row. */
  function Swap(rows: seq<Media>, ids: set<nat>, merged: Media): seq<Media> {
    Filter(rows, Outside(ids)) + [merged]
  }

  function Durations(chunks: seq<Media>): int {
    if chunks == [] then 0 else Durations(chunks[..|chunks| - 1]) + chunks[|chunks| - 1].durationMs
  }

  function MergedRow(ep: Episode, chunks: seq<Media>, id: nat, luck: Luck): Media
    requires chunks != []
  {
    Media(id, ep.key.device, Some(ep.key.related), ep.key.category, true, Some("stitched"), Some(luck.finalPath),
          chunks[0].startTs, chunks[|chunks| - 1].endTs, luck.now, Durations(chunks))
  }

  // --- choosing the chunks ---------------------------------------------------

  function OnDisk(files: map<Path, Clip>): Media -> bool {
    (c: Media) => c.path.Some? && c.path.value in files
  }

  function PathOf(c: Media): Path {
    c.path.GetOr("")
  }

  /** `_existing_chunk_paths`. */
  function ExistingPaths(chunks: seq<Media>, files: map<Path, Clip>): seq<Path> {
    Map(Filter(chunks, OnDisk(files)), PathOf)
  }

  function HasStream(streams: map<Path, string>, key: string): Path -> bool {
    (p: Path) => p in streams && streams[p] == key
  }

  /** Stream keys in order of first appearance. */
  function StreamKeys(paths: seq<Path>, streams: map<Path, string>): seq<string> {
    if paths == [] then [] else
      var rest := StreamKeys(paths[..|paths| - 1], streams);
      var p := paths[|paths| - 1];
      if p in streams && streams[p] !in rest then rest + [streams[p]] else rest
  }

  function Count(paths: seq<Path>, streams: map<Path, string>): string -> real {
    (key: string) => -(|Filter(paths, HasStream(streams, key))| as real)
  }

  /** The chunks of the majority stream, first come first on a tie. */
  function MajorityPaths(paths: seq<Path>, streams: map<Path, string>): seq<Path> {
    var keys := StreamKeys(paths, streams);
    if keys == [] then [] else Filter(paths, HasStream(streams, MinBy(keys, Count(paths, streams))))
  }

  function Decodes(luck: Luck): Path -> bool {
    (p: Path) => p !in luck.undecodable
  }

  function Breaks(luck: Luck): Path -> bool {
    (p: Path) => p in luck.undecodable
  }

  function WithPathIn(paths: seq<Path>): Media -> bool {
    (c: Media) => c.path.Some? && c.path.value in paths
  }

  function WithPathOutside(paths: seq<Path>): Media -> bool {
    (c: Media) => !(c.path.Some? && c.path.value in paths)
  }

  /** How far an attempt gets before anything is deleted. `Go` is a verified join of `paths`. */
  datatype Plan =
    | Skip(ids: set<nat>, reason: string)
    | Blocked
    | Go(paths: seq<Path>, excluded: set<nat>)

  /** `stitch_episode` up to the first deletion. */
  function PlanOf(lib: Library, ep: Episode, luck: Luck): Plan {
    var existing := ExistingPaths(ep.chunks, lib.files);
    if |existing| < 2 then Skip(Ids(ep.chunks), "missing-files") else
      var paths := MajorityPaths(existing, luck.streams);
      if |paths| < 2 then Skip(Ids(ep.chunks), "inconsistent-streams")
      else if !luck.prepared then Blocked
      else
        var excluded := Ids(Filter(ep.chunks, WithPathOutside(paths)));
        if luck.joinOk then Go(paths, excluded) else
          var good, broken := Filter(paths, Decodes(luck)), Filter(paths, Breaks(luck));
          if |paths| > 2 && broken != [] && |good| >= 2 then
            if luck.retryOk then Go(good, excluded + Ids(Filter(ep.chunks, WithPathIn(broken))))
            else Skip(Ids(Filter(ep.chunks, WithPathIn(good))), "failed")
          else Skip(Ids(Filter(ep.chunks, WithPathIn(paths))), "failed")
  }

  function ContentOf(files: map<Path, Clip>): Path -> Clip {
    (p: Path) => if p in files then files[p] else Recorded([])
  }

  /** The clip ffmpeg's concat makes of `paths`. */
  function JoinOf(files: map<Path, Clip>, paths: seq<Path>): Clip {
    Joined(Map(paths, ContentOf(files)))
  }

  /** The files after `_remove_files`: the joined sources go, except the final path and what will not unlink. */
  function AfterRemove(files: map<Path, Clip>, paths: seq<Path>, luck: Luck): map<Path, Clip> {
    map p | p in files && !(p in paths && p != luck.finalPath && p !in luck.stuck) :: files[p]
  }

  /** `mark_stitch_failed`, which does nothing for no ids, and then `outcome`. */
  function TryMark(lib: Library, ids: set<nat>, reason: string, luck: Luck, outcome: Outcome): (Library, Outcome) {
    if ids != {} && !luck.markOk then (lib, Raised) else (lib.(rows := Mark(lib.rows, ids, reason)), outcome)
  }

  /** `stitch_episode` from the first deletion on. */
  function Finish(lib: Library, ep: Episode, paths: seq<Path>, excluded: set<nat>, luck: Luck): (Library, Outcome) {
    var chunks := Filter(ep.chunks, WithPathIn(paths));
    var left := AfterRemove(lib.files, paths, luck);
    var moved := left[luck.finalPath := JoinOf(lib.files, paths)];
    if luck.move.NotMoved? then TryMark(lib.(files := left), Ids(chunks), "move-failed", luck, Nothing)
    else if luck.move.Unsized? then TryMark(lib.(files := moved), Ids(chunks), "move-failed", luck, Nothing)
    else if !luck.swapOk || chunks == [] then (lib.(files := moved), Raised)
    else
      TryMark(Library(Swap(lib.rows, Ids(chunks), MergedRow(ep, chunks, lib.nextId, luck)), moved, lib.nextId + 1),
              excluded, "excluded-stream-mismatch", luck, Stitched(luck.finalPath))
  }

  /** `stitch_episode`. */
  function StitchOne(lib: Library, ep: Episode, luck: Luck): (Library, Outcome) {
    match PlanOf(lib, ep, luck)
    case Skip(ids, reason) => TryMark(lib, ids, reason, luck, Nothing)
    case Blocked => (lib, Raised)
    case Go(paths, excluded) => Finish(lib, ep, paths, excluded, luck)
  }

  // --- candidates ------------------------------------------------------------

  function KeyOf(r: Media): Key {
    Key(r.device, r.related.GetOr(""), r.category)
  }

  /** Counted by the grouping query: it has a path and an episode and a category worth joining. */
  predicate Countable(r: Media, categories: set<string>) {
    Unmarked(r) && r.related.Some? && r.path.Some? && r.category in categories
  }

  function CountableIn(key: Key, categories: set<string>): Media -> bool {
    (r: Media) => Countable(r, categories) && KeyOf(r) == key
  }

  function ChunkOf(key: Key): Media -> bool {
    (r: Media) => Unmarked(r) && r.related.Some? && KeyOf(r) == key
  }

  function CreatedAt(r: Media): real {
    r.createdAt
  }

  function PlayTime(r: Media): real {
    r.startTs.GetOr(r.createdAt)
  }

  /** `ORDER BY coalesce(start_ts, created_at), created_at`. */
  function PlayOrder(chunks: seq<Media>): seq<Media> {
    StableSort(StableSort(chunks, CreatedAt), PlayTime)
  }

  predicate Quiet(chunks: seq<Media>, before: real) {
    forall c | c in chunks :: c.createdAt < before
  }

  function GroupKeys(rows: seq<Media>, categories: set<string>): seq<Key> {
    if rows == [] then [] else
      var rest := GroupKeys(rows[..|rows| - 1], categories);
      var r := rows[|rows| - 1];
      if Countable(r, categories) && KeyOf(r) !in rest then rest + [KeyOf(r)] else rest
  }

  predicate Qualifies(rows: seq<Media>, key: Key, categories: set<string>, before: real) {
    var counted := Filter(rows, CountableIn(key, categories));
    |counted| >= 2 && Quiet(counted, before)
  }

  function CandidatesFor(rows: seq<Media>, keys: seq<Key>, categories: set<string>, before: real): seq<Episode> {
    if keys == [] then [] else
      var key := keys[|keys| - 1];
      CandidatesFor(rows, keys[..|keys| - 1], categories, before)
      + if Qualifies(rows, key, categories, before) then [Episode(key, PlayOrder(Filter(rows, ChunkOf(key))))] else []
  }

  /** `stitch_candidates`. */
  function Candidates(rows: seq<Media>, categories: set<string>, before: real): seq<Episode> {
    CandidatesFor(rows, GroupKeys(rows, categories), categories, before)
  }

  /** The rest of a pass over `eps`, each attempt with its own luck. */
  function RunOver(lib: Library, eps: seq<Episode>, lucks: seq<Luck>): Library
    requires |lucks| >= |eps|
    decreases eps
  {
    if eps == [] then lib else RunOver(StitchOne(lib, eps[0], lucks[0]).0, eps[1..], lucks[1..])
  }

  /** How many attempts of the pass end with a joined clip. */
  function StitchedIn(lib: Library, eps: seq<Episode>, lucks: seq<Luck>): nat
    requires |lucks| >= |eps|
    decreases eps
  {
    if eps == [] then 0 else
      var (after, outcome) := StitchOne(lib, eps[0], lucks[0]);
      (if outcome.Stitched? then 1 else 0) + StitchedIn(after, eps[1..], lucks[1..])
  }

  // --- the methods -----------------------------------------------------------

  function GroupOf(byKey: map<string, seq<Path>>, key: string): seq<Path> {
    if key in byKey then byKey[key] else []
  }

  /** Chunks by stream key, as a dict with its keys in insertion order. */
  ghost predicate ByStream(paths: seq<Path>, streams: map<Path, string>, keys: seq<string>,
                           byKey: map<string, seq<Path>>)
  {
    && keys == StreamKeys(paths, streams)
    && (forall key :: key in byKey <==> key in keys)
    && (forall key :: GroupOf(byKey, key) == Filter(paths, HasStream(streams, key)))
  }

  function AddTo(byKey: map<string, seq<Path>>, key: string, p: Path): map<string, seq<Path>> {
    byKey[key := GroupOf(byKey, key) + [p]]
  }

  lemma KeysStep(paths: seq<Path>, k: nat, streams: map<Path, string>)
    requires k < |paths|
    ensures StreamKeys(paths[..k + 1], streams)
      == var rest := StreamKeys(paths[..k], streams);
         if paths[k] in streams && streams[paths[k]] !in rest then rest + [streams[paths[k]]] else rest
  {
    assert paths[..k + 1][..k] == paths[..k];
  }

  lemma GroupStep(paths: seq<Path>, k: nat, streams: map<Path, string>, byKey: map<string, seq<Path>>, key: string)
    requires k < |paths|
    requires GroupOf(byKey, key) == Filter(paths[..k], HasStream(streams, key))
    ensures GroupOf(if paths[k] in streams then AddTo(byKey, streams[paths[k]], paths[k]) else byKey, key)
      == Filter(paths[..k + 1], HasStream(streams, key))
  {
    hide Filter;
    FilterStep(paths, k, HasStream(streams, key));
  }

  lemma ByStreamStep(paths: seq<Path>, k: nat, streams: map<Path, string>, keys: seq<string>,
                     byKey: map<string, seq<Path>>)
    requires k < |paths| && ByStream(paths[..k], streams, keys, byKey)
    ensures paths[k] !in streams ==> ByStream(paths[..k + 1], streams, keys, byKey)
    ensures paths[k] in streams ==>
      ByStream(paths[..k + 1], streams, if streams[paths[k]] in byKey then keys else keys + [streams[paths[k]]],
               AddTo(byKey, streams[paths[k]], paths[k]))
  {
    hide Filter, StreamKeys, HasStream, GroupOf;
    KeysStep(paths, k, streams);
    forall key {
      GroupStep(paths, k, streams, byKey, key);
    }
  }

  method GroupByStream(paths: seq<Path>, streams: map<Path, string>)
    returns (keys: seq<string>, byKey: map<string, seq<Path>>)
    ensures ByStream(paths, streams, keys, byKey)
  {
    keys, byKey := [], map[];
    hide ByStream;
    NothingByStream(paths[..0], streams);
    for k := 0 to |paths|
      invariant ByStream(paths[..k], streams, keys, byKey)
    {
      ByStreamStep(paths, k, streams, keys, byKey);
      if paths[k] in streams {
        var key := streams[paths[k]];
        if key !in byKey {
          keys := keys + [key];
        }
        byKey := AddTo(byKey, key, paths[k]);
      }
    }
    assert paths[..|paths|] == paths;
  }

  lemma NothingByStream(paths: seq<Path>, streams: map<Path, string>)
    requires paths == []
    ensures ByStream(paths, streams, [], map[])
  {
  }

  /** The first `k` paths dealt out to the majority and the rest. */
  ghost predicate Parted(best: seq<Path>, outliers: seq<Path>, paths: seq<Path>, k: nat, majority: Path -> bool)
    requires k <= |paths|
  {
    && best == Filter(paths[..k], majority)
    && multiset(best) + multiset(outliers) == multiset(paths[..k])
    && forall p | p in outliers :: !majority(p)
  }

  lemma PartedStep(best: seq<Path>, outliers: seq<Path>, paths: seq<Path>, k: nat, majority: Path -> bool)
    requires k < |paths| && Parted(best, outliers, paths, k, majority)
    ensures majority(paths[k]) ==> Parted(best + [paths[k]], outliers, paths, k + 1, majority)
    ensures !majority(paths[k]) ==> Parted(best, outliers + [paths[k]], paths, k + 1, majority)
  {
    hide Filter;
    FilterStep(paths, k, majority);
    assert paths[..k + 1] == paths[..k] + [paths[k]];
  }

  lemma PartedAll(best: seq<Path>, outliers: seq<Path>, paths: seq<Path>, majority: Path -> bool)
    requires Parted(best, outliers, paths, |paths|, majority)
    ensures best == Filter(paths, majority) && multiset(best) + multiset(outliers) == multiset(paths)
    ensures forall p | p in outliers :: p !in best
  {
    hide Filter;
    assert paths[..|paths|] == paths;
    FilterMember(paths, majority);
  }

  /** `split_by_stream`: the majority chunks and the rest, both in the given order. */
  method SplitByStream(paths: seq<Path>, streams: map<Path, string>) returns (best: seq<Path>, outliers: seq<Path>)
    ensures best == MajorityPaths(paths, streams)
    ensures multiset(best) + multiset(outliers) == multiset(paths)
    ensures forall p | p in outliers :: p !in best
  {
    hide Filter, StreamKeys, Parted;
    var keys, byKey := GroupByStream(paths, streams);
    if keys == [] {
      return [], paths;
    }
    var key := MinBy(keys, Count(paths, streams));
    var bestSet := GroupOf(byKey, key);
    FilterMember(paths, HasStream(streams, key));
    best, outliers := [], [];
    NonePartedYet(paths, HasStream(streams, key));
    for k := 0 to |paths|
      invariant Parted(best, outliers, paths, k, HasStream(streams, key))
    {
      PartedStep(best, outliers, paths, k, HasStream(streams, key));
      assert paths[k] in paths;
      if paths[k] in bestSet {
        best := best + [paths[k]];
      } else {
        outliers := outliers + [paths[k]];
      }
    }
    PartedAll(best, outliers, paths, HasStream(streams, key));
  }

  lemma NonePartedYet(paths: seq<Path>, majority: Path -> bool)
    ensures Parted([], [], paths, 0, majority)
  {
  }

  /** `stitch_episode` up to the first deletion: nothing is touched here. */
  method PlanAttempt(lib: Library, ep: Episode, luck: Luck) returns (plan: Plan)
    ensures plan == PlanOf(lib, ep, luck)
  {
    hide Filter, MajorityPaths, ExistingPaths, Ids;
    var paths := ExistingPaths(ep.chunks, lib.files);
    if |paths| < 2 {
      return Skip(Ids(ep.chunks), "missing-files");
    }
    var outliers;
    paths, outliers := SplitByStream(paths, luck.streams);
    if |paths| < 2 {
      return Skip(Ids(ep.chunks), "inconsistent-streams");
    }
    var chunks := Filter(ep.chunks, WithPathIn(paths));
    var excluded := Ids(Filter(ep.chunks, WithPathOutside(paths)));
    if !luck.prepared {
      return Blocked;
    }
    var ok := luck.joinOk;
    if !ok && |paths| > 2 {
      var good := Filter(paths, Decodes(luck));
      var broken := Filter(paths, Breaks(luck));
      if broken != [] && |good| >= 2 {
        FilterMember(paths, Decodes(luck));
        FilterTwice(ep.chunks, WithPathIn(paths), WithPathIn(good), WithPathIn(good));
        chunks := Filter(chunks, WithPathIn(good));
        excluded := excluded + Ids(Filter(ep.chunks, WithPathIn(broken)));
        paths := good;
        ok := luck.retryOk;
      }
    }
    return if ok then Go(paths, excluded) else Skip(Ids(chunks), "failed");
  }

  class MediaLibrary {
    var rows: seq<Media>
    var files: map<Path, Clip>
    var nextId: nat

    function Now(): Library
      reads this
    {
      Library(rows, files, nextId)
    }

    /** `mark_stitch_failed`; `ok` is false when the commit raises. */
    method MarkStitchFailed(ids: set<nat>, reason: string, luck: Luck) returns (ok: bool)
      modifies this
      ensures ok <==> ids == {} || luck.markOk
      ensures Now() == if ok then old(Now()).(rows := Mark(old(rows), ids, reason)) else old(Now())
    {
      if ids == {} {
        MarkNobody(rows, reason);
        return true;
      }
      if luck.markOk {
        rows := Mark(rows, ids, reason);
      }
      return luck.markOk;
    }

    /** `_remove_files`, on every source but the final path. */
    method RemoveFiles(paths: seq<Path>, luck: Luck)
      modifies this
      ensures Now() == old(Now()).(files := AfterRemove(old(files), paths, luck))
    {
      for k := 0 to |paths|
        invariant Now() == old(Now()).(files := AfterRemove(old(files), paths[..k], luck))
      {
        assert paths[..k + 1] == paths[..k] + [paths[k]];
        if paths[k] != luck.finalPath && paths[k] !in luck.stuck {
          files := files - {paths[k]};
        }
      }
      assert paths[..|paths|] == paths;
    }

    /** `stitch_episode` from the first deletion on. */
    method FinishStitch(ep: Episode, paths: seq<Path>, excluded: set<nat>, luck: Luck) returns (outcome: Outcome)
      modifies this
      ensures (Now(), outcome) == Finish(old(Now()), ep, paths, excluded, luck)
    {
      hide Filter, Ids, AfterRemove, JoinOf, Mark, Swap, MergedRow;
      var chunks := Filter(ep.chunks, WithPathIn(paths));
      var clip := JoinOf(files, paths);
      RemoveFiles(paths, luck);
      if luck.move.NotMoved? {
        var marked := MarkStitchFailed(Ids(chunks), "move-failed", luck);
        return if marked then Nothing else Raised;
      }
      files := files[luck.finalPath := clip];
      if luck.move.Unsized? {
        var marked := MarkStitchFailed(Ids(chunks), "move-failed", luck);
        return if marked then Nothing else Raised;
      }
      if !luck.swapOk || chunks == [] {
        return Raised;
      }
      rows := Swap(rows, Ids(chunks), MergedRow(ep, chunks, nextId, luck));
      nextId := nextId + 1;
      var marked := MarkStitchFailed(excluded, "excluded-stream-mismatch", luck);
      return if marked then Stitched(luck.finalPath) else Raised;
    }

    /** `stitch_episode`. */
    method StitchEpisode(ep: Episode, luck: Luck) returns (outcome: Outcome)
      modifies this
      ensures (Now(), outcome) == StitchOne(old(Now()), ep, luck)
    {
      hide PlanOf, Finish, Mark;
      var plan := PlanAttempt(Now(), ep, luck);
      match plan
      case Skip(ids, reason) =>
        var marked := MarkStitchFailed(ids, reason, luck);
        outcome := if marked then Nothing else Raised;
      case Blocked =>
        outcome := Raised;
      case Go(paths, excluded) =>
        outcome := FinishStitch(ep, paths, excluded, luck);
    }

    /** `run_once`: an attempt that raises never stops the pass. */
    method RunOnce(categories: set<string>, before: real, lucks: seq<Luck>) returns (done: nat)
      requires |lucks| >= |Candidates(rows, categories, before)|
      modifies this
      ensures Now() == RunOver(old(Now()), Candidates(old(rows), categories, before), lucks)
      ensures done == StitchedIn(old(Now()), Candidates(old(rows), categories, before), lucks)
    {
      hide StitchOne, Candidates;
      var episodes := Candidates(rows, categories, before);
      done := 0;
      for k := 0 to |episodes|
        invariant RunOver(Now(), episodes[k..], lucks[k..]) == RunOver(old(Now()), episodes, lucks)
        invariant done + StitchedIn(Now(), episodes[k..], lucks[k..]) == StitchedIn(old(Now()), episodes, lucks)
      {
        assert episodes[k..][1..] == episodes[k + 1..] && lucks[k..][1..] == lucks[k + 1..];
        var outcome := StitchEpisode(episodes[k], lucks[k]);
        if outcome.Stitched? {
          done := done + 1;
        }
      }
    }
  }

  lemma MarkNobody(rows: seq<Media>, reason: string)
    ensures Mark(rows, {}, reason) == rows
  {
  }
}
