# A verified model of the PetKit local add-on

The add-on under `apps/petkit-local-dev` replaces the PetKit cloud on a local network. This project models its
stateful algorithms in Dafny and proves what they keep over all inputs and all runs. `dafny verify dfyconfig.toml`
checks everything.

| file | what it holds |
|---|---|
| `Common.dfy`, `Bytes.dfy` | options, filtering, stable sorting, decimal numbers; bytes and parts at an offset |
| `Sessions.dfy` | the timeline: where every event row belongs, and the finished cards (`events/sessions.py`) |
| `SessionCards.dfy`, `SessionLaws.dfy`, `SessionPlacement.dfy`, `SessionOrder.dfy`, `SessionTies.dfy`, `SessionView.dfy` | cards and their heads; conservation; placement and media; independence of input order, and what it needs; order and kinds of the cards shown |
| `SessionPasses.dfy`, `SessionFinish.dfy` | the passes themselves, as methods over mutable cards, ending with that timeline |
| `Stitch.dfy`, `StitchLaws.dfy`, `StitchOutcomes.dfy`, `StitchProgress.dfy` | the episode stitcher on rows and files (`media/stitch.py`, `events/store.py`); what an attempt conserves; what it comes to; convergence |
| `Registry.dfy`, `Devices.dfy`, `DeviceFile.dfy`, `DeviceCredentials.dfy` | the write-behind file; signups, identities and restarts; that these are runs of that file; what a crash can cost (`devices/registry.py`, `devices/base.py`) |
| `Store.dfy` | upserts and batches under the write lock (`events/store.py`) |
| `Delivery.dfy`, `DeliveryLaws.dfy` | MQTT sessions, the watchdog, and command delivery over two transports |
| `Retention.dfy`, `RetentionLimits.dfy` | the size and age caps; which settings delete everything (`media/retention.py`) |
| `CaBundle.dfy`, `BareValues.dfy`, `JsonTokens.dfy`, `Dns.dfy`, `Jpeg.dfy` | PEM bundles, malformed JSON and its tokens, DNS messages, JPEG headers |
| `ClaimPath.dfy` | reserving file names (`media/pipeline.py`) |

Code that computes a value is a function; code that changes state step by step is a method or a class, proved against
such a function, and the laws are about the function. A protocol is a state machine whose steps are what the code does
between two `await`s, and its laws hold over every run of steps that could happen.

The world outside is a parameter: ffmpeg and ffprobe, the file system and commit answers of a stitch attempt are the
fields of `Stitch.Luck`; X.509 subjects are a function on texts; event code tables are sets; clocks and generated
secrets are arguments.

## Hypotheses

- Timeline: event ids are distinct (they are primary keys). Order independence also needs present and distinct times,
  one parent per episode and no cycle tail with two nearest cleaning cards; `TiesFollowInputOrder`,
  `TwoParentsFollowInputOrder` and `OrderMattersIff` show all three are needed.
- Stitcher: no uploads between the passes of a run. Row ids are unique. Convergence needs passes made once the episodes
  are quiet, and database writes that commit.
- Write-behind file: no write starts while a worker write is in flight, and a write `stop()` has abandoned does not
  fail. `OverlapLosesData` and `LostFailureIsExact` show both are needed.
- Crashes: first contacts are written successfully and not while a background flush's write is in flight, and no first
  serial number changes an MQTT name. `SignupDuringFlushIsLost` and `FirstSerialIsLost` show the last two are needed.
- Sessions: a device's MQTT name does not change during a session, so a client id stands for its device; each CONNECT
  brings a session object of its own.
- Name claims: a claimed file is not removed while other calls are under way.

## Where the code and its documentation differ

The model follows the code.

- `events/sessions.py:490` says the order of `events` does not matter. It can when times tie (`TiesFollowInputOrder`) or
  an episode names two parents (`TwoParentsFollowInputOrder`); otherwise it does if and only if a cycle tail has two
  nearest cleaning cards (`OrderMattersIff`, and `MidwayFollowsInputOrder` for an instance).
- `media/stitch.py:343-345` says None always means the chunks are still there. Sources are deleted before the move, so
  a failed move returns None with sources gone (`FailedMoveLosesFootage`); `WhatNoneMeans` says exactly when it holds.
- `media/stitch.py:368-369` says excluded chunks keep their row and file. The final path is named after the whole
  episode's first chunk, which may be an excluded one; `FootageIsConserved` says exactly when its file is kept, and
  `ExcludedFirstChunkLosesItsFile` is a run that loses it.
- `events/store.py:632-633` says files must not be deleted if their rows survive. They already are
  (`FailedSwapStrandsRows`); `WhatRaisedMeans` says exactly when.
- `devices/registry.py:292-295` says a signup overwrites nothing the broker issued credentials against. A first serial
  number rewrites the MQTT name (`NameIsKeptIff`).
- `devices/base.py:120-124` and `devices/registry.py:341-342` say a new device is written through so that its MQTT triple
  is never lost. A background flush that encoded before it and lands after it overwrites it (`SignupDuringFlushIsLost`),
  and the name made from a first serial number waits for the next flush (`FirstSerialIsLost`, `FlushRecords`);
  `LandingCostsIff` and `CrashCostsIff` say exactly when something is lost.
- `devices/registry.py:389-390` says one malformed record costs no other device its credentials. One that `from_dict`
  accepts can make the loop raise outside its `try` (`LoadCompletesIff`); one that it refuses does cost nothing
  (`UnreadableCostsNothing`).
- `media/retention.py:98-99` says a cap is never negative. `update` sees to that (`PanelNeverNegative`), `load` does
  not. Lines 145-147 say that no value set in the panel prunes everything. A positive one of less than one byte or one
  second becomes a cap of zero, which does (`PanelDeletesNonEmptyIff`, `PanelDeletesThePastIff`).
  `StoredSettingsDeleteThePastIff` says exactly which stored values delete everything.

## Model

| member | source | states |
|---|---|---|
| SessionLaws.Conservation | apps/petkit-local-dev/addon/petkit_local/events/sessions.py:477-510 | For rows with distinct ids, the finished timeline shows every row exactly once, as the head of one card or as one line, and nothing else (equality of multisets). |
| SessionLaws.CardContents | apps/petkit-local-dev/addon/petkit_local/events/sessions.py:254-320 | The head and lines of a card are exactly the rows whose placement rule names that head. |
| SessionLaws.LineOnOwner | apps/petkit-local-dev/addon/petkit_local/events/sessions.py:254-320 | A row that heads no card is a line of the card its placement names and of no other. |
| SessionLaws.TimelineCards | apps/petkit-local-dev/addon/petkit_local/events/sessions.py:493-510 | The timeline has one card per head; a card is on it if and only if the grouping rules make it. |
| SessionView.NewestCardFirst | apps/petkit-local-dev/addon/petkit_local/events/sessions.py:508-510 | The cards come newest first, a row without a time counting as the oldest. |
| SessionView.SameTimeInOrderMade | apps/petkit-local-dev/addon/petkit_local/events/sessions.py:508-510 | Cards of one time come in the order the passes made them. |
| SessionView.OldestLineFirst | apps/petkit-local-dev/addon/petkit_local/events/sessions.py:504-506 | A card's lines come oldest first; of one time, in the order the passes hung them. |
| SessionView.KindOfCard | apps/petkit-local-dev/addon/petkit_local/events/sessions.py:289-331 | A card headed by a cleaning step is a cleaning cycle; any other that is no bare row is a visit if and only if there was a toilet visit in its episode, and otherwise of its head's kind. Only a visit, a meal, a drink or a detection that is no detail heads one. |
| SessionView.HeadingsAreShown | apps/petkit-local-dev/addon/petkit_local/events/sessions.py:240-331 | Each such event with an episode is on the card of that episode, and a visit without one heads its own. |
| SessionView.ParentIs | apps/petkit-local-dev/addon/petkit_local/events/sessions.py:156-167 | The parent a row follows up on is the one the first row of its episode to name another episode names; its own only if none does. |
| SessionCards.OwnerHeads | apps/petkit-local-dev/addon/petkit_local/events/sessions.py:299-414 | The card a row is placed on exists: an explicit link or a near visit leads to an episode or visit card, a cycle tail to a cleaning card. |
| SessionCards.HeadVia | apps/petkit-local-dev/addon/petkit_local/events/sessions.py:299-414 | The head of a card is placed on its own card, and which rule placed it follows from the kind of card. |
| SessionCards.ShellsDistinct | apps/petkit-local-dev/addon/petkit_local/events/sessions.py:289-414 | No two cards of any pass have the same head. |
| SessionCards.EpisodeHeadFacts | apps/petkit-local-dev/addon/petkit_local/events/sessions.py:298-304 | An episode has a card if and only if it has an anchor event; its head is such an event of that episode. |
| SessionCards.EpisodeHeadIs | apps/petkit-local-dev/addon/petkit_local/events/sessions.py:298-304 | That head is the earliest anchor-coded event, of equal times the first to arrive; without one the latest event, of equal times the last to arrive. |
| SessionCards.CycleHeadFacts | apps/petkit-local-dev/addon/petkit_local/events/sessions.py:392-414 | An orphan cleaning episode has a card if and only if one of its unclaimed steps is a completion step; the head is one. |
| SessionCards.CycleHeadIs | apps/petkit-local-dev/addon/petkit_local/events/sessions.py:392-414 | That head is the earliest of them, of equal times the first to arrive. |
| SessionCards.NearTargetFacts | apps/petkit-local-dev/addon/petkit_local/events/sessions.py:366-376 | The visit chosen by time is on the same device, 0 to 600 s earlier, and no visit in that window is nearer; none is chosen only if there is none. |
| SessionCards.TailTargetFacts | apps/petkit-local-dev/addon/petkit_local/events/sessions.py:431-445 | The cleaning card chosen for a cycle tail is of another episode on the same device within 120 s, and none such is nearer; none is chosen only if there is none. |
| SessionCards.LinkTargetFacts | apps/petkit-local-dev/addon/petkit_local/events/sessions.py:343-349 | An explicit link leads to the card of the named episode on the same device; none is found only if that device has no such card. |
| SessionPlacement.PlacementSound | apps/petkit-local-dev/addon/petkit_local/events/sessions.py:334-445 | A line of another episode than its card's is on the card's device and is there by the device's own link, or else because the card is the nearest visit at most 600 s earlier, or else the nearest other cleaning card within 120 s; each fallback only if the one before found no card. |
| SessionPlacement.PlacementComplete | apps/petkit-local-dev/addon/petkit_local/events/sessions.py:334-475 | A row left standing alone had nowhere to go: no linked card exists, and for a cleaning step no visit or other cleaning card in its window either. |
| SessionPlacement.MediaShownOnce | apps/petkit-local-dev/addon/petkit_local/events/sessions.py:170-209 | A foreign episode on a card shows everything it recorded on exactly one of its lines: its first completion line, or its last line if it has none. |
| SessionPlacement.OneCarrier | apps/petkit-local-dev/addon/petkit_local/events/sessions.py:201-209 | Of a foreign episode's lines, exactly one is the carrier. |
| SessionPlacement.EpisodeMediaFacts | apps/petkit-local-dev/addon/petkit_local/events/sessions.py:192-199 | An episode's gallery holds an item if and only if some row of the episode recorded it, and no item twice. |
| SessionPlacement.OwnLinesShowNothing | apps/petkit-local-dev/addon/petkit_local/events/sessions.py:180-190 | Lines of the card's own episode, and lines of no episode, show no media. |
| SessionOrder.OrderIndependence | apps/petkit-local-dev/addon/petkit_local/events/sessions.py:477-510 | Rows with present, distinct times, at most one parent per episode and no cycle tail with two nearest cleaning cards give the same cards, newest first, with the same lines in the same order, in whatever order they arrive. |
| SessionTies.OrderMattersIff | apps/petkit-local-dev/addon/petkit_local/events/sessions.py:477-510 | Of rows with present, distinct times and at most one parent per episode: every order of arrival gives the same timeline if and only if no cycle tail has two nearest cleaning cards. |
| SessionOrder.SameEpisode | apps/petkit-local-dev/addon/petkit_local/events/sessions.py:299-303 | Rearranging such rows changes neither an episode's members, nor its head, nor its card. |
| SessionOrder.SameNear | apps/petkit-local-dev/addon/petkit_local/events/sessions.py:366-376 | Nor the nearest visit of a cleaning step. |
| SessionOrder.SameCycle | apps/petkit-local-dev/addon/petkit_local/events/sessions.py:392-414 | Nor the unclaimed steps and the head of an orphan cleaning episode. |
| SessionOrder.SameTail | apps/petkit-local-dev/addon/petkit_local/events/sessions.py:431-445 | Nor, when no two cleaning cards are nearest to it, the card of a cycle tail. |
| SessionOrder.SameReach | apps/petkit-local-dev/addon/petkit_local/events/sessions.py:431-445 | Nor, ties or not, whether a cleaning card is in reach. |
| SessionTies.TiesFollowInputOrder | apps/petkit-local-dev/addon/petkit_local/events/sessions.py:490-490 | "`events` order doesn't matter" is false when times tie: of two visits of one episode stamped alike, without an anchor code, the one that comes last heads the card and the other heads none. |
| SessionTies.TwoParentsFollowInputOrder | apps/petkit-local-dev/addon/petkit_local/events/sessions.py:156-167 | It is false, whatever the times, for an episode whose steps name two parents: both steps go with the parent named first, so rearranging them moves them to the other card. |
| SessionTies.MidwayFollowsInputOrder | apps/petkit-local-dev/addon/petkit_local/events/sessions.py:431-445 | And for a cycle tail midway between two cleaning cards: it goes to the one that arrives first. |
| SessionPasses.Attach | apps/petkit-local-dev/addon/petkit_local/events/sessions.py:254-286 | One bare line is added to the card and the id is marked used. |
| SessionPasses.EpisodesOf | apps/petkit-local-dev/addon/petkit_local/events/sessions.py:240-251 | Anchors grouped by episode in order of first appearance, and exactly the toilet visits without one. |
| SessionPasses.EpisodeParents | apps/petkit-local-dev/addon/petkit_local/events/sessions.py:156-167 | Each episode is mapped to the parent the first of its events to name one names. |
| SessionPasses.ChooseCard | apps/petkit-local-dev/addon/petkit_local/events/sessions.py:369-376 | The first card at least distance among those that pass the test. |
| SessionPasses.CardFromEpisode | apps/petkit-local-dev/addon/petkit_local/events/sessions.py:298-319 | The card the rules describe for an episode, from its unsorted group, with every other member as a step. |
| SessionPasses.CardsFromEpisodes | apps/petkit-local-dev/addon/petkit_local/events/sessions.py:289-321 | One such card per episode in discovery order, indexed by episode. |
| SessionPasses.CardsFromLooseVisits | apps/petkit-local-dev/addon/petkit_local/events/sessions.py:324-331 | A card without lines for each visit that names no episode. |
| SessionPasses.AttachLinkedFollowups | apps/petkit-local-dev/addon/petkit_local/events/sessions.py:334-349 | After the pass every card has gained, in row order, exactly the rows placed by an explicit link to it, and their ids are the ones added to the used set. |
| SessionPasses.AttachNearbyCleanings | apps/petkit-local-dev/addon/petkit_local/events/sessions.py:352-376 | The same for the rows placed by nearness to a visit. |
| SessionPasses.StrandedEpisodes | apps/petkit-local-dev/addon/petkit_local/events/sessions.py:379-394 | The cleaning steps still unused are exactly those neither linked nor near a visit, grouped by episode. |
| SessionPasses.CardsFromOrphanCleanings | apps/petkit-local-dev/addon/petkit_local/events/sessions.py:396-414 | A cleaning card, with its other steps as lines, for each such episode that has a completion step. |
| SessionFinish.AttachCycleTails | apps/petkit-local-dev/addon/petkit_local/events/sessions.py:417-445 | After the pass every cleaning card has gained exactly the rows placed on it as cycle tails. |
| SessionFinish.Carrier | apps/petkit-local-dev/addon/petkit_local/events/sessions.py:205-208 | The line picked for an episode's media is its one carrier. |
| SessionFinish.AssignEpisodeMedia | apps/petkit-local-dev/addon/petkit_local/events/sessions.py:170-209 | Each line ends with its episode's media if it is the carrier and with none otherwise. |
| SessionFinish.StandaloneRows | apps/petkit-local-dev/addon/petkit_local/events/sessions.py:448-474 | A bare row for each event no pass has used, in row order. |
| SessionFinish.GroupSessions | apps/petkit-local-dev/addon/petkit_local/events/sessions.py:477-510 | The seven passes over the shared set of used ids end with exactly the timeline the placement rules describe. |
| StitchProgress.EveryAttemptCounts | apps/petkit-local-dev/addon/petkit_local/media/stitch.py:333-462 | An attempt on a candidate strictly lowers the number of ready, unmarked rows, on success, failed join, missing files and failed move alike, and even if it raises once the swap has committed; any other exception leaves every row as it was. |
| StitchProgress.AttemptsAreBounded | apps/petkit-local-dev/addon/petkit_local/media/stitch.py:333-524 | Over any run of passes with no uploads in between, whatever ffmpeg, the file system and the database answer, the attempts that do not raise are at most the unmarked rows at the start less those at the end. |
| StitchProgress.Converges | apps/petkit-local-dev/addon/petkit_local/media/stitch.py:491-524 | A run of more passes than there are unmarked rows, each made once its episodes are quiet and with work directories made and database writes committed, ends with nothing left to join for a query at any time, and no further pass changes anything. |
| StitchProgress.EmptyLatePassIsRest | apps/petkit-local-dev/addon/petkit_local/media/stitch.py:491-524 | A pass late enough that finds no candidates means that no query at any time finds one. |
| StitchProgress.RestStays | apps/petkit-local-dev/addon/petkit_local/media/stitch.py:491-524 | Then no later passes of any kind change rows or files. |
| StitchProgress.NothingNewToJoin | apps/petkit-local-dev/addon/petkit_local/events/store.py:553-604 | No attempt, however it ends, adds a row that a query could offer. |
| StitchProgress.RaisesIff | apps/petkit-local-dev/addon/petkit_local/media/stitch.py:380-457 | An attempt raises if and only if preparing the work directory and final path fails once a join is called for, a verified and moved join cannot commit its row swap, or a marking that is made cannot commit. |
| StitchOutcomes.NoJoinNoLoss | apps/petkit-local-dev/addon/petkit_local/media/stitch.py:347-418 | Unless a join was made and verified, whether at once or on the retry, every file is as it was, no clip is made, and rows differ in the mark only: on all chunks if too few are on disk or of one stream, else on those whose join was tried last. |
| StitchOutcomes.StitchedIff | apps/petkit-local-dev/addon/petkit_local/media/stitch.py:347-462 | An attempt ends with a clip if and only if a join was verified, moved and swapped in and any chunks left out could be marked. The clip has what the files of the commonest stream held, in order; after a retry, those of them that decode. |
| StitchOutcomes.GoodIs | apps/petkit-local-dev/addon/petkit_local/media/stitch.py:391-409 | What a retry joins: the decodable ones of the commonest stream and no others. |
| StitchOutcomes.MoveFailedMarks | apps/petkit-local-dev/addon/petkit_local/media/stitch.py:422-431 | If a verified join cannot be moved into place, the chunks joined are marked so. |
| StitchOutcomes.MergedRowIs | apps/petkit-local-dev/addon/petkit_local/media/stitch.py:433-456 | The new row: a new id, the episode's columns, ready, at the clip's path, from the first joined chunk's start to the last one's end, their durations summed. |
| StitchOutcomes.DurationsAdd | apps/petkit-local-dev/addon/petkit_local/media/stitch.py:450-450 | Durations add up over any split of the chunks. |
| StitchOutcomes.CountIsNewRows | apps/petkit-local-dev/addon/petkit_local/media/stitch.py:491-524 | What a pass returns is the number of rows it made, as long as its marks commit, and never more. |
| StitchOutcomes.OfferedIff | apps/petkit-local-dev/addon/petkit_local/events/store.py:553-585 | A query offers an episode if and only if it has two chunks worth joining and all such are quiet since before the cut-off. |
| StitchOutcomes.OfferedInPlayOrder | apps/petkit-local-dev/addon/petkit_local/events/store.py:586-603 | It offers all ready, unmarked rows of the episode, by their start or failing that their arrival, and of those that start together by arrival. |
| StitchProgress.OthersStay | apps/petkit-local-dev/addon/petkit_local/media/stitch.py:347-462 | An attempt leaves every row that is not one of its own chunks unchanged in the table. |
| StitchProgress.SoundStays | apps/petkit-local-dev/addon/petkit_local/events/store.py:620-647 | Row ids stay unique through any attempt. |
| StitchProgress.CandidatesOffered | apps/petkit-local-dev/addon/petkit_local/events/store.py:553-604 | The candidates of one query share no chunk, and each offers at least two distinct unmarked rows. |
| StitchProgress.ChunksOfKey | apps/petkit-local-dev/addon/petkit_local/events/store.py:586-603 | A candidate's chunks are all the ready unmarked rows of its device, episode and category and no others, by play time and, where that ties, by arrival. |
| StitchLaws.StitchedClip | apps/petkit-local-dev/addon/petkit_local/media/stitch.py:347-462 | After a successful stitch the final path holds the join of exactly the included chunks in candidate order; one new row with their first start, last end and total duration replaces their rows, their files are gone unless they would not unlink; other rows and files are untouched but for the excluded marks. |
| StitchLaws.FootageIsConserved | apps/petkit-local-dev/addon/petkit_local/media/stitch.py:347-462 | After a successful stitch every chunk is either a part of the clip with its row gone, or keeps its row, only marked; an excluded chunk keeps its file as well if and only if the final path is not its own (or would hold the same content). |
| StitchLaws.ExcludedFirstChunkLosesItsFile | apps/petkit-local-dev/addon/petkit_local/media/stitch.py:368-422 | "Excluded ones keep their row and file" is false when the first chunk is of another stream than the two behind it: the stitch succeeds under the first chunk's name, and its file now holds the clip of the others. |
| StitchLaws.WhatNoneMeans | apps/petkit-local-dev/addon/petkit_local/media/stitch.py:343-431 | When None comes back, rows differ in `stitch_state` of this episode's chunks only; the chunk files are all still there if and only if no join was verified, or each joined source was spared by the deletion and the move. |
| StitchLaws.FilesKeptIff | apps/petkit-local-dev/addon/petkit_local/media/stitch.py:347-462 | After any attempt, however it ended, the same condition decides whether the chunk files are all still there unchanged. |
| StitchLaws.WhatRaisedMeans | apps/petkit-local-dev/addon/petkit_local/media/stitch.py:380-462 | After an exception the rows are as they were, unless the swap had committed and only the excluded marks failed: then they are the swapped rows. The files are kept if and only if the same condition holds. |
| StitchLaws.FailedMoveLosesFootage | apps/petkit-local-dev/addon/petkit_local/media/stitch.py:422-431 | "None always means the chunks are still there" is false: when a verified join fails to move, a joined source is gone although None comes back (if the marking commits; otherwise the attempt raises). |
| StitchLaws.FailedSwapStrandsRows | apps/petkit-local-dev/addon/petkit_local/events/store.py:620-647 | A row swap that does not commit raises with all rows kept, yet the files of joined chunks are already gone. |
| StitchLaws.JoinedChunks | apps/petkit-local-dev/addon/petkit_local/media/stitch.py:347-409 | What a verified join consists of: at least two chunks of one stream, all on disk, in candidate order; the excluded ids are exactly those of the other chunks. |
| StitchLaws.ExcludedTwice | apps/petkit-local-dev/addon/petkit_local/media/stitch.py:370-406 | Chunks left out at first and chunks dropped on the retry are together the chunks not joined. |
| StitchLaws.MajorityWins | apps/petkit-local-dev/addon/petkit_local/media/stitch.py:142-165 | No stream shape has more chunks than the one that is joined. |
| StitchLaws.FirstMajorityWins | apps/petkit-local-dev/addon/petkit_local/media/stitch.py:157-165 | Of equally common shapes the one that appears first is joined. |
| Stitch.SplitByStream | apps/petkit-local-dev/addon/petkit_local/media/stitch.py:142-165 | The majority chunks in order, and the rest; together all paths, none in both. |
| Stitch.PlanAttempt | apps/petkit-local-dev/addon/petkit_local/media/stitch.py:347-420 | The method's plan is the one the laws are about. |
| Stitch.MediaLibrary.FinishStitch | apps/petkit-local-dev/addon/petkit_local/media/stitch.py:422-462 | From the first deletion on, rows, files and outcome are those the laws are about. |
| Stitch.MediaLibrary.StitchEpisode | apps/petkit-local-dev/addon/petkit_local/media/stitch.py:333-462 | One whole attempt, likewise. |
| Stitch.MediaLibrary.RunOnce | apps/petkit-local-dev/addon/petkit_local/media/stitch.py:491-524 | A pass makes one attempt per candidate of its one query, in order, whatever each came to, and returns how many were stitched. |
| Registry.WriteBehindSafety | apps/petkit-local-dev/addon/petkit_local/devices/registry.py:109-247 | In every interleaving where no write starts while another is in flight and no abandoned write fails: clean and idle means disk equals memory, and clean with a write in flight means memory is what is being written. |
| Registry.OrdinaryIsOrderly | apps/petkit-local-dev/addon/petkit_local/devices/registry.py:109-181 | Its hypotheses hold of a change, a whole flush, whether it succeeds or not, and a save; they fail of a save while a worker writes. |
| Registry.StopSavesEverything | apps/petkit-local-dev/addon/petkit_local/devices/registry.py:187-202 | `stop()` with successful writes ends clean with disk equal to memory, once the worker it abandoned is done. |
| Registry.OverlapIsExact | apps/petkit-local-dev/addon/petkit_local/devices/registry.py:109-181 | A `save()` that overlaps a worker write ends clean with disk equal to memory if and only if both texts are the same. |
| Registry.OverlapLosesData | apps/petkit-local-dev/addon/petkit_local/devices/registry.py:109-181 | So from every loaded registry there is a run that ends clean and idle with the older text on disk. |
| Registry.LostFailureIsExact | apps/petkit-local-dev/addon/petkit_local/devices/registry.py:187-202 | A write that fails after `stop()` abandoned it leaves disk equal to memory if and only if it already was. |
| Registry.FailedSaveIsRetried | apps/petkit-local-dev/addon/petkit_local/devices/registry.py:109-181 | After a failed `save()` the file is as it was, and the next flush writes the memory. |
| Registry.FlushSettles | apps/petkit-local-dev/addon/petkit_local/devices/registry.py:151-181 | A flush on its own ends written and clean, or with the file as it was and dirty again. |
| Registry.UnencodableIsDropped | apps/petkit-local-dev/addon/petkit_local/devices/registry.py:120-176 | What cannot be encoded is given up on: nothing is written and nothing stays dirty. |
| DeviceFile.RunIsSteps | apps/petkit-local-dev/addon/petkit_local/devices/registry.py:262-344 | Every run of signups, marks and flushes of the device registry is a run of this state machine, step by step, whatever the encoding. |
| Registry.PersistedRegistry.SaveNow | apps/petkit-local-dev/addon/petkit_local/devices/registry.py:109-137 | `save()` as a step of the state machine. |
| Registry.PersistedRegistry.BeginFlush | apps/petkit-local-dev/addon/petkit_local/devices/registry.py:151-178 | `flush()` up to its await, likewise. |
| Registry.PersistedRegistry.Stop | apps/petkit-local-dev/addon/petkit_local/devices/registry.py:187-202 | `stop()`: cancel, the done-callback, the final save. |
| Registry.PersistedRegistry.MarkDirty | apps/petkit-local-dev/addon/petkit_local/devices/registry.py:139-149 | A change and its dirty mark, in one step. |
| Registry.PersistedRegistry.FinishWrite | apps/petkit-local-dev/addon/petkit_local/devices/registry.py:178-178 | A worker thread's write lands or leaves the file alone; the flusher learns which if it still waits. |
| Registry.PersistedRegistry.EndFlush | apps/petkit-local-dev/addon/petkit_local/devices/registry.py:178-181 | `flush()` after its await. |
| Registry.PersistedRegistry.SavePending | apps/petkit-local-dev/addon/petkit_local/devices/registry.py:236-247 | The guarded save of the done-callback and of `stop()`. |
| Devices.IdentityIsKept | apps/petkit-local-dev/addon/petkit_local/devices/registry.py:288-320 | Through any run of signups a known device keeps type, id, product key, secrets, config and creation time, a serial number and a MAC once known; its MQTT name changes only if it was first met without a serial number, to the name of the first one it sends. |
| Devices.NameIsKeptIff | apps/petkit-local-dev/addon/petkit_local/devices/registry.py:302-307 | The MQTT name is kept if and only if the device came with a serial number, never sends one, or the one it sends first gives the same name. |
| Devices.FirstContactIs | apps/petkit-local-dev/addon/petkit_local/devices/registry.py:320-344 | What a first contact registers, field by field: as the device described itself, with minted keys, named after its serial number or failing that its id, with default settings. |
| Devices.MacIsFirst | apps/petkit-local-dev/addon/petkit_local/devices/registry.py:307-309 | Through any run of signups the MAC is the first one known. |
| Devices.FirmwareFollows | apps/petkit-local-dev/addon/petkit_local/devices/registry.py:310-312 | And the firmware version the last one reported. |
| DeviceCredentials.CrashLosesNoCredentials | apps/petkit-local-dev/addon/petkit_local/devices/registry.py:319-344 | In every interleaving of signups and dirty marks with the steps of background flushes, from any write or load that left everyone on record, as long as each first contact is written successfully, none is made while a flush's write is in flight, and no first serial number changes an MQTT name: a crash at any moment finds every device's MQTT triple and API secret in the file. |
| DeviceCredentials.FirstSerialCostsIff | apps/petkit-local-dev/addon/petkit_local/devices/registry.py:302-319 | A signup of a known device, everyone being on record, costs credentials if and only if it changes the MQTT name; the registry is dirty then and the file as it was. |
| DeviceCredentials.FirstSerialIsLost | apps/petkit-local-dev/addon/petkit_local/devices/registry.py:302-319 | It does happen: a device met without a serial number, all of it written, sends one other than its id. The file names it with its keys, and a restart would bring it back under the old MQTT name. |
| DeviceCredentials.FlushRecords | apps/petkit-local-dev/addon/petkit_local/devices/registry.py:151-181 | From any dirty registry, a background flush whose write lands puts everyone on record, if nothing but marks and signups that issue no credentials came between. |
| DeviceCredentials.CrashCostsIff | apps/petkit-local-dev/addon/petkit_local/devices/registry.py:319-344 | From any write or completed load on, whatever fails and however they interleave, a crash costs credentials if and only if some device of memory is not named in the file, is named from before its first serial number and under another MQTT name, or only ever by an entry without its keys. |
| DeviceCredentials.LandingCostsIff | apps/petkit-local-dev/addon/petkit_local/devices/registry.py:151-181 | A background write that lands leaves every device on record if and only if its text, encoded earlier, names every device of memory under its present MQTT name. |
| DeviceCredentials.SignupDuringFlushIsLost | apps/petkit-local-dev/addon/petkit_local/devices/registry.py:151-181 | From every idle and dirty registry: a flush encodes, a new device signs up and is written through, the older text lands. The registry is clean and the device's credentials are not in the file. |
| DeviceCredentials.WrittenIsTruthful | apps/petkit-local-dev/addon/petkit_local/devices/registry.py:109-137 | Where the crash laws start: once the whole registry is written, everyone is on record. |
| DeviceCredentials.LoadedIsTruthful | apps/petkit-local-dev/addon/petkit_local/devices/registry.py:379-397 | Or with any load that completes, whatever the file holds: everyone is on record then if and only if every entry that counts has its product key and device secret. |
| Devices.RestartKeepsDevices | apps/petkit-local-dev/addon/petkit_local/devices/registry.py:375-397 | Restoring what was serialised (a device type being text, or else its settings no object) completes and brings back every device with a positive id, in order and with its whole record, gaps in its settings filled, its live state fresh, and nothing minted anew. |
| Devices.UnreadableCostsNothing | apps/petkit-local-dev/addon/petkit_local/devices/registry.py:385-392 | An entry `from_dict` refuses, wherever it stands in the file, changes nothing about what is restored from the others. |
| Devices.LoadCompletesIff | apps/petkit-local-dev/addon/petkit_local/devices/registry.py:379-397 | "One malformed record must not cost every other device its credentials" is false of some: the load completes if and only if no entry that `from_dict` accepts has an id that is no number, or a positive id with a config that is no object, or with a type that cannot be looked up while its settings are to be filled. |
| Devices.EachFromItsOwnEntry | apps/petkit-local-dev/addon/petkit_local/devices/registry.py:385-396 | A load that completes gives each id what the last usable entry of that id says, whatever else the file holds. |
| Devices.RestoredFields | apps/petkit-local-dev/addon/petkit_local/devices/base.py:410-434 | Every field an entry has is restored; one it lacks is empty or, for keys and creation time, generated, and the MQTT name is derived. |
| Devices.FilledSettings | apps/petkit-local-dev/addon/petkit_local/devices/registry.py:25-40 | Settings after a signup or load: every default that was missing, and whatever was set. |
| Devices.FatalIs | apps/petkit-local-dev/addon/petkit_local/devices/registry.py:385-396 | Which entries make the load raise, in terms of the entry's raw fields. |
| Devices.SecondRestartChangesNothing | apps/petkit-local-dev/addon/petkit_local/devices/registry.py:375-397 | Whatever the file holds, once it has loaded, restoring the serialised result gives that result again. |
| Devices.DeviceRegistry.GetOrCreate | apps/petkit-local-dev/addon/petkit_local/devices/registry.py:288-344 | The device returned, the registry and the file afterwards, and when the registry is dirty. |
| Devices.RestoreAll | apps/petkit-local-dev/addon/petkit_local/devices/registry.py:379-397 | The loop over the file's entries, with its exceptions, computes the restore the laws are about. |
| Store.UniqueInEveryRun | apps/petkit-local-dev/addon/petkit_local/events/store.py:250-311 | In every interleaving of upserts and batches under the write lock the table is a sequential replay of the committed requests: at most one row per non-empty uid, and no row ever changes its id, uid or `created_at`. |
| Store.CommitsPublish | apps/petkit-local-dev/addon/petkit_local/events/store.py:250-287 | The table after any run is the replay of the whole batches of the tasks that committed, in the order of their commits; one that aborted or has not committed has left nothing. |
| Store.OneEnding | apps/petkit-local-dev/addon/petkit_local/events/store.py:250-287 | Nothing of a task follows its commit or its abort. |
| Store.WithoutTheLockDuplicates | apps/petkit-local-dev/addon/petkit_local/events/store.py:301-311 | Two SELECTs before either INSERT leave two rows for one uid, from any table that has none: the lock is needed. |
| Store.ReplayMeaning | apps/petkit-local-dev/addon/petkit_local/events/store.py:289-311 | After any sequence of upserts the row of a uid exists if and only if it was reported, later reports win column by column, and the first one sets `created_at`. |
| Store.RetrySameId | apps/petkit-local-dev/addon/petkit_local/events/store.py:289-311 | A repeated report gets the id its first attempt got, whatever came between. |
| Store.EventStore.UpsertEvent | apps/petkit-local-dev/addon/petkit_local/events/store.py:289-311 | One upsert returns the row's id and keeps uniqueness and every row's identity. |
| Store.EventStore.UpsertAll | apps/petkit-local-dev/addon/petkit_local/events/store.py:268-287 | A batch is the replay of its requests. |
| DeliveryLaws.ConnectedMeansLiveLatest | apps/petkit-local-dev/addon/petkit_local/mqtt/auth.py:248-389 | In every run of connects, take-overs, teardowns, packets, sweeps, heartbeats and deliveries, a device marked connected has its most recently accepted session recorded as the live one, and that session is not torn down. |
| DeliveryLaws.FlagIsExact | apps/petkit-local-dev/addon/petkit_local/mqtt/auth.py:248-389 | In every run in which no sweep and no lost-session report actually takes a flag down, the flag is up if and only if the last accepted session lives. |
| DeliveryLaws.TakeOver | apps/petkit-local-dev/addon/petkit_local/mqtt/auth.py:371-389 | Tearing down a superseded session changes nothing; tearing down the last one takes the flag down. |
| DeliveryLaws.CommandsAreConserved | apps/petkit-local-dev/addon/petkit_local/ha/command_router.py:252-273 | In every run each accepted command is in exactly one of published, queued, drained, still being published, or cancelled at shutdown (equality of multisets). |
| DeliveryLaws.FirstInFirstOut | apps/petkit-local-dev/addon/petkit_local/devices/base.py:372-381 | What heartbeats drained, followed by what is queued, is what was queued, in that order. |
| DeliveryLaws.PublishedOnlyIntoALiveSession | apps/petkit-local-dev/addon/petkit_local/ha/command_router.py:252-264 | A command whose publish began was delivered at a step where the device's last accepted session was recorded live and not torn down. |
| DeliveryLaws.OnePacketIsEnough | apps/petkit-local-dev/addon/petkit_local/mqtt/auth.py:285-318 | One packet of the live session keeps the flag up through every sweep within the timeout, in any run without a teardown of that session, a reconnect or a believed loss of that device; teardowns of superseded sessions are allowed. |
| DeliveryLaws.ConnectOutlivesLaggingReports | apps/petkit-local-dev/addon/petkit_local/http/handlers/heartbeat.py:196-204 | An accepted CONNECT keeps the flag up through heartbeats that still report no session within 15 s of it, and through sweeps within the timeout. |
| DeliveryLaws.SilenceTakesItDown | apps/petkit-local-dev/addon/petkit_local/ha/publisher.py:50-66 | A device not heard from since some time is off after the first sweep more than the timeout later, its flag with it, and stays off until its next contact, whatever the other devices do. |
| DeliveryLaws.WatchClearsIff | apps/petkit-local-dev/addon/petkit_local/ha/publisher.py:222-226 | A sweep takes a device off if and only if it is online, was ever heard from, and each of the four ways of hearing from it is silent for longer than the timeout; otherwise it changes nothing. |
| DeliveryLaws.ConnectedIsOnline | apps/petkit-local-dev/addon/petkit_local/mqtt/auth.py:248-389 | In every run a connected device is online, so sweeps do visit it. |
| DeliveryLaws.LostSessionFallsBack | apps/petkit-local-dev/addon/petkit_local/http/handlers/heartbeat.py:196-208 | Once a device reports its session lost 15 s or more after the CONNECT, the next command is handed over by the heartbeat after that, behind all that waited. |
| DeliveryLaws.HeartbeatClearsIff | apps/petkit-local-dev/addon/petkit_local/http/handlers/heartbeat.py:196-208 | A heartbeat is contact and empties the queue; it takes the flag down if and only if it reports the session lost 15 s or more after the CONNECT. |
| DeliveryLaws.FrameIsContact | apps/petkit-local-dev/addon/petkit_local/mqtt/bridge.py:361-364 | A frame puts the device online and stamps it, and touches neither the flag nor the queue. |
| DeliveryLaws.PublishedIff | apps/petkit-local-dev/addon/petkit_local/ha/command_router.py:252-269 | A publish begins if and only if the sink is up and the flag is; otherwise the command is queued last. |
| Delivery.Plugin.Authenticate | apps/petkit-local-dev/addon/petkit_local/mqtt/auth.py:405-483 | Which CONNECTs are accepted and what they record: our own bridge always and unrecorded, a stranger or a bad signature only if not strict. |
| Delivery.Plugin.OnDisconnected | apps/petkit-local-dev/addon/petkit_local/mqtt/auth.py:344-389 | A teardown as a step of the protocol. |
| Delivery.Plugin.OnPacket | apps/petkit-local-dev/addon/petkit_local/mqtt/auth.py:285-318 | The scan stamps the device of the sender's session and no other. |
| Delivery.Plugin.WatchDevice | apps/petkit-local-dev/addon/petkit_local/ha/publisher.py:222-234 | A sweep's visit to one device. |
| Delivery.Plugin.OnHeartbeat | apps/petkit-local-dev/addon/petkit_local/http/handlers/heartbeat.py:196-242 | The reply carries the whole queue, oldest first, and empties it. |
| Delivery.Plugin.BeginDelivery | apps/petkit-local-dev/addon/petkit_local/ha/command_router.py:252-269 | The transport choice. |
| Delivery.Plugin.FallBack | apps/petkit-local-dev/addon/petkit_local/ha/command_router.py:260-264 | A publish that raises queues its command. |
| Retention.KeepsAsManyAsFit | apps/petkit-local-dev/addon/petkit_local/media/retention.py:220-247 | For newest-first entries with timestamps and a non-negative or absent size cap: the newest are kept as long as they fit both caps, exactly the rest expires, oldest first, and no longer front of the list fits. |
| Retention.CapsHold | apps/petkit-local-dev/addon/petkit_local/media/retention.py:220-247 | In any order and with timestamps missing, what is kept is within the size cap and not over age. |
| Retention.ExpiredOrKept | apps/petkit-local-dev/addon/petkit_local/media/retention.py:220-247 | Every entry is expired or kept, none both. |
| RetentionLimits.StoredSettingsDeleteThePastIff | apps/petkit-local-dev/addon/petkit_local/media/retention.py:105-165 | Reading the caps from the file raises if and only if a value is none arithmetic takes. Otherwise a sweep deletes all rows and files made before it, whichever they are, if and only if `max_mb` is minus one byte or less, or `max_days` is under one second and not zero; those that are not empty also if `max_mb` is under one byte and not zero. |
| RetentionLimits.StoredSettingsDeleteAnythingIff | apps/petkit-local-dev/addon/petkit_local/media/retention.py:105-165 | It deletes even rows without a timestamp, whichever they are, if and only if `max_mb` is minus one byte or less. |
| RetentionLimits.PanelNeverNegative | apps/petkit-local-dev/addon/petkit_local/media/retention.py:129-155 | No run of panel edits brings a negative cap or one that raises. |
| RetentionLimits.PanelDeletesNonEmptyIff | apps/petkit-local-dev/addon/petkit_local/media/retention.py:129-160 | A `max_mb` set in the panel deletes everything that is not empty if and only if it is positive but less than one byte: it becomes a cap of zero. |
| RetentionLimits.PanelDeletesThePastIff | apps/petkit-local-dev/addon/petkit_local/media/retention.py:129-165 | A `max_days` set in the panel deletes everything made before the sweep if and only if it is positive but less than one second, the size cap not being negative. |
| RetentionLimits.PanelDeletesFilesIff | apps/petkit-local-dev/addon/petkit_local/media/retention.py:129-165 | Both set, everything made before the sweep that is not empty goes if and only if either is positive and too small. |
| RetentionLimits.DeletesThePastIff | apps/petkit-local-dev/addon/petkit_local/media/retention.py:220-247 | The caps that delete all entries made before the sweep, whichever they are, are a negative size cap and an age cap of zero or less. |
| RetentionLimits.DeletesFilesIff | apps/petkit-local-dev/addon/petkit_local/media/retention.py:220-247 | Those that do so if no entry is empty are a size cap and an age cap of zero or less. |
| RetentionLimits.DeletesAnythingIff | apps/petkit-local-dev/addon/petkit_local/media/retention.py:220-247 | Those that delete all entries, whichever they are, are the negative size caps. |
| RetentionLimits.RetentionConfig.ApplyPatch | apps/petkit-local-dev/addon/petkit_local/media/retention.py:129-155 | The loops over categories and fields compute the update the laws are about. |
| Retention.RetentionOrder | apps/petkit-local-dev/addon/petkit_local/events/store.py:509-521 | The rows handed to the pass are newest first with timestamps, as it needs. |
| Retention.MediaKeepsNewest | apps/petkit-local-dev/addon/petkit_local/media/retention.py:201-247 | What a sweep of a category leaves: all rows of other categories or not ready, and of the category as many of the newest as fit both caps; nothing that goes is newer than anything that stays. |
| Retention.CategoryRows | apps/petkit-local-dev/addon/petkit_local/events/store.py:509-521 | The rows handed to the pass: those of the category whose file is ready and no others, newest first. |
| Retention.DirectoryOrder | apps/petkit-local-dev/addon/petkit_local/media/retention.py:287-287 | The files handed to the pass are newest first, all of them, so the same holds of them. |
| Retention.DirectoryKeepsNewest | apps/petkit-local-dev/addon/petkit_local/media/retention.py:275-305 | What the caps leave of a directory is as many of the newest files as fit both; all others are wanted gone, oldest first, and none of them is newer than one that stays. |
| Retention.FloorHolds | apps/petkit-local-dev/addon/petkit_local/media/retention.py:275-305 | Of the files the caps want gone exactly those not younger than the floor are deleted, and the remainder exceeds the size cap by at most the young files it wanted gone. |
| Retention.SelectExpired | apps/petkit-local-dev/addon/petkit_local/media/retention.py:220-247 | The expired entries in order, and `freed` as the sum of their sizes. |
| Retention.MediaRows.SweepCategory | apps/petkit-local-dev/addon/petkit_local/media/retention.py:201-217 | Exactly the rows of the expired entries are dropped. |
| Retention.SweepDirectory | apps/petkit-local-dev/addon/petkit_local/media/retention.py:275-305 | The doomed files are the expired ones past the floor, and `freed` counts exactly those. |
| CaBundle.PatchingAgainChangesNothing | apps/petkit-local-dev/addon/petkit_local/patchers/cacert.py:62-100 | For a certificate that is one block, read alike with and without the space around it, patching two PEM inputs succeeds and patching the result again returns the same bytes. |
| CaBundle.IdempotentIff | apps/petkit-local-dev/addon/petkit_local/patchers/cacert.py:62-100 | Patching a patched bundle never fails, and returns the same bytes if and only if the block in our certificate counts as ours. |
| CaBundle.OneCopyOfOurs | apps/petkit-local-dev/addon/petkit_local/patchers/cacert.py:66-92 | A scan of the result finds the original's other certificates, all of them in their order and none matching ours, then the one block of our certificate. |
| CaBundle.StaysIff | apps/petkit-local-dev/addon/petkit_local/patchers/cacert.py:71-88 | A certificate of the original stays if and only if its subject is not ours or, where one of the two cannot be read, its text is not ours. |
| CaBundle.BundleText | apps/petkit-local-dev/addon/petkit_local/patchers/cacert.py:87-90 | The bytes of the result: each other certificate and a blank line, then ours without the space around it and a line end. |
| CaBundle.StripIs | apps/petkit-local-dev/addon/petkit_local/patchers/cacert.py:87-88 | Stripping takes off all white space at both ends and nothing else. |
| CaBundle.UnusableIff | apps/petkit-local-dev/addon/petkit_local/patchers/cacert.py:85-92 | The RuntimeError is raised if and only if our certificate, stripped, is not exactly one block to the scan. |
| CaBundle.NotPemIff | apps/petkit-local-dev/addon/petkit_local/patchers/cacert.py:62-67 | The ValueErrors are raised if and only if a begin marker stands nowhere in our certificate, or nowhere in the original. |
| CaBundle.ScanJoin | apps/petkit-local-dev/addon/petkit_local/patchers/cacert.py:22-23 | Scanning blocks joined by blank lines gives back the blocks, then what the last part holds. |
| CaBundle.ScanFindsBlocks | apps/petkit-local-dev/addon/petkit_local/patchers/cacert.py:22-23 | What a scan finds starts with the begin marker and ends with its only end marker, and stripping does not change it. |
| CaBundle.ScanBlock | apps/petkit-local-dev/addon/petkit_local/patchers/cacert.py:22-23 | A scan takes a leading block whole and goes on behind it. |
| CaBundle.PatchCaBundle | apps/petkit-local-dev/addon/petkit_local/patchers/cacert.py:41-100 | The loop over the blocks, against the specification the laws are about. |
| BareValues.RepairRestoresQuotes | apps/petkit-local-dev/addon/petkit_local/events/normalize.py:136-157 | For every flat object whose keys and other values hold no colon, with any white space around values, repairing its printing with bare tokens gives its printing with quotes. |
| BareValues.Idempotent | apps/petkit-local-dev/addon/petkit_local/events/normalize.py:143-157 | On every string, repairing twice is repairing once. |
| BareValues.UnchangedIff | apps/petkit-local-dev/addon/petkit_local/events/normalize.py:143-157 | A string is left unchanged if and only if every bare token in it is a JSON literal or number. |
| BareValues.MatchIff | apps/petkit-local-dev/addon/petkit_local/events/normalize.py:136-136 | The greedy match is the only way to cut the front of a text into the pattern's five parts, and is found whenever one exists. |
| JsonTokens.JsonIff | apps/petkit-local-dev/addon/petkit_local/events/normalize.py:137-155 | A bare token is left alone if and only if it is true, false, null or prints a numeral of the JSON grammar: a sign, a whole part without leading zeros, a fraction, an exponent. |
| JsonTokens.PatternClasses | apps/petkit-local-dev/addon/petkit_local/events/normalize.py:136-136 | The pattern's character classes, by listing. |
| JsonTokens.SpaceClass | apps/petkit-local-dev/addon/petkit_local/events/normalize.py:136-136 | The pattern's white space, by listing: Unicode's. |
| BareValues.UnderscoreIsNoNumber | apps/petkit-local-dev/addon/petkit_local/events/normalize.py:137-140 | A token with an underscore is no JSON number, digits or not. |
| BareValues.DecimalIsNumber | apps/petkit-local-dev/addon/petkit_local/events/normalize.py:137-140 | The decimal form of a natural number is one. |
| BareValues.LeadingZeroIsNoNumber | apps/petkit-local-dev/addon/petkit_local/events/normalize.py:137-140 | Digits after a leading zero are none. |
| Dns.ParseUndoesEncode | apps/petkit-local-dev/addon/petkit_local/http/dns.py:84-112 | For every well-formed reply, with label names or compression pointers and any further sections: a wrong id or an error code is refused, in that order, and otherwise the result is exactly the 4-byte data of the A records, in order. |
| Dns.SkipsTheQueryName | apps/petkit-local-dev/addon/petkit_local/http/dns.py:56-81 | On a query built from labels of at most 63 bytes, the name ends four bytes before the end if and only if no label is empty. |
| Dns.QueryIs | apps/petkit-local-dev/addon/petkit_local/http/dns.py:56-63 | The query, byte by byte: id, flags for recursion, one question; the labels behind their lengths, the root, type 1 and class 1. |
| Dns.SkipEncoded | apps/petkit-local-dev/addon/petkit_local/http/dns.py:66-81 | Skipping an encoded name lands just past it. |
| Dns.AnswerStep | apps/petkit-local-dev/addon/petkit_local/http/dns.py:104-111 | A record is stepped over whole, and its data taken if and only if it is of type A with four bytes. |
| Dns.SkipName | apps/petkit-local-dev/addon/petkit_local/http/dns.py:66-81 | Ends on any bytes and any offset, in range and past the start. |
| Dns.ParseAnswers | apps/petkit-local-dev/addon/petkit_local/http/dns.py:84-112 | The two loops, on any bytes, against the specification the laws are about. |
| Jpeg.FindsTheFrame | apps/petkit-local-dev/addon/petkit_local/media/transcode.py:156-195 | For SOI, any segments and standalone markers with any fill bytes (and stray bytes) before each, then a frame header and anything: the result is that header's width and height. |
| Jpeg.NoFrameNoAnswer | apps/petkit-local-dev/addon/petkit_local/media/transcode.py:156-195 | An end of image before any frame header, or a frame header cut short, gives None. |
| Jpeg.MarkersAre | apps/petkit-local-dev/addon/petkit_local/media/transcode.py:150-153 | Which markers are frame headers and which stand alone, by listing. |
| Jpeg.ItemStep | apps/petkit-local-dev/addon/petkit_local/media/transcode.py:187-194 | A segment or standalone marker is stepped over whole. |
| Jpeg.JpegDimensions | apps/petkit-local-dev/addon/petkit_local/media/transcode.py:156-195 | Ends on any bytes without reading out of range. |
| ClaimPath.ClaimsAreDistinct | apps/petkit-local-dev/addon/petkit_local/media/pipeline.py:94-118 | However any number of calls and other file operations interleave, no two calls get the same name, as long as a claimed file is not removed meanwhile. |
| ClaimPath.AbsentWhenClaimed | apps/petkit-local-dev/addon/petkit_local/media/pipeline.py:94-118 | A claimed name is the call's own candidate and was absent just before the step that claimed it. |
| ClaimPath.TriesAreBounded | apps/petkit-local-dev/addon/petkit_local/media/pipeline.py:94-118 | While nothing is removed, no call has failed more often than there are files. |
| ClaimPath.CandidateInjective | apps/petkit-local-dev/addon/petkit_local/media/pipeline.py:108-116 | No two counters give the same name. |
| ClaimPath.FirstNames | apps/petkit-local-dev/addon/petkit_local/media/pipeline.py:108-116 | The names as they read. |
| ClaimPath.TriedBound | apps/petkit-local-dev/addon/petkit_local/media/pipeline.py:108-116 | If every name tried so far is taken, their number is at most the number of files. |
| ClaimPath.Directory.ClaimUniquePath | apps/petkit-local-dev/addon/petkit_local/media/pipeline.py:94-118 | An undisturbed call ends with the first candidate not taken, which is then taken. |

## Left out

- Timeline: `pet_id` fill-up, `display_ts`, duration, weight, content and state of a card, the filter chips, and the late index entry for orphan cleaning cards (no later pass reads it) are not modelled.
- SessionOrder.OrderIndependence: ignores the order of items inside a gallery, because that order does follow the input.
- StitchProgress.Converges: assumes no upload between passes, because a new chunk is new work.
- Stitcher: the work directory's temporary file, the concat list and its escaping, the checks that make up "verified", size, module and file type columns of the merged row, and a zero total duration stored as NULL are left out; new row ids come from a counter.
- Registry.WriteBehindSafety: does not cover an unencodable registry, because the code drops that change by design.
- Write-behind file: starting a flusher without an event loop and an empty persist path are left out.
- Devices.RestartKeepsDevices: takes JSON encoding and decoding as the identity on records, and leaves out the order JSON gives keys.
- Device entries: optional text fields of the wrong type, ids that are numbers but not integers, and types that are neither text nor list nor object (they count as the name they print as) are left out.
- Device registry: lookups by MQTT name and serial number would only add easy members.
- DeviceCredentials.CrashLosesNoCredentials: signups and background flushes are the only writers; other parts of the add-on mark the registry dirty, but what they change is left out, the `api_secret` adopted in `http/middleware/proxy.py` included, and so are `remove`, saves from the panel and the final save of `stop()`.
- Store: `update_event_fields`, pruning, the media upserts and the read side are left out; reads take no lock and change nothing.
- Delivery: unknown devices under a non-strict broker, BLE accessories, refused commands, subscriptions and the panel's own delivery path, which follows the same steps, are left out; the signature check is one Boolean.
- DeliveryLaws.CommandsAreConserved: counts a publish cut off by cancellation at shutdown as its own category, because the code then neither sends nor queues it.
- Retention: unlink failures, the coercion of a panel value to a finite number, and the event and blocked-attempt prunes are left out.
- RetentionLimits.StoredSettingsDeleteThePastIff: computes on reals, because rounding is not the point; infinities, which make `int` raise, count as values arithmetic raises on.
- CA bundle: bytes are modelled as chars; the md5 log line is left out.
- BareValues.RepairRestoresQuotes: covers flat objects, because inside a quoted value with a colon the pattern can match and the repair may add quotes.
- DNS: sockets, retries, the cache and the loop check are left out; an address is its four bytes, not their dotted form.
- JPEG: cropping and scaling are left out.
- Name claims: creating the directory and closing the descriptor are left out; `splitext` is any split of the path in two.
- HTTP servers, TLS, Home Assistant discovery, payload builders, code tables and configuration reads are plumbing or data and left out.
