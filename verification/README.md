# Verification of the fleet's coordination logic

This project models the parts of the repository in which several steps, hosts or sockets
have to agree, and proves that they do. It is a Dafny 4.11 project; `dafny verify
dfyconfig.toml` checks all of it.

| modules | part of the repository |
|---|---|
| `Glob`, `GlobCompleteness`, `Exclude` | exclude patterns of folder sync |
| `Paths` | lexical path normalisation, the join of a remote root and a relative path, path policy |
| `Walk`, `WalkManifest` | the directory walk that makes a manifest |
| `Transfer` | one file streamed in slices through a window, over a network that reorders and repeats |
| `Sync`, `SyncRun`, `SyncResults` | the manifest diff, a whole sync run, and what it leaves behind |
| `SyncCases` | what file names with backslashes do to a sync |
| `Routing` | which sockets a command goes to, and how a room is listed |
| `Peers`, `RoomState`, `RoomObject` | the client's list of peers; the relay room as a state machine; the room as its source writes it |
| `RoomFrames` | what every event does to each socket: the frames it gets, and its seat |
| `RoomRoster`, `RoomRuns`, `RoomReaper`, `RoomTraffic` | what holds in every reachable state of a room |
| `RoomCases` | short runs that end badly: two second authentications, one closing socket |
| `SessionIndex`, `IndexAgreement` | the incremental search index, and when it agrees with a rebuild |
| `MapReduce` | the map/reduce coordinator |
| `Scheduler` | cron ticks |
| `TaskWait` | waiting for a task to finish |
| `Transcript` | transcripts cut to a relay frame |
| `Text`, `Wrappers` | strings and `Option` |

Loops and objects of the source are methods and classes here, each proved equal to a
function; what the system promises is proved of those functions. The network between two
hosts is the method `Transfer.Destination.Interfere`: between any two steps of the sender it
may deliver any slice ever sent, any number of times. A relay room is run by any sequence of
arrivals, frames, closings, reaper passes and hibernations.

## Where code and documentation disagree

The model follows the code.

- `glob_match` is documented as "`**` any run". It gives up when a single `*` meets a `/`,
  although an earlier `**` could still grow: `**/*.js` does not match `a/b/c.js`
  (`GlobCompleteness.MixedStarsMiss`). `GlobCompleteness.GlobCompleteIff` says for which
  patterns nothing is missed. Exclude patterns get a second attempt with `/**` appended, which
  makes up for a final `*`, as in `**/*`, and for nothing else (`Exclude.PathPatternMeaning`).
- `join_remote` is meant to name a place below the destination root.
  `Paths.JoinStaysBelowExactly` says for which roots it does: not for an empty one (unless the
  working directory is `/`), and not for one whose trailing separators include a backslash.
- A file name with a backslash is written with `/` in a manifest and then names another file
  (`Sync.RelPathLeadsBackExactly`). On the destination such a file can make a missing one pass
  for up to date (`SyncCases.BackslashHides`), and `--delete` never removes it
  (`SyncCases.BackslashStays`); on the source another file is opened for it
  (`SyncCases.BackslashOpensAnother`). A name that becomes `a//b` is deleted at the place of
  `a/b` (`SyncCases.GapStrikesAnother`). `SyncRun.RunSync` says exactly when a run mirrors and
  leaves no extras all the same, whatever the destination's names are.
- A sync is said to stay below the destination root. With `--delete`, a file `..\x` on the
  destination is asked to be deleted as `../x`: a file `x` beside the root is deleted
  (`SyncCases.ClimbingLeavesTheRoot`). Files outside the root, and excluded ones, stay exactly
  where no such place is struck (`SyncResults.RestUnchangedExactly`), which is so when every file
  asked to be deleted has proper names between slashes and backslashes
  (`SyncRun.TameExtrasAreSafe`). On the source, `..\x` is opened and sent as `../x`
  (`SyncCases.ClimbingOpensOutside`).
- Missing paths are said to be ignored when deleting. One that leads through a file ends the
  request, as `a\b` does beside a file `a` (`SyncCases.FileInTheWay`).
- `receive_chunk` is documented to truncate the file at offset 0. The code never does; the
  last slice cuts the file to its length, which is what `Transfer.LastPieceCompletes` needs.
- A listed machine is said to carry the metadata of its most capable socket. The comparison
  is with the merged flags, so a socket with both capabilities is passed over if two others
  showed them before it (`Routing.SourceIsMostCapable`).
- Single-machine and broadcast commands are said to reach the same socket. An autonomous
  send-only socket outranks an accepting one, and then they do not
  (`Routing.OneAndAllAgree`).
- An unchanged session is said to be in the index. One that drops out of a scan (the scan is
  limited per provider) and comes back unchanged is not
  (`IndexAgreement.ReturningSessionIsMissed`).
- Documents are said to belong to the sessions on record. A pass that commits and then cannot
  save its manifest leaves some that belong to nobody and outlive their session
  (`IndexAgreement.LostManifestOrphans`; exactly when is `IndexAgreement.OwnedKept`).
- A session that cannot be fetched is said to be indexed as nothing. If it was indexed before,
  it keeps what it had (`IndexAgreement.FailedFetchKeepsOld`).
- With no workers a map/reduce job succeeds over an empty input, whatever the input was
  (`MapReduce.ReductionSeesAll`, `MapReduce.WithoutWorkersNothingIsSeen`).
- The context shown for a search hit need not contain the hit: the cap keeps the tail
  (`Transcript.CitedIsShownExactlyWhen`, `Transcript.CitedCanBeCutAway`).
- A `close` frame, and an error of the socket, leave it listed, with its identity, until the
  runtime reports it closed. Until then its id may or may not be shown; this is why
  `RoomRuns.EveryRunAgrees` has two bounds (`RoomCases.ClosingIsListedNotShown`).
- Nothing stops a client from authenticating twice on one socket. What that breaks, and
  exactly when, is `RoomRuns.SecondAuthStrands` and `RoomRuns.SecondAuthHaunts`;
  `RoomCases` has a run from the empty room for each. The roster theorems hold for all runs in
  which no identity is authenticated away (`RoomRoster.Steady`), the one about replies for all
  runs in which nobody authenticates while waiting for results (`RoomRuns.Patient`).
- The two relays are said to route alike. The worker compares platform families by Unicode
  lower case, the Rust relay by ASCII letters only; the model does the latter for both, so
  `Routing.SelectionsAgree` says nothing of family names with other letters.

## Assumptions

- Sync: nothing else writes to the source files or below the destination root while it runs,
  and no slice of an earlier transfer to a place below that root can still be delivered;
  earlier transfers elsewhere may go on delivering theirs, and a transfer counts as earlier
  only until nothing of it is under way (`Transfer.Destination.Settle`). Names of source files
  that are not excluded may have backslashes, but with proper names around them (`Sync.Tame`),
  and no two source files have the same relative path (`Sync.Apart`); names without backslashes
  are all that (`SyncResults.PlainNamesAreEasy`). Names on the destination may be any. The
  destination root's path is not empty and ends in no backslash
  (`Paths.JoinStaysBelowExactly`). The hash is a function of the content; where contents are
  concluded from hashes, it is assumed to tell contents apart (`SyncResults.CollisionFree`).
- Room: frames on one socket arrive in order, and none on a socket reported broken; session ids
  are new when drawn.
- Index: refreshes run one at a time, and nothing else marks the index stale during one. A scan
  lists each session once (`SessionIndex.DistinctKeys`). For
  whole series of refreshes, what `IndexAgreement.Calm` lists: it speaks of scans and
  transcripts only, and lets sessions vanish and passes be cut or fail.
- Scheduler: a schedule answers "first instant strictly after" truthfully
  (`Scheduler.Honest`).

## Model

| member | source | states |
|---|---|---|
| `Glob.GlobMatch` | crates/mcp-server/src/exclude.rs:68-111 | the backtracking loop decides `GlobAccepts`, and ends within (text+1)(pattern+1) steps and a pattern length |
| `Glob.GlobSound` | crates/mcp-server/src/exclude.rs:66-111 | whatever the loop accepts, the pattern means: for every pattern and text |
| `GlobCompleteness.GlobExactInSegments` | crates/mcp-server/src/exclude.rs:68-111 | with `/` not special the loop accepts exactly what the pattern means |
| `GlobCompleteness.GlobCompleteIff` | crates/mcp-server/src/exclude.rs:68-111 | with `/` special it misses no text if and only if every `*` after a `**` is followed by `/` and another star |
| `GlobCompleteness.MixedStarsMiss` | crates/mcp-server/src/exclude.rs:68-111 | the concrete miss: `**/*.js` means `a/b/c.js` and does not accept it |
| `Exclude.PrunedMeansExcluded` | crates/mcp-server/src/exclude.rs:22-64 | every path below a pruned directory is excluded, for any patterns |
| `Exclude.PathPatternMeaning` | crates/mcp-server/src/exclude.rs:35-64 | a pattern with a slash excludes nothing but what it means and what lies below that; it excludes all of it if and only if every `*` after a `**` is followed by `/` and another star, or is the last token |
| `Exclude.FinalStarIsMadeUpFor` | crates/mcp-server/src/exclude.rs:62-64 | the concrete case: `**/*` excludes all it means although the loop alone misses some |
| `Exclude.BareNameMeaning` | crates/mcp-server/src/exclude.rs:35-60 | a pattern without a slash excludes a path exactly when it matches one of its segments |
| `Exclude.PatternShapes` | crates/mcp-server/src/exclude.rs:35-64 | blanks around a pattern and one final slash do not count; with a slash in front or inside it is for the whole path or a directory above it, else for any segment |
| `Exclude.BlankExcludesNothing` | crates/mcp-server/src/exclude.rs:36-46 | blanks alone, or around one slash, exclude nothing |
| `Exclude.ExcludedBySome` | crates/mcp-server/src/exclude.rs:22-33 | a path is excluded if some pattern matches it, a directory likewise, but never the root |
| `Paths.Normalize` | crates/mcp-server/src/safety.rs:297-317 | the push and pop loop is the walk over the components |
| `Paths.NormalIsProper` | crates/mcp-server/src/safety.rs:297-317 | a normalised path has no `.`, `..` or empty component |
| `Paths.NormalIdempotent` | crates/mcp-server/src/safety.rs:297-317 | normalising again, from any directory, changes nothing |
| `Paths.RelativeIsFromHere` | crates/mcp-server/src/safety.rs:297-317 | a path with a slash in front is the same from everywhere, any other is what it is behind the working directory |
| `Paths.TrimsWholeRun` | crates/mcp-server/src/relay_controller.rs:1082-1084 | the whole run of slashes and backslashes at the end of the root is trimmed, and nothing else |
| `Paths.JoinStaysBelow` | crates/mcp-server/src/relay_controller.rs:1082-1084 | a joined path names the place below the root that its relative path says |
| `Paths.JoinStaysBelowExactly` | crates/mcp-server/src/relay_controller.rs:1082-1084 | it does so exactly for roots that are not empty and end in slashes only, or an empty one at `/` |
| `Paths.SomeBasesStray` | crates/mcp-server/src/relay_controller.rs:1082-1084 | an empty root leads to `/` instead of the working directory, a trailing backslash is lost from the name |
| `Paths.ReachesMeans` | crates/mcp-server/src/files.rs:181-198 | a walk gets to its end exactly if all the places in which a name is looked up are directories |
| `Paths.ObstructedMeans` | crates/mcp-server/src/files.rs:181-198 | it is stuck exactly if the first of them that is not one is a file |
| `Paths.PolicyMeans` | crates/mcp-server/src/safety.rs:272-293 | a path is allowed exactly if no denied path is a prefix of it, and an allowed one is, if any is listed |
| `Walk.WalkDir` | crates/mcp-server/src/files.rs:121-175 | the stack walk lists exactly the regular files that are not excluded, each once, and fails exactly where policy refuses the root or it is no directory |
| `Walk.PrunedKeepsNothing` | crates/mcp-server/src/files.rs:149-154 | pruning a directory loses no file that would have been listed |
| `WalkManifest.WalkIsManifest` | crates/mcp-server/src/files.rs:121-175 | the list has a line for each file not excluded and no other, with distinct relative paths unless two files share one |
| `Transfer.WriteKeeps` | crates/mcp-server/src/transfer.rs:133-190 | a further slice of the same file leaves what is in place in place |
| `Transfer.LastPieceCompletes` | crates/mcp-server/src/transfer.rs:151-190 | the last slice completes the file, whatever longer or shorter content was there |
| `Transfer.WriteIntoWhole` | crates/mcp-server/src/transfer.rs:151-190 | a slice delivered again after the end changes nothing |
| `Transfer.WrittenValid` | crates/mcp-server/src/transfer.rs:133-190 | any delivery, in any order and repeated, keeps the state of the transfer sound |
| `Transfer.EofCompletes` | crates/mcp-server/src/transfer.rs:151-190 | when the last slice arrives everything before it is already there |
| `Transfer.Destination.WillingMeans` | crates/mcp-server/src/transfer.rs:141-173 | a slice is taken in exactly if policy allows its path, its end fits 64 bits, and neither a directory nor a file above is in the way |
| `Transfer.Destination.ReceiveChunkRaw` | crates/mcp-server/src/transfer.rs:133-190 | refuses by policy, overflow or an obstacle without a trace; else writes, and answers by the checksum |
| `Transfer.StreamFile` | crates/mcp-server/src/transfer.rs:200-272 | on success the destination holds the source; slices are whole chunks, the last one what is left; at most 32 in flight, the last one alone; no other file touched; it fails only if the file got shorter or an answer is negative or missing |
| `Sync.DiffManifests` | crates/mcp-server/src/sync.rs:41-82 | the two loops build `ToSend` and `Extras` |
| `Sync.ToSendMeans` | crates/mcp-server/src/sync.rs:53-70 | a file is sent exactly if the destination's last entry for it is missing, or differs in size, or is older; with checksums, if one is missing or they differ by more than the case of letters |
| `Sync.ExtrasMeans` | crates/mcp-server/src/sync.rs:72-79 | a path is deleted exactly if the destination has it and the source does not |
| `Sync.PlanIsConsistent` | crates/mcp-server/src/sync.rs:41-82 | no source path is deleted, whatever is sent |
| `Sync.RelPathLeadsBackExactly` | crates/mcp-server/src/files.rs:145-149 | a manifest path leads back to its file exactly when no name has a backslash |
| `SyncRun.DirManifest` | crates/mcp-server/src/executor/mod.rs:385-398 | the answer says whether the root's path leads to a directory, and if so lists exactly the files below it that are not excluded; policy is asked only for a root that exists |
| `SyncRun.DeletePaths` | crates/mcp-server/src/files.rs:181-198 | removes the files that the paths lead to over directories; missing ones and directories are passed over, and exactly a path that policy refuses or that leads through a file ends it |
| `SyncRun.RunSync` | crates/mcp-server/src/relay_controller.rs:1156-1243 | for any names on the destination: writes only places of source files, removes files only where deletion is asked for, changes nothing policy forbids; a run that succeeds mirrors the source if and only if no file was hidden by a wrong entry and no deletion strikes a source file's place, and with `delete` leaves no extras if and only if their paths can be named; with nothing to do, or dry, it changes nothing; it fails only if something was refused or lost, a line leads to no source file, or a deletion is not possible |
| `SyncRun.RemotePlaceExactly` | crates/mcp-server/src/relay_controller.rs:1082-1084 | a relative path leads to its own parts right below the root exactly when these are proper names |
| `SyncRun.TargetsAreDoomed` | crates/mcp-server/src/relay_controller.rs:1236-1239 | the deletion request leads to exactly the places where the relative paths of files that the source lacks lead from the root over directories, inside the root or not |
| `SyncRun.TameExtrasAreSafe` | crates/mcp-server/src/relay_controller.rs:1236-1239 | if the files asked to be deleted have proper names between slashes and backslashes, deletion strikes no source file, nothing outside the root, and nothing but extras, even where it strikes another than the one asked for |
| `SyncRun.RunMirrors` | crates/mcp-server/src/relay_controller.rs:1184-1239 | a finished run has every source file up to date if and only if none that was not sent was out of date before and no deletion strikes one |
| `SyncRun.RunLeavesNoExtras` | crates/mcp-server/src/relay_controller.rs:1236-1239 | after the deletions no extras are left if and only if none had a backslash in its path or a source file's relative path; if the root was not found, if and only if there were none |
| `SyncRun.UnmaskedHidesNothing` | crates/mcp-server/src/sync.rs:48-70 | no file is hidden where no destination file shares a relative path with a source file elsewhere |
| `SyncRun.RunIsContained` | crates/mcp-server/src/relay_controller.rs:1184-1239 | transfers write only places of source files and deletions remove only where they are asked for, also when the run fails halfway |
| `SyncResults.SyncDir` | crates/mcp-server/src/relay_controller.rs:1092-1243 | from tree to tree: exactly when a run mirrors and leaves no extras; then every file has the source's size and is no older or was just sent, with checksums equal contents, with `delete` equal path sets; excluded and outside files unchanged exactly when no deletion strikes one, as when all names asked for are tame; nothing changed that either policy forbids |
| `SyncResults.ChecksumMirrorsContents` | crates/mcp-server/src/sync.rs:57-63 | comparing by a collision-free hash gives equal contents |
| `SyncResults.QuickCheckMirrorsSizes` | crates/mcp-server/src/sync.rs:57-64 | without checksums every mirrored file has its source's size, and was sent in this run or is no older |
| `SyncResults.NoExtrasMeansSamePaths` | crates/mcp-server/src/sync.rs:72-79 | for a mirrored tree, no extras and equal path sets are the same |
| `SyncResults.ContainedSparesTheRest` | crates/mcp-server/src/relay_controller.rs:1169-1173 | excluded files and files outside the root change only where a deletion strikes them, and with tame names none does and only extras disappear; without `delete` nothing disappears |
| `SyncResults.RestUnchangedExactly` | crates/mcp-server/src/relay_controller.rs:1236-1239 | after a run that succeeded they are unchanged if and only if no deletion struck one |
| `SyncResults.RepeatIsNoop` | crates/mcp-server/src/sync.rs:29-82 | a second plan, if the root is found, sends nothing if and only if it compares checksums or no destination file is older than its source; it deletes nothing if and only if there are no extras |
| `SyncResults.StraightIsClearable` | crates/mcp-server/src/executor/mod.rs:387-389 | a root whose path climbs out of no missing directory is found wherever files lie below it, so that extras can be cleared exactly when they can be named |
| `SyncResults.SyncTwice` | crates/mcp-server/src/relay_controller.rs:1092-1243 | a second sync, once nothing of the first is under way, changes no file, if the first succeeded and left none older than its source or checksums are compared; both runs fail only for the reasons a run may |
| `SyncResults.ForwardClockSettles` | crates/mcp-server/src/sync.rs:29-36 | a destination clock not behind the source files is enough for that |
| `SyncResults.LateSlicesChangeNothing` | crates/mcp-server/src/transfer.rs:133-190 | after a finished run no late or repeated slice changes a byte below the root |
| `SyncCases.BackslashHides` | crates/mcp-server/src/sync.rs:48-70 | the concrete case: a destination with `a\b` and no `a/b` gets nothing of the source's `a/b` |
| `SyncCases.BackslashStays` | crates/mcp-server/src/relay_controller.rs:1236-1239 | the concrete case: `a\b` is asked to be deleted as `a/b`, and stays |
| `SyncCases.BackslashOpensAnother` | crates/mcp-server/src/relay_controller.rs:1205-1207 | the concrete case: the source's `a\b` is opened as `a/b` |
| `SyncCases.GapStrikesAnother` | crates/mcp-server/src/relay_controller.rs:1236-1239 | the concrete case: a name with two backslashes in a row is asked to be deleted at the place of a file that both sides have |
| `SyncCases.FileInTheWay` | crates/mcp-server/src/files.rs:181-198 | the concrete case: beside a file `a`, the request for `a\b` ends with an error |
| `SyncCases.ClimbingLeavesTheRoot` | crates/mcp-server/src/relay_controller.rs:1236-1239 | the concrete case: `..\x` is asked to be deleted as `x` beside the root, and a file there is struck |
| `SyncCases.ClimbingOpensOutside` | crates/mcp-server/src/relay_controller.rs:1205-1207 | the concrete case: the source's `..\x` is opened and sent as `x` beside the root |
| `Routing.SelectTargets` | worker/src/room.ts:86-122 | the map in insertion order holds the best socket of each id so far |
| `Routing.SelectOne` | worker/src/room.ts:92-99 | the reduce keeps the first of the best sockets of one id |
| `Routing.PicksSelect` | worker/src/room.ts:101-122 | contacted are exactly the ids with a wanted socket, each once, on a socket none outranks |
| `Routing.SelectionMeans` | worker/src/room.ts:92-127 | contacted are the machines with a socket that is meant: by id, or accepting commands, with a tag in common, or of that operating system or family in any case; and on none is a meant socket better, by autonomy, acceptance and freshness in that order |
| `Routing.LastBestSelects` | crates/relay/src/routing.rs:95-111 | the Rust relay's choice of the last of equals is such a selection too |
| `Routing.SelectionsAgree` | crates/relay/src/routing.rs:27-122 | any two selections, in any order of sockets and with ties either way, have the same ids and equal ranks |
| `Routing.OneAndAllAgree` | crates/relay/src/routing.rs:16-29 | a machine gets single and broadcast commands on equally ranked sockets if and only if its best socket accepts commands |
| `Routing.OneAndAllDiffer` | crates/relay/src/routing.rs:12-29 | the concrete case: an autonomous send-only socket beside an accepting one |
| `Routing.DedupAgents` | worker/src/room.ts:56-77 | the loop over the two maps lists each machine once |
| `Routing.DedupLists` | crates/relay/src/routing.rs:31-63 | each machine once, with any socket's flags, the number of sockets, and one socket's metadata |
| `Routing.AutonomousIsServed` | worker/src/room.ts:46-55 | a machine listed as autonomous gets its commands on an autonomous socket |
| `Routing.SourceIsMostCapable` | crates/relay/src/routing.rs:31-63 | the listed metadata is a most capable socket's exactly when none has both flags or one that has comes in time |
| `Routing.MoreCapableIsPassedOver` | worker/src/room.ts:56-68 | the concrete case: an accepting, an autonomous, then a socket with both |
| `Routing.ListedFromSource` | crates/relay/src/routing.rs:36-63 | the listed line carries that socket's metadata |
| `Peers.PeerList.Handle` | crates/mcp-server/src/relay_controller.rs:1447-1485 | a list replaces, a join inserts or overwrites, a departure removes |
| `Peers.PeerList.UpsertPeer` | crates/mcp-server/src/state.rs:211-217 | the first entry of the id is replaced, or the peer appended |
| `Peers.PeerList.RemovePeer` | crates/mcp-server/src/state.rs:220-222 | every entry of the id is removed |
| `Peers.ListForgets` | crates/mcp-server/src/state.rs:120-122 | after a full list it does not matter what the client believed before |
| `RoomObject.RelayRoom.HandleAuth` | worker/src/room.ts:410-479 | the authentication step of the state machine |
| `RoomObject.RelayRoom.HandleDisconnect` | worker/src/room.ts:490-512 | announces a departure if no other socket holds the id, and drops the session's requests |
| `RoomObject.RelayRoom.RouteToOrigin` | worker/src/room.ts:516-526 | a result goes to the session that waits for it, or to all observers |
| `RoomObject.RelayRoom.IssueCommand` | worker/src/room.ts:284-311 | refuses before authentication, answers when nobody is meant, else remembers who asked and sends |
| `RoomObject.RelayRoom.UpdateAgent` | worker/src/room.ts:387-406 | replaces the description under the same id, keeps session and seniority, tells everybody |
| `RoomObject.RelayRoom.HandleWebSocket` | worker/src/room.ts:179-188 | a new socket is listed last, unidentified, with its token and as just heard from |
| `RoomObject.RelayRoom.WebSocketMessage` | worker/src/room.ts:205-408 | one inbound frame is one step of the state machine |
| `RoomObject.RelayRoom.WebSocketClose` | worker/src/room.ts:226-228 | a closed socket is announced and forgotten |
| `RoomObject.RelayRoom.WebSocketError` | worker/src/room.ts:230-233 | a broken socket is announced at once, but listed until it is reported closed |
| `RoomObject.RelayRoom.AlarmPass` | worker/src/room.ts:238-255 | the reaper's loop is the fold over the sockets stale at its start |
| `RoomObject.SelectStale` | worker/src/room.ts:15-21 | filters the sockets silent for more than 90 s; one never seen is not stale |
| `RoomRoster.NextKeeps` | worker/src/room.ts:238-512 | every event but an authentication that loses an identity keeps the agreement between the room and what each client makes of its frames |
| `RoomRuns.EveryRunAgrees` | worker/src/room.ts:238-512 | in every state reached without authenticating an identity away, a client that takes in its undelivered frames shows every live other machine and no unlisted one, whatever it showed before |
| `RoomRuns.EveryRunAgreesExactly` | worker/src/room.ts:238-512 | when every listed machine has a socket that is not closing, it shows exactly the other machines |
| `RoomRuns.EveryReplyGoesHome` | worker/src/room.ts:284-329 | in every state reached without authenticating while waiting, the result of a request in flight goes to the socket that issued it last and to no other |
| `RoomRuns.SecondAuthStrands` | worker/src/room.ts:410-440 | a second authentication keeps all requests routable if and only if the first session has none in flight |
| `RoomRuns.SecondAuthHaunts` | worker/src/room.ts:410-479 | after a second authentication, with an identity or none, another client's view has no unlisted machine if and only if the id stayed, another socket holds the old one, or the view lacked it; it had it unless the socket was closing |
| `RoomCases.SecondAuthCanStrand` | worker/src/room.ts:410-440 | the concrete run: arrive, authenticate, send a command, authenticate again; nobody waits for the answer |
| `RoomCases.SecondAuthCanHaunt` | worker/src/room.ts:410-479 | the concrete run: two machines arrive and authenticate, the first again under another id; the second goes on showing the first id |
| `RoomCases.ClosingIsListedNotShown` | worker/src/room.ts:490-512 | the concrete run: after a close frame the machine is listed and the other client shows it no more |
| `RoomReaper.ReaperAnnounces` | worker/src/room.ts:238-255 | one pass announces a machine to a socket that stays exactly once if all its sockets were silent for more than 90 seconds, and not at all otherwise |
| `RoomReaper.ReaperStrips` | worker/src/room.ts:238-255 | sockets silent for more than 90 seconds lose identity, session and requests; nobody else loses anything, and all other requests keep their sessions |
| `RoomReaper.SilentAreStale` | worker/src/room.ts:15-21 | picked are exactly the sockets whose last frame is more than 90 seconds old; one never seen is not |
| `RoomReaper.FrameKeepsSeat` | worker/src/room.ts:205-255 | a socket whose frame came at a moment keeps its seat through every pass up to 90 seconds later, and loses it in any later one |
| `RoomReaper.ReapedCloseSilently` | worker/src/room.ts:243-246 | a reaped socket that closes later is announced no more |
| `RoomTraffic.CommandArrives` | worker/src/room.ts:284-311 | a command arrives once at one best socket of each machine it is meant for, and nowhere else |
| `RoomTraffic.UpdateKeepsSeat` | worker/src/room.ts:387-406 | an update never changes id, session or seniority, and none under another id is taken |
| `RoomTraffic.AuthAnswersFirst` | worker/src/room.ts:410-451 | the first frame after admission is the session; a refusal touches nobody else |
| `RoomFrames.PingIsAnswered` | worker/src/room.ts:339-341 | a ping is answered to its sender, a frame that cannot be read refused, and nobody else gets anything |
| `RoomFrames.ObserversHear` | worker/src/room.ts:331-374 | events and answers to offers go to every socket without identity and to no other, under the sender's id or session |
| `RoomFrames.OfferFindsItsSession` | worker/src/room.ts:349-361 | an offer goes to one socket of the session it is for, or to nobody |
| `RoomFrames.ResultFindsItsSession` | worker/src/room.ts:516-526 | a result goes to one socket of the session that waits for it, and to the observers if there is none |
| `RoomFrames.ListIsAnswered` | worker/src/room.ts:266-282 | an authenticated socket gets the list with one line per machine, any other an error |
| `RoomFrames.CandsInOrder` | worker/src/room.ts:534-541 | the identified sockets are taken in the order of the room, each once |
| `RoomFrames.UpdateIsAnnounced` | worker/src/room.ts:387-406 | the new description, under the old session and seniority, is kept and told to all but the machine's own sockets; any other update does nothing |
| `RoomFrames.AuthIsRefused` | worker/src/room.ts:417-432 | without the server's token or with another than the socket came with, one refusal is sent and the socket asked to close |
| `RoomFrames.AuthIsAnswered` | worker/src/room.ts:434-478 | otherwise the session and the endpoint are told; a newcomer gets the lines of all other machines, and all others the merged line of its own |
| `RoomFrames.FarewellLeaves` | worker/src/room.ts:343-346 | a farewell is a departure: announced if it is the last socket of its machine, the session's requests dropped |
| `RoomFrames.ClosedIsForgotten` | worker/src/room.ts:226-228 | so is a reported closing; then the socket is listed no more, the others in order as before |
| `SessionIndex.SessionStore.CollectChanged` | crates/mcp-server/src/session_index.rs:252-284 | fetches the changed sessions in order until the deadline |
| `SessionIndex.SessionStore.ApplySessions` | crates/mcp-server/src/session_index.rs:291-347 | deletes, replaces, records, commits and saves as if sessions were taken one by one |
| `SessionIndex.SessionStore.Refresh` | crates/mcp-server/src/session_index.rs:202-218 | one refresh, over a scan of its own whatever list was cached; the stale flag is up afterwards exactly if the pass was cut, not committed or not reloaded |
| `SessionIndex.SessionStore.InvalidateCache` | crates/mcp-server/src/sessions.rs:82-87 | dropping the cached list, as every refresh does first, forgets it and marks the index stale |
| `SessionIndex.SessionStore.ListSessions` | crates/mcp-server/src/sessions.rs:52-75 | the cached list until it expires, else a new scan, which is cached |
| `SessionIndex.SessionStore.RefreshIfStale` | crates/mcp-server/src/session_index.rs:220-235 | a search refreshes when the index is stale or the time is due; a pass that was cut leaves it stale, so the next search continues |
| `SessionIndex.EachMessageOnce` | crates/mcp-server/src/session_index.rs:313-333 | each message that is not blank has exactly one document, numbered by its place, with its role, text and time and the provider, id, title, directory and time of its session |
| `SessionIndex.KeysTellApart` | crates/mcp-server/src/session_index.rs:96-98 | sessions of providers without the separator in their name have the same key exactly if provider and id are the same |
| `IndexAgreement.AgreesExactlyWhenReady` | crates/mcp-server/src/session_index.rs:252-347 | an uncut refresh agrees with a rebuild if and only if unchanged sessions were right, failing ones empty and no document an orphan |
| `IndexAgreement.FaithfulKept` | crates/mcp-server/src/session_index.rs:252-347 | cut, uncommitted and unsaved passes never make the manifest claim what is not so |
| `IndexAgreement.SeriesAgreesWithRebuild` | crates/mcp-server/src/session_index.rs:202-347 | after any series of passes whose findings fit what the index then holds, an uncut, committed pass leaves exactly the documents of a build from nothing |
| `IndexAgreement.CalmRunsAreFollowable` | crates/mcp-server/src/session_index.rs:202-347 | scans and transcripts that behave, by themselves, fit whatever index the series has reached |
| `IndexAgreement.CalmSeriesAgreesWithRebuild` | crates/mcp-server/src/session_index.rs:202-347 | after any series of passes over sessions that behave, though they vanish and passes are cut or fail, a committed pass with time for all leaves exactly the documents of a build from nothing; `updated` may go back as long as nothing was missing or lost |
| `IndexAgreement.CalmSeriesIndexesMessages` | crates/mcp-server/src/session_index.rs:202-347 | such a series leaves, for each session of the last scan that can be fetched, one document that describes each message that is not blank, and nothing else |
| `IndexAgreement.OwnedKept` | crates/mcp-server/src/session_index.rs:299-346 | documents keep belonging to recorded sessions if and only if the pass is not committed, or its manifest saved, or no session without a record got documents |
| `IndexAgreement.SavedSeriesOwns` | crates/mcp-server/src/session_index.rs:299-346 | after any series of passes none of which loses its manifest after a commit, every document belongs to a recorded session, and a committed pass clears all that vanished |
| `IndexAgreement.LostManifestOrphans` | crates/mcp-server/src/session_index.rs:344-345 | the concrete case: a session taken in by a pass that then loses its manifest leaves documents behind when it vanishes |
| `IndexAgreement.VanishedAreCleared` | crates/mcp-server/src/session_index.rs:301-310 | no document of a vanished session survives, if and only if none was an orphan |
| `IndexAgreement.ReturningSessionIsMissed` | crates/mcp-server/src/session_index.rs:261-264 | a swept session that comes back unchanged stays without documents |
| `IndexAgreement.FailedFetchKeepsOld` | crates/mcp-server/src/session_index.rs:338-342 | the concrete case: a changed session that cannot be fetched keeps its old documents |
| `MapReduce.Partition` | crates/mcp-server/src/mapreduce.rs:21-38 | parts in order, none empty, sizes at most one apart, together the whole input; none for no workers |
| `MapReduce.JobState.Record` | crates/mcp-server/src/mapreduce.rs:85-98 | overwrites one status and counts failures; unknown ids change nothing |
| `MapReduce.RunJob` | crates/mcp-server/src/mapreduce.rs:232-299 | at most `max_retries + 1` rounds, in each of which something is sent, and dispatches of each part, none after it is done, never stalled, reduced only over all outputs in order - all told by what the workers answered: success, output, error |
| `MapReduce.ReductionSeesAll` | crates/mcp-server/src/mapreduce.rs:200-205 | the reduction sees the result of every part, and the parts are the whole input if and only if there is a worker or nothing to do |
| `MapReduce.WithoutWorkersNothingIsSeen` | crates/mcp-server/src/mapreduce.rs:21-38 | without workers every job is one reduction of nothing, whatever the input |
| `Scheduler.CronScheduler.Tick` | crates/mcp-server/src/scheduler.rs:168-239 | fires exactly the due tasks, moves their baselines to now, counts them in memory and database |
| `Scheduler.TickMeans` | crates/mcp-server/src/scheduler.rs:168-239 | a task fires in a tick exactly if its schedule has an instant since its baseline, else its last run, else now; then it has run once more, at now |
| `Scheduler.CronScheduler.Add` | crates/mcp-server/src/scheduler.rs:63-83 | a valid expression that is stored starts at now with no runs; otherwise nothing changes |
| `Scheduler.CronScheduler.Seed` | crates/mcp-server/src/scheduler.rs:149-158 | loaded tasks count from the start of the loop |
| `Scheduler.EveryInstantFiresOnce` | crates/mcp-server/src/scheduler.rs:168-239 | every instant after the baseline up to the latest tick is in exactly one fired window, no other in any, whatever the clock does; the count is the number of windows |
| `Scheduler.TickMirrors` | crates/mcp-server/src/scheduler.rs:221-237 | a database that takes every write stays equal to memory |
| `TaskWait.FinishedTasksWakeTheirWaiters` | crates/mcp-server/src/relay_controller.rs:681-694 | under any interleaving, a waiter blocked on a finished task whose notification is not yet to come can move and returns |
| `TaskWait.ReturnsOnceFinished` | crates/mcp-server/src/relay_controller.rs:681-694 | under any interleaving, a waiter whose deadline has not passed returns only for a task that was recorded as done or failed |
| `TaskWait.ReportIsHandled` | crates/mcp-server/src/relay_controller.rs:1680-1711 | a report is recorded and wakes everybody who waits; done or failed, it takes the task's watch and removes the reminder registered last |
| `TaskWait.RemovalsAreBounded` | crates/mcp-server/src/relay_controller.rs:1680-1711 | reminders are removed at most once for each registration, and only ones that were registered |
| `Transcript.CapTranscript` | crates/mcp-server/src/sessions.rs:141-168 | keeps the longest suffix that fits, unchanged if it is all, else behind one marker with the counts |
| `Transcript.ShownIsTail` | crates/mcp-server/src/sessions.rs:35-40 | shown are the last messages, at most 1000 and 700000 bytes or one alone, one more being too many, behind a marker with the counts if any is left out |
| `Transcript.LongestIsExact` | crates/mcp-server/src/sessions.rs:141-154 | a suffix fits if and only if it is no longer than the one kept |
| `Transcript.SomethingIsShown` | crates/mcp-server/src/sessions.rs:146-154 | of a transcript that is not empty at least one message is kept, however long |
| `Transcript.WindowedTranscript` | crates/mcp-server/src/sessions.rs:118-137 | the messages around the cited one, behind a marker, and then capped like any transcript |
| `Transcript.WindowIsCentred` | crates/mcp-server/src/sessions.rs:118-137 | the window holds the messages at most `half` away from the cited one, or from the last, and its marker names bounds, total and that message |
| `Transcript.CitedIsShownExactlyWhen` | crates/mcp-server/src/sessions.rs:118-137 | the cited message is shown if and only if it fits with what follows it in the window |
| `Transcript.CitedCanBeCutAway` | crates/mcp-server/src/sessions.rs:118-137 | the concrete case: a cited message beside one that fills the cap is not shown |

## Left out

- Sockets, QUIC and UDP channels, hole-punching, file handles, SQLite, process spawning: files
  are byte sequences, trees a datatype, the network and the database nondeterministic.
- Encryption, real hash functions, base64 and protobuf: payloads are opaque.
- Symbolic links on the destination and permission errors in the middle of a walk.
- `SyncRun.RunSync`: two source files with the same relative path (`a\b` beside `a/b`) are both streamed to one place, and
  source names with an empty, `.` or `..` part between slashes and backslashes lead to other files, on both hosts
  (`SyncCases.ClimbingOpensOutside`); runs over such source names are left out, because late slices of the one transfer
  may then overwrite the other's.
- `SyncRun.RunSync`: where the root's path climbs out of a missing directory (`x/../y`), transfers create that directory;
  here they do not, and such a root counts as not found.
- A source name with a backslash that reads back as a symbolic link: the link would be followed, here nothing is found.
- The mode that forbids a host all writing: every host here may write where policy allows.
- `SyncRun.RunSync`: progress counters and size limits of the transfer store are not modelled; they decide nothing.
- `Transfer.StreamFile`: a file that changes while it is read is covered only in so far as the checksum is taken from the
  same content.
- Concurrent transfers to one destination path, and slices of an earlier transfer still under way to it: the code makes no
  promise there.
- `connection.rs`, which repeats the sync and transfer code for agents, and the Rust relay's message handler.
- Windows path prefixes, drive letters and case-insensitive file systems.
- The text index itself, scoring, snippets and the grouping of hits by session: the index is a map from session to documents.
- `SessionIndex.SessionStore.ApplySessions`: a failure between two documents, which leaves uncommitted work in the writer,
  is treated like a failed commit.
- `MapReduce.RunJob`: more than 2^32 partitions or retries, where ids and counters would wrap.
- The cron parser: an expression is a set of instants with a "first strictly after".
- `Scheduler.CronScheduler.Tick`: adding or removing the same task while its command runs.
- `collect_replies` and the timeouts of commands: they only bound waiting.
- Transcript parsers, tool plumbing, configuration, daemon, installer and tunnels: field copying and I/O.
