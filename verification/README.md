# Verified model of the workbench core

A Dafny model of the parts of the `core` crate whose correctness only shows over
all inputs, all interleavings or all failure points, with proofs of what those
parts are for. `dafny verify dfyconfig.toml` checks all of it.

| file | models |
|---|---|
| `InputPath.dfy`, `ExecPump.dfy`, `ExecProgress.dfy` | the SSH input queue and gate, the interactive backlog, and the duplex exec channel (RFC 4254 sections 5.2, 5.3, 6.5 and 6.10) as a labelled transition system: a reader and a writer side by side, bounded queues, the send window, the input gate and the final drain |
| `SessionsDir.dfy`, `VersionNames.dfy`, `ArchiveStore.dfy`, `SnapshotIdentity.dfy` | the archive: a directory whose every operation may fail, the replace protocol with roll-back and version carry-over, the names versions get, and when two snapshots count as the same |
| `ArchiveHealing.dfy`, `RunConservation.dfy`, `ArchiveRun.dfy` | what later writes make of what failed ones left, in the same process and after a restart; the whole archive run with its markers and summaries, and what any number of runs keeps |
| `LiveStream.dfy` | scrollback, sequence numbers, fan-out, subscription and snapshots |
| `Calendar.dfy`, `Rfc3339.dfy` | civil dates and day numbers both ways, and RFC 3339 timestamps (section 5.6) read and printed |
| `JsonExtract.dfy` | cutting the first JSON object out of prose, against a printer of JSON values (RFC 8259) |
| `Timeline.dfy`, `RolloutMapper.dfy` | the timeline with its index, and the mapping of transcript records onto it |
| `RolloutMatch.dfy` | which transcript belongs to which tab |
| `HeadScan.dfy` | probing the head of a transcript through a chunked reader under two budgets |
| `Liveness.dfy` | whether a session is still open elsewhere |
| `SidecarCache.dfy` | session snapshots and their summary sidecars |
| `Wrappers.dfy` | options, results and sequence helpers |

How the model stands to the code:

- A crash between two file operations is every later operation failing, so one
  oracle of failures covers errors and crashes alike. Rename onto a folder that
  is there fails. Directories are read in any order, which is a parameter. A
  process that starts counts its suffixes from zero.
- The SSH transport follows three rules: its connection loop parks while the
  channel queue is full, only that loop delivers WINDOW_ADJUST, and a write waits
  for window. Queue operations are atomic. A cancelled exec is one that stops
  anywhere before it has finished.
- Text handled by bytes is a sequence of bytes, or of characters that stand for
  bytes. Decoders (JSON records, snapshots, path joining, project markers) are
  parameters, so the results hold for every decoder.
- Integer widths are unbounded: sequence numbers, revisions and epoch seconds do
  not wrap.
- Where the code and its own comments differ the model follows the code: the
  matching window is 10 seconds where the rule list says 30; a head scan reads
  past its byte budget, by up to one reader chunk, on files with a record that
  cannot be held and ends past the budget, where the comment calls the budget a
  ceiling, and on all other files it is one; a snapshot whose summary cannot be
  read counts as having none; a skip run with a blank memo re-lands the earlier
  summary, so its repeat is not unchanged; writing the earlier summary back at
  once keeps it through a crash during the extraction, but not through one between
  the landing and that write; and reclaiming what a crash left is certain within
  the process, while after a restart two versions can want one name and leave a
  folder aside.

## Model

| member | source | states |
|---|---|---|
| InputPath.InputChannel.SendInput | core/src/ssh.rs:295-309 | accepted exactly when the gate lets it through and the queue of 512 is open and not full, else refused for the first of these reasons; an accepted message is last in the queue, a refused one changes nothing |
| InputPath.InputChannel.UndeliveredBytes | core/src/ssh.rs:785-792 | the queue is closed and empty and its bytes are all in the total |
| InputPath.PumpBacklog | core/src/ssh.rs:497-536 | for every schedule the loop is the turns one after the other up to the first refused write; bytes written and backlog together are the messages pulled, in order, in non-empty chunks of at most the limit |
| InputPath.RoundsDeliver | core/src/ssh.rs:497-536 | pulling and writing by turns, all input is written after one round for each 8192 bytes of each message, and never sooner |
| ExecPump.InvStep | core/src/ssh.rs:597-777 | every step of reader, writer, callers and transport keeps the conservation, wire, event and signal invariants |
| ExecPump.ReachableInv | core/src/ssh.rs:597-777 | the invariants hold in every reachable state |
| ExecPump.InputIsConserved | core/src/ssh.rs:693-759 | accepted messages are, in order, those written whole, those counted, the one in hand and the queue; at the end every one is written or counted once |
| ExecPump.CountNeverFallsShort | core/src/ssh.rs:693-759 | the wire is a prefix of the accepted bytes holding every written message whole; at the end wire and count exceed the accepted bytes by exactly the part of one cut message that got out |
| ExecPump.NothingGivenUp | core/src/ssh.rs:704-759 | in every run without a write error nothing is lost while the reader has not let go, and a writer past its loop has no more callers and an empty queue, so that what it was given is written |
| ExecPump.EofMeansAll | core/src/ssh.rs:729-758 | EOF goes out at most once, and on streamed input only when the callers have gone and every accepted byte is on the wire |
| ExecPump.WindowIsExact | core/src/ssh.rs:577-588 | bytes written and window left are the first window and every adjustment delivered |
| ExecPump.CallerIsAnswered | core/src/ssh.rs:295-309 | in every state a caller passes the gate exactly while the command reads and runs, and its message is queued exactly if the queue is open and has room |
| ExecPump.RacingSenderIsAnswered | core/src/ssh.rs:295-309 | a caller past the gate when it shuts is queued and will be counted, or refused; once the queue is drained every send is refused |
| ExecPump.OneTerminalEvent | core/src/ssh.rs:616-777 | a finished exec has emitted its stderr in order and then one terminal event, which carries the last status and signal before Close even past an Eof, or the rejection; before that no terminal event |
| ExecPump.UpToEndMeans | core/src/ssh.rs:641-697 | what counts for the report is what was sent up to the first Close or Failure, that one included, or everything |
| ExecPump.NothingPassedOver | core/src/ssh.rs:597-777 | a consumer that stays takes every event emitted, once and in order |
| ExecPump.ArrivedInOrder | core/src/ssh.rs:641-697 | what arrived is what the server sent, in order, and a hang-up is remembered |
| ExecPump.ReadyOnceAfterSuccess | core/src/ssh.rs:641-702 | Ready is announced exactly when Success has been read, once, and neither an input byte nor EOF precedes it |
| ExecPump.GateShutsBeforeRelease | core/src/ssh.rs:693-700 | from the moment the reader lets go, no new caller gets past the gate |
| ExecPump.ReadChannel | core/src/ssh.rs:641-702 | the reading loop's rejection, status, signal, output and events are those of the messages up to the first that ends the channel |
| ExecProgress.ReaderWardDecreases | core/src/ssh.rs:577-588 | each step that carries server messages to the reader lowers the measure a WINDOW_ADJUST waits on |
| ExecProgress.WriterNeverDelaysReader | core/src/ssh.rs:577-588 | no step of the writer or of a caller raises it |
| ExecProgress.ReaderNeverBlockedByWriter | core/src/ssh.rs:577-588 | while a server message is ahead, a step towards the reader is possible whatever the writer is parked on |
| ExecProgress.BackPressure | core/src/ssh.rs:577-588 | the reader waits only for a consumer that is there and 256 events behind, and no longer once it leaves; the connection loop only for a channel holding 100 messages |
| ExecProgress.NoWedge | core/src/ssh.rs:577-777 | a state that is neither finished nor waiting for the server can move by itself |
| ExecProgress.InternalRunsEnd | core/src/ssh.rs:577-777 | internal steps are bounded by the state's rank |
| ExecProgress.EveryRunSettles | core/src/ssh.rs:577-777 | where internal steps run out, the exec has finished, or waits for the server with every message read; it has finished if the server closed, refused or hung up; one that waits with a started stream and nothing given up has put all accepted input on the wire, or is in the middle of a message with no window left |
| ExecProgress.AcceptedInputArrives | core/src/ssh.rs:704-759 | from the start, without a write error and with the channel open: where internal steps run out all accepted input is on the wire if the windows granted are large enough for it, and else exactly as much as they allow |
| ExecProgress.OneSelectWedges | core/src/ssh.rs:577-588 | with reading and writing in one select, a run reaches a state that no internal step leaves, the window it needs already sent |
| ExecProgress.WedgedForever | core/src/ssh.rs:577-588 | from such a state, whatever arrives and whatever callers do, that design makes no internal step until a write errs; the split one can move in every state on the way |
| SnapshotIdentity.SameContentLaws | core/src/archive.rs:171-181 | sameness needs equal line counts, and equal uuids where both have one; it is reflexive and symmetric, and transitive among snapshots with uuids |
| SnapshotIdentity.SameContentNotTransitive | core/src/archive.rs:171-181 | three snapshots, one without a uuid, where it is not transitive |
| SnapshotIdentity.StatAppend | core/src/archive.rs:219-235 | a text cut after a newline has the bytes and records of both parts and the last uuid of the later one that has one |
| SnapshotIdentity.OneRecord | core/src/archive.rs:219-235 | a record written out adds one line, and its uuid is read without a carriage return |
| SnapshotIdentity.GrowthShows | core/src/archive.rs:171-181 | a transcript that grew is a different one whatever the new records carry, if and only if more than white space was added or no uuid tells that it is the same |
| SnapshotIdentity.TailAgrees | core/src/archive.rs:190-235 | a uuid found in the tail window is the full scan's last uuid, for every text and window; a window covering the file always agrees |
| SnapshotIdentity.TailFindsWhatItCovers | core/src/archive.rs:190-235 | a window holding whole lines, also one starting on a line boundary, finds the last uuid those lines have |
| SnapshotIdentity.TailStartsALine | core/src/archive.rs:190-216 | the window is cut at the first line start in it, and loses nothing when it starts on one |
| SessionsDir.SessionsDir.Rename | core/src/archive.rs:566-581 | moves a folder only onto a free name, or fails and changes nothing |
| SessionsDir.RenameKeeps | core/src/archive.rs:566-581 | moving a session's folder to a free name loses no version and touches no other session |
| SessionsDir.MoveEntryKeeps | core/src/archive.rs:591-606 | moving a history entry between folders of a session loses no version |
| SessionsDir.BecomeVersionKeeps | core/src/archive.rs:616-626 | a displaced folder turned into a history version loses no version |
| ArchiveStore.Discover | core/src/archive.rs:502-528 | finds only folders whose recorded uuid is the session's, never by name; with nothing failing and names as written, all of them |
| ArchiveStore.Displace | core/src/archive.rs:543-574 | previous folders lie aside whole in order, up to the first that will not move |
| ArchiveStore.Rollback | core/src/archive.rs:566-581 | loses no version and shows nothing that was not shown; with nothing failing restores the directory exactly |
| ArchiveStore.CarryOne | core/src/archive.rs:595-605 | a history entry moves to the new folder under its own or a fresh name and nothing is overwritten |
| ArchiveStore.FoldAll | core/src/archive.rs:586-632 | with nothing failing: if every name brought finds its own or its suffixed form free, the displaced folders are gone and the new history holds exactly their histories and differing snapshots besides its own; if one does not, a displaced folder is left |
| ArchiveStore.WriteArchive | core/src/archive.rs:445-638 | under any failures no version is lost or invented, no other session changes, an archived session stays archived and no number still to be given out comes into use; an error keeps all versions and shows nothing new; with nothing failing it lands unless the name is another session's, and then one folder is left, holding every carried version, exactly if there was room for the name of each |
| ArchiveStore.NoVersionEverLost | core/src/archive.rs:502-632 | over any sequence of failed and crashed writes of any sessions, each version is stored or was superseded by a landed snapshot of the same content, and an archived session has an archive |
| ArchiveStore.OtherSessionsUntouched | core/src/archive.rs:508-528 | folders of other uuids, also of the same first eight characters, are unchanged by a write |
| ArchiveStore.WellNamedThroughout | core/src/archive.rs:508-528 | folders stay named after their sessions through any writes, so that a listing by name misses none |
| ArchiveHealing.HealsAfterErrors | core/src/archive.rs:502-632 | after any writes of any sessions with any calls failing, the first with nothing failing leaves exactly one folder of its session, unless its name is somebody else's; every version there was at the start is stored or has the content of a snapshot written since |
| ArchiveHealing.NumberedIsClear | core/src/archive.rs:591-626 | where no suffix in use has a number still to come, every version finds a name, in whatever order directories are read |
| ArchiveHealing.ApartIsClear | core/src/archive.rs:591-626 | so it does, whatever the counter, where no two folders of the session share a version name and none holds a name about to be made |
| ArchiveHealing.SoleIsClear | core/src/archive.rs:591-626 | with one previous folder there is room for all unless it differs and its history holds both the name it is to get and that name with the suffix it would be given |
| ArchiveHealing.WriteAfterRestart | core/src/archive.rs:445-638 | the first write of a new process with nothing failing, over any directory an earlier one left, lands unless the name is another session's and is complete exactly if there is room for every version with the counter at zero |
| ArchiveHealing.RestartLeavesAside | core/src/archive.rs:586-632 | directories on which it is not: one folder of the session whose history has both forms of the name; the write lands and the old folder stays aside |
| ArchiveHealing.ShorterIsNeverLost | core/src/archive.rs:171-181 | under any failures, a write of a grown transcript keeps every stored snapshot of an earlier cut of it, and every unreadable one |
| ArchiveHealing.ShorterBecomesVersion | core/src/archive.rs:502-632 | with nothing failing and room for its name, that snapshot is in the history of the one folder left |
| ArchiveRun.FindArchived | core/src/archive.rs:794-804 | finds a listed folder of the session; with nothing failing, whenever there is one |
| ArchiveRun.Extract | core/src/archive.rs:1087-1107 | the extractor is called until it answers or its attempts are used up, and no more often |
| ArchiveRun.FinishRun | core/src/archive.rs:1076-1228 | what the run reports as complete is complete on the landed folder, whichever writes failed, and stores the reply's summary under the reply's title, or the memo; that folder has the earlier summary, the memo or an extractor's, unless the run reports that the earlier one was not preserved, which it never does with nothing failing |
| ArchiveRun.RunArchive | core/src/archive.rs:1015-1228 | reported and on-disk completeness are equivalent for every run that wrote; an unchanged run calls no extractor and writes nothing, and with nothing failing leaves a folder complete, of the same label, transcript and memo; the landed folder would be skipped next time exactly when the run was no blank-memo skip that carried a summary over; the summary of the folder found is carried over or the run says it was unreadable, and is kept, replaced by a newer one or reported lost, and still stored after a failed write; no reply and unparsable entries are reported; versions are kept up to summary and markers |
| ArchiveRun.GoodReplyIsStored | core/src/archive.rs:1087-1213 | with nothing failing, both names free and no unchanged folder: if the first reply within the attempts has a summary and its entries parse, the run is complete without a warning, made no further call, and the one folder left has exactly that summary, the reply's title or the fallback one, the name made of it, and the ok marker |
| ArchiveRun.BadReplyIsIncomplete | core/src/archive.rs:1087-1213 | whatever fails or not, a run whose reply is missing, has no summary or has entries that do not parse is not complete, in the report or on disk |
| ArchiveRun.GrownIsArchivedAgain | core/src/archive.rs:1015-1050 | a run over a grown transcript is never unchanged, and every listed snapshot of an earlier cut is still stored after it, under any failures |
| ArchiveRun.RepeatRun | core/src/archive.rs:1015-1228 | the repeat of a complete run with the same request is unchanged, with no extractor call, if and only if the run was no skip run with a blank memo that carried a summary over |
| ArchiveRun.BlankMemoNeverSettles | core/src/archive.rs:971-987 | over any folders that all have a summary, a skip run with a blank memo completes and its repeat is not unchanged |
| ArchiveRun.WindowKeepsSummary | core/src/archive.rs:1072-1082 | right after a complete landing a summary is stored exactly if a version with it had a place in the history |
| ArchiveRun.CrashInTheWindow | core/src/archive.rs:1072-1082 | archiving the same transcript again over its one folder, which has a summary and no history, and dying between the landing and the writing back: the summary is stored nowhere |
| RunConservation.NoVersionLostOverRuns | core/src/archive.rs:1015-1228 | over any sequence of runs of any sessions, failed and crashed ones included, each version is stored up to summary and markers, or a run of its session stored a snapshot of the same content |
| RunConservation.ArchivedOverRuns | core/src/archive.rs:1015-1228 | an archived session stays archived through any runs, and folders stay named after their sessions |
| LiveStream.Scrollback.Push | core/src/session.rs:111-122 | one number further, and the last `cap` bytes of what was kept and the chunk |
| LiveStream.Scrollback.Seed | core/src/session.rs:83-90 | the last `cap` bytes of the seed, the counter unchanged |
| LiveStream.Shared.SendAll | core/src/session.rs:67-71 | every live receiver gets the chunk once and the senders of gone ones are dropped, order kept |
| LiveStream.Shared.Emit | core/src/session.rs:67-71 | numbering and keeping a chunk, then fanning it out |
| LiveStream.Shared.Subscribe | core/src/session.rs:414-420 | a new receiver, last in the list, with nothing received |
| LiveStream.InvStep | core/src/session.rs:67-122 | every interleaved step keeps queues and snapshots exact |
| LiveStream.NoLossNoDuplication | core/src/session.rs:404-420 | subscribe then snapshot at any moments: the snapshot and the chunks numbered past it are the seed and output from exactly where the cap cut, consecutive in number, and complete once the client has read all |
| LiveStream.LateSubscriberSeesPending | core/src/session.rs:67-71 | a receiver added between numbering and fan-out gets the chunk and drops it again |
| LiveStream.SnapshotFirstLoses | core/src/session.rs:404-420 | in the other order a whole chunk can be lost |
| Calendar.CountsDays | core/src/codex_rollout.rs:122-130 | the next valid date has the next day number, by the leap rule, from 1970-01-01 as 0 |
| Calendar.CivilInvertsDays | core/src/graph.rs:542-553 | date to day number and back, for every valid date of every year |
| Calendar.DaysInvertsCivil | core/src/graph.rs:542-553 | day number to date and back, for every day number, and the date is valid |
| Calendar.CivilSuccessor | core/src/graph.rs:542-553 | the next day number's date is the next date of the naive calendar |
| Rfc3339.PrintedReads | core/src/codex_rollout.rs:65-119 | a timestamp printed with any separator, any fraction and any spelling of the offset reads as the instant it names |
| Rfc3339.LocalTimeReads | core/src/codex_rollout.rs:65-119 | whatever zone a moment is written in, the local date and time with the zone's offset read back as that moment, in milliseconds of the first three digits of the fraction |
| Rfc3339.EastIsAhead | core/src/codex_rollout.rs:97-118 | `+HH:MM` follows a local time that is so much later than UTC, `-HH:MM` one that is so much earlier |
| Rfc3339.ReadExactly | core/src/codex_rollout.rs:65-83 | a printed stamp in UTC is read if and only if its fields are in range |
| Rfc3339.TailRefused | core/src/codex_rollout.rs:85-116 | a full stop without a digit, a sign without two digits and anything else but `Z` after the seconds are refused |
| Rfc3339.FormatThenParse | core/src/graph.rs:532-540 | reading a printed second gives that second for every second before the year 10000 and nothing from then on |
| Rfc3339.FormatIsInjective | core/src/graph.rs:532-540 | different seconds print differently before the year 10000 |
| Rfc3339.OverflowingFieldsRunOver | core/src/codex_rollout.rs:79-81 | day 31 and second 60 pass in every month and run over, so reading is not injective |
| JsonExtract.ExtractJsonObject | core/src/graph.rs:124-154 | for every text: from the first brace on, the shortest prefix whose braces outside strings balance, or nothing if there is none; the depth never goes below zero |
| JsonExtract.ExtractIsFirstObject | core/src/graph.rs:124-154 | that description has at most one answer |
| JsonExtract.PrintedObjectBalances | core/src/graph.rs:124-154 | a printed object balances at its end and nowhere before, whatever its strings hold |
| JsonExtract.ExtractsPrintedObject | core/src/graph.rs:116-154 | for every well-formed object, prose without a brace before it and anything after it, that object is cut out |
| JsonExtract.CutShortYieldsNothing | core/src/graph.rs:124-154 | an object cut short anywhere yields nothing |
| JsonExtract.ExtractStable | core/src/graph.rs:124-154 | what was cut out is cut out of itself, and text after it changes nothing |
| TimelineModel.Timeline.IndexIsLinearSearch | core/src/timeline.rs:200-210 | the hash index is the linear search, for every key |
| TimelineModel.Timeline.Entry | core/src/timeline.rs:200-210 | a known key's position, or a blank item added at the end; index agreement and numbering by position are kept |
| TimelineModel.Timeline.CancelOpen | core/src/timeline.rs:230-237 | exactly the pending and running items become canceled with one revision more |
| TimelineModel.Timeline.SetWriteStatus | core/src/timeline.rs:241-256 | exactly the item of the key, if any, gets the write status and one revision more |
| TimelineModel.Timeline.SetWriteStatusByPath | core/src/timeline.rs:262-280 | exactly the last item with the path among its locations or diffs, if any, gets the write status and one revision more |
| RolloutMapping.RolloutMapper.Open | core/src/codex_rollout.rs:790-825 | opening creates or fills blanks and overwrites nothing |
| RolloutMapping.RolloutMapper.Complete | core/src/codex_rollout.rs:827-850 | closing creates or updates: the first body stays, the status is the new one |
| RolloutMapping.RolloutMapper.ApplyFunctionCall | core/src/codex_rollout.rs:628-662 | the opening record of a call, with its explicit working directory |
| RolloutMapping.RolloutMapper.ApplyCustomCall | core/src/codex_rollout.rs:664-680 | the opening record of a custom call |
| RolloutMapping.RolloutMapper.ReadParsed | core/src/codex_rollout.rs:688-699 | the first recognised kind and every path of a parsed command line |
| RolloutMapping.RolloutMapper.ApplyExecEnd | core/src/codex_rollout.rs:684-719 | the end of a command on exactly its call's item |
| RolloutMapping.RolloutMapper.ApplyPatchEnd | core/src/codex_rollout.rs:721-752 | the end of a patch on exactly its call's item |
| RolloutMapping.ExecEndMeans | core/src/codex_rollout.rs:684-719 | after a command's end its call is failed if and only if the exit code is there and not zero or the status is "failed", and else completed; kind, locations, body, directory and revision from the record's fields |
| RolloutMapping.PatchEndMeans | core/src/codex_rollout.rs:721-752 | after a patch's end its call is failed if and only if success is false; locations are the changes' paths, and each diff is by its change's type |
| RolloutMapping.KindMeans | core/src/codex_rollout.rs:688-699 | the kind is that of the first parsed entry of type read, search or list_files |
| RolloutMapping.PathsMean | core/src/codex_rollout.rs:688-699 | the locations are the non-empty paths, joined, in order |
| RolloutMapping.OutputMeans | core/src/codex_rollout.rs:559-582 | after an output record its call is completed, with the body if it had none |
| RolloutMapping.FunctionCallMeans | core/src/codex_rollout.rs:628-662 | what an opening record makes of a new call and fills in on a known one, for each of the three forms |
| RolloutMapping.CustomCallMeans | core/src/codex_rollout.rs:664-680 | the same for custom calls |
| RolloutMapping.AbortedTurnMeans | core/src/codex_rollout.rs:534 | an aborted turn cancels exactly the pending and running calls |
| RolloutMapping.TurnsAndSession | core/src/codex_rollout.rs:476-513 | over any transcript the turn is the number of user messages, and the session that of the last record naming one |
| RolloutMapping.OpenAndEndCommute | core/src/codex_rollout.rs:788-850 | opening and end of one call in either order give the same items in every field, but one revision more for a call first seen by its end |
| RolloutMapping.SwapInTranscript | core/src/codex_rollout.rs:628-752 | swapping them anywhere in a transcript changes only revisions in the finished timeline |
| RolloutMapping.OthersUntouched | core/src/codex_rollout.rs:790-850 | a record of one call leaves every other call's item alone |
| RolloutMapping.FirstSightingLasts | core/src/codex_rollout.rs:788-850 | whatever records follow, a call keeps its number, first turn, raw input, first body and write status, and revisions only grow |
| RolloutMapping.LastEndingDecides | core/src/codex_rollout.rs:827-850 | a call's status is its last ending's, whatever comes before, and whatever else comes after |
| RolloutMapping.OutputResetsFailure | core/src/codex_rollout.rs:559-582 | an output record after a failed end makes the call completed |
| RolloutMatching.OutcomeMeans | core/src/codex_rollout.rs:324-346 | matched exactly on the one candidate that is unclaimed, covered and covered by no other live tab; each other outcome characterised as well |
| RolloutMatching.NarrowKeeps | core/src/codex_rollout.rs:276-282 | exactly the candidates this app marked as its own remain |
| RolloutMatching.LoneTabWindow | core/src/codex_rollout.rs:224-346 | a tab alone is matched to the one transcript of its directory exactly when that started from two seconds before its spawn to ten after, and never to an undated one or without a directory |
| RolloutMatching.ContestRange | core/src/codex_rollout.rs:299-310 | two tabs can contest a transcript exactly when they share a directory and started within 12 seconds of each other |
| RolloutMatching.ContestedMeans | core/src/codex_rollout.rs:299-346 | a transcript is contested exactly when another tab that is still looking was spawned in its directory, from ten seconds before it started to two after |
| RolloutMatching.OnlyOwnIsEligible | core/src/codex_rollout.rs:324-346 | while the writer of a transcript is still looking, nobody else is eligible for it |
| RolloutMatching.ClaimsAreOwnAndInjective | src-tauri/src/commands/codex.rs:528-552 | along every sequence of spawns, appearing transcripts and polls each tab shows its own transcript and no two the same |
| RolloutMatching.PollMatchesExactlyOwn | src-tauri/src/commands/codex.rs:528-552 | a poll, also one begun before its tab was resolved, matches if and only if the tab is still looking, the scan saw its own transcript and no other tab still looking covers it; it never finds several |
| RolloutMatching.PollResolves | src-tauri/src/commands/codex.rs:528-552 | a poll that saw the tab's transcript resolves the tab to it exactly then, and changes nothing else |
| RolloutMatching.FallbackShowsAStranger | core/src/codex_rollout.rs:252-275 | without narrowing, any outside session of the directory and window would be matched before the tab's own exists |
| RolloutMatching.ForgettingAWriterMismatches | src-tauri/src/commands/codex.rs:392-413 | dropping a writer's record while its transcript is unclaimed gives that transcript to another tab |
| HeadScanning.Probe.FeedLine | core/src/scan.rs:109-135 | first directory and first prompt stay, date and title follow the last record |
| HeadScanning.ProbeMeans | core/src/scan.rs:109-135 | over the records any lines decode to: the first directory, the last date, the last non-empty written title, and the first user text with its marker |
| HeadScanning.SurroundedParses | core/src/scan.rs:109-110 | white space around a record, of six kinds, is not decoded |
| HeadScanning.RecordsPartition | core/src/scan.rs:268-269 | the records of a file are its bytes, cut after each newline and nowhere else |
| HeadScanning.Reader.ReadUntilNewline | core/src/scan.rs:268-269 | the record at the reader, cut at the cap, however the reader chunks |
| HeadScanning.DiscardToNewline | core/src/scan.rs:311-333 | what a drain skips and why it ended, chunk by chunk |
| HeadScanning.DrainEnds | core/src/scan.rs:311-333 | how a drain ends in terms of the file alone |
| HeadScanning.FoldHead | core/src/scan.rs:235-294 | the loop computes the scan |
| HeadScanning.HeadIsBounded | core/src/scan.rs:235-333 | on every file the buffer stays within one record's cap and the byte budget, and at most the byte budget and one chunk is read |
| HeadScanning.CeilingExactly | core/src/scan.rs:216-294 | whatever the reader's chunks, no more than the byte budget is read, exactly on the files whose scan comes to no record that is more than can be held and ends past the budget |
| HeadScanning.ByteBudgetOvershoots | core/src/scan.rs:216-294 | at every budget, both the program's included, each reader reads its next chunk whole past the budget on a file whose second record begins on the budget's last byte |
| HeadScanning.GiganticRecordStaysWithin | core/src/scan.rs:545-580 | a first record longer than the budget, whatever follows it, is read exactly to the budget by a reader that refills eight kilobytes at a time |
| HeadScanning.ScanIsHead | core/src/scan.rs:235-294 | probe and verdict are those of feeding the planned lines, which depend on records and budgets alone |
| HeadScanning.ChunksDoNotShow | core/src/scan.rs:235-333 | two readers of one file give the same probe and verdict |
| HeadScanning.FedAreWholeRecords | core/src/scan.rs:235-294 | every line fed is a whole record of the file, in the file's order |
| HeadScanning.LargerBudgetsFollow | core/src/scan.rs:174-197 | a scan that found what it looked for is followed by every scan with larger budgets, with the same stop rule or none |
| HeadScanning.HeadAgreesWithCwd | core/src/scan.rs:174-197 | a directory found by the cheap probe is the head probe's |
| HeadScanning.ProbeCwdOf | core/src/scan.rs:188-199 | the cheap probe's directory; the transcript is reported as dropped if and only if none was found and a budget ran out |
| HeadScanning.AmpleVerdict | core/src/scan.rs:188-199 | when all fits and no record has a directory, everything was read, and the budget is blamed exactly when it is used up to the last record or byte |
| HeadScanning.AmpleHeadIsTranscript | core/src/scan.rs:159-176 | with ample budgets and every record small enough, probing the head is probing the whole text |
| HeadScanning.FullLastRecordIsDropped | core/src/scan.rs:273-285 | a last record without a newline that fills the cap exactly is left out |
| LivenessProbe.UuidShape | core/src/live.rs:376-386 | grouping by dashes and checking by position accept the same texts |
| LivenessProbe.SessionIdsOf | core/src/live.rs:247-275 | the word loop computes the ids |
| LivenessProbe.PinnedExactly | core/src/live.rs:226-275 | exactly the uuid-shaped words after a session flag or joined to one are pinned |
| LivenessProbe.CommandLinePins | core/src/live.rs:247-275 | whatever stands around them, `--resume`, `--session-id` and `-r` pin the id that follows or is joined with `=`, as arguments or as words of one argument |
| LivenessProbe.ClaudeExactly | core/src/live.rs:222-232 | the CLI is a first argument `claude` or a path to it, nothing else, but for slashes and current-directory parts at the end, which a file name does not count |
| LivenessProbe.ResumedElsewhereIsLive | core/src/live.rs:532-549 | a session named on any visible process's command line is live, before that process has written a byte |
| LivenessProbe.LiveProbe.BlockThreshold | core/src/live.rs:575-598 | nothing, everything or the earliest start less the margin, as the unpinned processes here demand |
| LivenessProbe.LiveProbe.Classify | core/src/live.rs:532-566 | the verdict signal by signal; the file time is asked for only when it can change the answer |
| LivenessProbe.FreeExactly | core/src/live.rs:532-595 | free if and only if every signal is cleared; a reason is given exactly when not free; live exactly for a holder or a pinned session |
| LivenessProbe.OrderDoesNotMatter | core/src/live.rs:532-595 | verdict and reason depend on the set of processes only |
| LivenessProbe.MoreNeverFrees | core/src/live.rs:532-595 | more processes, more holders or a later write never turn a blocked session free |
| LivenessProbe.NeverFreeWhileHeld | core/src/live.rs:39-66 | a session is not free while a visible process is pinned to it, or one in its directory has written it since it started and is dated at most the margin late |
| LivenessProbe.LonePlacedProcess | core/src/live.rs:68-74 | with one placed and dated process the session is free exactly when its file is older than the start by more than the margin: a resumed session not yet written to is missed |
| SidecarCaching.TitleIsFirstLowest | core/src/snapshot.rs:128-142 | the title is the prompt of the lowest turn, the first of equals |
| SidecarCaching.ListingMeans | core/src/snapshot.rs:318-397 | a session shows the fields of a sidecar of schema 1, not older than the body and of its length, and in every other case those of the parsed body; the name is the user's own if given |
| SidecarCaching.SidecarMeans | core/src/snapshot.rs:128-142 | a written sidecar repeats schema, body length, name, title, date and count of its body |
| SidecarCaching.SnapshotDir.Save | core/src/snapshot.rs:157-172 | body then sidecar, an unsafe id refused, saved exactly if the body was written, a failed sidecar ignored; with later times per write, agreement of accepted sidecars with bodies is kept |
| SidecarCaching.SnapshotDir.Rewrite | core/src/snapshot.rs:109-115 | a body replaced by something else keeps that agreement |
| SidecarCaching.SnapshotDir.ReadEntry | core/src/snapshot.rs:342-390 | an accepted sidecar's summary without parsing, else the body's, with a fresh sidecar to write |
| SidecarCaching.SnapshotDir.List | core/src/snapshot.rs:318-397 | summaries in reading order, bodies and names untouched, sidecars changed only to their body's summary; with nothing failing every parseable session ends with an accepted one |
| SidecarCaching.CoherentListing | core/src/snapshot.rs:318-397 | where accepted sidecars agree with bodies, the listing is what parsing every body gives |
| SidecarCaching.ListTwice | core/src/snapshot.rs:318-397 | listing twice shows the same, and what parsing gives |
| SidecarCaching.RunOps | core/src/snapshot.rs:157-397 | over any sequence of saves, lost writes, foreign rewrites and listings that do not overlap, with later times per write, the bodies are those of the writes that landed, and every listing is what parsing in full gives of the bodies as they then are |
| SidecarCaching.AcceptedIsOfSameLength | core/src/snapshot.rs:109-115 | however calls overlap and times tie, an accepted sidecar is that of some text the body had of the present length, hence right when stale texts differ in length |
| SidecarCaching.TieShowsStale | core/src/snapshot.rs:109-115 | two equally long bodies in one tick: the second is shown with the first one's summary |

## Left out

- SSH connection, authentication, host keys, terminal size and the interactive loop's output half: the exec channel and the input path carry the hard properties.
- Fairness of the runtime: liveness is stated as bounded internal steps and no stuck state, not as a scheduler's promise.
- Process tables read from `/proc`, boot-time conversion and the fd walk: their results are inputs, and the soundness lemma names the error it tolerates in a start time.
- Partial deletion of a folder: removing a folder removes all of it or nothing.
- ArchiveStore.WriteArchive: completeness is not stated for a process whose number a leftover folder carries with a suffix still to come, which takes a crash and the operating system giving the same process number again; only then can a folder be renamed onto itself, which the model takes to fail.
- ArchiveRun.RunArchive: which of several listed folders of a session is found is left open; a listing that fails finds none, and then no earlier summary is carried.
- Existence probes of the archive directory that themselves fail, and folders at the final name that are empty and foreign.
- Several project directories at once, archive listing and history listing, rendering, slugs, and the metadata backfill.
- The extractor and the summary texts: its replies are inputs to the archive run.
- Sorting of listings, snapshot loading and deletion, and the other sidecars (name, task, title, summary), except the name override a listing shows.
- Lossy UTF-8 decoding, and white space outside ASCII when lines and arguments are trimmed and split.
- JSON decoding of transcript records and of sidecars: records arrive decoded, an undecodable one as absent.
- Titles made from a command's first line, from arguments and from path names arrive as texts.
- Token counts, answers, reasoning items and the other bookkeeping of the rollout mapper, which never meet the timeline items' merge rules.
- Scanning candidate transcripts and closing a tab: a poll sees any set of transcripts on disk, and tabs keep their records; the lemma on forgetting a writer shows why they must.
- The display flag for truncated content on timeline items, which only the display layer sets.
- SidecarCaching.SnapshotDir.Save: the text is taken to decode to the snapshot it was made from, since encoding is not part of this model.
- HeadScanning.FoldHead: counts the bytes taken from the reader; what the reader itself buffers beyond them is not counted by the code either.
