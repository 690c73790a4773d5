# NightClaw, verified

NightClaw keeps all of its state in text files and logs, and several readers and writers that share no
code have to agree about them. This project models those readers and writers character by character and
proves that they agree, or says exactly when they do not. `dafny verify dfyconfig.toml` checks all of it.

**The LONGRUNNER store.** `Text`, `YamlLine`, `Longrunner`, `LensLaws`, `Store`, `StoreLaws`: the
section/fence state machine of `parse_longrunner` and the different one of `mutate_longrunner_field`, with
the lens laws between them. `BridgeParser` and `BridgeLaws`: the bridge's own parser with its indentation
stack, and when it shows what the document says. `Template`: every document laid out like the template
meets the conditions the laws ask for.

**The bundle executor and its log.** `Bundles` (expressions, guards, `validate-bundles`), `Gates` (schema
globs, routes, cascades), `Tables` (the dispatch table), `ChangeLog` (the printed rows and their two
readers), `Executor` and `ExecutorRun` (`bundle-exec` as a specification and as the loops that compute it),
`ExecutorLaws` (the log of LONGRUNNER changes replayed and undone), `PrintedLog` (what a run prints, read again),
`DispatchLog` and `LockLog` (the same for the dispatch table and the lock, through print and parse), `Rewind`
(`_reconstruct_longrunner_at`) and `History`, which composes everything: write, log, print, parse, rewind.

**The event log.** `EventLog` and `EventViews`: the batch fold with its index of aliased open steps against
the monitor's backward scan. `Outcomes`: the three folds that say how a run ended.

**The session lock.** `LockFile` and `LockSystem`: the text of LOCK.md, its two readers, and a timed
transition system over every interleaving of the commands. `RunIds`: id allocation over whole histories.

**The smaller models.** `SchemaSync` (marker-delimited regions rewritten in one document), `Dispatch`,
`Telemetry` (the bounded drop-oldest queue with interleaved producers), `Budget`.

Conventions. A method with a loop is the program's loop, proved equal to a specification function; the
properties are lemmas about that function. Files are a map from path to text. A whole command is one atomic
step. Wall-clock time, its printing and parsing, and the staleness of a timestamp are parameters. A document
is *well-formed* (`Longrunner.WellFormed`) if no header stands inside a fence, keys are distinct per section
and stand deeper than their block's marker, and every value is bare or quoted once and properly; comments,
blank lines, tables and other sections may stand anywhere. It is *laid out for the bridge*
(`BridgeLaws.BridgeOk`) if in addition each of the three blocks starts with its marker line and its values
stand at one depth.

## Where the code and its documentation disagree

The model follows the code.

- A write to a field the document lacks changes nothing, but `mutate_longrunner_field` returns `""` rather
  than `None`, so the executor logs a row for it. Replaying the log is therefore exact if and only if every
  logged field exists (`ExecutorLaws.LogFaithful`).
- Rewinding promises exactness whenever the run is found in the log. For contiguous runs a field changed since
  shows the value it had, but that is not always what the monitor showed then: the value read from the file is
  shown as nothing if it is `~`, `null` or `[]`, `tools_required` loses its brackets and quotes, and a trailing
  comment is shown with the value (`History.RewindExact`). With interleaved runs a wrong snapshot can be called
  exact; `Rewind.InterleavedExact` says exactly when, `Rewind.InterleavedIsWrong` gives a log on which it is.
  `last_quality` is never rewound.
- The bridge's parser knows no trailing comments: it shows a commented value together with its comment
  (`BridgeLaws.BridgeReads`, `BridgeLaws.ParsersAgree`).
- State replay calls a crashed run clean when the run was started again, is the current one and has gone
  stale (`Outcomes.OutcomesAgree`, `Outcomes.CrashForgotten`).
- The monitor's stream and the bridge's batch fold differ when a step is opened again while open and closed
  twice (`EventLog.SnapshotPlusStream`, `EventLog.ReopenedDiffers`).
- `is_valid_slug` accepts one trailing newline, because `$` matches before it.
- `next-run-id` stops being fresh after 999 (`RunIds.FreshExactly`, `RunIds.ThousandForever`).
- With more than one producer a payload just sent can be given up, whatever the size of the queue
  (`Telemetry.NewestKeptExactly`).
- A `{NOW+field}` whose day count is too large makes the date arithmetic raise an uncaught OverflowError, after
  the writes before it and before any row is logged (nightclaw_engine/commands/bundle.py:366-377). Instants are
  total in the model, so no run of it ends that way.
- A naive `expires_at` or `locked_at` raises an uncaught error in the lock commands: nothing is written
  (`Failed`, `Broken` in `LockFile`).

## Model

| member | source | states |
|---|---|---|
| `StoreLaws.WriteThenParse` | nightclaw_engine/commands/bundle_mutators.py:28-127 | Writing an existing LONGRUNNER field and parsing the project again gives the same parse with only that field changed (absent if the value is a null marker); the old value reported is what the parser read there, or a null marker where it read nothing; the document stays well-formed |
| `LensLaws.WriteField` | nightclaw_engine/commands/bundle_mutators.py:75-127 | On a well-formed document a write changes exactly the written field, keeps every key slot and the well-formedness, and reports what the document said |
| `LensLaws.WriteTwice` | nightclaw_engine/commands/bundle_mutators.py:90-119 | Of two writes to one field only the last shows, to the letter |
| `LensLaws.WriteAbsent` | nightclaw_engine/commands/bundle_mutators.py:71-127 | A field the document has no line for: nothing is written, and the mutator still returns "" (not None), so the caller logs it |
| `LensLaws.PutLine` | nightclaw_engine/commands/bundle_mutators.py:93-116 | Rewriting a value line keeps the trailing comment, every other line's value, all slots and the well-formedness |
| `LensLaws.Simulation` | nightclaw_engine/commands/bundle_mutators.py:75-88 | The mutator's in_section/in_yaml flags are a shadow of the parser's section/fence state on every line of a well-formed document |
| `LensLaws.HitIsSlot` | nightclaw_engine/commands/bundle_mutators.py:90-92 | The mutator's pattern hits a line if and only if the parser files that line under that section and key |
| `LensLaws.CanonInverse` | nightclaw_engine/commands/bundle_mutators.py:51-69 | The dotted name under which the parser stores a key leads the mutator back to that section and key |
| `LensLaws.FieldsAreCells` | nightclaw_engine/commands/_shared.py:288-368 | The two-level parser stores exactly what the document says, less the null markers, although it never overwrites an entry |
| `LensLaws.BlockersPut` | nightclaw_engine/commands/_shared.py:370-386 | Rewriting a value line never changes whether the blockers table counts as filled |
| `YamlLine.RoundTripExact` | nightclaw_engine/commands/bundle_mutators.py:104-116 | Which values survive being written beside which comment and read again, for all values: an if-and-only-if |
| `YamlLine.ReadersAgree` | nightclaw_engine/commands/bundle_mutators.py:93-102 | On a clean raw value the mutator's old value and the parser's reading coincide up to null markers |
| `YamlLine.MatchIsLoose` | nightclaw_engine/commands/bundle_mutators.py:91-92 | The mutator's regular expression matches a line exactly when its loosely read key is the one searched for |
| `YamlLine.KvOf` | nightclaw_engine/commands/_shared.py:317-323 | The parser's key/value pattern recovers the indentation, key and raw text a line was put together from |
| `YamlLine.RewriteTwice` | nightclaw_engine/commands/bundle_mutators.py:93-118 | A rewritten line rewritten again is the original line rewritten once |
| `Store.Workspace.MutateLongrunnerField` | nightclaw_engine/commands/bundle_mutators.py:28-127 | The in-place line loop computes the specified new file and old value, and touches nothing on refusal |
| `Store.Workspace.ParseLongrunner` | nightclaw_engine/commands/_shared.py:258-388 | The parsing loop over section, fence and indentation variables computes the specified field map |
| `Store.SlugConfined` | nightclaw_engine/commands/_shared.py:107-118 | A valid slug contains no separator, dot or drive letter, so the project path has exactly three components |
| `Text.ReadWritten` | nightclaw_engine/commands/bundle_mutators.py:121-125 | Writing lines joined by newlines and splitting them again returns the lines |
| `Template.TemplateReads` | orchestration-os/LONGRUNNER-TEMPLATE.md:1-177 | Every document laid out like the template (three sections in any order, prose, other sections with fences of their own, blank and comment lines, a trailing comment behind any value) meets the conditions of both parsers and the mutator; it says exactly what its raw values mean and nothing else, and exactly the values with a comment are commented |
| `Template.RawFits` | nightclaw_engine/commands/bundle_mutators.py:104-118 | Every storable value makes such a raw value with every comment, and reads back as itself |
| `BridgeParser.ParseYamlFlat` | nightclaw_bridge/sources.py:775-799 | The indentation-stack loop computes the specified flattening |
| `BridgeLaws.BridgeReads` | nightclaw_bridge/sources.py:760-824 | On a laid-out document the bridge shows for a key exactly what the document says, its own null markers as nothing, if and only if no comment stands behind the value |
| `BridgeLaws.ParsersAgree` | nightclaw_bridge/sources.py:775-824 | The engine's parser and the bridge's flattener show the same text for a key if and only if no comment stands behind its value and it is none of None, none, [] (each a null marker to one of them only) |
| `BridgeLaws.CommentsKept` | nightclaw_engine/commands/bundle_mutators.py:97-119 | A write neither adds nor removes a trailing comment, on any field |
| `BridgeLaws.BridgePut` | nightclaw_engine/commands/bundle_mutators.py:104-118 | A write of a storable value without back-ticks keeps the document readable for both parsers |
| `ChangeLog.RowRoundTrip` | nightclaw_engine/commands/bundle.py:652-667 | Both readers of the log recover file, field, old, new, run id and time from the row the executor prints |
| `ChangeLog.AppendLine` | nightclaw_bridge/sources.py:170-207 | Appending one printed line adds what it parses to at the end of the parsed log, for the bridge's reader and, for every run, for the engine's replay |
| `ChangeLog.ParseChangeLog` | nightclaw_bridge/sources.py:170-207 | The reading loop returns the newest count rows of the parsed log |
| `ChangeLog.ParseChangeEvents` | nightclaw_engine/commands/replay.py:56-75 | The replay reader's loop returns the events of one run, in order |
| `ChangeLog.RowIsLine` | nightclaw_engine/commands/bundle.py:666-666 | A row of clean cells is one line for either reader: it holds no line boundary of splitlines |
| `Tables.WriteCell` | nightclaw_engine/commands/bundle_mutators.py:141-171 | Lens law of the dispatch table: the first row of the slug gets the value in that column, no other cell of any row changes, and the old value is what the parser read there |
| `Tables.MutateDispatchField` | nightclaw_engine/commands/bundle_mutators.py:129-172 | The in-place loop over the table lines computes the specified new lines and old value |
| `Tables.ParseDispatchTable` | nightclaw_engine/commands/_shared.py:231-255 | The table-parsing loop returns the specified rows |
| `Tables.ReadNewRow` | nightclaw_engine/commands/bundle_mutators.py:163-165 | A rebuilt table row is read back cell by cell |
| `Gates.GlobExact` | nightclaw_engine/engine/gates.py:227-249 | A schema glob matches a path exactly when some non-empty slash-free strings put in place of its stars give the path |
| `Gates.MatchSlashes` | nightclaw_engine/engine/gates.py:227-249 | A matching path has as many slashes as the pattern |
| `Gates.SlugFits` | nightclaw_engine/engine/gates.py:227-249 | Any slug fits a star |
| `Gates.RouteFor` | nightclaw_engine/engine/gates.py:252-264 | The first matching route is returned, and None only if none matches |
| `Gates.EdgesExact` | nightclaw_engine/engine/gates.py:309-325 | The cascade edges of a path are exactly those whose source matches it, each as often as in the schema and in the schema's order |
| `Gates.CascadeFor` | nightclaw_engine/engine/gates.py:309-325 | The collecting loop returns those edges |
| `Bundles.ExpressionSound` | nightclaw_engine/commands/bundle.py:327-394 | With the declared arguments supplied, an expression all of whose references are declared resolves without an UNRESOLVED marker, in both modes |
| `Bundles.ValidatedSound` | nightclaw_engine/commands/bundle.py:723-749 | validate-bundles is sound for the executor: no write expression or appended line of a passing bundle meets the UNRESOLVED case, and a guard is decided by a known operator if and only if it has two or more words |
| `Bundles.StrippedRefs` | nightclaw_engine/commands/bundle.py:341-341 | Stripping an expression does not change the references found in it |
| `ExecutorRun.ValidateBundle` | nightclaw_engine/commands/bundle.py:696-759 | The nested checking loops report no error exactly for a validated bundle without protected targets |
| `ExecutorRun.BundleExec` | nightclaw_engine/commands/bundle.py:476-694 | The executor's loops compute the specified outcome; a refused bundle leaves every file as it was |
| `ExecutorRun.Check` | nightclaw_engine/commands/bundle.py:559-614 | The checks before the first write return the specified first refusal |
| `ExecutorRun.WriteGroup` | nightclaw_engine/commands/bundle.py:619-625 | Writing the fields of a group accumulates the specified files and changes |
| `ExecutorRun.RunAll` | nightclaw_engine/commands/bundle.py:616-625 | Writing all groups gives the specified state and list of changes |
| `ExecutorRun.MutateLockField` | nightclaw_engine/commands/bundle_mutators.py:221-241 | The lock-field loop computes the specified file and old value |
| `ExecutorLaws.LrWrite` | nightclaw_engine/commands/bundle_mutators.py:28-127 | One write through the file changes only that file; a well-formed document stays well-formed and keeps its slots and comments, its field becomes the value if it has the field, and it stays laid out for the bridge if it was |
| `ExecutorLaws.RunLaw` | nightclaw_engine/commands/bundle.py:616-625 | After any sequence of writes of a bundle: the document is well-formed, its frame and the other files are kept, and the changes logged so far lead from the document before to the one after |
| `ExecutorLaws.RunLayout` | nightclaw_engine/commands/bundle.py:616-625 | and it stays laid out for the bridge, if it was and no stored value has back-ticks |
| `ExecutorLaws.LogFaithful` | nightclaw_engine/commands/bundle.py:619-667 | On every well-formed document: replaying the logged changes gives the document after the run, and undoing them the one before, if and only if every change was logged for a field the document has |
| `ExecutorLaws.RowsCounted` | nightclaw_engine/commands/bundle.py:624-667 | The log gets exactly one row for every write outside the integrity manifest whose old and new values differ |
| `DispatchLog.TableLogFaithful` | nightclaw_engine/commands/bundle.py:619-667 | Replaying a run's dispatch-table changes gives the slug's row after the run, undoing them the row before it, and no other row changes |
| `DispatchLog.TableLogRead` | nightclaw_engine/commands/bundle.py:619-667 | The same from the printed text: the rows parsed back from what the run printed, replayed or undone on the slug's row |
| `DispatchLog.TableWrite` | nightclaw_engine/commands/bundle_mutators.py:141-171 | A dispatch write changes one cell, keeps the columns distinct and the lines unbroken |
| `LockLog.LockLogFaithful` | nightclaw_engine/commands/bundle.py:619-667 | For every one-word LOCK.md field: replaying a run's logged changes gives what the file reads after the run, undoing them gives what it read before |
| `LockLog.LockLogRead` | nightclaw_engine/commands/bundle.py:619-667 | The same from the printed text, through print and parse |
| `LockLog.FileWrite` | nightclaw_engine/commands/bundle_mutators.py:221-241 | A write changes what one field reads and nothing else; a field no line carries is reported as None |
| `Rewind.ReconstructLongrunnerAt` | nightclaw_bridge/runtime.py:668-735 | The collecting loop and the reverse undo compute the specified snapshot and exactness |
| `Rewind.UndoShows` | nightclaw_bridge/runtime.py:712-734 | Undoing rows shows under every field's key the old value of that field's first row |
| `Rewind.TruncationSafe` | nightclaw_bridge/sources.py:170-207 | With contiguous runs, rewinding over the newest rows only returns the full-log snapshot, or the present one not called exact |
| `Rewind.InterleavedExact` | nightclaw_bridge/runtime.py:690-735 | Runs may interleave: the snapshot is always called exact, and shows a field as it stood after R's last row if and only if no other run changed it between R's first and last rows, or the first that did found it with that very value |
| `History.PathInPath` | nightclaw_bridge/runtime.py:694-705 | One project's LONGRUNNER path occurs in another's only if they are the same project |
| `PrintedLog.PrintedRows` | nightclaw_engine/commands/bundle.py:632-667 | What a run prints, read again: cascade checks, then exactly one row per logged change telling file, field, old and new value; the engine's replay sees the same rows as events of that run only |
| `PrintedLog.RowLinesRead` | nightclaw_engine/commands/replay.py:56-75 | From printed rows of one run both readers get the same: the events replayed for a run are those of the rows the bridge parsed |
| `History.PrintedTell` | nightclaw_bridge/runtime.py:694-708 | Among them the rows that count for a project tell exactly what the run's changes tell, and nothing for other projects: cascade checks and other files never count |
| `History.AppendedLog` | nightclaw_engine/commands/bundle_mutators.py:243-252 | Appending printed lines to the change log makes both parsed logs grow by what the lines parse to, and touches no other file |
| `History.HistoryLaw` | nightclaw_engine/commands/bundle.py:476-694 | After any number of runs, refused or not, on a well-formed document: both parsed logs have grown by the printed rows, these undo to the document before them, and the comments stand where they stood |
| `History.HistoryLayout` | nightclaw_engine/commands/bundle.py:476-694 | A document laid out for the bridge stays so over any number of runs that store no back-ticks in it |
| `History.SnapshotShows` | nightclaw_bridge/sources.py:827-866 | The snapshot read from a laid-out document shows every field with a key as the document says it; if a comment stands behind the value, the comment is shown as well |
| `History.RewindExact` | nightclaw_bridge/runtime.py:668-735 | End to end: rewinding to run R is called exact if and only if R logged a row and all later rows were read; then a field changed since shows the value it had after R's last row, which is what the monitor showed then if and only if the value stood without a comment and is none of ~, null, [] (nor a list of tools with brackets or quotes); a field not changed since shows what it showed then, a commented one still with a comment |
| `EventLog.SnapshotPlusStream` | nightclaw_bridge/state.py:156-182 | Snapshot of a prefix plus stream of the rest equals the batch fold if and only if no streamed close is stray (newest opening closed, an older one open) |
| `EventLog.SnapshotPlusStreamIsBatch` | nightclaw_monitor/store.py:26-36 | They are equal wherever no (run, cmd, slug) is opened again while open |
| `EventLog.StreamRelation` | nightclaw_monitor/store.py:29-36 | On every log the fold has at least as many open steps per key, and timeline lengths differ exactly by the difference in open steps |
| `EventLog.Conservation` | nightclaw_bridge/state.py:172-182 | Entries plus in-place closes are the step events seen; closed entries are the closing events |
| `EventLog.RunsApart` | nightclaw_bridge/state.py:156-182 | A run's timeline depends only on that run's part of the log |
| `EventLog.IndexIsNewest` | nightclaw_bridge/state.py:174-176 | The index of open steps refines the backward scan: an open indexed step is the newest open one of its key |
| `EventLog.ReopenedDiffers` | nightclaw_bridge/state.py:174-182 | Every step that is opened twice and closed twice is shown as three entries by the batch fold and as two by the stream |
| `EventLog.TimesExact` | nightclaw_bridge/state.py:170-172 | The times kept for a run are exactly the timestamps of its step events, each once |
| `EventLog.TimesInOrder` | nightclaw_bridge/state.py:170-172 | and they stand in the order of their first emission |
| `EventViews.FoldEventlogViews` | nightclaw_bridge/state.py:140-182 | The fold over aliased mutable steps with an index of step objects computes the specified sessions, timelines and step times |
| `EventViews.MonitorStore.ApplyOpsStepEvent` | nightclaw_monitor/store.py:26-36 | The backward scan over mutable steps performs the specified streaming update |
| `EventViews.ClientStore.OnOpsStepEvent` | nightclaw_bridge/client_handlers.py:12-24 | The client handler performs the same update and notifies once per event with a run id |
| `Outcomes.OutcomesAgree` | nightclaw_bridge/runtime.py:847-854 | The three folds speak of the same runs; state and session replay differ exactly for a crashed, restarted, stale current run, session replay and snapshot exactly for a fresh run without T9 followed by an untimed T0 |
| `Outcomes.StateReplay` | nightclaw_bridge/runtime.py:403-622 | The state-replay loop computes the specified outcomes (no workspace files) |
| `Outcomes.SessionReplay` | nightclaw_bridge/runtime.py:959-980 | The session-replay loop computes the specified outcome |
| `Outcomes.SessionsSnapshot` | nightclaw_bridge/runtime.py:1138-1157 | The sessions-snapshot fold computes the specified outcomes |
| `Outcomes.ReplayOfRun` | nightclaw_bridge/runtime.py:406-466 | What state replay keeps about a run is what session replay keeps of that run's events |
| `Outcomes.RowOfRun` | nightclaw_bridge/state.py:184-203 | The same for the rows of the shared fold |
| `Outcomes.TimedLogs` | nightclaw_bridge/state.py:195-199 | With a timestamp on every event no T0 is untimed |
| `Outcomes.CrashForgotten` | nightclaw_bridge/runtime.py:616-622 | A concrete log on which state replay says clean and session replay crash |
| `LockFile.HeldReads` | nightclaw_engine/commands/lock.py:71-108 | The acquirer's searches recover status, expiry and failure counter from the text lock-acquire writes |
| `LockFile.HeldFields` | nightclaw_engine/commands/audit.py:743-771 | crash-recover's line reader recovers status, run id and locked_at from the same text |
| `LockFile.ReleasedReads` | nightclaw_engine/commands/lock.py:128-139 | A released lock is released to both readers, with counter zero |
| `LockFile.NumberDecimal` | nightclaw_engine/commands/lock.py:90-106 | A number printed in decimal is read back |
| `LockFile.LockMd.LockAcquire` | nightclaw_engine/commands/lock.py:47-109 | The command performs the specified step on the file |
| `LockFile.LockMd.LockRelease` | nightclaw_engine/commands/lock.py:112-142 | The command performs the specified step on the file |
| `LockFile.LockMd.Recover` | nightclaw_engine/commands/audit.py:694-799 | The command, with its two scanning loops, performs the specified step on the file |
| `LockSystem.HeldReleases` | nightclaw_engine/commands/lock.py:119-141 | The release of a session the lock names goes through and leaves the released lock |
| `LockSystem.HeldDenies` | nightclaw_engine/commands/lock.py:71-89 | A held lock denies everyone exactly until its expiry |
| `LockSystem.HeldRecovers` | nightclaw_engine/commands/audit.py:749-783 | crash-recover takes a held lock exactly when ten minutes have passed, the audit log shows the session past T0 and the registry does not know it |
| `LockSystem.ExclusiveStep` | nightclaw_engine/commands/lock.py:71-108 | Every command keeps: at most one live session, and the lock names it |
| `LockSystem.MutualExclusion` | nightclaw_engine/commands/lock.py:71-142 | Over every interleaving with in-time holders at most one session is live and LOCK.md names it |
| `LockSystem.SecondHolder` | nightclaw_engine/commands/lock.py:82-89 | Without the deadline a second session gets in exactly when the expiry has come or is unreadable |
| `LockSystem.FailuresKept` | nightclaw_engine/commands/lock.py:90-108 | The failure counter survives every command but a release or recovery that goes through, which set it to zero |
| `LockSystem.FailuresSurvive` | nightclaw_engine/commands/lock.py:90-108 | So it survives any number of acquires and crashes |
| `SchemaSync.SyncIs` | nightclaw_engine/commands/bundle.py:852-912 | On a document with unique, disjoint marker pairs every region ends equal to its generated body, everything else is kept, and the report counts exactly the regions that differed, NOOP if none |
| `SchemaSync.SyncTwice` | nightclaw_engine/commands/bundle.py:855-863 | A second sync is a NOOP |
| `SchemaSync.SyncOrder` | nightclaw_engine/commands/bundle.py:878-906 | The order of the sections does not matter |
| `SchemaSync.SyncMissing` | nightclaw_engine/commands/bundle.py:881-885 | If a section has no open marker the first such section is reported and nothing is written |
| `SchemaSync.RegionIs` | nightclaw_engine/commands/bundle.py:832-849 | The region found for a section holds its body, and splicing replaces just that |
| `SchemaSync.NoStraddle` | nightclaw_engine/commands/bundle.py:824-829 | No open marker can straddle a seam of the document |
| `SchemaSync.Registry.SchemaSync` | nightclaw_engine/commands/bundle.py:852-912 | The splicing loop performs the specified synchronisation, and REGISTRY.generated.md is refreshed exactly when the registry changes |
| `SchemaSync.CountChanged` | nightclaw_engine/commands/bundle.py:894-906 | The second loop counts the specified number of changed sections and finds every marker |
| `Dispatch.DispatchPicks` | nightclaw_engine/commands/dispatch.py:31-109 | dispatch returns the earliest row of least priority among the eligible ACTIVE rows, advances only if there is none, and is idle exactly when neither kind exists |
| `Dispatch.CmdDispatch` | nightclaw_engine/commands/dispatch.py:21-109 | The two candidate loops and the sort compute the specified answer |
| `Dispatch.SortedFront` | nightclaw_engine/commands/dispatch.py:56-58 | The stable sort puts the earliest candidate of least priority first |
| `Dispatch.SortedPermutes` | nightclaw_engine/commands/dispatch.py:56-62 | The sort lists exactly the candidates |
| `Dispatch.NextInLine` | nightclaw_engine/commands/dispatch.py:31-63 | Once the dispatched row has been edited to be ineligible, the best of the other eligible rows is dispatched |
| `Telemetry.QueueInvariant` | nightclaw_ops/telemetry.py:28-65 | Under any interleaving: length at most the maximum; taken then queued items in put order; every put accounted for; unfinished equals queued plus in-hand, so task_done never underflows |
| `Telemetry.NewestKept` | nightclaw_ops/telemetry.py:52-65 | With one producer the newest payload is never the one given up |
| `Telemetry.NewestKeptExactly` | nightclaw_ops/telemetry.py:52-65 | For a queue of any size: no payload is ever given up, whatever the interleaving, if and only if there is at most one producer |
| `Telemetry.Queue.Enqueue` | nightclaw_ops/telemetry.py:52-65 | Undisturbed, a put queues the payload last and a full queue loses its oldest item only |
| `RunIds.CmdNextRunId` | nightclaw_engine/commands/lock.py:22-44 | The finditer loop computes the specified next id |
| `RunIds.LargestIs` | nightclaw_engine/commands/lock.py:35-41 | The number found is the largest of all ids of the day anywhere in the text |
| `RunIds.NextIsFresh` | nightclaw_engine/commands/lock.py:34-44 | With the largest at most 998 the new id exceeds every id of the day in the registry |
| `RunIds.FreshExactly` | nightclaw_engine/commands/lock.py:34-44 | The new id stands nowhere in the registry if and only if the largest number is at most 998 or id 1000 of the day does not stand in it |
| `RunIds.ThousandForever` | nightclaw_engine/commands/lock.py:43-44 | Once 999 is reached every later allocation of the day hands out 1000, whatever is registered |
| `RunIds.RegisteredDistinct` | nightclaw_engine/protocol/integrity.py:167-178 | Over whole histories the registered ids stay pairwise distinct in the first column, whatever the rows say besides |
| `RunIds.ColumnGrows` | nightclaw_engine/protocol/integrity.py:167-178 | Appending a row adds its id at the end of the checked column |
| `Budget.AllowancesBound` | nightclaw_engine/commands/bootstrap.py:601-605 | Allowances sum to at most 4 x tokens + 200 x sections, and when the floor is never hit to more than 4 x tokens - sections and at most 4 x tokens |
| `Budget.Kept` | nightclaw_engine/commands/bootstrap.py:604-611 | Every section keeps its place and heading; its body is kept whole or cut to exactly its allowance before a notice of the characters cut |
| `Budget.ApportionBudget` | nightclaw_engine/commands/bootstrap.py:597-613 | The two loops compute the specified sections |

## Left out

- Packaged copies of the engine, HTTP, WebSocket and socket plumbing, subprocess calls, authentication and rate limiting: input/output and foreign calls.
- File systems: files are a map from path text to contents, so two spellings of one path are two files; `open(..., "w")` newline translation is not modelled.
- The window between reading and writing inside one command, such as two lock acquisitions at once: every command is one atomic step.
- Character classes beyond ASCII: `\w`, `\d`, case folding and `isdigit` are on ASCII letters and digits; white space and line boundaries are Python's.
- The bundle parser over REGISTRY.md that is kept for drift detection, and the loading of the schema from YAML: bundles and schemas are arbitrary values.
- `returns` and the printed lines of the executor: they only echo what the outcome holds.
- The bridge's titles split over two lines (`##` on one, the words on the next), its Open Questions list and its list of blockers.
- The supplement that `extract_longrunner` reads from a subprocess, and the project rows that `state_replay` enriches from workspace files.
- Sorting of `session_history`, provenance fields and token counts: presentation.
- `ManifestLines`: the integrity-manifest writer is part of the executor's specification, but no lens law is proved for it, because its rows are never logged or rewound.
- `PutLock`: a bundle's writes to LOCK.md and their log are covered by `LockLog`, but the transition system of `LockSystem` lets only the lock commands write the file.
- Worker start-up of the telemetry queue and the flush at exit: exactly one worker is assumed, and sending is one step that may fail unnoticed.
- Session registry rows in `RunIds` start with a bar and the id; ids in other shapes, and line starts reached across blank lines, are not part of this model.
- RewindExact: speaks of the fields that have a key in the monitor; values with a bar or a line break do not survive the row format, so runs that log such values are outside it, as are runs that store back-ticks in the document, which would end the block for the bridge. Of a commented field not changed since it says that a comment is shown, not which quotes stand before it.
- MutualExclusion: assumes, as the protocol does, that live holders finish in time and that only the holder releases; holders and run ids are single words without a colon.
- SyncIs: documents in which marker text occurs inside a body or between regions are outside it.
- `_dedupe_step_events`, scope context, admin argument building, notification scans, idle triage, field gates: single-branch or heuristic.
