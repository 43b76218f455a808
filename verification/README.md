# Repository tooling, modelled and proved

A Dafny model of the scripts that translate the user interface, run child processes,
record mobile releases, scan sources, label issues and measure restarts, with proofs of
what they promise. `dafny verify dfyconfig.toml` checks everything.

## What is modelled

- **Translation** (`scripts/control-ui-i18n.ts`). `TranslationBatches` packs pending strings
  into batches; `BatchTranslation` translates one batch against a provider that may answer,
  fail or time out as it likes on every prompt; `TranslationMemory` is the memory and its
  index by text hash; `TranslationSync` is one run of `syncLocale`; `LocaleTree` flattens and
  rebuilds the nested locale map. `SyncProperties` proves the accounting and that a run on
  its own output changes nothing, through the written files. `NativeSync` does the same for
  the strings of the native apps (`scripts/native-app-i18n.ts`).
- **Child processes.** `ProcessRelay` is `runProcess` with parent signals as a state machine
  over events, and `ProcessRunner` the handlers themselves, each proved to take one step of
  it. `CommandRunner` and `CommandProcess` do the same for
  `scripts/openclaw-cross-os-release-checks.ts`. A handler runs to completion, so sequences
  of events cover all interleavings. `OutputCapture` is the bounded capture of output.
- **Release refs** (`scripts/mobile-release-ref.ts`). `ReleaseRefs` interleaves any number of
  records at every git call; `ReleaseVersions` is the encoding of versions into codes and refs.
- **Scanners.** `StringLiterals` (Swift and Kotlin literals), `ParenScanner`
  and, with a grammar of arguments to read back, `CallPrinting`
  (`scripts/check-temp-path-guardrails.ts`), `PathMatcher`
  (`scripts/check-policy-config-coverage.ts`).
- **Loops.** `WorkerPool` (both shared-cursor pools), `RestartProbe` and `OutputLines`
  (`scripts/bench-gateway-restart.ts`), `LabelBatches` and `LabelRuns`
  (`scripts/label-open-issues.ts`).

Code that updates variables or objects is a method or a class and is proved against a
specification function; what the scripts promise is then proved about that function.

## What is assumed

- Cache keys are an injective encoding of key, text hash and locale; text and glossary hashes
  are arbitrary functions. Sorting a set of keys gives each key once, in any order.
- A leased `git push` is one atomic step on the remote, which accepts an absent ref and has
  nothing to do for an equal one. Nobody deletes or force-pushes release refs.
- A process group is alive or dead as the event says; timers fire at any time once armed.
- Labels are only ever added, and an item's labels are read after its run has started. Only
  the last page says that it is the last.
- Nothing but the modelled runs listens to the parent's signals, so a signal that no run hears
  ends the parent.

## What the proofs show about limits of the code

- `setNestedValue` reads inherited properties: a tree with an inner map under a name such as
  `constructor`, a dotted name, or an empty or nameless inner map does not survive flattening
  and rebuilding. `RoundTripIffTidy` says exactly which trees do.
- The per-item constant makes batches smaller than the budget allows
  (`EstimateWithinBudgetMaySplit`); packing is optimal for the limits as coded.
- A run of `runProcess` takes its handlers off at the first signal. A second one during the
  kill grace ends the parent at once: process groups stay alive, get no SIGKILL, and nothing is
  re-raised (`SecondSignalAbandonsRuns`; exactly when: `EndsUndoneIff`).
- A run of `runProcess` that starts while a signal is pending can keep the parent from
  re-raising it (`LateRunSwallowsSignal`; exactly when: `SwallowedIff`) or change the signal
  that is re-raised (`LateRunChangesSignal`; exactly when: `ReraisesWhatWasRecorded`).
- A command tree that starts after the first signal can outlive the forced exit
  (`LateTreeSurvivesForcedExit`); `FirstSignalDecidesExit` says exactly which do.
- A command finalized before it closes, say by its kill wait, or whose log cannot be written,
  does not end the process when it closes; the force-kill timer does (`LastCloseExits`).
- Version codes are unambiguous but out of order when an earlier patch is wider than a later
  one (`OrderIsKeptIff`).
- An empty literal directly followed by a quote is taken for a triple quote (`RoundTrip`).
- Extraction gives up at the first quote that starts no literal, such as that of a raw string,
  and drops every literal after it (`RawStringStopsExtraction`; exactly when: `StopsIff`).
- An available release ref is not reserved by the preflight (`AvailableIsNoReservation`), and a
  push that seems to fail may have recorded the release (`LostPushIsRecorded`).
- A pool with a limit below 1 returns empty slots (`MapWithConcurrency`).
- An issue listed twice in one batch without a category may get both
  (`DuplicateGetsBothCategories`; exactly when: `AtMostOneCategoryIff`).
- A run that cannot read the state file starts it afresh and may lose what was saved
  (`UnreadableStateLosesSaved`; exactly what and when: `LostFromSaved`, `SavedGrowsIff`).

## Model

| member | source | states |
|---|---|---|
| TranslationBatches.BuildTranslationBatches | scripts/control-ui-i18n.ts:1313-1337 | the batches concatenate to the items in order, every batch is within both limits and has 1 to 20 items, no batch has room for the item that opens the next one, and no other way of cutting the items into legal batches uses fewer |
| TranslationBatches.FullPackingIsOptimal | scripts/control-ui-i18n.ts:1319-1330 | a packing whose batches have no room left uses no more batches than any legal packing of the same items |
| TranslationBatches.FullPackingIsUnique | scripts/control-ui-i18n.ts:1319-1330 | there is only one such packing, so closing a batch early or late would give a different result |
| TranslationBatches.RunningCharsIsEstimatePlusTwoPerItem | scripts/control-ui-i18n.ts:1320-1329 | the running total counts the constant 2 once per item, so it is the estimate of the whole batch plus 2 per item |
| TranslationBatches.LegalBatchEstimate | scripts/control-ui-i18n.ts:1320-1329 | a batch of k >= 2 items is legal exactly if it has at most 20 items and its own estimate is at most the budget less 2k |
| TranslationBatches.TestsDecideLegality | scripts/control-ui-i18n.ts:1320-1323 | the two tests close the current batch exactly when adding the item would make it illegal |
| TranslationBatches.EstimateWithinBudgetMaySplit | scripts/control-ui-i18n.ts:1320-1324 | items whose joint estimate fits the budget may still be split, because of the constant counted per item |
| TranslationBatches.EstimateIsRenderedLength | scripts/control-ui-i18n.ts:980-982 | the estimate is the length of the items written as one object of quoted keys and texts, without escapes |
| BatchTranslation.CollectTranslations | scripts/control-ui-i18n.ts:1453-1463 | a reply is accepted exactly if every item has a text that is not blank under its key; otherwise the error names the first item without one |
| BatchTranslation.TranslateBatch | scripts/control-ui-i18n.ts:1436-1498 | the retry loop with recursive halving comes to the result, the number of prompts and the split depth of its recursive specification, for every provider |
| BatchTranslation.PromptBound | scripts/control-ui-i18n.ts:1444-1497 | whatever the provider does, n >= 1 items cost at least one and at most 4n - 2 prompts |
| BatchTranslation.PromptBoundIsTight | scripts/control-ui-i18n.ts:1444-1497 | for every n there are replies that cost exactly 4n - 2 prompts, so the bound cannot be improved |
| BatchTranslation.SplitDepthBound | scripts/control-ui-i18n.ts:1470-1486 | a batch of n items is split at most ceil(log2 n) deep |
| BatchTranslation.CeilLog2IsLeast | scripts/control-ui-i18n.ts:1471 | the depth bound is the least d with n <= 2^d |
| BatchTranslation.SuccessfulBatch | scripts/control-ui-i18n.ts:1453-1485 | a batch that returns has exactly its items as keys, each with a text that is not blank and that the provider sent for that very key during this call |
| BatchTranslation.FailureIsLast | scripts/control-ui-i18n.ts:1444-1497 | a batch that is given up fails with the error its last prompt came to |
| BatchTranslation.TimeoutIsSaid | scripts/control-ui-i18n.ts:939-941 | an error is taken for a prompt timeout exactly if its message says "timed out" somewhere, in capitals or not |
| TranslationMemory.PutKeepsLoaded | scripts/control-ui-i18n.ts:563-566 | the memory stays a map in insertion order of usable entries whenever a usable entry is put |
| TranslationMemory.PutOverlays | scripts/control-ui-i18n.ts:1621-1626 | putting an entry changes the memory at its cache key only |
| TranslationMemory.LoadTranslationMemory | scripts/control-ui-i18n.ts:551-570 | loading keeps, for each cache key, the last line with a key and a text that is not blank |
| TranslationMemory.LoadKeepsLast | scripts/control-ui-i18n.ts:551-570 | of several usable lines with one cache key the last is kept, and a key has an entry only if there is such a line |
| TranslationMemory.LoadLines | scripts/control-ui-i18n.ts:572-580 | writing the entries in any order and loading them gives the same entries, in that order |
| TranslationMemory.TextIndexFinds | scripts/control-ui-i18n.ts:582-594 | a text hash is in the index exactly if some entry for the locale has it with a usable text, and the index gives the last such entry |
| TranslationMemory.TextIndexHasLast | scripts/control-ui-i18n.ts:582-594 | the index holds a hash exactly if a usable entry for the locale has it, and then the last such entry in the order of the memory |
| TranslationMemory.BuildTranslationMemoryByTextHash | scripts/control-ui-i18n.ts:582-594 | the loop builds that index |
| TranslationSync.DecideKey | scripts/control-ui-i18n.ts:1598-1644 | one round of the loop takes the branch its specification names; what the branches and their order come to is stated by `ValueIsChosen` |
| TranslationSync.ReuseTranslations | scripts/control-ui-i18n.ts:1594-1644 | the loop over the source keys leaves the reused values, the fallback keys, the overlaid memory and exactly the pending items, in the order of the source |
| TranslationSync.TranslateOne | scripts/control-ui-i18n.ts:1669-1675 | one packed batch of k items costs at most 4k - 2 prompts and, on success, is translated faithfully |
| TranslationSync.RecordBatch | scripts/control-ui-i18n.ts:1676-1695 | recording a batch sets exactly its keys in the locale map and one fresh memory entry per item |
| TranslationSync.TranslatePending | scripts/control-ui-i18n.ts:1646-1711 | the provider phase sends at most four prompts per pending item and, on success, every pending item has a text that the provider sent for it, in the locale map and in the memory |
| TranslationSync.FillFallbacks | scripts/control-ui-i18n.ts:1720-1734 | the pending keys left get the existing text or else English, and are recorded as fallbacks as the code decides |
| TranslationSync.SyncLocale | scripts/control-ui-i18n.ts:1572-1777 | a completed run has the files its decisions determine, every new text having been sent by the provider; a run is skipped only if the last prompt came to an authentication error and those are optional; it is aborted only for the placeholders or with the error of the last prompt; with nothing to send it completes exactly if the placeholders are kept, and sends nothing |
| TranslationSync.AuthErrorIsSaid | scripts/control-ui-i18n.ts:943-951 | an error counts as a failed authentication exactly if its message says one of the four phrases somewhere, in capitals or not |
| SyncProperties.ValueIsChosen | scripts/control-ui-i18n.ts:1598-1734 | the value of each key of a completed run: the entry of this very key and text, unless the key is a fallback to be refreshed; else the last entry of the same text, if the key is a fallback or new; else the existing translation, on the same terms; else, with a provider, the text it sent, and only then; else what was there, or English |
| SyncProperties.FallbackIsMarked | scripts/control-ui-i18n.ts:1611-1734 | the same priority says exactly which keys a completed run records as fallbacks |
| SyncProperties.MemoryIsWritten | scripts/control-ui-i18n.ts:1619-1695 | for each key, the memory entry of a completed run, field by field: untouched, copied from the last entry of the same text, or entered for the new translation |
| SyncProperties.MemoryElsewhere | scripts/control-ui-i18n.ts:1619-1695 | no other memory entry changes |
| SyncProperties.MetaIsTold | scripts/control-ui-i18n.ts:1748-1777 | every field of the metadata; the timestamp moves exactly if another field does |
| SyncProperties.EveryKeyAccounted | scripts/control-ui-i18n.ts:1594-1755 | a completed run has exactly one value per source key, its fallbacks are source keys, and translated plus fallback keys are the total |
| SyncProperties.ProviderLeavesNoFallback | scripts/control-ui-i18n.ts:1646-1734 | with a provider, forced or not, no fallback is left |
| SyncProperties.FallbacksGainOnlyUntranslated | scripts/control-ui-i18n.ts:1720-1734 | without a provider or force, a key becomes a fallback only if it had no translation, and then holds the English text |
| SyncProperties.NoNewTextHash | scripts/control-ui-i18n.ts:1619-1627 | without a provider a run puts no text hash into the memory that could not be found there before |
| SyncProperties.DecideAgain | scripts/control-ui-i18n.ts:1598-1644 | after a completed run every key is decided again so that its value and fallback mark stay, without a hit by text hash and, with a provider, without becoming pending |
| SyncProperties.MetaIsFixedPoint | scripts/control-ui-i18n.ts:1748-1777 | metadata computed from itself keeps its timestamp |
| SyncProperties.SyncIsFixedPoint | scripts/control-ui-i18n.ts:1598-1777 | a second run on a completed run's output, its memory reread in any order, has nothing pending with a provider and reproduces locale map, metadata and memory exactly |
| SyncProperties.SecondRunCompletes | scripts/control-ui-i18n.ts:1646-1741 | the second run passes the placeholder check and, with a provider, has nothing to translate |
| SyncProperties.WriteAndReadBack | scripts/control-ui-i18n.ts:1743-1746 | writing the locale as a nested map and the memory as sorted lines and reading both gives the run's output back |
| SyncProperties.SyncThenSync | scripts/control-ui-i18n.ts:1572-1798 | a completed run, written, read back and followed by another run: the second completes with the same files and sends no prompt |
| LocaleTree.SplitJoin | scripts/control-ui-i18n.ts:406 | splitting a dotted key gives its names back if none has a dot |
| LocaleTree.JoinSplit | scripts/control-ui-i18n.ts:406 | joining the pieces of any key gives the key back |
| LocaleTree.FlattenTranslations | scripts/control-ui-i18n.ts:393-403 | the recursive walk produces the flat map of its specification |
| LocaleTree.RebuildLocale | scripts/control-ui-i18n.ts:1743-1746 | the loop over the source keys folds `setNestedValue` |
| LocaleTree.BuildKeeps | scripts/control-ui-i18n.ts:405-420 | setting all texts of a tree one by one rebuilds what can be kept of it: all but empty inner maps and what lies below an inherited name |
| LocaleTree.FlattenLists | scripts/control-ui-i18n.ts:393-403 | for dot-free names the flat map lists every text once, under its joined names, in tree order |
| LocaleTree.RoundTripIffTidy | scripts/control-ui-i18n.ts:393-420 | flattening and rebuilding gives the tree back exactly if it is tidy: no dotted name, no empty or nameless inner map and no inherited name above one |
| LocaleTree.RebuiltLocaleReadsBack | scripts/control-ui-i18n.ts:1743-1746 | a locale rebuilt from any texts for the keys of a tidy source has the shape of the source and flattens to exactly those texts |
| LocaleTree.RebuildInAnyOrder | scripts/control-ui-i18n.ts:405-420 | setting the texts of a tidy tree in any order, or some twice, gives the same tree but for the order of fields |
| LocaleTree.ShapeDecidesTidiness | scripts/control-ui-i18n.ts:393-420 | whether a tree survives depends on its shape alone, not on its texts |
| LocaleTree.SetThenRead | scripts/control-ui-i18n.ts:405-420 | in any tree, the text set under a key is read there, unless the path leads through an inherited name, and no text changes but those above and below the path |
| LocaleTree.SetKeepsPlaces | scripts/control-ui-i18n.ts:405-420 | in any tree, every field keeps its place and at most one new field is added, last; replacing a text keeps the places at all levels |
| NativeSync.TranslateNativeEntries | scripts/control-ui-i18n.ts:1506-1551 | without a provider it fails and sends nothing; otherwise at most four prompts per entry; a failure is what the last prompt came to; on success exactly the entries' ids, each with a text that is not blank and that the provider sent for it |
| NativeSync.SyncNativeLocale | scripts/native-app-i18n.ts:1037-1100 | each entry of the artifact written has a text that the provider sent for its id in this run if some entry with the id was due (glossary changed, nothing stored, other source or blank text), else the text of the last one stored with the id; nothing is written if a translation fails, as its last prompt did, or at the first entry whose placeholders changed; `changed` tells whether the artifact differs from what was read |
| NativeSync.NothingIsBlank | scripts/native-app-i18n.ts:1060-1087 | a completed sync leaves no blank translation |
| NativeSync.SecondSyncIsIdleIff | scripts/native-app-i18n.ts:1060-1073 | syncing the same entries again finds nothing to translate exactly if no two entries share an id but differ in their source |
| NativeSync.IdleSyncKeepsArtifact | scripts/native-app-i18n.ts:1077-1087 | a sync with nothing to translate produces the artifact it read |
| NativeSync.SyncTwice | scripts/native-app-i18n.ts:1037-1100 | if ids tell sources apart, the second of two syncs sends no prompt, needs no provider and reports no change |
| ProcessRelay.EveryExecutionIsSafe | scripts/control-ui-i18n.ts:1035-1246 | for all interleavings of any number of runs: a promise settles at most once; it fails with the child's error or, once the child closed, as timed out exactly if the timeout had fired; a settled run leaves no timer; a closed run has settled or its kill timer is armed; the parent ends only where no run listens; at the re-raise all registered runs have a signal and their group was seen dead or sent SIGKILL, and some run recorded the signal; no due re-raise is missed unless a run started late |
| ProcessRelay.FlagsAreTrue | scripts/control-ui-i18n.ts:1103-1245 | over all executions, in both directions: what a run knows (closed, failed, timed out, told to stop, group seen dead, sent SIGKILL, done) is exactly what some event brought about, given what the group checks answered and which timers were armed |
| ProcessRelay.ReraiseIsJustified | scripts/control-ui-i18n.ts:1026-1130 | at a re-raise every registered run heard a signal, and an event found its group dead or its kill timer fired |
| ProcessRelay.FirstCloseOfToldRun | scripts/control-ui-i18n.ts:1226-1239 | the first close of a run told to stop makes it done at once exactly if its group is dead; otherwise its kill timer stays armed |
| ProcessRelay.FirstCloseOfFreeRun | scripts/control-ui-i18n.ts:1240-1245 | the first close of a run not told to stop settles it, unless its group outlives the timeout: then the kill timer does, after SIGKILL; it settles as timed out exactly if the timeout fired |
| ProcessRelay.ReraisesWhatWasRecorded | scripts/control-ui-i18n.ts:1026-1033 | the re-raised signal is the one every run registered then has recorded exactly if no signal was heard while another was recorded, so it is unless a run started late |
| ProcessRelay.LateRunChangesSignal | scripts/control-ui-i18n.ts:1103-1107 | with a late run, SIGTERM may be re-raised although a run recorded SIGINT |
| ProcessRelay.NotDoneShrinks | scripts/control-ui-i18n.ts:1120-1126 | once a signal is pending, no event but a start or another signal undoes a run, and firing an armed kill timer makes the number of runs not done smaller |
| ProcessRelay.KillTimersReachReraise | scripts/control-ui-i18n.ts:1120-1126 | if no run starts and no further signal comes, then in any order and with anything else in between, the recorded signal has been re-raised once the kill timers of the runs not done have fired |
| ProcessRelay.EndsUndoneIff | scripts/control-ui-i18n.ts:1103-1130 | the parent ends with a run not done exactly if at some point a signal arrived that no run heard while some run was not done |
| ProcessRelay.SecondSignalAbandonsRuns | scripts/control-ui-i18n.ts:1103-1130 | a second signal during the kill grace ends the parent at once, with a group seen alive, without SIGKILL and without the re-raise |
| ProcessRelay.ReraisedIffRecorded | scripts/control-ui-i18n.ts:1226-1245 | while a signal is pending, the event of a run that leaves all runs done re-raises exactly if that run has recorded a signal |
| ProcessRelay.SwallowedIff | scripts/control-ui-i18n.ts:1026-1033 | all runs are done, a signal is pending and the parent goes on, exactly if at some point the last run not done ended without having recorded a signal and since then no run started, no signal came and no handler asked for the re-raise |
| ProcessRelay.LateRunSwallowsSignal | scripts/control-ui-i18n.ts:1026-1033 | that happens: a run that starts while a signal is pending and ends by itself leaves all runs done without a re-raise |
| ProcessRelay.QuietKeepsRelayed | scripts/control-ui-i18n.ts:1147-1161 | an event that makes the last run done without asking for the re-raise would break the relay |
| ProcessRelay.LastHandlerReraises | scripts/control-ui-i18n.ts:1104-1113 | of the handlers one signal calls, the last one re-raises if all runs are then done |
| ProcessRunner.ChildRun.Settle | scripts/control-ui-i18n.ts:1147-1161 | settling stops the timers, leaves the registry unless a signal is pending, and only the first call counts |
| ProcessRunner.ChildRun.OnSignal | scripts/control-ui-i18n.ts:1103-1130 | the signal handler takes the specified step |
| ProcessRunner.ChildRun.OnClose | scripts/control-ui-i18n.ts:1226-1245 | the close handler takes the specified step, with each of its three early returns |
| ProcessRunner.ChildRun.OnTimeout | scripts/control-ui-i18n.ts:1191-1209 | the timeout marks the run and arms the kill timer unless one is waiting |
| ProcessRunner.ChildRun.OnKillGrace | scripts/control-ui-i18n.ts:1120-1203 | the kill timer takes the specified step for whichever purpose it was armed |
| ProcessRunner.ParentProcess.MaybeReraise | scripts/control-ui-i18n.ts:1026-1033 | the loop with early return re-raises exactly if every registered run has a signal and is done |
| ProcessRunner.ParentProcess.OnParentSignal | scripts/control-ui-i18n.ts:1103-1136 | a signal that no run listens to ends the parent; otherwise it reaches the listening runs one after the other, as the state machine has it |
| OutputCapture.CaptureIsTail | scripts/control-ui-i18n.ts:999-1010 | however the output is cut into chunks, the tail of it is kept and the rest is counted as truncated |
| CommandRunner.EveryExecutionIsOk | scripts/openclaw-cross-os-release-checks.ts:4076-4247 | for all sequences of events: a promise settles at most once, only after its log stream ended and with all three timers disarmed; it is left open only for a forwarded signal; a closed command has settled and a timed-out one settles or waits for its kill; the exit has the forwarded code and, unless forced, an empty registry |
| CommandRunner.OutcomesAreTrue | scripts/openclaw-cross-os-release-checks.ts:4113-4247 | over all executions: a promise resolves or is rejected with the very exit code the first close of the child reported, or with 1 if it reported none, and only if no timeout fired; it is rejected as timed out, stuck, failed or unlogged only if that happened |
| CommandRunner.FinalEventDecides | scripts/openclaw-cross-os-release-checks.ts:4113-4243 | the event that finalizes a command and the end of its log decide the outcome, case by case: an unforwarded child in time resolves exactly if unchecked or with code 0 |
| CommandRunner.RegisteredIff | scripts/openclaw-cross-os-release-checks.ts:4200-4222 | over all executions, a tree is registered from its start to the first close or error of its child |
| CommandRunner.CommandsAreStarted | scripts/openclaw-cross-os-release-checks.ts:4076-4112 | over all executions, each command has the options it was started with, and its timers as far as they ask for them |
| CommandRunner.SignalReachesTrees | scripts/openclaw-cross-os-release-checks.ts:69-86 | a signal goes to exactly the registered trees, each once |
| CommandRunner.FirstSignalDecidesExit | scripts/openclaw-cross-os-release-checks.ts:69-97 | whatever comes before and after the first signal: an exit has its code; the last thing sent to every tree registered then is SIGKILL; a tree started later was never sent SIGKILL exactly if it is still registered and its command has not timed out, and without the force-kill timer none is registered; until the exit the timer is armed with exactly the trees of the first signal |
| CommandRunner.ForceKillTimerExits | scripts/openclaw-cross-os-release-checks.ts:79-84 | after a signal the process is always one firing of the timer away from its exit |
| CommandRunner.NoSignalNoExit | scripts/openclaw-cross-os-release-checks.ts:88-97 | without a signal the process does not exit and every command whose log ended has settled its promise |
| CommandRunner.LastCloseExits | scripts/openclaw-cross-os-release-checks.ts:4214-4222 | the close of the last registered tree and the end of its log exit at once exactly if nothing had finalized the command before and its log was written |
| CommandRunner.LateTreeSurvivesForcedExit | scripts/openclaw-cross-os-release-checks.ts:75-84 | a tree started after the first signal may be left running by the forced exit |
| CommandProcess.ChildCommand.Finalize | scripts/openclaw-cross-os-release-checks.ts:4127-4140 | only the first call settles: timers disarmed, log stream ending with its callback |
| CommandProcess.ChildCommand.OnLogEnd | scripts/openclaw-cross-os-release-checks.ts:4113-4140 | the end of the log settles the promise or asks for the exit; a log error overrides |
| CommandProcess.ReleaseChecks.OnSignal | scripts/openclaw-cross-os-release-checks.ts:69-86 | the signal handler takes the specified step |
| CommandProcess.ReleaseChecks.OnForceKillTimer | scripts/openclaw-cross-os-release-checks.ts:79-84 | the force-kill timer kills its snapshot and exits |
| CommandProcess.ReleaseChecks.ExitForwardedSignalWhenChildTreesDone | scripts/openclaw-cross-os-release-checks.ts:88-97 | it exits exactly if a signal was forwarded and the registry is empty |
| CommandProcess.ReleaseChecks.OnClose | scripts/openclaw-cross-os-release-checks.ts:4214-4247 | the close handler takes the specified step with and without a forwarded signal |
| CommandProcess.ReleaseChecks.OnError | scripts/openclaw-cross-os-release-checks.ts:4206-4212 | the error handler takes the specified step |
| ReleaseRefs.WriteOnce | scripts/mobile-release-ref.ts:278-313 | over any interleaving of records at git-call granularity, with calls failing before or after they took effect and people pasting recovery commands, a ref that is set never changes and a recorded run stays recorded |
| ReleaseRefs.Agreement | scripts/mobile-release-ref.ts:278-326 | all runs that report success for a ref agree on its commit, which is what the remote holds from then on; a run for another commit never succeeds, whatever its preflight saw |
| ReleaseRefs.ReadBackFindsPush | scripts/mobile-release-ref.ts:305-312 | after a push reported as done, the read-back finds the commit unless the read itself fails |
| ReleaseRefs.ReadBackDecides | scripts/mobile-release-ref.ts:305-313 | whatever happened to the ref since the push, "created" is reported exactly if it can be read and holds the commit |
| ReleaseRefs.LostPushIsRecorded | scripts/mobile-release-ref.ts:287-313 | a push that took effect but seemed to fail rejects the run, and the next run for the commit finds it recorded |
| ReleaseRefs.TwoRunsMayReportCreated | scripts/mobile-release-ref.ts:287-312 | two runs for one commit may both report "created" |
| ReleaseRefs.AvailableIsNoReservation | scripts/mobile-release-ref.ts:257-313 | a run whose preflight said available can only end rejected once the ref is at another commit, and its push leaves the ref alone |
| ReleaseRefs.Record | scripts/mobile-release-ref.ts:278-313 | with others pushing in between: the ref is never moved; success means the ref is at the commit, and if no call fails the reverse holds too; "already recorded" and "already points at" are reported exactly for what the preflight read; the final stage is that of the state machine; the last error cannot occur |
| ReleaseRefs.RecordThenResolve | scripts/mobile-release-ref.ts:278-326 | a later resolve returns what a successful record reported, and a record of another commit then fails, under any faults and pushes of others during each |
| ReleaseVersions.CodesOfVersion | scripts/mobile-release-ref.ts:176-197 | a version has the codes 01 to 99 after its prefix and no others |
| ReleaseVersions.CodeDeterminesVersion | scripts/mobile-release-ref.ts:176-197 | a code that is valid for two versions forces them equal, for patches of any length |
| ReleaseVersions.CodesOfOneWidthAreOrdered | scripts/mobile-release-ref.ts:176-197 | for patches of one width the numeric order of codes is the lexicographic order of year, month, patch and upload |
| ReleaseVersions.OrderIsKeptIff | scripts/mobile-release-ref.ts:176-197 | of two uploads in order, the codes are in order exactly if the earlier patch is not wider than the later one |
| ReleaseVersions.SmallPatchesHaveWidthTwo | scripts/mobile-release-ref.ts:176-179 | a patch is below 100 exactly if it takes two digits, so such codes are always in order |
| ReleaseVersions.WidePatchBreaksOrder | scripts/mobile-release-ref.ts:176-179 | 2026.1.100 comes before 2026.2.1 but every one of its codes is larger |
| ReleaseVersions.RefIsInjective | scripts/mobile-release-ref.ts:199-213 | two releases share a ref only if platform, version and number are all the same |
| ReleaseVersions.RefOfOptions | scripts/mobile-release-ref.ts:160-213 | what is accepted and the ref it gets, written out: an iOS release needs a build and lies under `ios/`, an Android release needs a code of its version and lies under `android/`, both trimmed |
| ReleaseVersions.RefsIdentifyReleases | scripts/mobile-release-ref.ts:160-213 | accepted options share a ref exactly if they agree up to surrounding blanks and unused options |
| ReleaseVersions.ReleasesAreIndependent | scripts/mobile-release-ref.ts:278-313 | recording one release never touches the ref of another |
| StringLiterals.ReadSwiftStringLiteral | scripts/native-app-i18n.ts:349-413 | the index loop computes the recursive reader |
| StringLiterals.ReadKotlinStringLiteral | scripts/native-app-i18n.ts:415-479 | the index loop computes the recursive reader |
| StringLiterals.FindInterpolationEnd | scripts/native-app-i18n.ts:365-385 | the bracket scan computes the recursive scan |
| StringLiterals.ReadsExactlyPrinted | scripts/native-app-i18n.ts:349-479 | a literal is read with an end and a value exactly if the source has the printing of some legal elements there and they mean that value, except for the start of a triple quote |
| StringLiterals.RoundTrip | scripts/native-app-i18n.ts:349-479 | escaping and quoting any texts, well-balanced interpolations and unknown escapes, then reading, gives the texts decoded and the interpolations and unknown escapes verbatim (so `\u{201C}` keeps its backslash) and ends just past the closing quote; the exception is an empty string followed by a quote |
| StringLiterals.ClosesExactlyBodies | scripts/native-app-i18n.ts:316-347 | a bracket is closed at a position exactly if a well-balanced body stands in between |
| StringLiterals.FindClosingBrace | scripts/native-app-i18n.ts:316-347 | from any index the loop computes the recursive scan, and at an opening brace the position at which that one closes |
| StringLiterals.ExtractKotlinStringLiterals | scripts/native-app-i18n.ts:481-497 | the loop computes the recursive extraction of the window, each literal being read at the first quote after the one before |
| StringLiterals.ExtractedAreDisjoint | scripts/native-app-i18n.ts:481-497 | the literals lie in the window, in order and without overlap, with the values read at their offsets |
| StringLiterals.ExtractedIff | scripts/native-app-i18n.ts:481-497 | a list is the extracted one exactly if its literals lie in the window, in order, without overlap and with the values read there, no quote up to the end of the last is left out, and there the window has no quote left or its first one starts no literal inside the window |
| StringLiterals.StopsIff | scripts/native-app-i18n.ts:484-493 | the extraction stops exactly where the window has no quote left or its first one starts no literal or one that leaves the window |
| StringLiterals.RawStringStopsExtraction | scripts/native-app-i18n.ts:489-492 | a raw string stops the extraction although a literal can be read further on |
| ParenScanner.QuoteScanState.ConsumeQuotedChar | scripts/check-temp-path-guardrails.ts:55-71 | within quotes a character is consumed, escapes and closing quotes included; outside nothing changes |
| ParenScanner.FindMatchingParen | scripts/check-temp-path-guardrails.ts:73-96 | the result is the first position at which the depth outside quotes reaches zero, or -1 if there is none |
| ParenScanner.SplitTopLevelArguments | scripts/check-temp-path-guardrails.ts:98-162 | the loop computes the trimmed pieces without a blank last one |
| ParenScanner.PiecesIffSplit | scripts/check-temp-path-guardrails.ts:98-162 | the pieces are the only strings that joined by commas give the text such that every comma within a piece stands within quotes or brackets, and each piece but the last ends outside them |
| ParenScanner.CommaStartsAfresh | scripts/check-temp-path-guardrails.ts:151-155 | after a top-level comma the scan is where it was at the start |
| ParenScanner.MatchedTextIsBalanced | scripts/check-temp-path-guardrails.ts:188-194 | on the text the matcher delimits, the splitter ends unquoted at depth zero and its test for a missing parenthesis never applies |
| ParenScanner.ArgumentsAreTrimmedPieces | scripts/check-temp-path-guardrails.ts:151-161 | one argument per piece, trimmed, except a blank last piece |
| ParenScanner.CallArguments | scripts/check-temp-path-guardrails.ts:189-194 | matcher and splitter combined |
| CallPrinting.MatcherFindsClosing | scripts/check-temp-path-guardrails.ts:73-96 | for arguments of any quoted texts and nested brackets, written out between parentheses anywhere, the closing parenthesis is the first position of depth zero |
| CallPrinting.SplitFindsArguments | scripts/check-temp-path-guardrails.ts:98-162 | such arguments joined by commas are split into exactly themselves |
| CallPrinting.ReadCall | scripts/check-temp-path-guardrails.ts:188-194 | writing a call anywhere and reading its arguments back gives each one trimmed, without a blank last one |
| PathMatcher.MatchesParts | scripts/check-policy-config-coverage.ts:209-232 | the recursion with its search over split points decides the match |
| PathMatcher.MatchesIffSpells | scripts/check-policy-config-coverage.ts:209-232 | a pattern matches exactly if some assignment of one segment to each `*` and any number to each `**` spells the value |
| PathMatcher.ConcatMatches | scripts/check-policy-config-coverage.ts:209-232 | a concatenation of patterns matches exactly the concatenations of matches |
| PathMatcher.GlobstarCollapses | scripts/check-policy-config-coverage.ts:214-224 | a repeated `**` matches what one matches, wherever it stands |
| PathMatcher.PlainPatternMatchesItself | scripts/check-policy-config-coverage.ts:203-207 | without wildcards a pattern matches only itself |
| PathMatcher.OkMeansCovered | scripts/check-policy-config-coverage.ts:70-105 | a report is ok exactly if every monitored leaf is classified, every classification that is not exempt matches a monitored leaf, and every monitored pattern matches a leaf or is exempt |
| PathMatcher.ReportTells | scripts/check-policy-config-coverage.ts:70-105 | what each list of a report holds: the monitored leaves with the first classification matching them, those without one, the stale classifications and the unmatched monitored patterns |
| PathMatcher.Summarize | scripts/check-policy-config-coverage.ts:187-197 | every entry is counted once, under its own key |
| WorkerPool.EveryScheduleMaps | scripts/native-app-i18n.ts:928-949 | in every schedule of claims and completions: no more calls than the limit are in flight, indices are claimed once each and in order, and when all workers are through without a rejection the slots hold the sequential map |
| WorkerPool.LimitIsReached | scripts/native-app-i18n.ts:928-949 | some schedule has as many calls in flight at once as the limit and the number of values allow |
| WorkerPool.ActiveStepsRunOut | scripts/native-app-i18n.ts:938-945 | every resumption of an active worker brings the end closer |
| WorkerPool.StartingWeight | scripts/native-app-i18n.ts:935-937 | a pool of w workers on n values takes at most 2n + w resumptions |
| WorkerPool.DonePoolIsTheMap | scripts/native-app-i18n.ts:936-948 | a finished pool with a worker has a rejected call exactly if some call rejects, and otherwise holds the map |
| WorkerPool.NoWorkerNoResult | scripts/native-app-i18n.ts:935 | there is no worker exactly if the limit is below 1 or there are no values |
| WorkerPool.MapWithConcurrency | scripts/native-app-i18n.ts:928-949 | for a limit of at least 1 the pool rejects exactly if a call rejects and otherwise returns the map; below 1 it returns only empty slots |
| WorkerPool.ReadRuntimeSourceFiles | scripts/check-temp-path-guardrails.ts:223-263 | the files that can be read come out in the order of their paths |
| RestartProbe.WaitForRestartProbe | scripts/bench-gateway-restart.ts:675-760 | the attempts are up, then down, then up at most once at the end; `ms` is set exactly if the last attempt was up; `downtimeMs` is last success less first failure; every attempt passed the two tests before it, and the loop stops for its four reasons and no earlier; events match transitions one for one |
| RestartProbe.TransitionsTellAttempts | scripts/bench-gateway-restart.ts:712-727 | consecutive transitions differ in status or error; those of the first n attempts come first, and their last one tells the state of attempt n, with its time if it is a new state |
| RestartProbe.DowntimeIsNotNegative | scripts/bench-gateway-restart.ts:737-747 | on a clock that does not go backwards the downtime is not negative and spans from leaving to coming back |
| OutputLines.SplitInTwo | scripts/bench-gateway-restart.ts:965-971 | splitting a text goes on from the unfinished line of its first part, wherever it is cut |
| OutputLines.SplitsExactlyLines | scripts/bench-gateway-restart.ts:965-971 | the parts of a split are exactly the lines of the text, each ended by LF or CR LF, and the rest |
| OutputLines.OutputReader.OnChunk | scripts/bench-gateway-restart.ts:1248-1264 | per stream, the lines passed on and the buffer stay the split of all text received; the last 30 chunks are kept |
| OutputLines.OutputReader.Flush | scripts/bench-gateway-restart.ts:973-990 | only at the end are the unfinished lines passed on, stdout first, if not empty |
| OutputLines.ReadAll | scripts/bench-gateway-restart.ts:1248-1264 | any chunks of both streams in any mixture give, per stream, the lines of its whole text |
| LabelBatches.FetchBatches | scripts/label-open-issues.ts:575-635 | the batches concatenate to the first nodes up to the limit; all but the last have 500 items and none is empty; each tells its number and the running count |
| LabelBatches.FetchedCountIsSum | scripts/label-open-issues.ts:605-614 | the running count is what the batches up to one hold together |
| LabelRuns.AtMostOneCategory | scripts/label-open-issues.ts:893-954 | over any runs, crashes and unreadable state files, with others adding labels, the tool adds at most one of bug and enhancement to an issue, if no batch of a run that is not dry has an issue pending twice without a category; every saved issue was worked on |
| LabelRuns.AtMostOneCategoryIff | scripts/label-open-issues.ts:893-954 | after any such execution, the next batch leaves every issue with at most one added category, however its issues are classified, exactly if none of those still to be worked on is listed twice without a category |
| LabelRuns.WorkedIssueIsLabelled | scripts/label-open-issues.ts:906-948 | after its turn an issue has exactly its labels, the category it was classified as if it was fetched with neither, and `r: support` and `r: skill` if so classified; nothing it had when fetched is added again and no other issue changes |
| LabelRuns.BatchIsSaved | scripts/label-open-issues.ts:893-954 | after any execution, a batch worked through is saved with all the run counted as processed, unless the run is dry or the batch has no new issue |
| LabelRuns.LostFromSaved | scripts/label-open-issues.ts:866-879 | over any executions, what an event drops from the state file is exactly what a run that could not read the file has not worked on, when that run saves |
| LabelRuns.SavedGrowsIff | scripts/label-open-issues.ts:866-954 | what is saved grows all the way exactly if each time it is saved, the run could read the file or has itself worked on every issue saved there |
| LabelRuns.UnreadableStateLosesSaved | scripts/label-open-issues.ts:866-876 | a run that cannot read the file may lose what earlier runs had saved |
| LabelRuns.SavedIsSkipped | scripts/label-open-issues.ts:898 | over any executions, a run skips exactly the issues it has worked on itself and, if it could read the file, those saved in it |
| LabelRuns.DryRunChangesNothing | scripts/label-open-issues.ts:938-953 | a dry run changes neither labels nor the state file |
| LabelRuns.DuplicateGetsBothCategories | scripts/label-open-issues.ts:898-946 | an issue listed twice in one batch may be given both categories |
| LabelRuns.Labeler.ChooseLabels | scripts/label-open-issues.ts:921-936 | the labels to add are those of the specification |
| LabelRuns.Labeler.WorkBatch | scripts/label-open-issues.ts:893-954 | a batch takes the steps of the state machine, up to a crash or to the checkpoint |

## Left out

- Spawning, real signals, clocks, files, HTTP, git and the model providers: they are events,
  parameters or adversarial choices; so are logging, progress lines and retry delays.
- Windows: `taskkill`, the missing process groups and SIGHUP. The POSIX paths are modelled.
- A failing kill that makes Node emit the child's `error` event in the middle of a handler;
  an error on a log stream before it is ended, which crashes the process; output that
  arrives after a command's log stream was ended; the heartbeat lines.
- What a finished child's promise carries: its exit code, its output and the rejections that
  depend on them are one outcome of `runProcess`.
- JSON, module formatting and `JSON.parse` failures of the translation memory, SHA-256 and
  `localeCompare`; the glossary file, prompts and placeholders, of which the sync only sees
  whether two texts have the same ones.
- LocaleTree.RebuildLocale: works on tree values where the script updates nested objects in
  place, so writes into inherited objects are lost instead of being seen by later reads; keys
  that look like integers, which JavaScript lists first, keep their place.
- ReleaseVersions.RefsIdentifyReleases: speaks of accepted options; `HEAD` and other names of
  commits are resolved by git before the model begins.
- Characters are whole characters: UTF-8 sequences and surrogate pairs cut by a chunk or by
  the bounded capture are not modelled.
- `extractSwiftInterpolations` and `extractKotlinInterpolations`, which scan already decoded
  strings with slightly different rules, multi-line literals and the regular expressions
  around the readers.
- Comment stripping and the pattern lists of the guardrail script; sorting and printing of
  reports; `totalCount` and log counters of the labelling script; its pull-request loop, which
  is the issue loop with the skill label only and whose checkpoints write the same file.
- `waitForProbeReady`, trace lines, statistics and resource sampling of the restart benchmark;
  state keys of the probe are compared as pairs of status and error kind.
- Argument parsing, `assertRootDir` and commit lookup of the release script, and everything
  else in the repository.
