# ghciwatch in Dafny

ghciwatch drives a GHCi session over pipes, watches files, and keeps its own beliefs about targets,
applied file states and outstanding prompts in step with a world that moves on its own. This project
models the parts where that is hardest and proves what they are for. Each file holds one component.

* **Processes.** `ProcessFamily.dfy` is the downward closure that collects a command's process tree,
  `FreezeLoop.dfy` the stop-and-rescan loop that freezes and kills it while unstopped processes go on
  forking, regrouping and exiting, and `ProcessMemory.dfy` the upward, depth-bounded walk of the memory
  accounting, with the proof that both walks find the same processes.
* **Reading GHCi.** `Utf8.dfy` decodes a byte stream cut at arbitrary places, against the grammar of
  section 4 of RFC 3629. `IncrementalReader.dfy` is the line-and-marker chunker, a class with its
  buffers; `Stderr.dfy` is the stderr side with forwarding, replay and synchronisation markers.
* **Protocols.** `WatcherEvents.dfy` and `Manager.dfy` are the coalescing and interruption of watcher
  events, `CrashLoop.dfy` the crash-retry loop, `Prompts.dfy` the prompt and stderr-marker protocol
  with a concurrent GHCi, `Targets.dfy` the reconciliation of GHCi's targets with the watched files,
  and `Hooks.dfy` the bracketing of every operation by its lifecycle hooks.
* **Files and text.** `Diagnostics.dfy` is the diagnostic printer with its parser, `ErrorLog.dfy` the
  error file written with it, `MemoryLog.dfy` the pruned history file, `Content.dfy` the content
  baseline of watched files, `EvalCommands.dfy` the evaluation commands found in source files with
  their positions, and `ProgressWriter.dfy` the writer that condenses progress lines.

`Basics.dfy`, `Bytes.dfy` and `Lines.dfy` hold shared definitions. Objects that the program updates in
place are classes here, its loops are loops, and each method is proved against a function or a
predicate whose properties the lemmas beside it state. Other processes, the operating system and the
far ends of pipes are steps, scripts or oracles that may do anything the model allows.

Some expectations turn out false of the code. For each there is an input that shows it, and the exact
condition under which the expectation holds:

* A stable pass of the freeze loop can leave a running member of the tree behind exactly when a pid is
  reused while it runs (`ReuseDecides`, `EscapedSurvives`).
* A marker recognised in an unterminated line drops only what has arrived of that line (`CutMarkerLine`,
  `PiledMarkers`), so the chunks of a stream depend on how it is cut, unless the cuts are safe
  (`CutsAgreeIff`).
* Malformed UTF-8 is decoded differently under different cuts (`MalformedDependsOnTheSplit`); when two
  reads agree is `SplitAgreesIff`.
* The crash branch of the manager can put an older pending state, or an older snapshot, over a newer one
  (`CrashRegresses`); `CrashKeepsOrderIff` says when it does not.
* A block of n lines leaves anything from 0 to n - 1 prompts unread (`BlockLeavesAny`), and can pair its
  marker with another prompt (`BlockMispairs`); `RunBlock` says when it pairs, and `AlwaysPairsIff` that
  only blocks of one line pair every time. A prompt behind output that
  ends within a line is never recognised (`RunCommand`).
* A diagnostic without a path comes back with the path `<no location info>`, leading blanks of a message
  are dropped, and control characters are stripped (`RoundTripIff`, `ColourIsLost`).
* Shell hooks survive failing GHCi hooks exactly because they are sorted first (`ShellsSurviveIff`).
* After-reload hooks need not run once. Failed setup commands publish any number of additional ones
  (`EveryNumberIsPublished`), exactly when `PublishedIff` and, for a restart, `RestartPublishesIff` say, and as
  many as `SetupAttempts` counts. A reload runs none if and only if its events cannot be classified
  (`ReloadSession`), and a replacement after a recovery kill runs after-restart hooks without before-restart
  ones (`RestartAfterRecoveryKill`).
* What a failed batch of content events had found is never reported while the file stays as it is
  (`FailedBatchLoses`); it loses exactly what lies below the paths it had scanned (`FailedBatchLosesIff`).
  Directory symlinks hide files from some scans and not from others, so that a file can be reported again and
  again (`LinksFlap`); `AgreesIff`, `ReportsExactlyIff` and `SecondLookIsQuietIff` say when they do no harm.

## Model

| member | source | states |
|---|---|---|
| ProcessFamily.ProcessTree | src/ghci/process.rs:365-396 | terminates and returns, without repeats and the seeds first, exactly the snapshot's processes whose parent chain reaches the command or its group; this set lies in every set closed under "parent is in the family" |
| ProcessFamily.Seeds | src/ghci/process.rs:370-380 | the command and all members of its group, each listed once |
| ProcessFamily.AdoptChildren | src/ghci/process.rs:381-394 | a pass adds only members of the tree, adds one whenever the family is not closed, and reports a change exactly so that the loop ends |
| ProcessFamily.TreeIsLeast | src/ghci/process.rs:365-396 | every closed set contains every process on whose parent chain a seed lies |
| ProcessFamily.ClosedIsTree | src/ghci/process.rs:365-396 | a closed stage of the collection is exactly the tree |
| FreezeLoop.FrozenKinIsBarren | src/ghci/process.rs:271-333 | over any run of forks, group changes and exits, a frozen set of processes stays frozen, forks nothing, and none of its dead identities comes back |
| FreezeLoop.Pass | src/ghci/process.rs:295-316 | one pass keeps everything captured stopped; it finds nothing new only if every pid of the tree is captured, and otherwise the remaining steps or uncaptured pids decrease, which needs `found_new` to be set before tracking may fail |
| FreezeLoop.Freeze | src/ghci/process.rs:283-317 | the loop ends with a stable pass unless a reading fails, has stopped only what it captured, and, without pid reuse, then holds the whole tree |
| FreezeLoop.KillProcessTree | src/ghci/process.rs:271-339 | the table is read, and the loop gives up only if a reading fails; otherwise every member of the tree found is captured by its pid. Captured are only members of the tree; they, the whole group and everyone it stopped are dead at the end. If no pid is reused while it runs and no reading fails, nobody was forked since the last pass and no member of the tree survives; if nobody else acts, this is the tree from the start |
| FreezeLoop.Sweep | src/ghci/process.rs:319-333 | no captured process and no member of the group survives, whatever forks meanwhile |
| FreezeLoop.Capture | src/ghci/process.rs:300-313 | one process is followed, stopped and captured or has vanished, nothing thawed, and without pid reuse every captured pid still names the same process |
| FreezeLoop.StablePassHoldsTheTree | src/ghci/process.rs:283-317 | while no pid is reused, a stable pass means that the whole tree is captured and stopped |
| FreezeLoop.PennedRuns | src/ghci/process.rs:319-333 | over any run, members of the group that were stopped stay in it until they die, so that killing the group reaches those whose capture failed after the stop |
| FreezeLoop.AllHeld | src/ghci/process.rs:295-316 | a first pass that stops listed processes in any order holds and records all of them |
| FreezeLoop.NoReuseNoEscape | src/ghci/process.rs:271-317 | without a reused pid no run with a first pass over any listing of any tree, and steps of others before its last capture, leaves a running member of the tree to a stable pass; `KillProcessTree` says so of all runs |
| FreezeLoop.ReuseEscapes | src/ghci/process.rs:271-317 | every sequence of steps that reuses a pid has a start with nobody stopped from which the loop, going through its listing seeds first, leaves a running member of the tree behind: a child that the last process to be stopped has reaped and forked again |
| FreezeLoop.ReuseDecides | src/ghci/process.rs:271-317 | over all sequences of steps: some such run misses a running member of the tree if and only if a pid is reused |
| FreezeLoop.EscapedSurvives | src/ghci/process.rs:319-333 | such a process, outside the group, also outlives the SIGKILL sweep |
| FreezeLoop.Kernel.Track | src/ghci/process.rs:399-422 | fails when the identity is gone, or, without pidfds, when the pid is |
| ProcessMemory.DescendantDepth | src/ghci/memory.rs:267-283 | the distance at which the ancestor is first met; with the ancestor among the processes the step bound misses nothing, even with parent cycles |
| ProcessMemory.DepthBound | src/ghci/memory.rs:267-283 | pigeonhole: an ancestor is met within as many steps as there are processes, and in fewer when it is one of them |
| ProcessMemory.NoRepeats | src/ghci/memory.rs:267-283 | no process repeats before the ancestor is first met |
| ProcessMemory.UnknownAncestorIsMissed | src/ghci/memory.rs:267-283 | for an ancestor that is not in the snapshot the bound is one step short |
| ProcessMemory.WalksAgree | src/ghci/memory.rs:267-283 | for a command known and alone in its group, the downward closure and the bounded upward walk find the same processes |
| ProcessMemory.TreeBytes | src/ghci/memory.rs:98-105 | the saturated sum of the resident memory of all descendants of the root |
| ProcessMemory.SelectReplProcesses | src/ghci/memory.rs:204-230 | the Cabal and GHC pair with the smallest GHC pid among all pairs directly below a command that still leads its group, and none otherwise |
| Utf8.Decoder.Decode | src/incremental_reader.rs:201-242 | the bytes kept back and read are handed out as they are if they are well-formed text, but for a character truncated at the end, which is kept back; anything else is decoded with replacements |
| Utf8.ValidIffWellFormed | src/incremental_reader.rs:201-242 | the validator accepts exactly the sequences of the RFC 3629 grammar |
| Utf8.IncompleteParts | src/incremental_reader.rs:201-242 | an incomplete input is well-formed text and a proper beginning of one more character, of at most three bytes |
| Utf8.MalformedIff | src/incremental_reader.rs:201-242 | an input is malformed if and only if it is no well-formed text followed by at most a truncated character |
| Utf8.SplitAgreesIff | src/incremental_reader.rs:201-242 | two reads give what one gives if and only if the first is not malformed, or the second neither continues a character truncated at its end nor is itself incomplete |
| Utf8.LossySplitsIff | src/incremental_reader.rs:201-242 | lossy decoding of two parts is that of the whole if and only if the second does not continue a character truncated at the end of the first |
| Utf8.ReadsAreSplitIndependent | src/incremental_reader.rs:201-242 | however a beginning of well-formed text is cut into reads, outputs plus carry equal the bytes so far, every output is well-formed, and the carry is a proper part of one character, empty exactly when the text is complete |
| Utf8.DecodeStepIsSafe | src/incremental_reader.rs:201-242 | for every stream, outputs are well-formed and the carry has at most three bytes |
| Utf8.LossyIsWellFormed | src/incremental_reader.rs:201-242 | lossy decoding always gives well-formed text |
| Utf8.LossyReplaces | src/incremental_reader.rs:201-242 | lossy decoding keeps well-formed text and puts one replacement character for each bad part: the longest beginning of a character, or else one byte |
| Utf8.HeadIsBadPart | src/incremental_reader.rs:201-242 | where no character begins, the bad part is the one found by the reading of one character |
| Utf8.MalformedDependsOnTheSplit | src/incremental_reader.rs:201-242 | the bytes FF C2 A9 are decoded differently when a read ends after C2 |
| Reader.IncrementalReader.ConsumeStr | src/incremental_reader.rs:315-393 | of the pieces of line and data, exactly the finished lines before the first marker (the last piece tested after stripping) are returned, the marker's line alone is dropped, every later piece is kept in order, and the buffers stay sound; also what is forwarded |
| Reader.ForwardedLines | src/incremental_reader.rs:315-393 | forwarded are all finished lines, all but the marker, or none, in order, as the mode asks |
| Reader.Scanned | src/incremental_reader.rs:315-393 | the loop over the data does to the buffers what that account of the pieces says |
| Reader.IncrementalReader.TakeLines | src/incremental_reader.rs:396-414 | hands out the finished lines and empties both line buffers |
| Reader.IncrementalReader.FinishLine | src/incremental_reader.rs:417-438 | the unterminated line becomes a finished one, forwarded as asked |
| Reader.IncrementalReader.DrainPending | src/incremental_reader.rs:292-306 | text buffered without a search becomes lines and the beginning of a line |
| Reader.IncrementalReader.TakeChunkFromBuffer | src/incremental_reader.rs:444-484 | the first buffered marker line, or an unterminated marker, ends a chunk; without one nothing changes |
| Reader.SearchFinds | src/incremental_reader.rs:444-484 | the search by line starts finds exactly the first marker line |
| Reader.IncrementalReader.DrainBufferedChunks | src/incremental_reader.rs:490-497 | terminates, returns the number of buffered marker lines, and leaves exactly the text after the last one |
| Reader.TakenPieces | src/incremental_reader.rs:444-484 | taking a chunk uses up exactly the first marker |
| Reader.ReadAll | src/incremental_reader.rs:125-157 | the chunks returned and the text left over after any deliveries are those of the whole text if and only if the cuts are safe; then each chunk is exactly the lines up to the next marker |
| Reader.ChunksAreGroups | src/incremental_reader.rs:125-157 | a text of groups of lines, each ended by a marker line, has the text of each group for a chunk, and the rest is left |
| Reader.ReadOutcome | src/incremental_reader.rs:125-157 | the same from any sound buffers on, over what is buffered and still to come |
| Reader.CutsAgreeIff | src/incremental_reader.rs:315-393 | cuts are safe if and only if no delivery ends within a line whose beginning is taken for a marker, as it is or stripped |
| Reader.LineCutsAreSafe | src/incremental_reader.rs:315-393 | deliveries that end with a newline are cut safely |
| Reader.CutMarkerLine | src/incremental_reader.rs:338-349 | a marker line cut after its first character leaves the rest of the line behind |
| Reader.PiledMarkers | src/incremental_reader.rs:328-349 | markers on one line are dropped together if they arrive together, one by one if they do not |
| Stderr.SplicedTextIsKept | src/ghci/stderr.rs:236-238 | a marker is taken out of the middle of a line and the text on both sides kept |
| Stderr.GhciStderr.IngestLine | src/ghci/stderr.rs:156-179 | a line is buffered once, and shown or held back; an armed operation is told of the first error only |
| Stderr.GhciStderr.SetForwarding | src/ghci/stderr.rs:114-132 | enabling with a replay shows, once and in order, everything held back |
| Stderr.GhciStderr.GetBufferThrough | src/ghci/stderr.rs:187-218 | hands out exactly what came since the last hand-out, up to the marker and around it; a caller that goes away or an end of file loses nothing |
| Stderr.GhciStderr.DrainBuffer | src/ghci/stderr.rs:222-233 | everything up to the end of the stream |
| WatcherEvents.WatcherEvent.Merge | src/ghci/manager.rs:57-87 | the newest event kind and state of each path survive, with the newest snapshot |
| WatcherEvents.MergedSays | src/ghci/manager.rs:57-87 | of a path the later event decides kind and state if it names it, else the earlier one; a retry at startup is kept from either |
| WatcherEvents.WatcherEvent.DiscardApplied | src/ghci/manager.rs:92-111 | drops exactly the events whose state is applied, and reports when nothing new is said |
| WatcherEvents.RedundantIffApplied | src/ghci/manager.rs:92-111 | a delivery says nothing new if and only if marking it as applied changes nothing |
| WatcherEvents.WatcherEvent.MarkApplied | src/ghci/manager.rs:113-128 | applied states are overridden by the event's |
| WatcherEvents.MergeAssociative | src/ghci/manager.rs:57-87 | merging is associative, so a burst may be folded in any grouping |
| WatcherEvents.MergeOfDeliveries | src/ghci/manager.rs:57-87 | deliveries merge into an event that could have been delivered |
| Manager.GhciManager.Coalesce | src/ghci/manager.rs:167-190 | an arriving event is merged with what has not been handed over |
| Manager.GhciManager.WaitForEvent | src/ghci/manager.rs:482-525 | an idle manager takes up an event unless everything it says is applied |
| Manager.GhciManager.Arrive | src/ghci/manager.rs:661-735 | an event that arrives during a dispatch is accumulated, or interrupts it and is merged into it |
| Manager.GhciManager.DispatchDone | src/ghci/manager.rs:738-822 | a completed dispatch is marked as applied; what arrived meanwhile is retried if it says anything new |
| Manager.StepKeepsInv | src/ghci/manager.rs:578-825 | every step keeps "applied, in-flight, pending, channel and coalescer override to all states delivered, in order" |
| Manager.RunKeepsInv | src/ghci/manager.rs:578-825 | so does every run |
| Manager.NothingIsLost | src/ghci/manager.rs:578-825 | at rest, applied states and snapshot are the ones last delivered |
| Manager.AppliedByDispatch | src/ghci/manager.rs:738-822 | applied states change only when a dispatch completes, only on the paths of its event, and to what that says |
| Manager.AppliedWasDispatched | src/ghci/manager.rs:578-825 | over every run, a state that came to be applied was dispatched to the session |
| Manager.Settles | src/ghci/manager.rs:578-825 | as long as work is left, a step of the manager can be taken, and every step but a delivery leaves less |
| Manager.QuietRunIsShort | src/ghci/manager.rs:578-825 | after the last delivery at most ten steps are left |
| Manager.DirtyPathsAreHinted | src/ghci/manager.rs:578-825 | a path whose newest state is not applied is hinted at by an event still on its way |
| Manager.GhciManager.SendPermit | src/ghci/manager.rs:167-190 | what has been coalesced is handed over as one event |
| Manager.CrashKeepsOrderIff | src/ghci/manager.rs:792-819 | across a crash the newest states and the newest snapshot both survive if and only if no path pending and received again, and not delivered since, is in another state by then, and what was pending and what was received last show one snapshot or a later delivery waits |
| Manager.CrashReaches | src/ghci/manager.rs:578-825 | a crash with one delivery in flight and another pending is reached by a run of steps |
| Manager.CrashRegresses | src/ghci/manager.rs:792-819 | from that state, an older state of a path overrides a newer one, or, on other paths, an older snapshot a newer one |
| CrashLoop.WaitAndRestart | src/ghci/manager.rs:932-1107 | every start follows a whole delay and carries the newest snapshot and all that is new; later ones carry a state no attempt had last. It goes on exactly as long as replacements crash; in a crash loop it never gives up at an arriving event, nor at a crash with news since the last start. Without persistent recovery there is at most one start more than events received |
| CrashLoop.AwaitNews | src/ghci/manager.rs:995-1020 | takes in everything that has arrived, and reports news if and only if what arrived since the last start, merged, says something that was not attempted |
| CrashLoop.RedundantIff | src/ghci/manager.rs:995-1020 | what is kept says nothing new if and only if nothing received since the last start is new, and dropping covered states loses none of it |
| CrashLoop.CarriesOneMore | src/ghci/manager.rs:1058-1075 | merging one more event keeps all that is new |
| CrashLoop.TakeStock | src/ghci/manager.rs:1058-1075 | everything in the queue, merged, less the states the attempts have covered; nothing if that says nothing new |
| Prompts.Session.Write | src/ghci/stdin.rs:32-45 | a line written adds one prompt to come and its diagnostics, whatever GHCi is doing |
| Prompts.Session.AwaitPrompt | src/ghci/stdout.rs:199-218 | the first prompt that can be recognised is consumed, with everything before it and with those that have arrived behind it on its line; without a timeout it gives up only if there is none |
| Prompts.FirstIsUnique | src/ghci/stdout.rs:199-218 | which prompt is recognised, and what is behind it, does not depend on how the output arrives |
| Prompts.Session.StderrThroughMarker | src/ghci/stdout.rs:71-112 | everything said on stderr before the marker is handed over, and one prompt consumed |
| Prompts.Session.Collect | src/ghci/stderr.rs:187-218 | stderr is split exactly at the marker |
| Prompts.Session.SyncBarrier | src/ghci/mod.rs:1930-1978 | from any number of stale prompts, a successful barrier leaves no prompt outstanding and no diagnostic uncollected, and it succeeds unless it times out |
| Prompts.Session.RunCommand | src/ghci/stdin.rs:96-117 | from then on the prompt consumed answers this line, and exactly its diagnostics are handed over; it succeeds if and only if the command's output does not end within a line and nothing times out |
| Prompts.Session.RunCommands | src/ghci/stdin.rs:96-117 | the i-th prompt consumed answers the i-th one-line command, and the i-th diagnostics are that command's |
| Prompts.Session.RunBlock | src/ghci/stdin.rs:96-117 | a block of n lines leaves between 0 and n - 1 prompts unread; its marker is paired with its own prompt if and only if the first wait drops all the block's other prompts, which cannot be when the block prints whole lines last |
| Prompts.BlockPicks | src/ghci/stdin.rs:96-117 | the same for every way in which two waits can divide the prompts |
| Prompts.BlockLeavesAny | src/ghci/stdin.rs:96-117 | each of these numbers is possible |
| Prompts.AlwaysPairsIff | src/ghci/stdin.rs:96-117 | whatever a block prints: its marker is paired with its own prompt in every execution if and only if the block has one line |
| Prompts.BlockMispairs | src/ghci/stdin.rs:96-117 | a block of two lines or more that prints nothing can pair its marker with another prompt even though no prompt is left unread |
| Prompts.MarkerSplits | src/ghci/stderr.rs:187-218 | a marker that occurs once splits stderr in one way |
| Prompts.OneMore | src/ghci/stdin.rs:32-45 | one more input line adds one prompt, at the end |
| Targets.Classify | src/ghci/file_classifier.rs:88-172 | every event is filed under the one kind of action it calls for |
| Targets.KindIff | src/ghci/file_classifier.rs:118-165 | which events restart (paths matched for restarts, `.cabal` and `.ghci` files unless ignored), reload, add or remove: whitelisted paths and present target sources reload, new Haskell sources are added, vanished targets removed, and nothing else |
| Targets.ExtensionIff | src/ghci/file_classifier.rs:118-165 | a name has an extension if and only if that follows its last dot and something precedes the dot |
| Targets.Session.GetReloadActions | src/ghci/mod.rs:701-789 | the planned actions, from events reconciled with the snapshot and from the difference of snapshots |
| Targets.Session.AddModules | src/ghci/mod.rs:1475-1598 | GHCi's targets and the believed ones grow by exactly the accepted paths; the rest is returned; it fails if and only if a path is loaded already |
| Targets.Session.RemoveModules | src/ghci/mod.rs:1672-1733 | both target sets lose exactly the given paths |
| Targets.Session.Reload | src/ghci/mod.rs:850-994 | keeps the invariant, never fails, and ends in exactly the state `AfterReload`, of which the lemmas below speak |
| Targets.ReloadKeepsInStep | src/ghci/mod.rs:850-994 | known files are the snapshot without rejected additions, every known target source is a target, vanished ones are not, no other target is lost, and whatever is new was there and accepted |
| Targets.SecondReload | src/ghci/mod.rs:850-994 | reloading one snapshot twice, with no event between, is as good as once, whatever the first reload had to do; what GHCi has come to accept meanwhile is added, and nothing else |
| Targets.PlanAfterReload | src/ghci/mod.rs:701-789 | once a snapshot is applied, the same snapshot plans every refused file again, with any events; with events for target sources that are there it plans, exactly, the refused files (added, or restarted for) and reloads of targets, and nothing at all if nothing was refused and nothing happened |
| Targets.Session.DoRestart | src/ghci/mod.rs:1195-1279 | the same for a fresh session that knows only the command's targets |
| Targets.Session.SynchronizeHaskellFiles | src/ghci/mod.rs:1240-1279 | the whole snapshot is reconciled with the actual targets |
| Targets.PlanIsConsistent | src/ghci/mod.rs:701-789 | removals are targets that vanished, additions are existing target sources that are no targets; both are complete, disjoint, and stay so when removals go first, so the "already loaded" failure cannot occur |
| Hooks.SortedShellFirst | src/hooks.rs:432-437 | sorting loses no hook, puts shell commands first, and keeps the order of each event's shell commands |
| Hooks.ShellsSurviveIff | src/ghci/mod.rs:2166-2240 | all shell hooks of a list run whatever the GHCi hooks do, if and only if no GHCi hook comes before a shell hook |
| Hooks.ShellsAllRun | src/ghci/mod.rs:2166-2240 | with shell hooks first, each runs once, in order, or none if they ran already |
| Hooks.GhcisRunInOrder | src/ghci/mod.rs:2184-2218 | the GHCi hooks that run are the first of the list, in order: none runs after one that broke or failed |
| Hooks.SkippedAfterFailure | src/ghci/mod.rs:2184-2218 | if a GHCi hook is left out, the one that ran last did not succeed |
| Hooks.AllExecuted | src/ghci/mod.rs:2166-2240 | when nothing fails, every hook of the list runs and the list succeeds |
| Hooks.Session.RunShellHooks | src/hooks.rs:345-366 | outside strict mode every shell hook of the event runs once and the call succeeds; a success means that all of them ran, in order |
| Hooks.Session.RunHooks | src/ghci/mod.rs:2166-2240 | outside strict mode every shell hook of the event runs once, even if a GHCi hook breaks; which hooks run, and whether it succeeds, is told from what they do; when nothing fails, all of them run |
| Hooks.Session.RunGhciHooks | src/ghci/mod.rs:2243-2260 | runs no shell hook, and of the GHCi hooks those up to the first that breaks or fails |
| Hooks.Session.RunCompletionHooks | src/ghci/mod.rs:2047-2075 | the shell hooks of all given events run once; after a success, and only then, the GHCi hooks of each event run too, up to the first that breaks or fails, and all of them when nothing fails |
| Hooks.Session.FinishCompilation | src/ghci/mod.rs:2012-2149 | the result is checked, the errors are published, the hooks run, and then evaluation commands and tests follow a success, in this order; on every outcome the shell hooks of all given events run exactly once; no GHCi hook runs unless the compilation succeeded on a current snapshot, and then they all do unless one fails; a test owed by a superseded one is run by the next that succeeds |
| Hooks.PublishedIff | src/ghci/setup.rs:13-71 | failed setup attempts are announced if and only if the first setup attempt fails and its failure can be written |
| Hooks.RestartPublishesIff | src/ghci/mod.rs:1147-1237 | a restart announces failed setup attempts, beside its own end, if and only if there are setup commands, no GHCi hook before it breaks, the old process stops, the setup commands fail and the failure can be written |
| Hooks.EveryNumberIsPublished | src/ghci/setup.rs:13-71 | whatever hooks are configured, every number of such announcements is possible |
| Hooks.Session.RunSetup | src/ghci/setup.rs:13-71 | setup is done when it succeeds, and fails only if a setup command or a hook does; announcements are counted as `SetupOf` tells from what the commands do |
| Hooks.Session.New | src/ghci/mod.rs:470-502 | setup, then the before-startup hooks, then the process, in this order; a fresh session runs after-reload hooks exactly once per failed setup attempt whose failure can be written, a number told from what the commands do, and the before-startup hooks once, if and only if setup succeeds |
| Hooks.Session.Initialize | src/ghci/mod.rs:615-684 | boots GHCi and then closes all its events, on success and on failure; when nothing fails, it succeeds and all hooks of those events run |
| Hooks.Session.RestartInner | src/ghci/mod.rs:1195-1237 | a success means that the old process was stopped and a new one started and booted, in this order; a failed stop, spawn or initialization still closes every event once; after-reload hooks run once more per published setup failure of the new session, and for none if the old one does not stop |
| Hooks.Session.RestartProper | src/ghci/mod.rs:1166-1192 | from the before-restart hooks on, after-restart hooks balance, and after-reload hooks run once and once per published setup failure |
| Hooks.Session.RestartSession | src/ghci/mod.rs:1147-1192 | the hooks before the restart, the replacement and the hooks after it come in this order, and a success means that the process was replaced; after-restart hooks run exactly when before-restart ones did; after-reload hooks run once, and once per published setup failure, whose number `RestartSetup` tells from the start; when nothing fails, all these hooks run |
| Hooks.Session.StartupRestart | src/ghci/mod.rs:1068-1137 | reload and restart hooks bracket the replacement once each, in order, with after-reload hooks once more per published setup failure; a success means that the process was replaced |
| Hooks.Session.RestartAfterRecoveryKill | src/ghci/mod.rs:445-464 | after-restart hooks run without before-restart ones, and after-reload hooks once per published setup failure |
| Hooks.Session.Modify | src/ghci/mod.rs:905-955 | removals, additions, reloads and the GHCi before-hooks are done in order; it succeeds exactly if each succeeds, and then all that the plan calls for is done |
| Hooks.Session.ReloadSession | src/ghci/mod.rs:850-994 | what the events call for is done after the before-hooks and before the after-hooks, the result is checked, and a success means that it was done; once its events are classified, a reload that is not cancelled runs after-reload hooks exactly once on every outcome, and none if they cannot be classified; only a restart runs them once more per published setup failure, whose number is told from the start; when nothing fails, it succeeds and all GHCi hooks run |
| Hooks.Session.DispatchReload | src/ghci/manager.rs:587-599 | with the manager's hooks, before- and after-reload hooks bracket every classified event and what is done for it, after-reload hooks once more per published setup failure of a restart; when nothing fails, all of them run |
| Hooks.Session.ReloadFromEval | src/ghci/mod.rs:805-841 | before- and after-reload hooks run exactly once each, with the load between them if it succeeds |
| Hooks.Session.FinishInterruptedReload | src/ghci/mod.rs:1044-1061 | a cancelled attempt is closed by the after-reload hooks, once, with their GHCi commands if GHCi can run them |
| Diagnostics.SpanPrints | src/ghci/parse/ghc_message/position.rs:66-147 | all three span formats are read back |
| Diagnostics.SpanForm | src/ghci/parse/ghc_message/position.rs:66-88 | the format of several lines is used exactly if the lines differ, and a range exactly if start and end do |
| Diagnostics.NumberPrints | src/ghci/parse/ghc_message/position.rs:101-143 | a printed number that fits is read back, up to the first character that is no digit |
| Diagnostics.DecIsCanonical | src/ghci/parse/ghc_message/position.rs:66-88 | a number is printed in the one form without leading zeros |
| Diagnostics.BodyParses | src/ghci/parse/ghc_message/message_body.rs:11-33 | the greedy body recognises a message whole, and nothing after it |
| Diagnostics.SeverityPrints | src/ghci/parse/ghc_message/severity.rs:20-40 | both severities are read back |
| Diagnostics.DiagnosticPrints | src/ghci/parse/ghc_message/generic_diagnostic.rs:26-45 | one printed diagnostic is read back from the front of any text that does not continue its body |
| Diagnostics.AllReadBack | src/ghci/parse/ghc_message/mod.rs:165-203 | printed diagnostics put together are parsed to exactly that list, up to the path and blanks of `ReadBack` |
| Diagnostics.AllReadBackBefore | src/ghci/parse/ghc_message/mod.rs:165-203 | the same ahead of any text that does not continue a message |
| Diagnostics.FileReadsBack | src/ghci/parse/ghc_message/mod.rs:130-203 | the same with the removal of escapes ahead of it, for diagnostics without control characters |
| Diagnostics.ParsedIsClean | src/ghci/parse/ghc_message/mod.rs:155-203 | from stripped text no diagnostic with a control character is read |
| Diagnostics.RoundTripIff | src/ghci/parse/ghc_message/mod.rs:130-203 | they come back unchanged if and only if stripping leaves the text alone, each has a path and no message begins with a blank; stripping leaves it alone if and only if no path and no message holds a control character |
| Diagnostics.ColourIsLost | src/ghci/parse/ghc_message/mod.rs:155-162 | a coloured message meets all other conditions and does not come back |
| ErrorLogs.ErrorLog.Write | src/ghci/error_log.rs:39-95 | the published file becomes headline, chosen diagnostics and stderr, in this order, or stays as it was if any step fails |
| ErrorLogs.HeadlineIsSkipped | src/ghci/error_log.rs:58-71 | the headline is no message and hides none |
| ErrorLogs.WrittenFileReadsBack | src/ghci/error_log.rs:58-85 | without raw stderr the written file holds exactly the log's diagnostics, if they hold no control characters |
| ErrorLogs.StderrReadsBack | src/ghci/error_log.rs:73-87 | with raw stderr the written file ends with it, and holds the diagnostics of stdout and then what stderr itself is read as |
| MemoryLog.HistoryFile.Append | src/ghci/memory_log.rs:149-199 | the file stays a run of the last whole records, ends with the newest and is below the threshold; a prune keeps the one longest run within the retention size; the "no record boundary" failure cannot occur |
| MemoryLog.CutsAtARecord | src/ghci/memory_log.rs:170-177 | cutting after the first newline from any byte on cuts between two records |
| MemoryLog.PruneIsExact | src/ghci/memory_log.rs:168-177 | reading one byte more than is kept finds the longest run of last records, also when a record is aligned exactly |
| MemoryLog.LongestIsUnique | src/ghci/memory_log.rs:168-177 | there is one such run |
| MemoryLog.EveryHistoryIsASuffix | src/ghci/memory_log.rs:149-199 | the same over every sequence of appends |
| Content.ScanEntries | src/watcher/content.rs:73-81 | the loop over a directory collects the files of all entries but directory symlinks, or fails if one cannot be read |
| Content.ScanIsWalk | src/watcher/content.rs:67-86 | a scan finds at each path what going down to it finds, without looking through directory symlinks |
| Content.CanScanIff | src/watcher/content.rs:67-86 | a path can be scanned if and only if the way down to it meets no unreadable entry and no file before its end, and nothing unreadable lies below it outside directory symlinks; a missing entry or a dangling link is no failure |
| Content.FileAtIff | src/watcher/content.rs:67-86 | the tree has a file at a path if and only if following the names one by one, and symlinks, ends at that file |
| Content.SeenIsFileIff | src/watcher/content.rs:67-86 | a scan agrees with the tree at a path if and only if no directory symlink strictly below its start hides a file there |
| Content.ScannedIsTree | src/watcher/content.rs:67-86 | without directory symlinks a scan finds below its path exactly what looking each path up finds |
| Content.ContentChanges.Seed | src/watcher/content.rs:19-25 | the first baseline holds exactly the files that some root's scan sees, as the tree has them; it fails if and only if some root is unreadable |
| Content.ContentChanges.ReplaceKnown | src/watcher/content.rs:38-57 | known paths below the event take the scanned state, and exactly the differing ones are reported |
| Content.ContentChanges.InsertNew | src/watcher/content.rs:58-61 | so do the paths that were not known |
| Content.ContentChanges.Observe | src/watcher/content.rs:27-64 | over any batch, nested or not and with any symlinks, the baseline holds what the last covering scan saw and is unchanged elsewhere, and exactly the differences between successive views are reported; it succeeds if and only if all its paths are readable, and otherwise stops at the first that is not and reports nothing |
| Content.GoneIsReported | src/watcher/content.rs:27-64 | a known file that is missing from a readable directory is reported gone by a batch of its own removal, and leaves the baseline |
| Content.AgreesIff | src/watcher/content.rs:27-64 | the baseline then agrees with the tree on all covered paths if and only if no file there is hidden by a directory symlink from the last path that covers it |
| Content.PresentIsTold | src/watcher/content.rs:38-61 | a file that is there is reported gone if and only if a path hides it that was known or shown before; otherwise it is reported exactly if it is shown and differs |
| Content.ReportsExactlyIff | src/watcher/content.rs:27-64 | a batch reports exactly the differences between baseline and tree if and only if a file is hidden at most from the first paths that cover it, and only if it was not known |
| Content.WithoutLinks | src/watcher/content.rs:27-64 | both hold for every batch on a tree without directory symlinks |
| Content.ReportedOnce | src/watcher/content.rs:27-64 | a path is reported once, as changed or as gone, if and only if it is covered and differs |
| Content.SecondLookIsQuietIff | src/watcher/content.rs:27-64 | an immediate second batch reports nothing if and only if no file is hidden from one of its paths and shown by another |
| Content.UpToDateIsQuiet | src/watcher/content.rs:27-64 | a file of which the baseline holds what the tree holds is reported by a batch if and only if it is there and one of its paths hides it |
| Content.FailedBatchLosesIff | src/watcher/content.rs:27-64 | on trees without directory symlinks: after a batch that failed, a difference is reported by a later batch over it, while the file stays as it is, if and only if no path the failing batch had scanned covers it |
| Content.ToldLaterIff | src/watcher/content.rs:27-64 | the same on any trees for a file that no symlink hides from the two batches, and which event reports it |
| Content.FailedBatchLoses | src/watcher/content.rs:27-64 | two files, one changed and one unreadable: the change is found, the batch fails, and no later batch reports it, readable again or not |
| Content.MixedFlaps | src/watcher/content.rs:27-64 | a file hidden from one path of a batch and shown by another is reported gone and reported changed by every repetition of the batch |
| Content.LinksFlap | src/watcher/content.rs:73-81 | so is the file behind the symlink a/l by the batch a, a/l, from every baseline, and it is back in the baseline each time |
| EvalCommands.EvalLineIsFound | src/ghci/parse/eval.rs:145-158 | a line with the marker is found as a command, with its text and place, indentation allowed, at the end of the file too |
| EvalCommands.BlockIsFound | src/ghci/parse/eval.rs:160-189 | a block is found as one command, from its first line to the one before the end marker, with its text and place, at the end of the file too |
| EvalCommands.OrdinaryIsSkipped | src/ghci/parse/eval.rs:118-142 | a line that begins with no marker is passed over as one line without a command |
| EvalCommands.BeginsIff | src/ghci/parse/eval.rs:145-189 | a marker is recognised in a line if and only if the line begins with it after blanks |
| EvalCommands.ItemsEndLines | src/ghci/parse/eval.rs:118-189 | every recognised item consumes whole lines |
| EvalCommands.CommandsAreSpread | src/ghci/parse/eval.rs:118-189 | whenever the file is recognised, every command begins after the line on which the one before it begins |
| EvalCommands.CommandsOfParts | src/ghci/parse/eval.rs:118-189 | a file made of ordinary lines, evaluation lines and blocks, in any order, has exactly the commands of those lines and blocks, in order, with text and place |
| EvalCommands.SpreadIsAscending | src/ghci/parse/eval.rs:66-68 | starts are strictly ascending, at most one to a line |
| EvalCommands.SameOrder | src/ghci/parse/eval.rs:77-82 | comparing byte offsets is comparing positions |
| EvalCommands.Column | src/ghci/parse/eval.rs:81-97 | the column is the number of characters since the start of the line, plus one |
| EvalCommands.Join | src/ghci/parse/eval.rs:70-114 | the single pass over lines loses no command and gives each the line and column that a direct count gives |
| EvalCommands.ParseEvalCommands | src/ghci/parse/eval.rs:59-115 | for a whole file made of such parts, exactly their commands with the positions a direct count gives; it fails exactly when the file is not recognised |
| Progress.TruncateToTerminalWidth | src/ghci/progress_writer.rs:20-29 | cuts at the greatest character boundary within the limit |
| Progress.BoundaryIffWellFormed | src/ghci/progress_writer.rs:20-29 | a prefix of well-formed text is well-formed exactly at a boundary |
| Progress.TruncatedIsLongest | src/ghci/progress_writer.rs:20-29 | a truncated text is the longest well-formed prefix within the limit |
| Progress.ProgressWriter.ProcessCompleteLines | src/ghci/progress_writer.rs:79-105 | complete lines are rewritten one by one and queued, the unterminated rest stays; `RewriteIsOutput` says the bytes |
| Progress.ProgressWriter.FlushPending | src/ghci/progress_writer.rs:146-168 | with any short writes nothing queued is lost, repeated or reordered; it is done exactly when the answers of the inner writer take all of the queue |
| Progress.ProgressWriter.PollWrite | src/ghci/progress_writer.rs:172-197 | accepts all as soon as the queue is empty, and otherwise answers as the inner writer does; written and queued bytes are, line by line, the line or its truncated indicator, with one clear sequence before a line that follows an indicator; without progress lines they are, with the unterminated rest, the input itself; a write that is not accepted changes nothing of it |
| Progress.ProgressWriter.PollFlush | src/ghci/progress_writer.rs:199-209 | after a complete flush everything rewritten has been written |
| Progress.AllTaken | src/ghci/progress_writer.rs:146-168 | a queue is flushed by any inner writer that takes at least one byte at a time |
| Progress.ProgressWriter.PollShutdown | src/ghci/progress_writer.rs:211-227 | the indicator is cleared and the unterminated rest follows as it is; without progress lines all of the input has been passed on, unchanged |
| Progress.RewriteIsSplitIndependent | src/ghci/progress_writer.rs:79-105 | however the input is cut into writes, the outcome is the same |
| Progress.RewriteIsOutput | src/ghci/progress_writer.rs:79-105 | the rewritten chunks are, in bytes, each line as it is or its truncated indicator after a carriage return and clear, with one clear sequence between an indicator and a line |
| Progress.PlainPassesThrough | src/ghci/progress_writer.rs:79-105 | input without progress lines passes through unchanged |
| Progress.EveryLineAppears | src/ghci/progress_writer.rs:79-105 | every complete line appears once and in order, unchanged or, if it is a progress line, as its indicator; lines and rest make up the input |
| Progress.IndicatorsAreCleared | src/ghci/progress_writer.rs:95-98 | no line is printed over an indicator, and an indicator is cleared only for a line |
| Progress.TidyIsUnique | src/ghci/progress_writer.rs:79-105 | these two facts leave one output only |

## Left out

- Real input and output, clocks, randomness, file locks and file hashing: their effects are parameters, steps or oracles. Partial writes of a record or of the error file's temporary are not modelled.
- Signals that fail, and process snapshots that are not atomic: SIGSTOP and SIGKILL always act on a live identity, and the process table is read in one step.
- The commands run before a signal, the memory-limit watchdog and parsing of the process table.
- Asynchronous cancellation inside `finish_line` and between `remove_modules` and the commit of the known files; `drain_pending` is described as safe to cancel, yet cancelled in `finish_line` it keeps the text and loses a newline (src/incremental_reader.rs:290-299).
- Timeouts: a wait may give up at any moment, which is counted; the protocol succeeds whenever none does.
- Reader.ReadAll: is for markers that are not empty and ignore a final carriage return, and for a removal of escapes that leaves empty text empty, as in the program.
- Matching of markers by Aho-Corasick is a predicate on lines, glob matching an arbitrary classification, removal of ANSI escapes a function parameter.
- CrashLoop.AwaitNews: events that arrive in a row are taken as queued together, so it takes them all in before it goes on.
- Manager.CrashKeepsOrderIff: is about a crash whose first replacement keeps running; `WaitAndRestart` covers the further ones. The recovery-kill branch of `handle_event`, and GHCi exiting between dispatches, are not part of the account of watcher states.
- The replacement command for automatic additions, so GHCi's targets change only by `:add` and `:unadd`.
- SIGINT recovery before the sync barrier: all interrupts are taken to be handled when the barrier is written.
- Progress lines, JSON diagnostics, summaries, import cycles and other messages are parameters of the message grammar, tried where their openings stand; the rest of their parsers is not modelled.
- Diagnostics.RoundTripIff: where stripping changes the text, the other messages read from it are taken to hold no control characters; a JSON diagnostic could name them by escapes of its own.
- Content.SeenIsFileIff: a directory symlink holds a finite tree of its own, so one that points back to an ancestor cannot be written; scans do not look through it either way.
- Eval commands: the trimmed display text is not modelled.
- The terminal width is fixed during one run of the progress writer.
- Strict mode (memory diagnosis) of hooks: a failing shell hook or setup attempt then ends the operation, and only the order of what ran is kept.
- The record contents and generation counter of the memory history.
- The terminal interface, command-line adapters, Markdown generation, tracing, the evaluation socket server and setup commands themselves.
