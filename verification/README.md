# Flight console: verified models of its core algorithms

The repository is a flight-simulation console in C++: JSBSim behind an editor and a headless
runner. This project models the parts of it that hold algorithms and protocols and proves what
they are for. `dafny verify dfyconfig.toml` checks everything.

Every imperative part keeps its form: a class with the source's fields or a method with the
source's loops, proved equal to a function of the old state, and the properties are proved of
that function, over all inputs, all runs or all interleavings.

| part | files | main results |
|---|---|---|
| layout files | `Utf8`, `JsonGrammar`, `JsonScanner`, `JsonCompleteness`, `JsonSoundness`, `JsonEscapes`, `LayoutFile`, `LayoutParser`, `LayoutSerializer`, `LayoutCorrectness` | the parser accepts exactly the layout files of RFC 8259; printing and parsing undo each other |
| telemetry cache | `TelemetryCompaction`, `TelemetryCache` | the bounded cache refines the plain history |
| scenarios | `SimulationModel`, `Scenario`, `ScenarioExecutor`, `ScenarioRun` | events fire once and on time |
| runtime | `SimulationRuntime`, `RuntimeRuns`, `RuntimeLaws` | invariants of every reachable state; the events of an execution; with which step size it is flown, and exactly when it starts |
| comparison | `SimulationComparison`, `Lockstep` | two runtimes stay in lockstep; when they complete |
| runner | `SimulationRunner` | outcome fields and observer calls for every failure pattern |
| linearizer | `AsyncLinearizer` | exactly-once delivery over all interleavings |
| layout presets | `LayoutNames`, `StoragePaths`, `FileStore`, `LayoutStore`, `LayoutRuns`, `LayoutLaws`, `LayoutCover`, `LayoutManager` | what each operation does to the list; what replacement keeps at every point; when the list in memory is the committed one, what a restart loads, and when a commit drops a stored list |
| messaging | `MessageBus`, `RequestCorrelation`, `RequestRuns`, `AdapterRuns` | publishing under re-entrancy; exact and leak-free correlation, answered by the adapter at every depth |
| SHA-256 | `Sha256Words`, `Sha256`, `Sha256Example` | the loops compute FIPS 180-4; its functions bit by bit, and its first example |
| mode history | `ModeHistory` | a sorted vector that is a map |

## Modelling decisions

- A simulation is an oracle: the k-th call succeeds, stops before its clock advances or stops
  after; only a successful step counts as flown. Times are real numbers; the tolerances in the
  code (1e-9, 1e-12, eight rounding units) are kept as written.
- The file system answers every call by an oracle and records its files after every primitive
  effect, partial writes included. `exists` with an error reports false, as the C++ function does,
  so the test of the error code after it (`EditorLayoutManager.cpp:114`) can never hold and a
  rename then goes straight over the target.
- The flush that closes a stream is a call of its own: it comes after the last test for an error.
- A request may be nested in any callback of another one; every publish works on its own copy of
  its channel and serves the entries that are still active at their turn.
- The metadata file holds the list of presets itself: its JSON text and the YAML library that
  reads it back are not part of this model. A file that lacks bytes can be read only if it lacks
  just the line break after the closing brace.
- A file is known by the names on the way to it, with "." and ".." resolved.
- The threads of the linearizer are interleaved at critical sections; the callbacks of the bus
  and the requests nested in a publish are arbitrary sequences of steps.
- Clocks, random ids, signals, observer answers and the texts of foreign errors are parameters.
- The layout parser takes the bytes from 0x20 up as they are, and so does the model: section 8.1
  of RFC 8259 (that the file is UTF-8) is not checked by the code.

## Where a property does not hold as one would say it

Each of these is a theorem with its exact condition and a concrete case.

- A valid scenario may fail on its last tick: the duration may miss a whole number of steps by
  1e-9 of a step, the step count then rounds up, and the shared clock is capped
  (`Lockstep.CompletesIff`, `Lockstep.OvershootingScenarioFails`).
- An event within 1e-9 of a step before the duration rounds to the final step and never fires
  (`ScenarioRun.AllEventsFireIff`, `ScenarioRun.LateEventNeverFires`).
- A paused tick that finishes a scenario leaves 2^32 - 1 pending ticks on the stopped runtime
  (`RuntimeRuns.ResidueIff`, `RuntimeRuns.PausedLastTickLeavesResidue`); nothing acts on them
  (`RuntimeRuns.ResidueIsHarmless`).
- A replaced file may be lost although success is reported: the stream is flushed only when it is
  closed, after the last test for an error (`FileStore.IntactIff`, `FileStore.ClosingFlushLost`).
- The metadata is not the list in memory after such a commit, after a failed rollback, or after
  a refused start (`LayoutStore.CommittedIff`, `FileStore.OutcomeIff`, `FileStore.RollbackLost`).
- A start that refuses the stored list leaves an empty one, and the next commit drops what is
  stored (`LayoutRuns.RunDropsIff`, `LayoutRuns.RefusedStartDropsList`).
- A stop between the two renames restarts with an empty list, although the old one is in the
  backup, which is never read (`LayoutRuns.RestartLoads`, `LayoutRuns.RestartMissesIff`,
  `LayoutRuns.RestartForgets`).
- Two presets of an accepted list may share one snapshot file, since ids are compared without
  resolving "." and ".." (`LayoutStore.SnapshotsDifferIff`, `LayoutRuns.AliasedUpdateOverwrites`);
  lists that were made with generated ids never do (`LayoutRuns.RunsSpareOthers`).
- A created or imported preset may be refused when the metadata is loaded again
  (`LayoutNames.ReloadableIff`, `LayoutNames.UniqueNameIsValidIff`,
  `LayoutNames.LongCopyIsUnreloadable`, `LayoutNames.BlankImportIsUnreloadable`).

## Model

| member | source | states |
|---|---|---|
| Utf8.EncodeDecodes | src/gui/layout/EditorLayoutFileSerializer.cpp:275-291 | the bytes appended for a scalar value up to 0x10FFFF are well-formed UTF-8 (section 4 of RFC 3629) and decode to it |
| Utf8.EncodingIsUnique | src/gui/layout/EditorLayoutFileSerializer.cpp:275-291 | they are the only such bytes: every well-formed sequence is the encoding of the value it stands for |
| JsonCompleteness.StringComplete | src/gui/layout/EditorLayoutFileSerializer.cpp:173-252 | every string of RFC 8259 section 7 with paired surrogates, wherever it stands, is read to its end and to the bytes it denotes |
| JsonCompleteness.IntegerComplete | src/gui/layout/EditorLayoutFileSerializer.cpp:293-323 | every integer text is read whole and to its value |
| JsonCompleteness.NumberComplete | src/gui/layout/EditorLayoutFileSerializer.cpp:399-449 | every number of RFC 8259 section 6 that is followed by a delimiter is skipped whole |
| JsonCompleteness.ValueComplete | src/gui/layout/EditorLayoutFileSerializer.cpp:325-397 | every value derivation of RFC 8259 sections 2 to 7, wherever it stands, is skipped whole |
| JsonCompleteness.MembersComplete | src/gui/layout/EditorLayoutFileSerializer.cpp:348-374 | every derived member list up to its closing brace is skipped whole |
| JsonCompleteness.ElementsComplete | src/gui/layout/EditorLayoutFileSerializer.cpp:376-397 | every derived element list up to its closing bracket is skipped whole |
| JsonSoundness.StringSound | src/gui/layout/EditorLayoutFileSerializer.cpp:173-252 | whatever is accepted as a string is the text of a string derivation and yields its bytes; lone surrogates have none |
| JsonSoundness.NumberSound | src/gui/layout/EditorLayoutFileSerializer.cpp:399-449 | whatever is skipped as a number is the text of a number derivation |
| JsonSoundness.IntegerSound | src/gui/layout/EditorLayoutFileSerializer.cpp:293-323 | whatever is read as an integer is an integer text with that value |
| JsonSoundness.ValueSound | src/gui/layout/EditorLayoutFileSerializer.cpp:325-397 | whatever is skipped as a value is the text of a value derivation |
| LayoutParser.ExportJsonParser.SkipSpace | src/gui/layout/EditorLayoutFileSerializer.cpp:159-163 | the position moves over exactly the white space, never past the end |
| LayoutParser.ExportJsonParser.Consume | src/gui/layout/EditorLayoutFileSerializer.cpp:165-171 | one expected byte is consumed, or the position stays |
| LayoutParser.ExportJsonParser.ParseHexQuad | src/gui/layout/EditorLayoutFileSerializer.cpp:254-273 | four hexadecimal digits of either case, and their value, or failure |
| LayoutParser.ExportJsonParser.ParseUnicodeEscape | src/gui/layout/EditorLayoutFileSerializer.cpp:229-252 | a single unit or a surrogate pair is appended in UTF-8; a lone surrogate fails |
| LayoutParser.ExportJsonParser.AppendUtf8 | src/gui/layout/EditorLayoutFileSerializer.cpp:275-291 | appends the encoding of the code point |
| LayoutParser.ExportJsonParser.ParseString | src/gui/layout/EditorLayoutFileSerializer.cpp:173-227 | the value and the end of the scanned string, or failure |
| LayoutParser.ExportJsonParser.ParseInteger | src/gui/layout/EditorLayoutFileSerializer.cpp:293-323 | the value and the end of the scanned integer within the range of int, or failure |
| LayoutParser.ExportJsonParser.SkipNumber | src/gui/layout/EditorLayoutFileSerializer.cpp:399-449 | stands at the end of the scanned number, or fails |
| LayoutParser.ExportJsonParser.ConsumeLiteral | src/gui/layout/EditorLayoutFileSerializer.cpp:451-457 | a literal is consumed exactly when it is there |
| LayoutParser.ExportJsonParser.SkipValue | src/gui/layout/EditorLayoutFileSerializer.cpp:325-346 | stands at the end of the scanned value, strictly later, or fails; the recursion with objects and arrays terminates |
| LayoutParser.ExportJsonParser.SkipObject | src/gui/layout/EditorLayoutFileSerializer.cpp:348-374 | stands at the end of the scanned object, or fails |
| LayoutParser.ExportJsonParser.SkipArray | src/gui/layout/EditorLayoutFileSerializer.cpp:376-397 | stands at the end of the scanned array, or fails |
| LayoutParser.ExportJsonParser.Parse | src/gui/layout/EditorLayoutFileSerializer.cpp:63-156 | yields the data, or the error, that reading the whole text yields |
| LayoutParser.Deserialize | src/gui/layout/EditorLayoutFileSerializer.cpp:508-522 | the size limit and the parser together compute the function the next rows are about |
| JsonEscapes.QuadReads | src/gui/layout/EditorLayoutFileSerializer.cpp:254-273 | four digits have the value `v` exactly when they are the hexadecimal digits of `v` by division, in any mixture of cases |
| JsonEscapes.PairReads | src/gui/layout/EditorLayoutFileSerializer.cpp:245-246 | a surrogate pair has the value `v` exactly when it is 0xD800 and 0xDC00 plus the upper and lower ten bits of `v - 0x10000` |
| JsonEscapes.EscapeReads | src/gui/layout/EditorLayoutFileSerializer.cpp:194-252 | an item is an escape of the grammar exactly when it spells a character, by letter, by unit or by pair, and its bytes decode to that character |
| JsonEscapes.Spelling | src/gui/layout/EditorLayoutFileSerializer.cpp:229-252 | every scalar value has a spelling by hexadecimal digits |
| JsonEscapes.StringReadsEscape | src/gui/layout/EditorLayoutFileSerializer.cpp:173-252 | wherever it stands in a string, every spelling of a character is read as the UTF-8 bytes of that character |
| JsonEscapes.IntegerReads | src/gui/layout/EditorLayoutFileSerializer.cpp:293-323 | an integer has the value `v` exactly when its digits are the decimal number of `v` |
| JsonEscapes.CharacterClasses | src/gui/layout/EditorLayoutFileSerializer.cpp:159-163 | white space, digits and hexadecimal digits by their codes |
| LayoutCorrectness.DocumentDecides | src/gui/layout/EditorLayoutFileSerializer.cpp:63-156 | for every text the grammar derives, reading it yields `d` exactly when the derivation tree describes `d` |
| LayoutCorrectness.DocumentSound | src/gui/layout/EditorLayoutFileSerializer.cpp:63-156 | whatever is accepted has a derivation tree that describes the result |
| LayoutCorrectness.AbsorbIsSettle | src/gui/layout/EditorLayoutFileSerializer.cpp:81-135 | the left-to-right pass over the members leaves in each field what its members, taken by themselves, say |
| LayoutCorrectness.ReadsExactlyLayoutFiles | src/gui/layout/EditorLayoutFileSerializer.cpp:508-522 | accepted with result `d` if and only if the text, within the size limit, has an RFC 8259 derivation that describes `d` |
| LayoutCorrectness.OnlyKnownMembersMatter | src/gui/layout/EditorLayoutFileSerializer.cpp:81-135 | documents that agree on the four known keys read the same: order, white space, escapes and other members never matter |
| LayoutSerializer.AppendEscapedJsonString | src/gui/layout/EditorLayoutFileSerializer.cpp:14-52 | appends the quoted text whose items are the escapes of the bytes |
| LayoutSerializer.Serialize | src/gui/layout/EditorLayoutFileSerializer.cpp:486-506 | the printed document, or the refusal of an invalid name, body or version |
| LayoutSerializer.SerializesIff | src/gui/layout/EditorLayoutFileSerializer.cpp:469-506 | what can be printed: the supported version, a name of 1 to 256 bytes, a layout that is not empty, and a text within the size limit |
| LayoutSerializer.RoundTrip | src/gui/layout/EditorLayoutFileSerializer.cpp:486-522 | for every name and body, if printing succeeds then reading the result returns exactly the same version, name and body |
| LayoutSerializer.SerializeInjective | src/gui/layout/EditorLayoutFileSerializer.cpp:486-506 | two data never print to the same file |
| TelemetryCompaction.BucketsTile | src/messaging/SimulationMessageClient.cpp:51-58 | the integer-division boundaries run from the first interior sample to the last, and no bucket is empty |
| TelemetryCompaction.EverySampleInOneBucket | src/messaging/SimulationMessageClient.cpp:51-58 | every interior sample lies in exactly one bucket |
| TelemetryCompaction.BucketExtremesKept | src/messaging/SimulationMessageClient.cpp:60-72 | of every bucket a smallest and a largest sample are kept |
| TelemetryCompaction.CompactionKeepsShape | src/messaging/SimulationMessageClient.cpp:39-79 | the result of compacting a strictly increasing series is a strictly increasing part of it, 2 to 2048 long, with the same ends and extremes |
| TelemetryCompaction.AppendChronologically | src/messaging/SimulationMessageClient.cpp:25-37 | two samples in time order, one of them if they are the same |
| TelemetryCompaction.FindExtremes | src/messaging/SimulationMessageClient.cpp:60-71 | the first smallest and the first largest sample of the bucket |
| TelemetryCompaction.BucketRange | src/messaging/SimulationMessageClient.cpp:54-55 | the boundaries computed by integer division, as the tiling uses them |
| TelemetryCompaction.CompactTelemetryHistory | src/messaging/SimulationMessageClient.cpp:39-79 | the loop computes the compaction the rows above describe, and leaves short series alone |
| TelemetryCache.Cache.ReceiveTelemetry | src/messaging/SimulationMessageClient.cpp:392-437 | a frame changes the cache of its slot as specified and leaves the other slot alone |
| TelemetryCache.FrameShows | src/messaging/SimulationMessageClient.cpp:392-412 | a frame is the one shown, and the published range ends at it; it begins where it did, or with this frame if it is the first or goes back in time |
| TelemetryCache.FrameRefines | src/messaging/SimulationMessageClient.cpp:392-437 | one frame, rewind included, keeps the cache a refinement of the plain history |
| TelemetryCache.CacheRefinesHistory | src/messaging/SimulationMessageClient.cpp:392-437 | after any run of frames: sorted unique paths; each series strictly increasing, at most 4096 long, part of the last writes since the last rewind, same first, last and extremes |
| TelemetryCache.SameExtremes | src/messaging/SimulationMessageClient.cpp:44-48 | a bound holds of the cached samples exactly when it holds of the whole history |
| TelemetryCache.CompactionsAreFarApart | src/messaging/SimulationMessageClient.cpp:428-435 | a compacted series takes any writes that append up to 2048 samples, however many others overwrite the last one, uncompacted: compactions are at least 2049 appended samples apart |
| TelemetryCache.NextCompaction | src/messaging/SimulationMessageClient.cpp:428-435 | the bound is reached: after a full compaction the 2049th appended sample compacts again |
| TelemetryCache.LaterSamplesAppend | src/messaging/SimulationMessageClient.cpp:428-435 | samples at later and later times each count as appended |
| SimulationModel.Simulation.Initialize | src/sim/Simulation.cpp:22-55 | an initialized simulation is left alone; else it takes the step size, and on success its clock is zero |
| SimulationModel.Simulation.Step | src/sim/Simulation.cpp:59-69 | refused when not initialized or without a positive step; the oracle decides success, which advances the clock |
| SimulationModel.Simulation.Reset | src/sim/Simulation.cpp:86-146 | refused when not initialized; on success the clock is zero |
| Scenario.RoundIsNearest | src/sim/scenario/SimulationScenario.cpp:146-151 | rounding is to a nearest whole number |
| Scenario.ValidIff | src/sim/scenario/SimulationScenario.cpp:136-190 | a scenario whose times are whole steps is valid exactly if it has a step and an event, and its events come in order, none before the start and each before the end |
| Scenario.StepCountCovers | src/sim/scenario/ScenarioExecutor.cpp:172-193 | one step less stays below the duration; the count reaches it up to eight rounding units |
| Scenario.ExactStepCount | src/sim/scenario/ScenarioExecutor.cpp:172-193 | a duration of exactly n steps takes n steps |
| ScenarioExecutor.Executor.ApplyControlState | src/sim/scenario/ScenarioExecutor.cpp:206-221 | the loop applies exactly the due commands, records each, and sets roll hold |
| ScenarioExecutor.Executor.Start | src/sim/scenario/ScenarioExecutor.cpp:58-104 | every refusal in its order, and a start that resets and applies the commands of step 0 |
| ScenarioExecutor.Executor.Begin | src/sim/scenario/ScenarioExecutor.cpp:83-103 | the run state of a start and its two late failures |
| ScenarioExecutor.Executor.ComputeEventSteps | src/sim/scenario/ScenarioExecutor.cpp:86-91 | each event at its rounded step |
| ScenarioExecutor.Executor.Step | src/sim/scenario/ScenarioExecutor.cpp:106-129 | one step with its failures and its completion |
| ScenarioExecutor.Executor.Stop | src/sim/scenario/ScenarioExecutor.cpp:131-136 | a running executor stops with roll hold off |
| ScenarioExecutor.Executor.Fail | src/sim/scenario/ScenarioExecutor.cpp:227-234 | a failing running executor turns roll hold off |
| ScenarioExecutor.Executor.TakeCommandActivations | src/sim/scenario/ScenarioExecutor.cpp:168-170 | hands out the recorded activations once |
| ScenarioRun.FiredIffPrefixMax | src/sim/scenario/ScenarioExecutor.cpp:206-215 | event i is applied by step k exactly when the largest of the first i+1 step indices is at most k |
| ScenarioRun.StartFlies | src/sim/scenario/ScenarioExecutor.cpp:58-104 | a successful start stands before step 0 with its commands applied and recorded |
| ScenarioRun.StepFlies | src/sim/scenario/ScenarioExecutor.cpp:106-129 | one step succeeds exactly when the simulation does, flies the control in force, records the commands due, and completes exactly at the target |
| ScenarioRun.RunFlies | src/sim/scenario/ScenarioExecutor.cpp:58-129 | after any number of successful steps: exactly those were flown, each with the control of the last due event, and each command was recorded once, in order, at its step time |
| ScenarioRun.RunRecords | src/sim/scenario/ScenarioExecutor.cpp:206-215 | the i-th command that a run records is event i, at the time of the largest of the first i+1 step indices |
| ScenarioRun.CompletedRun | src/sim/scenario/ScenarioExecutor.cpp:121-127 | a completed run made the target number of steps, applied exactly the events whose prefix maximum is below it, and left roll hold off |
| ScenarioRun.ValidEventsInOrder | src/sim/scenario/SimulationScenario.cpp:155-190 | in a valid scenario every event comes into force at its own step |
| ScenarioRun.AllEventsFireIff | src/sim/scenario/ScenarioExecutor.cpp:206-215 | a completed run applied every event if and only if no event rounds to the final step |
| ScenarioRun.LateEventNeverFires | src/sim/scenario/SimulationScenario.cpp:174-179 | a valid scenario of which every completed run has applied nothing, and any start with two successful steps is such a run: its event rounds to the final step |
| SimulationRuntime.Runtime.InitializeInstances | src/sim/runtime/SimulationInstanceSet.cpp:21-36 | both simulations are initialized, or the primary one is shut down again |
| SimulationRuntime.Runtime.StepInstances | src/sim/runtime/SimulationInstanceSet.cpp:64-78 | primary first, then baseline; the first failure ends the step |
| SimulationRuntime.Runtime.CreateForExecution | src/sim/runtime/SimulationRuntime.cpp:42-68 | a valid scenario gets a consistent runtime configured for it, or none |
| SimulationRuntime.Runtime.Initialize | src/sim/runtime/SimulationRuntime.cpp:70-91 | whole new state of an initialization |
| SimulationRuntime.Runtime.Shutdown | src/sim/runtime/SimulationRuntime.cpp:93-110 | ends a scenario, stops, and ends both sessions |
| SimulationRuntime.Runtime.Start | src/sim/runtime/SimulationRuntime.cpp:112-117 | whole new state; keeps the runtime consistent |
| SimulationRuntime.Runtime.Stop | src/sim/runtime/SimulationRuntime.cpp:119-126 | ends a scenario, or stops with no pending ticks |
| SimulationRuntime.Runtime.Pause | src/sim/runtime/SimulationRuntime.cpp:128-132 | whole new state; keeps the runtime consistent |
| SimulationRuntime.Runtime.Resume | src/sim/runtime/SimulationRuntime.cpp:134-139 | whole new state; keeps the runtime consistent |
| SimulationRuntime.Runtime.Reset | src/sim/runtime/SimulationRuntime.cpp:141-155 | refused while a scenario runs; else both simulations are reset |
| SimulationRuntime.Runtime.RequestTick | src/sim/runtime/SimulationRuntime.cpp:157-161 | counts modulo 2^32, only while paused |
| SimulationRuntime.Runtime.Tick | src/sim/runtime/SimulationRuntime.cpp:163-204 | a tick with or without a scenario, its failures, completion and the use of a requested tick |
| SimulationRuntime.Runtime.RunExecution | src/sim/runtime/SimulationRuntime.cpp:206-257 | every refusal, the choice of the simulation, and the start of a scenario |
| SimulationRuntime.Runtime.ChooseSimulation | src/sim/runtime/SimulationRuntime.cpp:220-228 | reconfiguration if the scenario does not fit, then the variant |
| SimulationRuntime.Runtime.StartScenario | src/sim/runtime/SimulationRuntime.cpp:229-256 | parameters, executor start, start event and first commands, or the original order again |
| SimulationRuntime.Runtime.FinishScenario | src/sim/runtime/SimulationRuntime.cpp:572-586 | end event, executor gone, original order, stopped |
| SimulationRuntime.Runtime.RecordPendingScenarioCommandEvent | src/sim/runtime/SimulationRuntime.cpp:588-601 | one event per activation, in order |
| SimulationRuntime.Runtime.SelectExecutionVariant | src/sim/runtime/SimulationRuntime.cpp:603-624 | the wanted variant becomes primary, by a swap if need be |
| SimulationRuntime.Runtime.ReinitializeForScenario | src/sim/runtime/SimulationRuntime.cpp:626-637 | both sessions ended and begun again for the scenario |
| SimulationRuntime.Runtime.RestoreInteractiveSimulationOrder | src/sim/runtime/SimulationRuntime.cpp:639-644 | undoes a swap |
| SimulationRuntime.Runtime.TakeScenarioEvents | src/sim/runtime/SimulationRuntime.cpp:377-380 | hands out the pending events once |
| SimulationRuntime.TickKeepsConsistent | src/sim/runtime/SimulationRuntime.cpp:163-204 | a tick keeps: an executor only while Running or Paused, swapped only with an executor, Running without pending ticks |
| SimulationRuntime.RunKeepsConsistent | src/sim/runtime/SimulationRuntime.cpp:206-257 | so does RunExecution, on every path |
| RuntimeRuns.ApplyKeepsConsistent | src/sim/runtime/SimulationRuntime.cpp:70-257 | so does every operation |
| RuntimeRuns.OrderIsRestored | src/sim/runtime/SimulationRuntime.cpp:603-644 | in every reachable state the runtime holds its two simulations, in their original places while no scenario runs |
| RuntimeRuns.CompletesIff | src/sim/scenario/ScenarioExecutor.cpp:106-129 | a step completes exactly if it is the last one missing, roll hold is supported and the simulation will answer it with success |
| RuntimeRuns.ResidueIff | src/sim/runtime/SimulationRuntime.cpp:195-200 | a stopped runtime gets pending ticks exactly by a paused tick that is about to make that last step, and then 2^32 - 1 of them |
| RuntimeRuns.PausedLastTickLeavesResidue | src/sim/runtime/SimulationRuntime.cpp:163-257 | a run that ends so: initialize, run a scenario of one step, pause, request a tick, tick |
| RuntimeRuns.ResidueIsHarmless | src/sim/runtime/SimulationRuntime.cpp:157-204 | apart from the counter itself every operation does the same as with a count of zero |
| RuntimeRuns.ExecutionOpens | src/sim/runtime/SimulationRuntime.cpp:229-256 | a successful RunExecution has emitted the start and the commands of step 0 |
| RuntimeRuns.TickAdvances | src/sim/runtime/SimulationRuntime.cpp:172-203 | one effective tick moves the run on by one step, or ends it |
| RuntimeRuns.ExecutionEmits | src/sim/runtime/SimulationRuntime.cpp:163-257 | however it is paused, resumed, ticked and polled, an execution emits its start, each command once and in order, and its end, after exactly the step count of effective ticks |
| RuntimeRuns.FailedStepEndsRun | src/sim/runtime/SimulationRuntime.cpp:174-179 | a failing step makes its tick fail, emits nothing, turns roll hold off and leaves a failed executor |
| RuntimeRuns.FailedRunOnlyEnds | src/sim/runtime/SimulationRuntime.cpp:93-204 | over all runs after that: every tick that is to do a step fails and nothing more is emitted, until Stop or Shutdown clears the executor and emits the end |
| RuntimeLaws.RunsAreAtConfiguredStep | src/sim/runtime/SimulationRuntime.cpp:70-92 | in every run of a new runtime its simulations have the configured step size, and none has a session outside an initialized runtime |
| RuntimeLaws.ScenarioFliesAsConfigured | src/sim/runtime/SimulationRuntime.cpp:220-262 | a scenario that starts is flown by the wanted variant, for its own aircraft and with its own step size up to the tolerance; step count and event steps follow from it |
| RuntimeLaws.ScenarioTakesItsSteps | src/sim/runtime/SimulationRuntime.cpp:220-262 | unless the runtime already stood at a step size within the tolerance, the scenario takes exactly the steps it asks for |
| RuntimeLaws.HalfMinuteIsReconfigured | src/sim/runtime/SimulationRuntime.cpp:220-225 | a concrete scenario of 0.01 s steps on a runtime of 1/120 s steps: 3000 steps, its event at step 500 |
| RuntimeLaws.RunSucceedsIff | src/sim/runtime/SimulationRuntime.cpp:206-271 | exactly when RunExecution succeeds, by the state, the scenario and the answers of the simulations |
| RuntimeLaws.StartsIff | src/sim/scenario/ScenarioExecutor.cpp:58-104 | exactly when the executor starts |
| RuntimeLaws.InteractiveTick | src/sim/runtime/SimulationInstanceSet.cpp:64-78 | a tick without a scenario succeeds exactly when both simulations step, and then both clocks have advanced by the configured step size |
| RuntimeLaws.ScenarioTickSparesBaseline | src/sim/runtime/SimulationRuntime.cpp:175-182 | a tick of a scenario leaves the other simulation untouched |
| RuntimeLaws.ResetMeans | src/sim/runtime/SimulationRuntime.cpp:141-147 | a reset succeeds exactly when no scenario runs and both simulations take it, and puts both clocks to zero |
| RuntimeLaws.StopTurnsRollHoldOff | src/sim/scenario/ScenarioExecutor.cpp:131-136 | stopping a running executor leaves roll hold off on a simulation that has it |
| RuntimeLaws.RollHoldOnlyInFlight | src/sim/runtime/SimulationRuntime.cpp:93-127 | over all runs: roll hold is on only in the simulation that a running executor flies, and off everywhere after Stop and Shutdown |
| RuntimeLaws.StartTells | src/sim/scenario/ScenarioExecutor.cpp:58-104 | a start of the executor leaves an error exactly if it fails |
| RuntimeLaws.LastErrorTells | src/sim/runtime/SimulationRuntime.cpp:70-271 | the last error tells how a tick, an initialization, a reset or a start of a scenario ended, unless it was not even tried |
| RuntimeLaws.ControlsMean | src/sim/runtime/SimulationRuntime.cpp:112-139 | what Start, Pause, Resume and Stop leave, and that they change nothing else |
| RuntimeLaws.RequestsCount | src/sim/runtime/SimulationRuntime.cpp:157-161 | ticks requested during a pause are counted modulo 2^32 |
| RuntimeLaws.RequestedTicksStep | src/sim/runtime/SimulationRuntime.cpp:163-202 | each requested tick does one step on both simulations, and no more than were requested are done |
| SimulationComparison.Comparison.Create | src/sim/runtime/SimulationComparison.cpp:63-152 | the comparison, or the variant that failed, in every case |
| SimulationComparison.Comparison.CreateRuntimes | src/sim/runtime/SimulationComparison.cpp:99-115 | both runtimes, independent of each other, or the first variant that cannot be made |
| SimulationComparison.Comparison.StartRuntimes | src/sim/runtime/SimulationComparison.cpp:116-135 | both executions started, or the first variant that cannot start |
| SimulationComparison.Comparison.Tick | src/sim/runtime/SimulationComparison.cpp:154-197 | whole new state of a tick |
| SimulationComparison.Comparison.TickRuntimes | src/sim/runtime/SimulationComparison.cpp:162-170 | baseline first; the first failure fails its variant |
| SimulationComparison.Comparison.CompareStep | src/sim/runtime/SimulationComparison.cpp:170-177 | clocks, then events |
| SimulationComparison.Comparison.Settle | src/sim/runtime/SimulationComparison.cpp:183-196 | both still run, or both have completed |
| SimulationComparison.Comparison.Stop | src/sim/runtime/SimulationComparison.cpp:199-211 | both stopped, events collected |
| SimulationComparison.Comparison.CollectEvents | src/sim/runtime/SimulationComparison.cpp:254-271 | equal schedules are collected, different ones fail the primary |
| SimulationComparison.Comparison.Compare | src/sim/runtime/SimulationComparison.cpp:257-265 | the first difference between two event lists, or none |
| SimulationComparison.Comparison.FindDivergedClockVariant | src/sim/runtime/SimulationComparison.cpp:273-285 | the first variant whose clock is off by more than the tolerance |
| SimulationComparison.Comparison.Fail | src/sim/runtime/SimulationComparison.cpp:287-300 | exactly one variant failed, its peer stopped, both runtimes stopped |
| SimulationComparison.Comparison.TakeObservation | src/sim/runtime/SimulationComparison.cpp:250-252 | hands out the observation once |
| SimulationComparison.Comparison.Shutdown | src/sim/runtime/SimulationComparison.cpp:213-220 | both runtimes shut down |
| Lockstep.OutcomesConsistent | src/sim/runtime/SimulationComparison.cpp:154-211 | for every failure pattern: Failed means exactly one variant Failed and its peer Stopped; Completed, Stopped and Failed never change |
| Lockstep.CreatedIsLocked | src/sim/runtime/SimulationComparison.cpp:63-152 | a comparison that is created stands before step 0 in lockstep |
| SimulationComparison.DivergenceMeans | src/sim/runtime/SimulationComparison.cpp:14-25 | two event lists agree exactly when they are equally long, with the same kinds, and times and targets within the tolerance |
| SimulationComparison.ClocksMean | src/sim/runtime/SimulationComparison.cpp:273-285 | the clocks agree exactly when both are the time of the steps, capped by the duration, within the tolerance; else the first that is off is named |
| Lockstep.EndedIsAtRest | src/sim/runtime/SimulationComparison.cpp:154-285 | once a comparison is completed, stopped or failed, no executor is left that flies one of its simulations |
| Lockstep.StopEnds | src/sim/runtime/SimulationComparison.cpp:199-211 | a comparison stopped in lockstep has stopped for both variants and emitted the end of the scenario at the time of its last step |
| Lockstep.CreatedIff | src/sim/runtime/SimulationComparison.cpp:63-152 | exactly when there is a comparison of two new simulations |
| Lockstep.WillingSimulationsCompare | src/sim/runtime/SimulationComparison.cpp:63-152 | two simulations that initialize and reset make a comparison of every valid scenario with a step count |
| Lockstep.LockedExecutorsAgree | src/sim/runtime/SimulationComparison.cpp:154-197 | in lockstep both executors have equal step count, next event, target and schedule, and both simulations equal clock and flown controls |
| Lockstep.TickStaysLocked | src/sim/runtime/SimulationComparison.cpp:154-197 | a tick before the last keeps lockstep and takes no divergence branch |
| Lockstep.LastTick | src/sim/runtime/SimulationComparison.cpp:154-197 | on the last tick both complete, or, exactly if the last step overshoots the duration by more than the tolerance, the baseline clock is blamed |
| Lockstep.FailingTick | src/sim/runtime/SimulationComparison.cpp:162-169 | a failing step fails exactly its own variant, the baseline if both fail |
| Lockstep.RunLocks | src/sim/runtime/SimulationComparison.cpp:154-197 | after every number of ticks: lockstep if all steps succeeded, else Failed |
| Lockstep.CompletesIff | src/sim/runtime/SimulationComparison.cpp:154-197 | Completed after its step count of ticks if and only if all steps succeed and the last does not overshoot; it then has emitted the whole run |
| Lockstep.WholeDurationCompletes | src/sim/runtime/SimulationComparison.cpp:234-238 | if the duration is a whole number of steps, only a failing step can prevent completion |
| Lockstep.OvershootingScenarioFails | src/sim/runtime/SimulationComparison.cpp:234-238 | a valid scenario that no two simulations can complete |
| SimulationRunner.NotifyStarted | src/runner/SimulationRunner.cpp:614-639 | observers are told of the start in order until one refuses |
| SimulationRunner.NotifyStep | src/runner/SimulationRunner.cpp:666-677 | one round of step calls, until an observer refuses |
| SimulationRunner.NotifyFinished | src/runner/SimulationRunner.cpp:694-701 | every started observer is told of the end; a refusal is an output failure |
| SimulationRunner.Advance | src/runner/SimulationRunner.cpp:649-681 | one pass of the loop |
| SimulationRunner.Drive | src/runner/SimulationRunner.cpp:649-681 | the loop ends, without error exactly on a flawless comparison |
| SimulationRunner.Conclude | src/runner/SimulationRunner.cpp:682-704 | the outcome fields after the loop |
| SimulationRunner.Refuse | src/runner/SimulationRunner.cpp:619-637 | the outcome when an observer refuses the start |
| SimulationRunner.Execute | src/runner/SimulationRunner.cpp:614-704 | everything after the session was created |
| SimulationRunner.Compare | src/runner/SimulationRunner.cpp:590-612 | the creation of the session and what follows |
| SimulationRunner.Runner.Run | src/runner/SimulationRunner.cpp:478-713 | "completed" if and only if exit code Success and empty error, and if and only if everything went well; every failure has its own exit code and status (`Reports`), by the first round that a signal, a failing tick or a refusal spoils; the calls of the observers form a transcript |
| SimulationRunner.PopulatedMeans | src/runner/SimulationRunner.cpp:429-462 | a variant that failed shows its cause and its peer that it was stopped for it; without a failure both show the end of the run |
| SimulationRunner.CreationBlames | src/runner/SimulationRunner.cpp:589-609 | a runtime that cannot be made is told with its error, its peer as stopped for it |
| SimulationRunner.OutputFailureKeepsError | src/runner/SimulationRunner.cpp:332-341 | a failed output keeps the error before it in front |
| SimulationRunner.Runner.AddObserver | src/runner/SimulationRunner.cpp:354-356 | appends an observer |
| SimulationRunner.ObserverSees | src/runner/SimulationRunner.cpp:614-702 | an observer sees nothing, or a start it refused, or its start, its steps in order and then exactly one finish |
| SimulationRunner.AfterFinishes | src/runner/SimulationRunner.cpp:332-341 | any refusal at the end makes the result a failed output; none leaves it alone |
| AsyncLinearizer.Impl.SubmitRequest | src/sim/linearization/AsyncAircraftLinearizer.cpp:26-41 | accepted exactly when nothing is pending, running or completed and no stop was requested |
| AsyncLinearizer.Impl.TakeCompletion | src/sim/linearization/AsyncAircraftLinearizer.cpp:48-53 | hands out the completion once |
| AsyncLinearizer.Impl.CheckForWork | src/sim/linearization/AsyncAircraftLinearizer.cpp:94-108 | stop first, then the pending request, else sleep |
| AsyncLinearizer.Impl.ProcessRequest | src/sim/linearization/AsyncAircraftLinearizer.cpp:69-92 | the completion of a request and the linearizer cache |
| AsyncLinearizer.Impl.FinishRequest | src/sim/linearization/AsyncAircraftLinearizer.cpp:112-118 | the completion is stored unless a stop was requested |
| AsyncLinearizer.Impl.SetStop | src/sim/linearization/AsyncAircraftLinearizer.cpp:16-21 | first step of the destructor |
| AsyncLinearizer.Impl.NotifyStopped | src/sim/linearization/AsyncAircraftLinearizer.cpp:22 | second step of the destructor |
| AsyncLinearizer.ProcessedAnswers | src/sim/linearization/AsyncAircraftLinearizer.cpp:63-92 | a completion carries its request's generation and a result for its configuration and state; a cached linearizer is kept while the configuration is the same, and so is the initial condition it was made with |
| AsyncLinearizer.StepKeepsSafe | src/sim/linearization/AsyncAircraftLinearizer.cpp:16-120 | every atomic step keeps: one slot in use, no lost wakeup, exactly-once delivery |
| AsyncLinearizer.RunsAreSafe | src/sim/linearization/AsyncAircraftLinearizer.cpp:16-120 | so does every interleaving |
| AsyncLinearizer.DeliveredExactlyOnce | src/sim/linearization/AsyncAircraftLinearizer.cpp:26-53 | taken generations are a prefix, in order, of accepted ones, at most one behind |
| AsyncLinearizer.CompletionsAreKept | src/sim/linearization/AsyncAircraftLinearizer.cpp:48-53 | a completion is never overwritten |
| AsyncLinearizer.RequestsProgress | src/sim/linearization/AsyncAircraftLinearizer.cpp:94-120 | an accepted request is a completion after three worker steps; one is always enabled |
| AsyncLinearizer.StopEndsWorker | src/sim/linearization/AsyncAircraftLinearizer.cpp:16-24 | after stop nothing is accepted, no completion appears, every worker step nears the exit |
| AsyncLinearizer.StoppedRunsAreShort | src/sim/linearization/AsyncAircraftLinearizer.cpp:16-24 | every run after stop has at most three worker steps |
| LayoutNames.DecimalValue | src/gui/layout/EditorLayoutManager.cpp:654 | a decimal number reads back as itself, so copies have different names |
| LayoutNames.TakenCopiesAreFew | src/gui/layout/EditorLayoutManager.cpp:653-658 | as many copies as are taken, so many names there are |
| LayoutNames.MakeUniqueName | src/gui/layout/EditorLayoutManager.cpp:643-660 | ends after at most one more candidate than there are presets, with the requested name or its first free copy |
| LayoutNames.UniqueIsNew | src/gui/layout/EditorLayoutManager.cpp:643-660 | the name that is returned is not in use |
| LayoutNames.MovedKeepsOthers | src/gui/layout/EditorLayoutManager.cpp:266-271 | a move permutes the list, puts the preset at its destination and keeps the order of the others |
| LayoutNames.EditKeepsSane | src/gui/layout/EditorLayoutManager.cpp:250-463 | every edit keeps ids distinct and files named after them, and names distinct |
| LayoutNames.EditsKeepWellFormed | src/gui/layout/EditorLayoutManager.cpp:250-463 | from empty storage ids and names stay distinct under every sequence of edits |
| LayoutNames.ReloadableIff | src/gui/layout/EditorLayoutManager.cpp:543-554 | an edit keeps the list reloadable if and only if the name it adds, if any, fits |
| LayoutNames.UniqueNameIsValidIff | src/gui/layout/EditorLayoutManager.cpp:631-660 | a name fits, created or imported, exactly if: not in use, it is valid itself; in use, it has room for the number of its first free copy within 256 bytes |
| LayoutNames.LongCopyIsUnreloadable | src/gui/layout/EditorLayoutManager.cpp:653-655 | a second preset with a name of 256 bytes cannot be loaded again |
| LayoutNames.BlankImportIsUnreloadable | src/gui/layout/EditorLayoutManager.cpp:446-451 | nor can an import with a blank name |
| LayoutNames.GeneratedIsPlain | src/gui/layout/EditorLayoutManager.cpp:662-680 | a generated id has at least 36 characters and no separator |
| StoragePaths.SameFileResolves | src/gui/layout/EditorLayoutManager.cpp:543-546 | path texts that compare as equal name the same file |
| StoragePaths.ResolvedWithSuffix | src/gui/layout/EditorLayoutManager.cpp:98-120 | the companions of a file are its name with an end |
| FileStore.ScratchNames | src/gui/layout/EditorLayoutManager.cpp:78-83 | temporary and backup names are never those of a snapshot or of the metadata |
| FileStore.BackupDetermines | src/gui/layout/EditorLayoutManager.cpp:120 | two files never have the same backup, whatever the suffixes |
| FileStore.ReplacementMeans | src/gui/layout/EditorLayoutManager.cpp:85-138 | no file but the target and its two companions changes; success puts at the target what has landed, the new content or what a lost closing flush has left of it; failure leaves it as it was, unless the rollback failed: then the old content is in the backup |
| FileStore.OutcomeIff | src/gui/layout/EditorLayoutManager.cpp:85-138 | success, and a failed rollback, exactly by the answers to the calls |
| FileStore.IntactIff | src/gui/layout/EditorLayoutManager.cpp:63-138 | wherever a replacement stops the complete old or new content is at the target, or the old one in its backup, if and only if it is not one that succeeds without its closing flush, by the answers to the calls |
| FileStore.GoneIff | src/gui/layout/EditorLayoutManager.cpp:120-137 | after such a success the old content survives exactly if it was renamed away and the removal of the backup failed too |
| FileStore.ClosingFlushLost | src/gui/layout/EditorLayoutManager.cpp:63-76 | a disk that is full just when the new metadata is flushed: success is reported and neither list is left |
| FileStore.RollbackLost | src/gui/layout/EditorLayoutManager.cpp:128-136 | a refused replacement that leaves the old list in the backup alone |
| FileStore.LeftoversIff | src/gui/layout/EditorLayoutManager.cpp:74-132 | which scratch files a replacement leaves behind: the temporary file after a failed write or removal, the backup after a failed rollback or removal |
| FileStore.GapIff | src/gui/layout/EditorLayoutManager.cpp:104-128 | the target is gone at some point exactly if it was found and could be renamed away |
| FileStore.FileSystem.Write | src/gui/layout/EditorLayoutManager.cpp:63-76 | a write empties the file, may be cut off, or succeeds; its closing flush may then be lost unseen, and so many bytes with it |
| FileStore.FileSystem.ReplaceFileAtomically | src/gui/layout/EditorLayoutManager.cpp:85-138 | the calls in their order: the whole new state of the disk and every state on the way |
| FileStore.FileSystem.Place | src/gui/layout/EditorLayoutManager.cpp:103-137 | the second half, once the temporary file is written |
| FileStore.FileSystem.MoveIn | src/gui/layout/EditorLayoutManager.cpp:104-113 | the replacement of a file that seems not to be there |
| FileStore.FileSystem.SwapIn | src/gui/layout/EditorLayoutManager.cpp:120-137 | the replacement by way of the backup |
| LayoutStore.StoredNames | src/gui/layout/EditorLayoutManager.cpp:198-204 | no snapshot is the metadata, whatever its id |
| LayoutStore.PresetFile | src/gui/layout/EditorLayoutManager.cpp:543-546 | the file of a loaded preset is the one its id stands for |
| LayoutStore.SnapshotsDifferIff | src/gui/layout/EditorLayoutManager.cpp:600-609 | two ids that stay inside the directory have different snapshots if and only if their names differ once "." and ".." are resolved |
| LayoutStore.PlainSnapshotsDiffer | src/gui/layout/EditorLayoutManager.cpp:662-680 | so have all different ids without a separator, as generated ids are |
| LayoutStore.AliasedSnapshots | src/gui/layout/EditorLayoutManager.cpp:543-554 | the ids "a" and "./a", which LoadMetadata accepts side by side, have one snapshot |
| LayoutStore.StartMeans | src/gui/layout/EditorLayoutManager.cpp:206-222 | a start on any files is accepted exactly if its calls succeed and what is stored can be loaded; a refused one leaves an empty list that the editor goes on with |
| LayoutStore.InitializeMeans | src/gui/layout/EditorLayoutManager.cpp:206-222 | the same for any manager; a refusal changes nothing |
| LayoutStore.PerformKeepsSound | src/gui/layout/EditorLayoutManager.cpp:250-463 | every operation, also after a refused start, keeps: ids are distinct, and the metadata is the list in memory, or was cut off with it, or was not loaded; after a failed rollback it stands in the named backup |
| LayoutStore.AgreesIff | src/gui/layout/EditorLayoutManager.cpp:563-584 | so the metadata is the list in memory exactly while they are in step and no rollback has failed, or if both are empty |
| LayoutStore.CommittedIff | src/gui/layout/EditorLayoutManager.cpp:250-629 | for any manager and operation, and by what can be told before its commit: the metadata on the disk afterwards is the list in memory if and only if a commit that succeeds does not cut off the list, one that fails finds it so and rolls back, and a start loads what is stored |
| LayoutStore.PerformEdits | src/gui/layout/EditorLayoutManager.cpp:250-463 | the list becomes the edited one exactly if the operation succeeds, the stored one after an accepted start, and empty after a refused one |
| LayoutRuns.RunsAreSound | src/gui/layout/EditorLayoutManager.cpp:250-463 | so after every sequence of operations, stops at any point and starts, with any calls failing |
| LayoutRuns.HowChanges | src/gui/layout/EditorLayoutManager.cpp:206-463 | one operation leaves the list unloaded exactly if it is a start that refuses what is stored, or settles nothing |
| LayoutRuns.UnloadedIff | src/gui/layout/EditorLayoutManager.cpp:206-463 | after any run the list is unloaded if and only if the last start refused what was stored and nothing has been committed since |
| LayoutRuns.DropsIff | src/gui/layout/EditorLayoutManager.cpp:288-315 | a commit drops a stored list that is not the one it edits exactly if the last start did not load it |
| LayoutRuns.RunDropsIff | src/gui/layout/EditorLayoutManager.cpp:288-315 | over all runs: exactly if the last start refused it, nothing was committed since, and the commit succeeds |
| LayoutRuns.RestartLoads | src/gui/layout/EditorLayoutManager.cpp:516-561 | after a stop at any point of a commit the next start loads the old or the new list, except where the metadata is gone (then nothing, with the old list in the backup) or cut off by more than its last line break (then it refuses) |
| LayoutRuns.RestartMissesIff | src/gui/layout/EditorLayoutManager.cpp:120-137 | such a point exists exactly if the old metadata could be renamed away, or the commit succeeds and cuts off the list |
| LayoutRuns.RestartForgets | src/gui/layout/EditorLayoutManager.cpp:120-128 | a commit without any failure, stopped between its two renames, restarts with an empty list |
| LayoutRuns.RunsSpare | src/gui/layout/EditorLayoutManager.cpp:250-463 | over any run of operations that act on other files, stops and starts included, a snapshot is the same at every point |
| LayoutRuns.PerformSpares | src/gui/layout/EditorLayoutManager.cpp:250-463 | wherever one operation stops, every snapshot in another file is as it was |
| LayoutRuns.AliasedUpdateOverwrites | src/gui/layout/EditorLayoutManager.cpp:337-354 | on a list that is accepted, updating "./a" overwrites the snapshot of "a" |
| LayoutRuns.RunsAreRegular | src/gui/layout/EditorLayoutManager.cpp:250-463 | from regular storage, such as none, with generated ids: every run leaves names distinct and ids without a separator, in memory and stored |
| LayoutRuns.PerformKeepsRegular | src/gui/layout/EditorLayoutManager.cpp:250-463 | so does every operation, at every point |
| LayoutRuns.RunsSpareOthers | src/gui/layout/EditorLayoutManager.cpp:250-463 | over every such run acting on one preset never changes the snapshot of another |
| LayoutRuns.UpdateIntactIff | src/gui/layout/EditorLayoutManager.cpp:337-354 | an update keeps its own snapshot, old or new, at every point, exactly unless it succeeds without its closing flush |
| LayoutRuns.NewSnapshot | src/gui/layout/EditorLayoutManager.cpp:611-629 | a committed new preset has the snapshot that has landed; a refused one has none, unless its removal failed |
| LayoutRuns.DeleteRemoves | src/gui/layout/EditorLayoutManager.cpp:405-411 | a committed deletion removes the snapshot, if the file system does |
| LayoutLaws.CreationGrows | src/gui/layout/EditorLayoutManager.cpp:288-315 | a preset that is saved is the last of the list, under the requested name or its first free copy, with its file and snapshot; all others stay in their places |
| LayoutLaws.ImportGrows | src/gui/layout/EditorLayoutManager.cpp:438-463 | so is an imported one, with the name and the layout of its text |
| LayoutLaws.RenamingRenames | src/gui/layout/EditorLayoutManager.cpp:356-385 | a renaming changes the name of the preset with that id and nothing else; no other preset has the name |
| LayoutLaws.MoveMoves | src/gui/layout/EditorLayoutManager.cpp:250-278 | a move puts the preset with that id at its destination; the others keep their order |
| LayoutLaws.DeletionDeletes | src/gui/layout/EditorLayoutManager.cpp:387-412 | a deletion takes exactly the preset with that id out of the list, and out of use if it was active |
| LayoutLaws.UpdateWrites | src/gui/layout/EditorLayoutManager.cpp:337-354 | an update is one of a listed preset and leaves the captured layout, or what has landed of it, as its snapshot |
| LayoutLaws.MoveSucceedsIff | src/gui/layout/EditorLayoutManager.cpp:250-278 | exactly when a move succeeds; none is written for a preset that stands there already |
| LayoutLaws.RenameSucceedsIff | src/gui/layout/EditorLayoutManager.cpp:356-385 | exactly when a renaming succeeds |
| LayoutLaws.DeleteSucceedsIff | src/gui/layout/EditorLayoutManager.cpp:387-412 | exactly when a deletion succeeds |
| LayoutLaws.UpdateSucceedsIff | src/gui/layout/EditorLayoutManager.cpp:337-354 | exactly when an update succeeds |
| LayoutLaws.CreationSucceedsIff | src/gui/layout/EditorLayoutManager.cpp:288-463 | exactly when a new or imported preset is saved |
| LayoutLaws.FailureKeepsList | src/gui/layout/EditorLayoutManager.cpp:250-463 | an operation that fails, and every update, leaves the list as it is |
| LayoutCover.PerformKeepsCovered | src/gui/layout/EditorLayoutManager.cpp:387-412 | at every point of every operation but an update, wherever it stops, each preset in the metadata has its snapshot: written before it is listed, removed after it is unlisted |
| LayoutCover.RunsAreCovered | src/gui/layout/EditorLayoutManager.cpp:250-629 | over all runs in which no update is stopped halfway or fails to roll back, every listed preset has its snapshot |
| LayoutRuns.RefusedStartDropsList | src/gui/GUI.cpp:134-141 | without any failure: a start refuses a list with a blank name, the editor goes on, and saving a layout leaves no file with the stored list |
| LayoutManager.EditorLayoutManager.Initialize | src/gui/layout/EditorLayoutManager.cpp:206-222 | directory, metadata and list in their order, with each refusal |
| LayoutManager.EditorLayoutManager.PersistMetadata | src/gui/layout/EditorLayoutManager.cpp:563-584 | the replacement of the metadata by the list |
| LayoutManager.EditorLayoutManager.WritePresetIni | src/gui/layout/EditorLayoutManager.cpp:600-609 | the replacement of one snapshot |
| LayoutManager.EditorLayoutManager.Commit | src/gui/layout/EditorLayoutManager.cpp:272-277 | the list in memory follows the metadata |
| LayoutManager.EditorLayoutManager.MovePreset | src/gui/layout/EditorLayoutManager.cpp:250-278 | whole new state, trail and outcome of a move, on any manager |
| LayoutManager.EditorLayoutManager.RenamePreset | src/gui/layout/EditorLayoutManager.cpp:356-385 | whole new state, trail and outcome of a renaming |
| LayoutManager.EditorLayoutManager.DeletePreset | src/gui/layout/EditorLayoutManager.cpp:387-412 | the shorter list is committed before the snapshot goes |
| LayoutManager.EditorLayoutManager.UpdatePreset | src/gui/layout/EditorLayoutManager.cpp:337-354 | whole new state, trail and outcome of an update |
| LayoutManager.EditorLayoutManager.PersistNewPreset | src/gui/layout/EditorLayoutManager.cpp:611-629 | snapshot first, then metadata |
| LayoutManager.EditorLayoutManager.CommitAfterSnapshot | src/gui/layout/EditorLayoutManager.cpp:624-628 | a refused commit takes the snapshot away again |
| LayoutManager.EditorLayoutManager.CreatePreset | src/gui/layout/EditorLayoutManager.cpp:288-315 | refusals, then the new preset under its unique name |
| LayoutManager.EditorLayoutManager.ImportPreset | src/gui/layout/EditorLayoutManager.cpp:438-463 | the same with the name and the layout that the file's text holds |
| MessageBus.RegisteredMeans | src/messaging/MessageBus.hpp:33-71 | no entry is registered twice, and an entry is registered exactly while it is active |
| MessageBus.StepKeepsSound | src/messaging/MessageBus.hpp:33-90 | every step keeps the channels equal to what the subscriptions mean, with none left empty |
| MessageBus.PublishingIsExact | src/messaging/MessageBus.hpp:73-90 | to any depth of re-entrancy, every publish takes the turns of exactly the entries registered when it began, in order, once each, and invokes exactly those still active |
| MessageBus.NeverInvokedAgain | src/messaging/MessageBus.hpp:52-70 | once unsubscribed, an entry is never active again |
| MessageBus.Dispatcher.SubscribeTo | src/messaging/MessageBus.hpp:33-49 | a new id at the end of the channel |
| MessageBus.Dispatcher.UnsubscribeFrom | src/messaging/MessageBus.hpp:52-70 | inactive, out of its channel, and no empty channel |
| MessageBus.Dispatcher.Begin | src/messaging/MessageBus.hpp:73-83 | a copy of the channel, or nothing to do |
| MessageBus.Dispatcher.TurnOfNext | src/messaging/MessageBus.hpp:85-89 | the next entry of the copy is invoked if it is still active |
| MessageBus.Dispatcher.End | src/messaging/MessageBus.hpp:85-90 | a publish that has taken all its turns returns |
| MessageBus.Dispatcher.PublishTo | src/messaging/MessageBus.hpp:73-90 | if the callbacks leave the bus alone, every registered entry is invoked once and in order |
| RequestCorrelation.SimulationMessageClient.NextRequestId | src/messaging/SimulationMessageClient.cpp:353-359 | a new id from the shared counter, pending |
| RequestCorrelation.SimulationMessageClient.ReceiveOperationResult | src/messaging/SimulationMessageClient.cpp:108-118 | a result is stored only for a pending id |
| RequestCorrelation.SimulationMessageClient.TakeRequestResult | src/messaging/SimulationMessageClient.cpp:361-390 | pending id and result are taken out; the last error tells the outcome |
| RequestRuns.StepKeepsExact | src/messaging/SimulationMessageClient.cpp:108-118 | every step, with results of any ids delivered by anybody, keeps: an id is pending exactly while its request is in flight, results are stored only for pending ids, and each is the last one delivered |
| RequestRuns.RunsAreExact | src/messaging/SimulationMessageClient.cpp:353-390 | over all runs every finished request got the last result delivered for its own id while it was in flight, or none |
| RequestRuns.NothingLeaks | src/messaging/SimulationMessageClient.cpp:353-390 | whenever no request is in flight all tables are empty |
| RequestRuns.EndAnswers | src/messaging/SimulationMessageClient.cpp:361-390 | at the end of a request the client has no last error exactly if its result was a success; else that is the text of the result, or that there was none |
| AdapterRuns.AdapterDecides | src/messaging/SimulationMessageAdapter.cpp:48-160 | with at most one adapter on the bus, however requests are nested and whoever subscribes and unsubscribes in between: a request gets what the adapter told for that very request, if its publish served the adapter's handler and that of the result the client's, and else nothing; what it gets is whether the work succeeded and, if not, the runtime's or the handler's text |
| AdapterRuns.OneAdapterAnswers | src/messaging/SimulationMessageAdapter.cpp:48-160 | with one adapter subscribed to every command and all clients to every result, every request at every depth returns whether the adapter's work for it succeeded and, if not, the runtime's or the handler's text, whatever other subscribers do |
| AdapterRuns.SmallSystem | src/messaging/SimulationMessageAdapter.cpp:48-160 | there are such systems |
| AdapterRuns.NeverStuck | src/messaging/MessageBus.hpp:73-90 | something in flight can always go on or return |
| RequestCorrelation.SimulationMessageAdapter.HandleRequest | src/messaging/SimulationMessageAdapter.cpp:48-160 | exactly one result, for the request's own id and before the state; it succeeds exactly when the runtime did, and on failure its error is the runtime's text, or the handler's where there is none |
| RequestCorrelation.SimulationMessageAdapter.PublishState | src/messaging/SimulationMessageAdapter.cpp:163-194 | a frame of a slot exactly when its telemetry version has changed |
| Sha256.Sha256Hex | src/common/crypto/Sha256.cpp:31-80 | for every message the text is its SHA-256 (FIPS 180-4) |
| Sha256.Pad | src/common/crypto/Sha256.cpp:32-38 | the loop ends with the padding of section 5.1.1 |
| Sha256.LengthBytes | src/common/crypto/Sha256.cpp:36-38 | the length in 64 bits, most significant byte first |
| Sha256.BuildSchedule | src/common/crypto/Sha256.cpp:43-60 | the message schedule of section 6.2.2 |
| Sha256.Compress | src/common/crypto/Sha256.cpp:60-74 | 64 rounds of section 6.2.2 |
| Sha256.PaddedIsUnique | src/common/crypto/Sha256.cpp:34-38 | the padding is unique, a whole number of blocks, with the fewest zero bytes |
| Sha256.PaddingIsInjective | src/common/crypto/Sha256.cpp:34-38 | two messages below 2^61 bytes with the same padding are equal |
| Sha256.BigEndianReads | src/common/crypto/Sha256.cpp:36-38 | the recorded length reads back |
| Sha256.RoundConstantsAreCubeRoots | src/common/crypto/Sha256.cpp:11-24 | every round constant is the first 32 fraction bits of the cube root of its prime |
| Sha256.InitialHashIsSquareRoots | src/common/crypto/Sha256.cpp:39-41 | every initial word comes from the square root of its prime |
| Sha256Words.ChoiceSelects | src/common/crypto/Sha256.cpp:64 | Ch takes the second argument where the first has a bit, else the third |
| Sha256Words.MajorityVotes | src/common/crypto/Sha256.cpp:68 | Maj has the bits that at least two arguments have |
| Sha256Words.BitsByDivision | src/common/crypto/Sha256.cpp:26-28 | the bits of a word are those of division and remainder |
| Sha256Words.SigmaBits | src/common/crypto/Sha256.cpp:51-67 | every bit of each sigma function is the exclusive or of the three bits that section 4.1.2 names |
| Sha256.WordAtReads | src/common/crypto/Sha256.cpp:46-49 | a word of a block is the big-endian number of its four bytes |
| Sha256.HexOfReads | src/common/crypto/Sha256.cpp:76-80 | the text reads back to the eight words, in order |
| Sha256.HexShows | src/common/crypto/Sha256.cpp:76-80 | every text of lower-case hexadecimal digits is the text of its value |
| Sha256Example.AbcDigest | src/common/crypto/Sha256.cpp:31-80 | the digest of the standard's example `abc`, worked through the schedule and the 64 rounds: the text is its digest exactly if it is the standard's |
| Sha256.DigestIsUnique | src/common/crypto/Sha256.cpp:31-80 | a message has one digest text, of 64 digits |
| ModeHistory.DynamicModeHistory.Push | src/sim/linearization/DynamicModeHistory.cpp:9-27 | the vector stays the sorted form of a map from time to the latest valid snapshot |
| ModeHistory.DynamicModeHistory.Clear | src/sim/linearization/DynamicModeHistory.cpp:29 | the map is empty |
| ModeHistory.DynamicModeHistory.FindLatestAtOrBefore | src/sim/linearization/DynamicModeHistory.cpp:31-44 | the entry with the greatest time at most the given one, or none exactly when every entry is later |
| ModeHistory.RepresentationIsUnique | src/sim/linearization/DynamicModeHistory.cpp:9-27 | a map has only one sorted vector |

## Left out

- User interface, JSBSim, eigenvalue solving, FlightGear UDP, MCAP recording, dialogs: foreign or without a deep property.
- NaN, infinity and rounding of doubles: times and values are finite reals, except that `ModeHistory` keeps the test for a non-finite time.
- Stack exhaustion on deeply nested JSON and memory exhaustion, also between the two assignments that fill the linearizer cache (`AsyncAircraftLinearizer.cpp:80-81`).
- Durability across power loss: the model stops the process between two effects, it does not lose effects that were made.
- Memory ordering: steps are sequentially consistent.
- SimulationModel.Simulation.Initialize: every way in which JSBSim fails to initialize is one answer of the oracle.
- SimulationModel.Simulation.Reset: the validation and normalization of initial conditions are part of that answer.
- SimulationRuntime.Runtime.StartScenario: whether the autopilot accepts the parameters is one flag of the specification.
- SimulationComparison.Comparison.Create: both resolutions check the same scenario first, so they are one test; whether each variant accepts its parameters is a flag.
- SimulationComparison.Comparison.TakeObservation: the telemetry in an observation is not modelled.
- FileStore.FileSystem.Write: a file that a write has cut off lacks its last bytes; other damage is not modelled.
- LayoutStore.SnapshotsDifferIff: "." and ".." are resolved in the text, as on a POSIX system without links; the directories on the way are taken to exist.
- LayoutManager.EditorLayoutManager.Initialize: the stored content is the list, for the same reason as below.
- LayoutManager.EditorLayoutManager.PersistMetadata: the content is the list, not its JSON text, because the YAML reader is a library.
- LayoutManager.EditorLayoutManager.CreatePreset: the generated id is a parameter that is not in use; that the random search finds one is not modelled.
- MessageBus.Dispatcher.PublishTo: callbacks that touch the bus are the subject of `MessageBus.PublishingIsExact`, over explicit steps, because a callback is an arbitrary C++ function.
- SimulationRuntime.Runtime.StepInstances: the copying of manual control input to the baseline is not modelled; it cannot fail, since every simulation owns a control manager.
- SimulationRunner.Runner.Run: wall-clock fields, console output and the text of the manifest are not modelled; the steps before the comparison are one parameter.
- RequestCorrelation.SimulationMessageAdapter.HandleRequest: what the runtime makes of a command is a parameter, and the payloads of trim and recording results are not modelled.
- Sha256.Sha256Hex: beyond 2^61 bytes the standard says nothing; the length is then taken modulo 2^64, as the code does.
- The checks of `ValidateSimulationScenario` on names, initial conditions and acceptance limits are one flag of a scenario.
- Applying and exporting presets, recording settings, trim requests, manual control and roll-hold configuration: they read or pass on state and add no invariant.
