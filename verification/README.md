# A verified model of virmux's run machinery

virmux runs skills in micro-VMs and keeps evidence of what they did. This project models the
parts of it whose correctness rests on more than one function, and proves what they promise.

| files | what they model |
|---|---|
| `Plans`, `Schedule` | a research plan, and the track scheduler as a labelled transition system: one label is one critical section of the dispatcher or of a worker goroutine, so a run is one interleaving |
| `ScheduleInvariant`, `ScheduleSteps` | the invariant of every reachable state, under every interleaving |
| `ScheduleOutcome`, `ScheduleTheorems`, `ScheduleGap`, `ScheduleTermination` | the outcome of whole runs, when it is the same for every interleaving, and that every run ends |
| `TrackStates`, `SchedulerRuntime`, `SchedulerDriver` | the same scheduler as an object with the source's variables and loops; every method takes the step of the transition system that it models, and a driver runs them in any order of the goroutines |
| `ScheduleExit` | the exit test of the dispatcher loop on plans with repeated ids |
| `ReplayModel`, `ReplayRuntime`, `ReplayDriver` | the replay around the scheduler: selection, moved artifacts, comparison; and whole replays, one after another |
| `Frames`, `AgentServer` | length-prefixed frames over byte streams, and the agent's serving loop |
| `Mux`, `MuxTheorems`, `MuxRuntime` | the client that multiplexes concurrent calls over one connection, as a transition system and as an object |
| `FileNames`, `Receipts`, `ReceiptTheorems`, `ReceiptTamper`, `ReceiptRuntime` | the three records of every tool call, and the verifier that compares them |
| `Registry`, `RegistryRuntime` | the table of a run's artifacts |
| `WideTrack`, `WideCache`, `WideTrackRuntime` | the coverage loop of a wide track and its cache |
| `Refine` | rewriting the refinement block of a skill file through its frontmatter |
| `Transcript`, `TranscriptTheorems` | reading a command's output from a growing serial transcript |
| `Percentile` | percentile and median of scores |
| `Wrappers`, `Texts`, `Sorting` | an option type and an opaque message; the string functions of the Go library; sorting by a key |

`dafny verify dfyconfig.toml` checks everything.

## What the code does that one might not expect

Each of these is proved, with the exact condition under which the expected behaviour holds.

* **The scheduler's outcome can depend on timing.** The mutex is free between a scan that finds no
  ready track and the idle check after it. A worker that finishes there can leave nothing running
  and a track ready, and the sweep then blocks that track although its dependencies are done. This
  can happen for exactly those inputs in which a selected track whose dependencies all get done
  depends on another selected track (`ScheduleGap.IndependentIffNoChain`; two tracks, one after the
  other, are enough: `ScheduleGap.PairHasChain`). In any one run, the
  outcome is the expected one exactly if no sweep hit a ready track
  (`ScheduleTheorems.OutcomeIffNoGap`).
* **Request ids must not be reused on a connection.** The in-use check of `Call` only sees open
  calls. After a call has given up, its late response can reach a later call with the same id; and
  the reader can come to stand for ever before a full channel. The first happens exactly when two
  requests with one id have different answers, the second exactly when an id occurs twice
  (`MuxTheorems.CorrelatedIff`, `MuxTheorems.NeverBlocksIffDistinct`).
* **Receipts verify exactly for regular runs.** File names are `%06d` of the request id and are
  sorted as strings, so honest runs fail from id 1000000 on (`ReceiptTheorems.SeventhDigitFails`).
  The trace is read with a scanner that gives up on a line of 64 KiB or more, while nothing bounds
  the lines that are written (`ReceiptTheorems.LongNameFails`). `ReceiptTheorems.VerifiesIffRegular`
  is the exact condition. Error codes are loaded but never compared.
* **A frame's length is checked after truncation to 32 bits**, so a payload of 2^32 bytes or more
  can be accepted and then does not read back (`Frames.RoundTripIffWithinLimit`): one of 2^32 bytes
  reads back as an empty one (`Frames.HugeReadsEmpty`).
* **Refining a body with a start marker but no end marker loses text the second time**
  (`Refine.LastWriteWins`). The split also cuts off the last line break of the frontmatter, so a
  literal block at its end loses its own, and a second refinement is not the same as one
  (`Refine.LiteralBlockLosesBreak`); `Refine.RefineTwice` is the exact condition.
* **A wide track can show another cell's row.** A cell is cached under its target and attribute
  joined by a colon, so two cells that are written alike share an entry
  (`WideCache.ColonRun`); `WideCache.AllTellIff` is the exact condition for one run, and
  `WideCache.RunsTellIff` for any sequence of runs.
* **A command's exit code can be read before all of its digits have arrived**: a reading is final
  exactly once the exit-code line has ended (`TranscriptTheorems.StableIffEnded`), and cut inside
  the digits it is another code (`TranscriptTheorems.TornCode`).
* **A registered artifact that is only found by the directory walk keeps its old hash**
  (`Registry.ShownIs`, `Registry.ChangedFileKeepsHash`).
* **With a selected track id in two plan entries the dispatcher loop never leaves through its exit
  test**, although `Plan.Validate` accepts such plans (`ScheduleExit.ExitIff`).

## Model

| member | source | states |
|---|---|---|
| `ScheduleGap.IndependentIffNoChain` | internal/skill/research/scheduler.go:117-159 | any two complete runs without acquire errors end with the same statuses if and only if no selected track, all of whose dependencies get done, depends on another selected track |
| `ScheduleGap.ExpectedIffNoChain` | internal/skill/research/scheduler.go:117-159 | and all such runs end with the expected statuses under the same condition |
| `ScheduleGap.TwoOutcomes` | internal/skill/research/scheduler.go:117-159 | with such a chain there are two complete runs without acquire errors, one that ends as expected and one that does not |
| `ScheduleGap.GoodRun` | internal/skill/research/scheduler.go:117-159 | every input has a complete run without acquire errors and gap sweeps |
| `ScheduleGap.PairHasChain` | internal/skill/research/scheduler.go:134-151 | two tracks, the second after the first, with a mapper that always succeeds: not independent of the interleaving |
| `ScheduleGap.GapRun` | internal/skill/research/scheduler.go:134-151 | for every such chain there is a complete run, without acquire errors, whose sweep blocks a ready track |
| `ScheduleGap.GapNeedsChain` | internal/skill/research/scheduler.go:134-151 | a sweep of any run hits a ready track only if the input has such a chain |
| `ScheduleTheorems.OutcomeIffNoGap` | internal/skill/research/scheduler.go:59-240 | a complete run without acquire errors ends with Done on the least closed set, Failed on the other selected tracks whose dependencies are in it, and Blocked on the rest, if and only if no sweep blocked a ready track |
| `ScheduleTheorems.ResultsExpected` | internal/skill/research/scheduler.go:231-240 | such a run returns those statuses, one for each track, in plan order |
| `ScheduleTheorems.Safety` | internal/skill/research/scheduler.go:87-108 | in every state of every run, gap sweeps and acquire errors included: only selected tracks with all dependencies Done run or fail, Done stays within the least set, a track outside the selector is Done or Blocked as its artifact says and is never mapped, a track is mapped at most twice and a second time only after a reply marked retryable, and no more workers hold the semaphore than the maximum, or four if none is set |
| `ScheduleTheorems.GrantedIffRoom` | internal/skill/research/scheduler.go:51-54 | and a worker that waits for the semaphore can get it exactly if fewer than so many hold it |
| `ScheduleTheorems.RepliesDecide` | internal/skill/research/scheduler.go:19-29 | only the retryable mark of the first reply makes a second call, an error without it does not; the reply that counts is the last one |
| `ScheduleTheorems.EndsAsReplied` | internal/skill/research/scheduler.go:178-219 | in a complete run without acquire errors and gap sweeps a selected track whose dependencies are all Done ends Done if the reply that counts has no error, and Failed otherwise |
| `ReplayModel.ReturnsCounted` | internal/skill/research/scheduler.go:178-191 | in every state of every run the ghost count of finished mapper calls is the number of returns among the steps taken |
| `ReplayModel.RetriedIffRetryable` | internal/skill/research/scheduler.go:178-191 | counted in the steps of the run: two returns for a track only if its first reply is retryable, and for a track that has ended without an acquire error exactly then |
| `ScheduleTheorems.Absorbing` | internal/skill/research/scheduler.go:193-226 | Done, Failed and Blocked are never left, and no track becomes Pending again |
| `ScheduleTheorems.LaunchedOnce` | internal/skill/research/scheduler.go:124-133 | no track is launched twice in a run |
| `ScheduleTheorems.RunMovesOnly` | internal/skill/research/scheduler.go:117-229 | every step of every run changes statuses only along the allowed moves |
| `ScheduleOutcome.LeastClosed` | internal/skill/research/scheduler.go:87-108 | the intersection of all closed sets is itself closed: it holds the preset tracks and every selected track that succeeds and has all its dependencies in it |
| `ScheduleOutcome.LeastJustified` | internal/skill/research/scheduler.go:87-108 | and every member of it is preset, or selected and successful with all its dependencies in it |
| `ScheduleOutcome.Doomed` | internal/skill/research/scheduler.go:139-151 | tracks that wait for one another in a circle, or for something outside the least set, are outside it |
| `ScheduleOutcome.RunKeeps` | internal/skill/research/scheduler.go:117-229 | in every state of every run the invariant holds, Done tracks are in the least set, Blocked ones are stuck outside it (without errors and gap sweeps), and a gap sweep leaves a witness |
| `ScheduleInvariant.InitInv` | internal/skill/research/scheduler.go:60-115 | the state that the setup leaves satisfies the invariant: in-degrees count the dependency entries that are not Done, with multiplicity, and the counters count what they say |
| `ScheduleInvariant.ReadyInOrder` | internal/skill/research/scheduler.go:124-133 | the ready tracks of a scan stand in plan order |
| `ScheduleSteps.StepInv` | internal/skill/research/scheduler.go:117-229 | every critical section keeps the invariant: the in-degrees and both counters, one live worker or queue entry for every Running track, the semaphore bound, the parked dispatcher, sound statuses, the cascade, and the number of mapper calls |
| `ScheduleSteps.BooksStep` | internal/skill/research/scheduler.go:193-225 | every critical section keeps the counting part: runningCount is the number of Running tracks, completedCount that of Done, Failed and Blocked ones, and inDegree that of the entries not Done |
| `ScheduleSteps.CascadingStep` | internal/skill/research/scheduler.go:201-214 | without acquire errors no Pending track ever has a Failed dependency |
| `ScheduleSteps.CallsStep` | internal/skill/research/scheduler.go:178-191 | how often a track's worker has called the mapper fits where the worker stands; the second call only follows a retryable first reply |
| `ScheduleSteps.DeskStep` | internal/skill/research/scheduler.go:136-158 | a parked dispatcher implies that something is running, and the loop is left only when every track has an end |
| `ScheduleInvariant.CascadedClosed` | internal/skill/research/scheduler.go:201-214 | what a failure reaches is closed: a Pending track that depends on the failed one or on a cascaded one is cascaded |
| `ScheduleInvariant.CascadedCause` | internal/skill/research/scheduler.go:201-214 | and every cascaded track depends on the failed one or on another cascaded one |
| `ScheduleTermination.Progress` | internal/skill/research/scheduler.go:117-229 | no deadlock: until the scheduler has returned, some step other than an acquire error is enabled, in every reachable state |
| `ScheduleTermination.ParkedHasWorker` | internal/skill/research/scheduler.go:153-155 | a dispatcher in cond.Wait has a live worker that has still to broadcast |
| `ScheduleTermination.StepLess` | internal/skill/research/scheduler.go:117-229 | every step makes the measure of tracks, workers and dispatcher smaller |
| `ScheduleTermination.RunsAreShort` | internal/skill/research/scheduler.go:117-229 | no run, cyclic plans and unknown dependencies included, has more steps than the measure of its start |
| `ScheduleTermination.Completes` | internal/skill/research/scheduler.go:117-240 | every run can be continued to one that returns, without a further acquire error |
| `ScheduleExit.ExitIff` | internal/skill/research/scheduler.go:114-158 | on any plan, repeated ids included: completedCount reaches the number of entries exactly if every track has ended and no selected id stands in two entries; with such an id it never does |
| `SchedulerRuntime.TrackRun.Setup` | internal/skill/research/scheduler.go:60-115 | the setup ends in an error exactly for a selector with an unknown id, or else a failing probe of an unselected track, and otherwise in the initial state of the transition system with every error text explained |
| `SchedulerRuntime.TrackRun.BuildGraph` | internal/skill/research/scheduler.go:69-75 | all tracks Pending, edges from each id to its dependents with multiplicity, in-degrees the lengths of the dependency lists |
| `SchedulerRuntime.TrackRun.CheckSelector` | internal/skill/research/scheduler.go:77-83 | refuses exactly the selectors with an id outside the plan, and names such an id |
| `SchedulerRuntime.TrackRun.Preset` | internal/skill/research/scheduler.go:88-108 | the preset loop leaves every unselected track Done or Blocked by its artifact, with in-degrees and count in step; it fails exactly if a probe of an unselected track does |
| `SchedulerRuntime.TrackRun.Scan` | internal/skill/research/scheduler.go:118-134 | one scan is the Scan step: exactly the ready tracks start, in plan order |
| `SchedulerRuntime.TrackRun.Idle` | internal/skill/research/scheduler.go:136-159 | the idle check is the Idle step: sweep, wait or leave; the sweep blocks exactly the Pending tracks, each with its own dependency list as the reason |
| `ScheduleSteps.CrewSpawn` | internal/skill/research/scheduler.go:161-163 | a spawned track leaves the queue for its one live worker, and every other Running track keeps its own |
| `ScheduleSteps.HoldersGrow` | internal/skill/research/scheduler.go:164-164 | a granted semaphore is held by exactly one worker more |
| `ScheduleSteps.CallsMapReturn` | internal/skill/research/scheduler.go:180-191 | a returned mapper call leaves the worker with as many calls as it has made: a second one only after a retryable first reply, and the final reply to report |
| `SchedulerRuntime.TrackRun.AcquireFailed` | internal/skill/research/scheduler.go:164-175 | a failed acquire is the AcquireFail step: no cascade, the error recorded, the dispatcher woken |
| `SchedulerRuntime.TrackRun.Finished` | internal/skill/research/scheduler.go:193-226 | the last critical section is the Finish step; the errors it writes name real causes |
| `SchedulerRuntime.TrackRun.Cascade` | internal/skill/research/scheduler.go:201-214 | the recursive cascade ends, also on cyclic plans, and blocks exactly the Pending tracks that the failed one reaches through Pending tracks, each with an error naming a dependency that failed or was blocked; the count rises by their number and nothing else changes |
| `SchedulerRuntime.TrackRun.FinishTrack` | internal/skill/research/scheduler.go:215-221 | a success lowers every dependent's in-degree by the number of its entries for the track |
| `SchedulerRuntime.TrackRun.Collect` | internal/skill/research/scheduler.go:231-240 | the result is the group's error or the states in plan order |
| `SchedulerDriver.Run` | internal/skill/research/scheduler.go:50-240 | setup and then turn after turn, in any order of the goroutines: it always ends, in a complete run of the transition system, and follows any given complete run; without a failed acquire it returns the expected statuses in plan order, for every order of the turns if no selected track depends on another that gets done, and otherwise unless a sweep hit a ready track; and then every selected track whose dependencies are Done is Done or Failed by the error of the second reply if the first is retryable, else of the first |
| `SchedulerDriver.TakeStep` | internal/skill/research/scheduler.go:117-240 | every critical section of the object is its step of the transition system, and keeps every error text explained |
| `SchedulerDriver.NextLabel` | internal/skill/research/scheduler.go:117-229 | any wanted step that can be taken is taken; otherwise some step can be |
| `TrackStates.NestedCascade` | internal/skill/research/scheduler.go:203-213 | what a nested call of the cascade reaches, the outer one reaches too |
| `TrackStates.CascadeDone` | internal/skill/research/scheduler.go:203-214 | once every dependent has been looked at, exactly the reachable Pending tracks have been blocked |
| `TrackStates.DependentsCount` | internal/skill/research/scheduler.go:71-74 | an id stands in the edge list of another as often as the other stands in its dependencies |
| `ReplayModel.ArtifactIffDone` | internal/skill/research/replay.go:80-92 | after a replay a track has a file if and only if it is Done, or it failed and one of its mapper calls left a file |
| `ReplayModel.ArtifactsAreDoneIff` | internal/skill/research/replay.go:135-146 | files and Done agree on the whole plan if and only if no failed track left a file |
| `ReplayModel.FullReplayKeepsFiles` | internal/skill/research/replay.go:58-70 | a replay without a selector presets every track it does not rerun as Done, and none of those loses its file |
| `ReplayModel.AllDoneSelectsNothing` | internal/skill/research/replay.go:63-75 | if all tracks end Done the next replay selects nothing |
| `ReplayModel.MissingInOrder` | internal/skill/research/replay.go:135-146 | the tracks without a file are selected in plan order |
| `ReplayModel.SecondLeastDone` | internal/skill/research/replay.go:58-92 | a replay leaves the least set as it is, gap sweeps included |
| `ReplayModel.FilesAreDue` | internal/skill/research/replay.go:80-92 | whatever has a file after a replay is in the least set, gap sweeps included |
| `ReplayModel.ReplaysConverge` | internal/skill/research/replay.go:58-92 | over any number of replays without a selector, files only come in, never outside the least set of the first, and any replay without a gap sweep ends with exactly that set |
| `ReplayModel.ReplayIsIdempotent` | internal/skill/research/replay.go:58-92 | with the same mapper and no gap sweep in either, a second replay leaves files for exactly the same tracks |
| `ReplayModel.RunFiled` | internal/skill/research/mapper.go:144-163 | in every state of every run the files on disk are those left by the mapper calls that have returned |
| `ReplayRuntime.RunDir.FindFailedTracks` | internal/skill/research/replay.go:135-146 | the tracks without a file, in plan order |
| `ReplayRuntime.RunDir.SelectTracks` | internal/skill/research/replay.go:40-70 | the selector if there is one, else the tracks without a file; an id outside the plan is refused and named |
| `ReplayRuntime.RunDir.BackUp` | internal/skill/research/replay.go:78-86 | exactly the files of the selected tracks move to the backup directory, over older backups |
| `ReplayRuntime.RunDir.ParityCheck` | internal/skill/research/replay.go:95-123 | a track is reported if and only if it was rerun, is not exempt, has a backup, and its numbers of rows differ or some key other than the evidence ids tells two rows apart; and then with all the differences |
| `ReplayRuntime.CompareFiles` | internal/skill/research/replay.go:148-168 | the two numbers of rows if they differ, else exactly the rows that some key other than the evidence ids tells apart; deleting those ids changes only the compared copies |
| `ReplayRuntime.CleanIffSameRows` | internal/skill/research/replay.go:148-168 | nothing is reported if and only if both files have as many rows and no key but the evidence ids tells two of them apart |
| `ReplayRuntime.MismatchesAre` | internal/skill/research/replay.go:148-168 | which mismatches are reported for which rows, key by key |
| `ReplayDriver.Replay` | internal/skill/research/replay.go:28-132 | a whole replay: refused for an unknown id, nothing to do if nothing is missing, and both leave the directories alone; otherwise a complete run of the scheduler on the chosen tracks without their old files, which leaves the directory as that run does, the old files in the backup, and the parity report of the two |
| `ReplayDriver.HandedIsReplay` | internal/skill/research/replay.go:58-92 | after selection and backup the scheduler is handed just what a replay is: known tracks, none of them with a file, and a probe that agrees with the files left |
| `ReplayDriver.DoneIsReportedIff` | internal/skill/research/replay.go:95-123 | a rerun track that ends Done and had a file is reported if and only if the rows of the reply that counts differ from the old ones in number or in some key other than the evidence ids |
| `ReplayDriver.ReplayAll` | internal/skill/research/replay.go:28-132 | any number of replays without a selector form a chain, each starting from the files that the one before left; they stop early only when nothing is missing |
| `ReplayDriver.ChainLeaves` | internal/skill/research/replay.go:58-92 | what they leave: every file that was there, none outside the least set, and all of that set if the last replay had no gap sweep |
| `Frames.HeaderInverse` | internal/transport/rpc/frame.go:18-18 | the length is written in little-endian order and decodes to what was encoded, for every 32-bit length |
| `Frames.HeaderSurjective` | internal/transport/rpc/frame.go:27-27 | every four bytes are the encoding of what they decode to |
| `Frames.RoundTripIffWithinLimit` | internal/transport/rpc/frame.go:14-38 | a payload that is accepted reads back if and only if it is within the limit |
| `Frames.Limits` | internal/transport/rpc/frame.go:10-32 | accepted is a length of at most 1 MiB modulo 2^32; a header that announces more than 1 MiB is refused before any of the payload is read |
| `Frames.HugeReadsEmpty` | internal/transport/rpc/frame.go:14-38 | there is a payload, of 2^32 bytes, that is accepted and reads back as the empty one |
| `Frames.EncodeDecode` | internal/transport/rpc/frame.go:25-38 | whatever reads as a frame was, byte for byte, written as one |
| `Frames.StreamRoundTrip` | internal/transport/rpc/frame.go:14-38 | for every list of payloads within the limit, reading frame after frame gives back exactly the list and then the end of the stream |
| `Frames.CutStream` | internal/transport/rpc/frame.go:25-38 | a stream cut anywhere yields exactly the complete frames before the cut and then the error of the cut one: a clean end if nothing or just its header is left, an unexpected end otherwise |
| `Frames.Stream.WriteFrame` | internal/transport/rpc/frame.go:14-23 | appends one frame, or refuses and writes nothing |
| `Frames.Stream.ReadFrame` | internal/transport/rpc/frame.go:25-38 | takes one frame, or fails with the source's error after consuming what the source consumes |
| `AgentServer.ServeConn` | internal/agentd/server/server.go:21-57 | the serving loop writes the banner and then one answer for each request frame in order, runs exactly the permitted requests among them, and ends with the right result |
| `AgentServer.HandleCall` | internal/agentd/tools/tools.go:49-62 | a tool that is not allowed or not known is not run, and the request is refused under its own id with the message for the first of the two; any other is run exactly once and its answer returned, under the request's id if the runners keep it |
| `AgentServer.OnlyPermittedRun` | internal/agentd/tools/tools.go:49-58 | whatever bytes come in, a tool that is not permitted is never run |
| `AgentServer.RunsInOrder` | internal/agentd/server/server.go:27-56 | of complete requests exactly the permitted ones are run, in order and once each |
| `AgentServer.ServesInOrder` | internal/agentd/server/server.go:27-56 | complete requests in front of any further bytes are answered in order, one frame each, and the rest is served as it would be alone |
| `AgentServer.EndToEnd` | internal/agentd/server/server.go:27-56 | what the client reads back is, for every request in order, the answer to it under its own id, and then the end |
| `AgentServer.CutRequests` | internal/agentd/server/server.go:33-39 | a request stream that breaks off anywhere is answered up to the last complete request and closed without error |
| `AgentServer.EndsBy` | internal/agentd/server/server.go:33-55 | behind complete requests, what comes next decides the end: the end of the stream closes, a frame announced too long, a frame that is no request and an answer that is too long are three errors |
| `Mux.RunInv` | internal/transport/rpc/mux.go:53-116 | in every state of every run an id is pending exactly for the open call that registered it, and everything on the wire, in a channel or returned answers a request with its id |
| `MuxTheorems.ReturnsOwnId` | internal/transport/rpc/mux.go:77-87 | every response that a call returns carries the id of its request, also when ids are reused |
| `MuxTheorems.CorrelatedIff` | internal/transport/rpc/mux.go:53-116 | every returned response answers the call's own request, in all runs, if and only if requests with the same id have the same answer; so always for distinct ids |
| `MuxTheorems.ReaderNeverBlocks` | internal/transport/rpc/mux.go:109-114 | with distinct ids each channel is sent at most one response and the send never blocks the reader |
| `MuxTheorems.NeverBlocksIffDistinct` | internal/transport/rpc/mux.go:109-114 | the reader never blocks, in any run, if and only if the ids are distinct |
| `MuxTheorems.BlockedForGood` | internal/transport/rpc/mux.go:112-114 | a reader before the full channel of a call that has ended never moves again |
| `MuxTheorems.StoppedCallsCanMove` | internal/transport/rpc/mux.go:77-85 | once stopCh is closed every open call that is not still writing has a step of its own towards its end; one that is writing has it when the write comes back |
| `MuxTheorems.StoppedStays` | internal/transport/rpc/mux.go:48-51 | no step of anyone takes a call back, each of its own takes it on, and stopCh stays closed |
| `MuxTheorems.StoppedCallEnds` | internal/transport/rpc/mux.go:69-87 | from a state with stopCh closed, whatever steps of others come between, a call in progress has ended after at most as many steps of its own as its rank, at most three, and until then it has one |
| `MuxRuntime.Client.constructor` | internal/transport/rpc/mux.go:42-46 | a new client is the initial state, and satisfies the invariant |
| `MuxRuntime.FineStep` | internal/transport/rpc/mux.go:53-116 | every critical section keeps the invariant: the pending map, the sources of all responses, and, for distinct ids, at most one copy of each exchange |
| `MuxRuntime.Client.Others` | internal/transport/rpc/mux.go:53-116 | whatever the others do, the invariant holds and a call in progress stands where it stood |
| `MuxRuntime.Client.Call` | internal/transport/rpc/mux.go:53-88 | a whole call, with any steps of the other goroutines and the peer between its critical sections: it is refused exactly if its id is in flight, which then stays so; otherwise its id is free again, and it returns what the state at its select determines: the response in its channel if it takes that (its own answer, if ids are distinct), the reader's error or the end of the stream if it takes the closed stopCh, else its context's error; a failed write is its own outcome |
| `MuxRuntime.Client.Pick` | internal/transport/rpc/mux.go:77-87 | the select: each of its three cases leads to its own outcome, and the response taken is the one in the channel |
| `MuxRuntime.AnswerArrives` | internal/transport/rpc/mux.go:90-116 | on a quiet connection, if the peer answers and the reader takes the answer, the answer to the call's own request is in its channel when the select runs |
| `MuxRuntime.Client.ReadLoop` | internal/transport/rpc/mux.go:90-116 | with distinct ids the loop over the frames that have come in is never stuck and takes them all; every call that waited for one of them finds the answer to its own request in its channel; a frame that cannot be read closes the client |
| `FileNames.BaseInjective` | cmd/virmux/tool_receipts.go:60-60 | different request ids, negative ones included, have different file names |
| `FileNames.SixPlaces` | cmd/virmux/tool_receipts.go:60-60 | ids from -99999 to 999999 have names of six characters that spell them |
| `FileNames.LongNames` | cmd/virmux/tool_receipts.go:60-60 | longer ids are neither cut nor padded |
| `FileNames.SixDigitsSort` | cmd/virmux/tool_receipts.go:60-60 | up to 999999 the file names sort as the ids do |
| `FileNames.SevenDigitsSortFirst` | internal/skill/run/core.go:356-356 | the name for 1000000 sorts before the one for 999999 |
| `Receipts.GlobUnique` | internal/skill/run/core.go:352-356 | a directory has one sorted listing |
| `Receipts.GlobExists` | internal/skill/run/core.go:352-356 | and every directory has one |
| `Receipts.GlobIs` | internal/skill/run/core.go:352-356 | the listing is that of the request files in the byte order of their names |
| `Receipts.TrimsOne` | internal/skill/run/core.go:369-370 | one newline at the end of a file is taken off before hashing, and nothing else |
| `Receipts.OrderIsSorted` | internal/skill/run/core.go:388-406 | the rows in order of their number are the same rows, sorted |
| `ReceiptTheorems.VerifiesIffRegular` | internal/skill/run/core.go:185-222 | for every sequence of calls and other events, the verifier accepts the records left behind if and only if they are regular: no trace line of 64 KiB or more, named calls with rising positive ids whose file names rise too, and every nameless call followed by a named one with its id |
| `ReceiptTheorems.SixDigitRunsVerify` | cmd/virmux/tool_receipts.go:15-87 | named calls with rising ids in 1..999999 are accepted, as long as no line of the trace has 64 KiB or more |
| `ReceiptTheorems.SeventhDigitFails` | internal/skill/run/core.go:351-386 | two honest calls with the ids 999999 and 1000000 are never accepted |
| `ReceiptTheorems.LongLineFails` | internal/skill/run/core.go:306-325 | one trace line that is too long, of a call or of any other event, and the record is refused |
| `ReceiptTheorems.LongNameFails` | internal/skill/run/core.go:306-325 | one honest call whose tool name alone fills the scanner is refused, the same call under a short name is accepted |
| `ReceiptTheorems.RowsLeft` | cmd/virmux/main.go:1032-1066 | table and trace hold one row for every named call, in order, with its tool and the hashes of its request and response |
| `ReceiptTheorems.TableLeft` | cmd/virmux/main.go:1032-1066 | the table row of a named call in full: its number, or 1 if it has none, its tool, both hashes and its error code; its receipt in the trace: its number, or that of its line |
| `Receipts.ReceiptIs` | internal/trace/trace.go:142-184 | a payload is a receipt exactly if it is a tool result with a tool, an output hash and an input hash, which may stand under the older name; the receipt keeps its number, hashes and error code |
| `Receipts.TraceRowIs` | internal/skill/run/core.go:313-345 | a line is read back with the number and, if it has none of its own, the output hash of its payload |
| `ReceiptTheorems.LinesLeft` | internal/trace/trace.go:69-108 | the trace holds one line for each call and event, of its size, numbered from 1 |
| `ReceiptTheorems.FilesLeft` | cmd/virmux/tool_receipts.go:55-87 | the three files under a name are those of the last call with it, request and response with one newline behind them |
| `ReceiptTamper.FileEdit` | internal/skill/run/core.go:351-386 | with a collision-free hash, changed files are accepted after an accepted run if and only if every name in sorted order still holds the same request and response, but for one trailing newline |
| `ReceiptTamper.ByteEdit` | internal/skill/run/core.go:369-370 | one changed request or response file is accepted if and only if it is the same up to one trailing newline |
| `ReceiptTamper.TraceEdit` | internal/skill/run/core.go:300-327 | a changed trace is accepted if and only if every line is still shorter than 64 KiB and its receipts agree in number, order, tool and hashes |
| `ReceiptTamper.TableEdit` | internal/skill/run/core.go:388-406 | a changed table is accepted if and only if its ordered rows agree in number, tool and hashes; an added or removed row never is |
| `ReceiptTamper.ErrorCodesUnseen` | internal/skill/run/core.go:210-218 | rows that differ only in error codes are the same to the verifier |
| `ReceiptRuntime.RunRecord.Emit` | cmd/virmux/main.go:1032-1066 | trace and table gain a receipt together or not at all; the two tell the same row exactly if the payload numbers the call or the line is the first |
| `ReceiptRuntime.RunRecord.BuildToolResultPayload` | cmd/virmux/tool_receipts.go:15-87 | what is read back under the call's name is the call, with the hashes of the payload, and what is read under any other name stays as it was |
| `ReceiptRuntime.RunRecord.RecordCall` | cmd/virmux/main.go:1032-1066 | one tool call takes the record of a sequence of calls to that of the sequence with it |
| `ReceiptRuntime.RunRecord.LoadTraceToolHashes` | internal/skill/run/core.go:300-327 | the receipts of the trace in order, or the first line that is too long for the scanner |
| `ReceiptRuntime.RunRecord.LoadToolIOHashes` | internal/skill/run/core.go:351-386 | the rows of all listed files in order, or the first name that cannot be read |
| `ReceiptRuntime.RunRecord.VerifyReplayHashes` | internal/skill/run/core.go:185-222 | reports Verified if and only if the three records agree row by row, and otherwise, in this order of precedence, the first trace line that is too long, the first unreadable name, the counts that differ, or the first row that differs |
| `ReceiptRuntime.CompareRows` | internal/skill/run/core.go:210-218 | the comparing loop finds the first difference, the file before the trace |
| `Registry.DedupeStrings` | cmd/virmux/tool_receipts.go:120-133 | compacts in place to the elements that differ from their predecessor |
| `Registry.DedupedDistinct` | cmd/virmux/tool_receipts.go:116-133 | so no repetition is left |
| `Registry.DedupedFits` | cmd/virmux/tool_receipts.go:120-133 | and no element is lost |
| `Registry.SortedIsGrouped` | cmd/virmux/tool_receipts.go:116-117 | in a list that sort.Strings has sorted equal elements stand together |
| `RegistryRuntime.ArtifactTable.PersistRunArtifacts` | cmd/virmux/main.go:933-986 | keeps at most one row for a run and a path; on success every path shows exactly what it should, other runs are untouched; it fails only on a path that cannot be read |
| `RegistryRuntime.ArtifactTable.PersistListed` | cmd/virmux/main.go:947-969 | the listed paths that are not blank and are there get their present hash, one row each, all others keep what they show; a failure leaves exactly the paths before it registered |
| `RegistryRuntime.ArtifactTable.PersistWalked` | cmd/virmux/main.go:970-984 | the walked paths are added if they have no row yet |
| `RegistryRuntime.ArtifactTable.Existing` | cmd/virmux/main.go:934-945 | the map of seen hashes is what the table shows for the run |
| `RegistryRuntime.OneRow` | cmd/virmux/main.go:933-986 | what the table shows for a run and a path stands in exactly one row |
| `RegistryRuntime.ArtifactTable.PersistAll` | cmd/virmux/main.go:933-986 | any number of calls, for any runs, leave the table showing what the sequence of calls determines, with one row for a run and a path throughout |
| `Registry.ShownIs` | cmd/virmux/main.go:947-984 | after any sequence of calls on an empty table a path shows the hash it had at the last call that listed it, or, never listed, at the first whose walk came by; otherwise nothing |
| `Registry.ChangedFileKeepsHash` | cmd/virmux/main.go:970-984 | a file that only the walk finds and that changes between two calls keeps its old hash; listed by the second call it gets the new one |
| `WideTrack.GridAt` | internal/skill/research/mapper.go:168-174 | the grid has one cell for each target and attribute, row by row |
| `WideTrack.RatioReached` | internal/skill/research/mapper.go:49-54 | the ledger reaches the threshold exactly from the least number of cells that does |
| `WideTrack.RuleIsRead` | internal/skill/research/mapper.go:180-187 | the threshold is the number behind `coverage>=`, and 0.8 for any other rule or if that cannot be read |
| `WideTrack.WantedIsLeast` | internal/skill/research/mapper.go:49-54 | the number of wanted cells is the least that reaches the threshold, or all |
| `WideTrack.KeyIff` | internal/skill/research/mapper.go:71-74 | with a collision-free hash two keys are equal exactly if the texts that were hashed are |
| `WideTrack.KeyTells` | internal/skill/research/mapper.go:71-74 | of plain names (no colon or line break in a target, no line break in an attribute) a key tells the query and the cell |
| `WideTrackRuntime.Mapper.RunWideTrack` | internal/skill/research/mapper.go:166-232 | for every stop rule, all names and every cache that runs have left: the number of rows is the least number of cells that reaches what stands behind `coverage>=`, or 0.8 without that or if it cannot be read, or all cells if none does; the rows are those of the first cells in grid order, each as the cache determines it; the ledger lists those cells; the cache gains their entries and keeps every old one unmarked and unchanged |
| `WideTrackRuntime.Mapper.RunAll` | internal/skill/research/mapper.go:166-232 | any sequence of runs through one cache: each has the rows that the runs before it determine, none changes the rows of an earlier one, and the cache holds what they all learned, every entry under its own key |
| `WideTrackRuntime.Mapper.Visit` | internal/skill/research/mapper.go:188-230 | one cell: a marked copy of the cached row, or a new row whose data is saved |
| `WideTrackRuntime.Mapper.FromCache` | internal/skill/research/mapper.go:198-213 | marking a cached row changes a fresh copy and not the entry |
| `WideTrackRuntime.Mapper.CheckCache` | internal/skill/research/mapper.go:248-263 | finds exactly the keys in memory or on disk, and loads from disk without changing anything else |
| `WideTrackRuntime.Mapper.SaveCache` | internal/skill/research/mapper.go:265-273 | stores the entry in memory and, with a directory, on disk |
| `WideCache.MarkedIffSeen` | internal/skill/research/mapper.go:193-213 | a row is marked if and only if its key was cached before or a cell earlier in the grid is written like its own |
| `WideCache.FoundAt` | internal/skill/research/mapper.go:196-213 | a row shows the cell of the cache entry with its key, or else the first cell of the grid that has its key |
| `WideCache.RowIs` | internal/skill/research/mapper.go:193-228 | a row in full: its three fields, and a marker and no evidence if it is from the cache, else a link unless its place is divisible by three |
| `WideCache.AllTellIff` | internal/skill/research/mapper.go:188-230 | for every cache that runs have left: all wanted rows have the target, attribute and result of the uncached run if and only if no two different wanted cells are written alike and none is written like the query and cell of an entry for another cell |
| `WideCache.EmptyCacheIff` | internal/skill/research/mapper.go:188-230 | from an empty cache that is so exactly if no two different wanted cells are written alike |
| `WideCache.RunsTellIff` | internal/skill/research/mapper.go:188-230 | whatever runs follow one another on an empty cache: all rows of all of them agree with the uncached runs if and only if no two different cells that they want are written alike together with their queries |
| `WideCache.RunsAreWellKeyed` | internal/skill/research/mapper.go:196-228 | in every cache that runs leave, each entry has the key of the query and cell it was saved for |
| `WideCache.PlainTells` | internal/skill/research/mapper.go:188-230 | with plain names in the grid and in the cache all rows agree with the uncached run |
| `WideCache.ColonRun` | internal/skill/research/mapper.go:166-232 | targets "a:b" and "a" with attributes "c" and "b:c", an empty cache and full coverage: the fourth row is that of the first cell |
| `WideCache.AgainAllCached` | internal/skill/research/mapper.go:188-230 | the same run again takes every row from the cache and shows the same cells |
| `Refine.LastWriteWins` | internal/skill/refine/refine.go:123-145 | for every body and all lines, refining twice is refining once with the later line if and only if the body has no start marker without an end marker |
| `Refine.WritesLine` | internal/skill/refine/refine.go:123-145 | the text written is what stood in front of the first complete old block, or the whole body, trimmed and set off by an empty line, and then the start marker, the heading, the line and the end marker |
| `Refine.LineTells` | internal/skill/refine/refine.go:123-145 | different lines give different texts for the same body |
| `Refine.FileHasLine` | internal/skill/refine/refine.go:76-102 | the refined file is the metadata written again with that text behind it, and split again it has that text as its body |
| `Refine.SuggestsLine` | internal/skill/refine/refine.go:87-102 | the line suggested names the run and the weakest criterion, or completeness if that has no name; a file that would stay as it is is refused |
| `Refine.Refuses` | internal/skill/spec/spec.go:83-92 | a file without an opening fence, without a closing one, with text between them that is not YAML or not a mapping is refused as such |
| `Refine.FrontmatterRoundTrip` | internal/skill/spec/spec.go:83-104 | splitting what was composed gives the metadata and the body as written if and only if the YAML text ends its last line, has no line of three dashes after its first, and parses to the same metadata without its last line break |
| `Refine.RefineTwice` | internal/skill/refine/refine.go:76-102 | refining a file and then the file so written is refining once, if and only if no start marker dangles and the text of the metadata, without its last line break, is read as a mapping that is written with the same text |
| `Refine.RefineMany` | internal/skill/refine/refine.go:76-102 | only the last line stays, for every list of lines, if and only if the same holds |
| `Refine.SuggestTwice` | internal/skill/refine/refine.go:97-99 | a second suggestion with the same line is refused as empty if and only if the same holds |
| `Refine.LiteralBlockLosesBreak` | internal/skill/spec/spec.go:88-93 | a frontmatter that ends in a literal block, where marshalling and parsing undo each other, the texts are clean and no marker dangles: the second refinement differs from a single one and is suggested once more |
| `Refine.WeakestCriterion` | internal/skill/refine/refine.go:104-121 | the name of the first criterion of least value, among the first one and those with a name |
| `Texts.TrimUnique` | internal/skill/refine/refine.go:124-124 | trimming takes away exactly the white space around a text |
| `Texts.SpaceCodes` | internal/skill/refine/refine.go:124-124 | the code points of white space |
| `Texts.LessIs` | internal/skill/run/core.go:356-356 | a string is less if it is smaller at the first difference or ends there |
| `Texts.IndexIs` | internal/skill/refine/refine.go:131-132 | the index found is the first occurrence, or there is none |
| `Transcript.TrimPrompt` | internal/vm/vm.go:1056-1065 | the loop strips prompts as often as there are any |
| `Transcript.ExtractCommandOutput` | internal/vm/vm.go:1027-1054 | the two scans find the first start line and the first exit-code line after it; the output is what is between them |
| `TranscriptTheorems.JoinSplits` | internal/vm/vm.go:1052-1052 | the lines of an output are separated by one line break each: splitting it gives them back |
| `TranscriptTheorems.AtoiPlain` | internal/vm/vm.go:1048-1051 | an exit code without a sign is digits only, below 2^63 |
| `TranscriptTheorems.AtoiSigned` | internal/vm/vm.go:1048-1051 | and with a sign one sign and digits, from -2^63 to 2^63 - 1 |
| `TranscriptTheorems.PromptsGo` | internal/vm/vm.go:1056-1065 | white space around a line and prompts in front of it do not count, a bare prompt is an empty line, and nothing else is taken off |
| `TranscriptTheorems.MarksAre` | internal/vm/vm.go:1029-1051 | the start line and the exit-code line are the two words as they are sent |
| `TranscriptTheorems.StableIffEnded` | internal/vm/vm.go:1027-1054 | a reading is the same for every continuation of the transcript if and only if the exit-code line has ended |
| `TranscriptTheorems.NewlineIsFinal` | internal/vm/vm.go:948-950 | in particular if the transcript ends in a newline |
| `TranscriptTheorems.ReadsWhatWasSent` | internal/vm/vm.go:1027-1054 | of lines sent with either line ending, exactly those between the marks are read, and the number behind the second mark |
| `TranscriptTheorems.ReadsNothing` | internal/vm/vm.go:1038-1053 | without a start line and a later exit-code line nothing is read |
| `TranscriptTheorems.WaitForExecCompletionLine` | internal/vm/vm.go:944-966 | the polling loop ends at the first look with a reading, the deadline or the cancellation, whichever turn comes first |
| `TranscriptTheorems.ValidateSerialMarkers` | internal/vm/vm.go:1001-1025 | accepts if and only if there is a reading with exit code 0 that has every required marker; without a reading, or with another code, it says so, and otherwise names a marker that occurs nowhere in the output |
| `TranscriptTheorems.VerdictIsSettled` | internal/vm/vm.go:925-940 | the verdict on the whole transcript is that on what the polling loop saw, if the exit-code line had ended then |
| `TranscriptTheorems.VerdictCanTurn` | internal/vm/vm.go:916-940 | and if not, more bytes can turn it |
| `TranscriptTheorems.TornCode` | internal/vm/vm.go:1043-1051 | a transcript cut inside the digits of the exit code reads as another code than the one sent, unless both are zero |
| `Percentile.SortedOnce` | internal/skill/eval/eval.go:462-463 | a list has one sorted copy |
| `Percentile.OrderIndependent` | internal/skill/eval/eval.go:458-490 | neither percentile nor median depends on the order of the scores |
| `Percentile.Monotone` | internal/skill/eval/eval.go:458-477 | a higher percentile is never lower |
| `Percentile.Bounds` | internal/skill/eval/eval.go:464-469 | every percentile is between the least and the greatest score, and both are reached |
| `Percentile.MedianIsHalf` | internal/skill/eval/eval.go:479-490 | the 50th percentile is the separately coded median |
| `Percentile.Splits` | internal/skill/eval/eval.go:470-476 | the sorted scores up to the rounded-down place are at or below the percentile, the others at or above it |
| `Percentile.StraightBetween` | internal/skill/eval/eval.go:470-476 | between two neighbouring scores the percentile runs straight from one to the other, for any sorted copy of the scores |
| `Percentile.FewScores` | internal/skill/eval/eval.go:458-490 | no scores give zero, and one gives itself |

## Left out

- ScheduleTermination.RunsAreShort: for plans with distinct track ids, which `Plan.Validate` does not check; what repeated ids do to the exit test is `ScheduleExit.ExitIff`, what they do to the in-degrees is not modelled.
- ScheduleTermination.Completes: for plans with distinct track ids, likewise.
- ReplayDriver.Replay: for plans with distinct track ids, likewise; `ReplayDriver.ReplayAll` is for acquires that do not fail.
- MuxTheorems.StoppedCallsCanMove: a frame write is taken to come back, with success or an error; one that is stuck on the connection is not released by closing stopCh.
- MuxTheorems.StoppedCallEnds: of steps that are taken; a write that is stuck is a step that never comes, likewise.
- Mapper content: the mapper is a function from a track and the number of the call to a reply, so its answer does not depend on the interleaving or on a cancelled context.
- Cancellation: an acquire may fail at any time, which covers a cancelled context; the group's first error is only the fact that there was one.
- Emitted events, timestamps and the wording of error messages; the reasons kept in the track states are structured values.
- Replay: renames are taken to succeed, and `mismatch.json` and the emitted events are not modelled.
- The two writes of `WriteFrame` are one, so frames of concurrent calls are never torn; `Call` takes no lock around them.
- Write errors of streams and files, the check of the context in the serving loop, and the content of the banner, which is a parameter.
- JSON is a pair of functions that undo each other on the values used, YAML any two functions; the length of a trace line is part of what is emitted; SHA-256 is a function, injective only where a statement says so.
- Receipts: the precision of `tool_seq` as a floating-point number beyond 2^53, a missing trace file, and the comparison of two runs in `CompareReplayHashes`.
- Registry: which directories are walked and in what order; the walk is a sorted list of paths. File types are part of what looking at a path returns.
- Wide tracks: corrupt cache files count as absent, and a cache holds what runs have saved in it; runs follow one another, so two tracks that are mapped at the same time, with their lookups in the shared map in between each other, are not modelled; evidence rows in the store are not modelled.
- Text is a sequence of Unicode characters, so byte sequences that are not UTF-8 are outside the model.
- Percentiles, ratios and criterion values are real numbers: rounding and NaN are outside the model.
- Firecracker boot, snapshots, vsock, watchdogs, the SQLite store, bundles, HTTP, Slack, the command line, planner stubs, report texts, gates and promotion.
