# A verified model of Bunny

Bunny runs Kubernetes probes itself. It is five goroutines (config, egress, ingress, signals and
telemetry) joined only by channels of capacity one. This project models that protocol and the
parts of Bunny, and of its test peer Bee, that have state, loops or arithmetic of their own, and
proves what they keep in every run.

`dafny verify dfyconfig.toml` checks all files together.

## What is modelled

**The handshake and shutdown protocol** (`Protocol`, `ProtocolInvariant`, `ProtocolSafety`,
`ProtocolProgress`, `Shutdown`). A labelled transition system: a program counter for every
goroutine, every channel a sequence of at most one message, and every choice of the scheduler or
of a `select` a label. Sends block on a full channel and receives on an empty one, as the Go
Programming Language Specification says under "Send statements", "Receive operator" and "Select
statements". Config sends to the stage listeners, then signals, then telemetry; telemetry tokens
go to the stage listeners in the same order; the signal goes to config, the stage listeners and
telemetry. Bunny has two stage listeners, egress (0) and ingress (1). The theorems hold for any
number, except where a bound is shown to be reached, which is done for two. Main results:

- the handshake never deadlocks before a signal, a drained run of N rounds has cost exactly 12 N
  channel operations, and every step the program takes pays exactly one from a finite budget, so
  it always drains;
- a listener never gets past its token wait without the providers for its config, and the
  providers are never more than one version further;
- after a signal there is no cyclic wait, and shutdown completes on every schedule **if and only
  if** telemetry has taken the latest config when the fan-out starts. Otherwise each listener has a
  schedule that leaves it waiting forever for a token. If the file may still change, some schedule
  always does. Shutdown completes on **some** schedule if and only if config is not in the middle of
  a broadcast to signals, which takes no configs any more.

`Program` puts the contents and the process list into the protocol: a round starts when the watcher
sees a new hash, and the fan-out when waitForProcess is over. It proves over whole runs what the
listeners end up holding and that the fan-out comes only after a clean scan.

**The expect engine and its peer** (`Framing`, `BufferedIo`, `Expect`, `BeeTcp`, `Conversation`,
`ConversationPlay`). Go's buffered reader and writer are classes: the reader is filled in whatever
chunks the network delivers, the writer's first error sticks. A regular expression is a predicate,
and a script succeeds on exactly the streams that `Framing.PlaysIff` names. `Conversation` runs two
scripts against each other over two byte streams of any positive capacity and proves that a script
and its dual always finish together; `ConversationPlay` proves that either side of any conversation
does what its script does on the bytes that have reached it.

**Probe accounting** (`Accounting`, `AccountingHistory`, `ResponseTimes`). Overlapping runs, each with
its own program counter between the OpenTelemetry and the Prometheus increment, over any number of
reconfigurations, each with providers from the window that the token handshake leaves; and the
mutex-guarded response-time map as a history of critical sections.

**The rest**: which contents the config watcher broadcasts (`ConfigWatcher`), when probes start
(`ProbeSchedule`), what a query result and a health request lead to (`HealthVerdict`,
`HealthEndpoint`; 200 and 503 are sections 15.3.1 and 15.6.4 of RFC 9110), when an OS signal is
let through (`ProcessWatch`), the shared environment slice of exec probes (`ExecEnvironment`), and
Bee's recursive time budget (`TimeWaster`).

## Where the code and its documentation differ

The model follows the code.

- A comment in `src/bunny/config/config.go` says that deleting the file keeps the old config. The
  test it describes only logs. `ConfigWatcher.DeletionKeepsIff` says exactly when a deletion is not
  broadcast (the event before it found no bytes either) and exactly when the config in force stays
  the same (that, or it was the default already); `ConfigWatcher.DeletionBroadcastsDefault` is a
  deletion that replaces the config by the default.
- The README says that a string result succeeds when it equals "1" or "1.0". The code looks only at
  the text before the first space. `HealthVerdict.TextAsDocumentedIff` says exactly when they agree.
- The README says that all values of a matrix must be 1.0. The code ignores histograms in a matrix.
  `HealthVerdict.MatrixAsDocumentedIff` says exactly when they agree, and
  `HealthVerdict.MatrixWithHistogramIsHealthy` is a matrix on which they do not.
- A config without `watchedProcessCommandLineRegEx` leaves the previous expression in force, and one
  with an expression that does not compile removes it: `ProcessWatch.NothingWatchedIff`.
- A config whose period is not positive stops the ticker, but not a tick that is already in its
  channel. `ProbeSchedule.StoppedStartsNothingIff` says exactly when such a config starts nothing,
  and `ProbeSchedule.StaleTickStarts` is one that does.
- `string(step.delimiter)` converts a byte to a rune: from 0x80 on it writes two bytes.
  `Framing.DelimiterIsExactIff` says exactly when the delimiter is the configured byte.

## Model

| member | source | states |
|---|---|---|
| ProtocolInvariant.StepInv | src/bunny/main.go:34-43 | every step of every goroutine keeps the chain that ties each channel's content and each position to config's version, and the fan-out invariant |
| ProtocolInvariant.RunInv | src/bunny/main.go:34-57 | the invariant holds in every state of every run, for any number of listeners |
| ProtocolSafety.TokenImpliesProvidersInstalled | src/bunny/telemetry/telemetry.go:197-206 | when a listener gets past the token wait for its k-th config, the installed version is k or k + 1 |
| ProtocolSafety.UpdateSeesProviders | src/bunny/egress/egress.go:80-106 | throughout the update that follows, and until the next config is taken, the installed version stays k or k + 1 |
| ProtocolSafety.VersionsTakenInOrder | src/bunny/config/config.go:147-149 | every listener receives every version, in order and exactly once |
| ProtocolSafety.Skew | src/bunny/telemetry/telemetry.go:204-206 | an earlier-notified listener is at most one update behind and at most two ahead of a later one; at most two versions sent to a listener are not applied by it; config's own version is at most three ahead of what a listener has applied |
| ProtocolSafety.EgressBehind | src/bunny/main.go:38-39 | a run in which egress is one update behind ingress |
| ProtocolSafety.BroadcasterAhead | src/bunny/config/config.go:147-149 | a run in which each listener has two versions sent to it and not applied |
| ProtocolSafety.VersionThreeAhead | src/bunny/config/config.go:101-149 | a run in which config's version is three ahead of what ingress has applied |
| ProtocolSafety.EgressAhead | src/bunny/main.go:38-39 | a run in which egress is two updates ahead of ingress, and the providers one ahead of the token about to be taken |
| ProtocolSafety.SameProvidersTwice | src/bunny/egress/egress.go:65-84 | a run in which egress gets past two token waits in a row with the same providers installed |
| ProtocolSafety.FanOutReachesEachOnce | src/bunny/signals/signals.go:60-71 | the fan-out is never blocked, and each recipient has exactly one copy of the signal, held or acted on, if and only if the fan-out has reached it |
| ProtocolSafety.SignalsInOrder | src/bunny/signals/signals.go:60-66 | in every run the signals are noticed in order of arrival; one can arrive before the first is noticed and one after |
| ProtocolSafety.FirstSignalForwarded | src/bunny/signals/signals.go:60-71 | in every run what every recipient the fan-out has reached holds, or has returned on, is the first signal that arrived, and before it is noticed nobody gets any |
| ProtocolProgress.StepOperations | src/bunny/config/config.go:147-149 | the operation count derived from the state grows by one exactly on channel operations |
| ProtocolProgress.OperationsPerRound | src/bunny/config/config.go:79-81 | every run that ends drained has cost 4n + 4 channel operations a round, 12 with two listeners |
| ProtocolProgress.StepBudget | src/bunny/main.go:46-57 | every program step lowers the budget by exactly one |
| ProtocolProgress.RunBudget | src/bunny/main.go:46-57 | without new input all runs between two states have the same length, bounded by the budget |
| ProtocolProgress.Exhaust | src/bunny/main.go:46-57 | from every state some run without new input ends where nothing more can happen |
| ProtocolProgress.BlockedNotify | src/bunny/telemetry/telemetry.go:204-206 | a listener whose token channel is full is itself able to take a token, so telemetry is never blocked for good |
| ProtocolProgress.Progress | src/bunny/egress/egress.go:41-79 | before a signal is noticed, a step of the handshake is enabled unless no round is in flight |
| ProtocolProgress.Drains | src/bunny/ingress/ingress.go:36-59 | every maximal run without new input ends quiescent, with the latest version taken by all and applied by every stage listener |
| Shutdown.StuckStates | src/bunny/telemetry/telemetry.go:219-238 | in a stuck state after the fan-out telemetry has returned, and everyone else has returned or is blocked in mid-operation |
| Shutdown.StuckPhases | src/bunny/signals/signals.go:40-71 | a stuck state is one after the fan-out, or one with no round in flight and no signal to notice |
| Shutdown.NoCyclicWait | src/bunny/signals/signals.go:67-71 | following who waits for whom, every live goroutine of a stuck state reaches one that has returned, within two hops |
| Shutdown.CompletesWhenCaughtUp | src/bunny/telemetry/telemetry.go:219-238 | once telemetry has taken the latest config, every maximal run after the fan-out starts ends with all five returned |
| Shutdown.HungForever | src/bunny/egress/egress.go:69-70 | any listener that waits for a token after telemetry has returned waits in every continuation |
| Shutdown.HangsWhenBehind | src/bunny/telemetry/telemetry.go:219-238 | otherwise, for every listener, some maximal run leaves that listener waiting for a token |
| Shutdown.ShutdownCompletesIff | src/bunny/telemetry/telemetry.go:219-238 | shutdown completes on every schedule if and only if telemetry has taken the latest config when the fan-out starts |
| Shutdown.PromptFanOut | src/bunny/signals/signals.go:40-68 | whatever is in flight, a signal that has arrived can be noticed and its fan-out start with nothing else changed |
| Shutdown.SignalInRoundCanHang | src/bunny/egress/egress.go:65-79 | a signal that arrives at any point of a round that telemetry has not taken can leave any listener waiting for good |
| Shutdown.BlockedForever | src/bunny/signals/signals.go:40-71 | once config has to send to signals, whose channel is full and who is past its select, nothing unblocks it |
| Shutdown.CanCompleteIff | src/bunny/signals/signals.go:40-71 | shutdown completes on some schedule if and only if config is not blocked like that when the fan-out starts |
| Shutdown.BlockedReachable | src/bunny/signals/signals.go:76-118 | two changes of the file during waitForProcess can leave no schedule that completes |
| Shutdown.LateChangeCanHang | src/bunny/config/config.go:101-150 | if the file may still change, every state at the start of the fan-out has a run that hangs |
| Shutdown.HangReachable | src/bunny/egress/egress.go:65-70 | Bunny itself reaches a hang, with providers installed |
| Framing.Cut | src/bunny/egress/expect.go:105 | a cut loses no byte and succeeds exactly when the delimiter occurs |
| Framing.CutFramed | src/bunny/egress/expect.go:105 | a framed text without its delimiter is cut off the stream exactly |
| Framing.CutText | src/bunny/egress/expect.go:105 | conversely the line of a successful cut is a text without the delimiter, and the delimiter |
| Framing.CutUnframed | src/bunny/egress/expect.go:105-109 | without a delimiter everything is delivered, as an error |
| Framing.RuneString | src/bunny/egress/expect.go:83 | a byte becomes the UTF-8 encoding of the rune with its value |
| Framing.TrimmedIsShown | src/bunny/egress/expect.go:110 | for every delimiter byte, what is left of a received line for the regular expression to see |
| Framing.DelimiterIsExactIff | src/bunny/egress/expect.go:79-114 | a send step ends its text with the configured byte, and a receive step takes exactly that byte off, if and only if the byte is below 0x80 |
| Framing.ReceiveFramed | src/bunny/egress/expect.go:102-114 | a receive step takes exactly one framed text and judges exactly what it shows of that text |
| Framing.ReceiveUnframed | src/bunny/egress/expect.go:105-109 | on a stream that ends before the delimiter a receive step fails, having taken everything |
| Framing.PlayFramed | src/bunny/egress/expect.go:66-77 | fed one framed text per receive step, a script succeeds exactly when every expression matches, and leaves exactly the bytes that follow |
| Framing.PlaysIff | src/bunny/egress/expect.go:66-114 | for every script and every stream: the script succeeds if and only if the stream starts with one delimited text per receive step, each matched by its expression |
| Framing.FailsAtFirst | src/bunny/egress/expect.go:66-77 | a script that fails stops at a receive step, with all steps before it successful, and leaves what that step leaves |
| BufferedIo.Reader.ReadString | src/bunny/egress/expect.go:105 | however the bytes are split into chunks, the caller gets the frame of the whole stream and nothing is lost |
| BufferedIo.Writer.Flush | src/bunny/egress/expect.go:93 | succeeds exactly when the connection has never reported an error; after success everything handed over is on the wire |
| BufferedIo.Writer.Write | src/bunny/egress/expect.go:86 | hands over a prefix; a shorter count means a sticky error, and a failed writer takes nothing |
| Expect.Send | src/bunny/egress/expect.go:79-100 | the partial-write loop terminates; the step succeeds exactly when no error occurred, and then the whole text is on the wire; it cannot succeed after an ignored write error |
| Expect.Receive | src/bunny/egress/expect.go:102-114 | the outcome and the unread bytes are those of the pure step on the whole stream |
| Expect.Do | src/bunny/egress/expect.go:70-75 | either kind of step against its pure outcome and text |
| Expect.RunScript | src/bunny/egress/expect.go:66-77 | a script succeeds exactly when no write failed and the stream plays it; the wire carries its whole text on success and a prefix otherwise; unread bytes are a suffix of the input; a reliable connection never fails |
| BeeTcp.Words | src/bee/main.go:131-134 | the words of Bee's conversation |
| BeeTcp.TcpRead | src/bee/main.go:147-161 | comparing with the newline included equals trimming it and comparing, and a stream without one fails |
| BeeTcp.TcpWrite | src/bee/main.go:163-186 | giving up at the first error has the same outcome as the probe's send step |
| BeeTcp.HandleTcpConnection | src/bee/main.go:120-145 | the chain of reads and writes succeeds exactly when no write failed and the stream plays Bee's script; the wire carries its whole text on success and a prefix otherwise; a reliable connection never fails |
| Conversation.StepInv | src/bunny/egress/expect.go:66-114 | in a dual conversation every action keeps: bytes begun by one side = bytes consumed by the other + read ahead + in flight + pending |
| Conversation.MatchAccepts | src/bunny/egress/expect.go:102-114 | a receive step of a dual conversation accepts what it gets |
| Conversation.SendNotPassed | src/bunny/egress/expect.go:66-77 | no side gets past a receive whose text the other has not finished sending |
| Conversation.NotStuck | src/bunny/egress/expect.go:66-77 | unless both sides have finished, one of them can act, for every positive stream capacity |
| Conversation.DualConversation | src/bunny/egress/expect.go:66-114 | for every script and its dual, every interleaving and fragmentation: no side fails, the run is bounded, and it stops exactly when both have finished with nothing left over |
| ConversationPlay.SidesPlay | src/bunny/egress/expect.go:66-114 | for any two scripts, in every run: each side has got all that the other has written but what is in flight, and is exactly where its script is after those bytes, successful so far or failed |
| Conversation.BunnyAndBeeAreDual | src/bee/main.go:131-134 | the README's script and Bee's handler are dual |
| Conversation.BunnyTalksToBee | README.md:296-319 | the README's script succeeds against Bee on every interleaving and fragmentation |
| ConfigWatcher.Watcher.constructor | src/bunny/config/config.go:73-81 | the initial content is broadcast and no hash remembered |
| ConfigWatcher.Watcher.Handle | src/bunny/config/config.go:101-150 | one event of any kind keeps the hash, the config in force and the broadcasts in step with the events handled |
| ConfigWatcher.Watcher.Watch | src/bunny/config/config.go:97-150 | the loop broadcasts what the specification says for any sequence of events |
| ConfigWatcher.BroadcastsAreDistinct | src/bunny/config/config.go:117-149 | with agreeing reads the broadcasts after the initial one are the observed contents with consecutive repeats removed |
| ConfigWatcher.UpToDateIff | src/bunny/config/config.go:117-130 | the config in force is the content last observed if and only if the two reads of the last changing event agreed |
| ConfigWatcher.StaleForever | src/bunny/config/config.go:117-130 | a content written between the two reads and then put back stays in force through any number of further events |
| ConfigWatcher.DeletionKeepsIff | src/bunny/config/config.go:107-113 | a deletion broadcasts nothing if and only if the event before it found no bytes, and leaves the config in force the same if and only if that, or it was the default already |
| ConfigWatcher.DeletionBroadcastsDefault | src/bunny/config/config.go:107-149 | whatever the file held, a deletion as the first event replaces its config by the default |
| Program.StepInv | src/bunny/config/config.go:97-150 | every step, with the contents and the scans, keeps: each version of the protocol is a broadcast of the watcher, and scans are made only in waitForProcess, which is left only after they have let the signal pass |
| Program.VersionsOfRun | src/bunny/config/config.go:101-149 | in every run the protocol's versions are the broadcasts that the run's file events lead to |
| Program.ListenersHoldLatest | src/bunny/config/config.go:147-149 | in every run with agreeing reads, when the rounds have drained, all hold the content observed last |
| Program.FanOutAfterCleanScan | src/bunny/signals/signals.go:60-71 | in every run the fan-out has begun only if nothing is watched, or the last scan of the run, and no earlier one, found no match for the expression left by the configs that signals has taken, all but at most two |
| Program.CleanScanOpens | src/bunny/signals/signals.go:76-118 | in waitForProcess either the fan-out can start or the list can be scanned, and then it can start exactly after a scan that finds no match |
| Accounting.StepInv | src/bunny/telemetry/metrics.go:27-60 | every Prometheus counter equals the number of runs past its increment, every OpenTelemetry count the number of attempts and of successes that went to it, and the mutex holder is the one run in the critical section |
| Accounting.Conservation | src/bunny/telemetry/metrics.go:27-60 | per probe and generation: attempts = successes + failures + in flight, so successes never exceed attempts |
| Accounting.OtelAttemptsSplit | src/bunny/telemetry/metrics.go:27-32 | the OpenTelemetry count that a probe's attempts go to is its Prometheus attempts, its runs between the increments, and the other attempts and successes that go to the same count |
| Accounting.OtelSuccessesSplit | src/bunny/telemetry/metrics.go:55-59 | the same for successes |
| Accounting.AttemptsAgreeIff | src/bunny/telemetry/metrics.go:27-32 | the two attempt counts differ exactly by the runs between the increments if and only if no attempt of another probe and no success has gone to the same count |
| Accounting.SuccessesAgreeIff | src/bunny/telemetry/metrics.go:55-59 | the same for successes |
| Accounting.CountersAgree | src/bunny/telemetry/metrics.go:27-60 | with instruments of its own a probe's counts always agree in that sense; for successes with a response time they differ by at most one |
| Accounting.SharedOnlyByNeighbours | src/bunny/egress/egress.go:80-93 | probes of generations that are not neighbours never share an instrument |
| Accounting.AtMostOneHalf | src/bunny/telemetry/metrics.go:44-59 | the deferred unlock lets at most one run of such a probe be between its success increments |
| Accounting.SharedInstrumentDisagrees | src/bunny/telemetry/metrics.go:62-87 | for every attempts metric: when providers 2 serve both of the first two generations, they share its count, and the counts differ although no run is under way |
| Accounting.NewProbesCountNewRuns | src/bunny/egress/egress.go:87-93 | whatever follows a reconfiguration, the new probes' Prometheus counters count only runs launched after it |
| AccountingHistory.EndsByStep | src/bunny/telemetry/metrics.go:27-60 | in every run of the program each step of a probe run is taken at most once, and the run is aborted, failed or successful exactly if the step that makes it so was taken |
| AccountingHistory.IncrementsOfRun | src/bunny/telemetry/metrics.go:27-60 | a probe run that has acted has made both attempt increments, or neither if that metric is not enabled; one that has succeeded likewise for successes |
| AccountingHistory.CountersAreIncrements | src/bunny/telemetry/metrics.go:27-60 | every counter holds exactly the increments of it in the run of the program |
| AccountingHistory.ReplacedProbesRest | src/bunny/egress/egress.go:87-117 | once a config is replaced, none of its probes is launched again |
| AccountingHistory.CanSucceed | src/bunny/telemetry/metrics.go:27-60 | every probe run that is not over can still succeed, whichever of its metrics are enabled and whoever holds the mutex |
| AccountingHistory.CanFail | src/bunny/telemetry/metrics.go:27-60 | every probe run that has not recorded can still fail, and one that has just begun be aborted |
| AccountingHistory.WaitsIff | src/bunny/telemetry/metrics.go:44-53 | a probe run waits if and only if it has a response time to store while another is between storing its own and the end of its success increments |
| ResponseTimes.WaitingIff | src/bunny/telemetry/metrics.go:48-50 | the waiting entry is the newest stored one, with no collection since |
| ResponseTimes.ObservedIff | src/bunny/telemetry/metrics.go:97-111 | a value is observed exactly when it is collected with nothing stored or collected under its name in between |
| ResponseTimes.ObservedBefore | src/bunny/telemetry/metrics.go:97-111 | observations are in lock order and no stored value is observed twice |
| ResponseTimes.WaitingNamed | src/bunny/telemetry/metrics.go:48-50 | under a name a value waits if and only if the newest section of that name stored it |
| ResponseTimes.ObservedNamed | src/bunny/telemetry/metrics.go:97-111 | under a name a value is observed if and only if it was stored, collected later, and nothing was stored or collected under that name in between |
| ResponseTimes.NamelessNeverObserved | src/bunny/telemetry/metrics.go:98-102 | what is stored under the empty name is never observed |
| ResponseTimes.Mailbox.constructor | src/bunny/common/common.go:8-9 | the map starts empty |
| ResponseTimes.Mailbox.Record | src/bunny/telemetry/metrics.go:44-53 | the critical section of a success keeps the map in step with the history |
| ResponseTimes.Mailbox.Observe | src/bunny/telemetry/metrics.go:97-111 | the callback reports a value if and only if it has a name and the newest section of that name is a store; it reports that value in milliseconds and clears it |
| HealthVerdict.JudgeVector | src/bunny/telemetry/telemetry.go:354-374 | the loop judges by the first sample that is not a float 1.0 |
| HealthVerdict.JudgeMatrix | src/bunny/telemetry/telemetry.go:375-392 | the nested loops are healthy exactly when every float of every series is 1.0 |
| HealthVerdict.JudgeText | src/bunny/telemetry/telemetry.go:393-407 | the text up to the first space decides |
| HealthVerdict.HandleQueryResult | src/bunny/telemetry/telemetry.go:327-413 | the verdict of every kind of result |
| HealthVerdict.HealthyIff | src/bunny/telemetry/telemetry.go:327-413 | every result is healthy if and only if the query ran and its scalar, every sample or every float is 1.0, or its text is "1" or "1.0" up to a space |
| HealthVerdict.ErroneousIff | src/bunny/telemetry/telemetry.go:327-413 | each error is reported exactly in its own case: the query failed, a histogram before any other sample, a text that says neither one nor zero, an unknown type |
| HealthVerdict.VectorVerdictIff | src/bunny/telemetry/telemetry.go:354-374 | a vector is healthy exactly when all samples are float 1.0, and an error exactly when a histogram precedes every other float |
| HealthVerdict.VectorOrderIrrelevant | src/bunny/telemetry/telemetry.go:354-374 | permuting samples never changes the status |
| HealthVerdict.VectorErrorDependsOnOrder | src/bunny/telemetry/telemetry.go:361-372 | it can change whether an error is reported |
| HealthVerdict.MatrixGroupingIrrelevant | src/bunny/telemetry/telemetry.go:382-392 | regrouping or reordering floats across series changes nothing |
| HealthVerdict.MatrixAsDocumentedIff | src/bunny/telemetry/telemetry.go:382-392 | the code agrees with the README on a matrix exactly when no histogram hides among floats that are all 1.0 |
| HealthVerdict.MatrixWithHistogramIsHealthy | src/bunny/telemetry/telemetry.go:382-392 | two matrices with a histogram that are judged healthy |
| HealthVerdict.TextAsDocumentedIff | src/bunny/telemetry/telemetry.go:393-407 | the code agrees with the README on a string exactly when the string does not continue after "1" or "1.0" with a space |
| HealthEndpoint.EnsureLeadingSlash | src/bunny/ingress/ingress.go:142-147 | the path with exactly its own or one added leading slash |
| HealthEndpoint.ServesIff | src/bunny/ingress/health-endpoint.go:61-83 | an endpoint is built exactly from one kind of query whose durations parse, at the normalised path |
| HealthEndpoint.Ingress.UpdateConfig | src/bunny/ingress/ingress.go:61-70 | the list is rebuilt from the configs without errors, in order |
| HealthEndpoint.Ingress.Handle | src/bunny/ingress/ingress.go:149-175 | the response of the first endpoint with the path, or none |
| HealthEndpoint.AnsweredByFirstConfig | src/bunny/ingress/ingress.go:149-175 | for every config list and path: answered from the first valid config with that path, 200 exactly when healthy, 503 otherwise, nothing when there is none |
| ProbeSchedule.Egress.constructor | src/bunny/egress/egress.go:34-37 | the ticker starts stopped |
| ProbeSchedule.Egress.UpdateConfig | src/bunny/egress/egress.go:87-105 | replaces the probe list, the delay and the ticker, and leaves a buffered tick alone |
| ProbeSchedule.Egress.OnTick | src/bunny/egress/egress.go:42-45 | serves one tick, starting the probes in force only after the delay |
| ProbeSchedule.Egress.PerformProbes | src/bunny/egress/egress.go:108-117 | starts every probe of the list once, in order |
| ProbeSchedule.StartsAreProper | src/bunny/egress/egress.go:34-45 | in every run no probe starts before a first config, and each start is of the most recently applied config, after its initial delay |
| ProbeSchedule.StartsWhatIsDue | src/bunny/egress/egress.go:41-45 | in every run the probes started are exactly those that its events make due: at each tick the whole list of the latest config, if and only if its delay is over; a tick can be served if and only if the ticker fired since the last, and it fires only under a positive period |
| ProbeSchedule.StoppedTicker | src/bunny/egress/egress.go:100-104 | after a non-positive period only the one buffered tick is still served |
| ProbeSchedule.StaleTickStarts | src/bunny/egress/egress.go:100-104 | that tick can start the probes of a config whose period is not positive |
| ProbeSchedule.BufferedTickStarts | src/bunny/egress/egress.go:42-45 | from every state with a buffered tick some run without a new config starts the whole list in force |
| ProbeSchedule.StoppedStartsNothingIff | src/bunny/egress/egress.go:100-104 | with the ticker stopped, no run without a new config starts a probe if and only if no tick is buffered or no probe is in force |
| ProcessWatch.WatchIsLastNamed | src/bunny/signals/signals.go:49-57 | the expression in force is the last one any config named |
| ProcessWatch.NothingWatchedIff | src/bunny/signals/signals.go:49-57 | nothing is watched if and only if no config named an expression or the last one named does not compile |
| ProcessWatch.Signals.UpdateConfig | src/bunny/signals/signals.go:43-58 | a config replaces the expression only when it names one |
| ProcessWatch.Signals.WaitForProcess | src/bunny/signals/signals.go:76-118 | the signal passes exactly when nothing is watched or some scan finds no match, at the first such scan |
| ProcessWatch.ScanOnce | src/bunny/signals/signals.go:87-108 | one pass finds a match exactly when there is one; an unreadable list is empty |
| ExecEnvironment.BuildEnv | src/bunny/egress/probe-execaction.go:27-32 | one name=value item per variable, in order |
| ExecEnvironment.ItemReadsBackIff | src/bunny/egress/probe-execaction.go:27-32 | a process reads a variable's own name and value back if and only if the name holds no equals sign |
| ExecEnvironment.ConfiguredItemsSurvive | src/bunny/egress/probe-execaction.go:57-68 | no overlap of runs alters a configured item; without spare capacity each run gets its own trace id |
| ExecEnvironment.CellKept | src/bunny/egress/probe-execaction.go:61 | the shared cell stays a run's own exactly until another run appends |
| ExecEnvironment.OwnTraceIff | src/bunny/egress/probe-execaction.go:57-68 | a command gets its own trace id if and only if there is no spare capacity or no other run appends in between |
| ExecEnvironment.MixUpReachable | src/bunny/egress/probe-execaction.go:57-68 | with spare capacity two runs can mix up their trace ids |
| TimeWaster.Delays | src/bee/main.go:300-303 | the delays are not negative and sum to the budget; the first two are two fifths of their draws, rounded down, so at least a fifth is left for the third |
| TimeWaster.WholeBudgetInherited | src/bee/main.go:301-306 | a child can inherit the whole budget |
| TimeWaster.Shuffle | src/bee/main.go:304 | a permutation that keeps the split |
| TimeWaster.EveryOrderDrawn | src/bee/main.go:304 | every order of the delays can be drawn |
| TimeWaster.DrawDelays | src/bee/main.go:300-304 | for every draw and shuffle the delays split the budget |
| TimeWaster.MakeChildName | src/bee/main.go:315-321 | a child's name properly extends its parent's and ends with its digit; below the root all names are the root, a dash and binary digits |
| TimeWaster.RootBound | src/bee/main.go:285-321 | the bound for the root name is 2047 calls |
| TimeWaster.CallsDistinct | src/bee/main.go:305-309 | the names below two children and their parent all differ |
| TimeWaster.Waste | src/bee/main.go:285-313 | for every draw: with less than 11 ms left or a name over 20 characters it returns at once; otherwise it calls both children and returns exactly at its deadline; it terminates on name length, and all names below it differ and are within the bound |

## Left out

- YAML decoding, file reading, file watching and the SHA-256 hash: contents are an abstract sequence, the hash an injective function that is never the empty string.
- Closed channels and unknown stages: no channel is ever closed and telemetry sends only one stage, so those branches are not modelled.
- Telemetry taking the signal before any config: its nil providers would panic; the protocol treats it as a return.
- Ticks and watcher errors are not steps of the protocol, and watcher events without a change only of `Program`: they use no channel between goroutines.
- HTTP server start and stop, provider and exporter shutdown, probe dialling and process execution: taken to return; only their outcomes matter.
- The mux of the health server, including its panic on duplicate patterns: only the handler is modelled.
- The metrics effect of a health query: it is the same bracket as that of a probe.
- newExpectStep, probe-kind selection, labels and attributes: branch reading only.
- PreMeasurable and PostMeasurable are steps of a transition system in `Accounting`, not methods, because what matters is what other runs do between their increments; update in place is captured only for the response-time map.
- AccountingHistory.WaitsIff: the collector callbacks take the same mutex; they are sections of `ResponseTimes`, not steps of `Accounting`.
- The Prometheus response-time gauge, which is set in the same critical section as the map.
- The shared slice in `ExecEnvironment` is a value with explicit aliasing, not an array; how Go chooses capacities is a parameter.
- The registration calls of `main`: their order is built into the protocol.
- The 4096-byte limit of the reader's buffer (longer lines are collected by the library) and connection deadlines as time: an input simply ends.
- Conversation.DualConversation: neither side's deadline expires, and closing a connection loses no bytes in flight.
- TimeWaster.Waste: integer overflow is not modelled; budgets are about a second.
- Accounting.Conservation: for probes with both counters enabled; a disabled counter does not exist.
- Bee's HTTP and gRPC servers, logging, deployment files.
