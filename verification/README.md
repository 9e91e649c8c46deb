# RADIN network engine: a verified model

This project models the decision core of the RADIN network engine and proves what it guarantees
over whole runs:

- **Delta sync** (`Delta*.dfy`): the differ and patcher of JSON snapshots, the text form of the
  patches, the exact result of applying a diff, when it is the target, and a replica that follows
  a history of snapshots.
- **Route decider** (`Hysteresis*.dfy`): cooldown bans, evidence, bounded flapping and sustained
  degradation.
- **Route engine** (`Engine*.dfy`, with `Circuit`, `Fallback`, `StateMachine`, `Session`, `Health`,
  `Probe`, `Scoring`, `Edges`, `Sorting`): every public step of the orchestrator, one invariant kept
  by all of them, and run theorems; every part inside the engine is shown to be the stand-alone one
  driven by the engine's inputs (decider, breakers, transport machines, fallback chain, health tracker,
  probe scheduler, edge statistics and session), so their theorems carry over.
- **Sync queue and idempotency** (`Sync*.dfy`, `Idempotency.dfy`): conservation, disjoint batches,
  retry limits, termination of flushing, bounded waiting, deduplication.
- **Stream framing** (`Framing.dfy`): a length-prefixed writer and a buffering reader under any
  cutting of the stream into reads, with read errors in between.

Each component has a value type, functions that say what an operation does to it, and a class whose
methods are proved to do exactly that; the theorems are about the functions. Clocks and counters are
naturals, measurements are reals. Verify with `dafny verify dfyconfig.toml`.

## What the code does differently from its comments

- `diff`/`apply` do not always round-trip (delta.rs:82-83): a removed key becomes `Null` and is sent
  again for ever, a changed key with a dot is never written, and below an empty root key the change
  lands elsewhere. `DeltaEmptyRoot.RoundTripIff` gives the exact condition.
- Bans are pruned by a threshold derived from the new ban's end (hysteresis.rs:246-251), so a configured
  cooldown of more than twice the decider's own drops bans still in force. The block on a route that was
  left (hysteresis.rs:26-27) holds in all runs exactly up to 30 s: `EngineBlockHoldsIff`, with the run
  `EngineReturns`; so does the spacing of switches to one route: `EngineFlapBoundIff`, `EngineFlaps`.
- The decider never learns the first route (engine.rs:334-336), so nothing blocks a return to it at any
  cooldown: `FirstRouteReturns`. It hears of that route's metrics only when its edge is probed
  (engine.rs:276-291), and until then leaves it for anything: `SwitchOnNothing`.
- An edge never probed counts as one without delay (edges.rs:282-297), and as a degraded one once taken.
  So a lost packet can move the route to it although the rules promise no switching on a single lost
  packet (docs/ARCHITECTURE.md:53): `PlaceholderSwitches`. `SwitchesCarryEvidenceIff` says exactly when a
  switch has evidence of probed edges, `UnprobedTakenIff` when such an edge is taken.
- An improvement need not last, against hysteresis.rs:4-8 and 193-195: one sample on each side is enough.
  `SwitchIff` is the exact rule, `OneSampleSwitch` a run.
- Degradation is the share of lost probes over an edge's whole history, so one lost probe can count for
  five seconds and move the route, against hysteresis.rs:7-8: `DegradedIff`, `OneLossSwitches`.
- One failure report of any kind moves the fallback chain, although a comment asks for measurable
  failure, never a single packet (engine.rs:462-466): `OneReportFallsBack`, `FirstReportFallsBack`.
- `circuit_trips` counts reports, not trips (engine.rs:440-448): `OneReportCounts` says when the two
  agree, `TripsCountReports` what it counts over a run, and `CountedWithoutTrip` is a run.
- The loss score is one half below one percent of loss, not at about 1.5 (scoring.rs:85): `HalfLoss`.
- A grade rise does not restart the sustain clock, so the next rise needs no further time
  (health.rs:236-240): `RisesChain`, and `RisesTwiceAtOnce` on a history.
- Items that used up their attempts are never retried, contrary to the comment at sync.rs:172:
  `FailedStays`, `RetriedIff`, and the run `GivesUp`.
- A success closes an open breaker at once, without the half-open trial (circuit.rs:107-110):
  `SuccessesToClose`. A recovering transport never fails again by failures alone
  (state.rs:88-102): `RecoveringNeverFails`.
- `recv_frame` never returns `Ok(None)`; a read timeout is an error (tcp.rs:64-85):
  `ReceiveRefinesParse`.

## Model

| member | source | states |
|---|---|---|
| Delta.CollectDiff | crates/radin-core/src/delta.rs:30-65 | the recursive loop inserts, under the given prefix, exactly the specified changes in ascending key order |
| Delta.Diff | crates/radin-core/src/delta.rs:18-28 | None for non-objects and for no change, else the map of changed paths |
| Delta.Apply | crates/radin-core/src/delta.rs:84-107 | patches are split on dots and written in ascending text order; None for a non-object base |
| DeltaTheorems.JoinSplit | crates/radin-core/src/delta.rs:39-43 | for every path, splitting undoes joining exactly when no key holds a dot and the first of several keys is not empty |
| DeltaTheorems.ChangesIndependent | crates/radin-core/src/delta.rs:36-64 | emitted paths are distinct and none lies above another |
| DeltaTheorems.AnyOrder | crates/radin-core/src/delta.rs:87-90 | independent patches give the same tree in every order |
| DeltaRoundTrip.ApplyOrderIrrelevant | crates/radin-core/src/delta.rs:84-92 | walking the patch map in any order gives the tree of the emitted patches |
| DeltaRoundTrip.DiffNoneIffEqual | crates/radin-core/src/delta.rs:18-28 | for objects with any keys, no diff iff they are equal |
| DeltaRoundTrip.ApplyDiffFills | crates/radin-core/src/delta.rs:44-63 | applied to any r that is a with extra Null keys, the diff of a and b gives exactly b over r, removed keys Null at every depth |
| DeltaRoundTrip.FillSettled | crates/radin-core/src/delta.rs:48-50 | laying b over what already extends it changes nothing |
| DeltaEmptyRoot.RoundTripIff | crates/radin-core/src/delta.rs:82-92 | unless a dotted key is removed below an empty root key, the round trip holds exactly when no changed key has a dot, the empty root key is not descended into and no key was removed |
| DeltaEmptyRoot.AccidentalRoundTrip | crates/radin-core/src/delta.rs:82-92 | the excepted pairs really are an exception: one of them round-trips, removed key and all |
| DeltaEmptyRoot.EmptyRootIsLost | crates/radin-core/src/delta.rs:39-43 | a change below an empty root key never arrives, whatever else changes, unless a dotted key is removed there |
| DeltaEmptyRoot.NothingMoved | crates/radin-core/src/delta.rs:84-107 | in a round trip no key with a dot on the chain of empty keys has a new value |
| DeltaExact.DottedChangeIsLost | crates/radin-core/src/delta.rs:88-89 | a changed key with a dot, at any depth, breaks the round trip |
| DeltaEmptyRoot.EmptyRootLosesChange | crates/radin-core/src/delta.rs:39-43 | a change below the empty root key is written to the root instead |
| DeltaExact.FreshDiff | crates/radin-core/src/delta.rs:84-92 | a fresh diff after applying one changes nothing, and is None iff no key was removed |
| DeltaExact.ReplicaIsLayered | crates/radin-core/src/delta.rs:119-136 | after any history a replica holds the latest snapshot with Null at lost keys |
| DeltaExact.ReplicaFollows | crates/radin-core/src/delta.rs:119-136 | without removals a replica equals the sender |
| Framing.TcpTunnel.WriteFrame | crates/radin-transport/src/tcp.rs:44-52 | appends the 32-bit big-endian length and the payload |
| Framing.TcpTunnel.ReadIntoBuf | crates/radin-transport/src/tcp.rs:54-62 | appends one read of at most 65,535 bytes; an empty read is a closed stream |
| Framing.TcpTunnel.RecvFrame | crates/radin-transport/src/tcp.rs:66-85 | the loop ends and computes the specified outcome, buffer and unread input |
| Framing.BigEndianRoundTrip | crates/radin-transport/src/tcp.rs:46-69 | the length prefix decodes to the length encoded |
| Framing.WireOrder | crates/radin-transport/src/tcp.rs:46 | the first byte on the wire is the most significant one, and a length has exactly one prefix |
| Framing.ReceiveRefinesParse | crates/radin-transport/src/tcp.rs:66-85 | one call takes exactly one frame off the whole stream or leaves every byte in place; the branch that answers "no frame" is never reached |
| Framing.FrameSurvivesIff | crates/radin-transport/src/tcp.rs:44-77 | a frame is recovered iff its payload is at most 89,600 bytes |
| Framing.OversizedBlocksForEver | crates/radin-transport/src/tcp.rs:70-72 | an oversized prefix fails every later call and is never consumed |
| Framing.AnyStreamDelivered | crates/radin-transport/src/tcp.rs:66-85 | for any bytes, any cutting and any read errors, n calls deliver the first frames of the stream, all of them once n is frames plus errors |
| Framing.FramesDelivered | crates/radin-transport/src/tcp.rs:44-85 | so the frames a writer sent are delivered, exactly its payloads in order |
| Framing.EncodeAllSnoc | crates/radin-transport/src/tcp.rs:44-52 | writing frames one by one produces the encoding of their sequence |
| Hysteresis.RouteDecider.Evaluate | crates/radin-core/src/hysteresis.rs:159-216 | verdict and new state of one evaluation, in the code's order of tests |
| Hysteresis.RouteDecider.SwitchTo | crates/radin-core/src/hysteresis.rs:218-237 | bans the route left, adopts the candidate, restarts the degradation clock |
| Hysteresis.RouteDecider.ApplyCooldown | crates/radin-core/src/hysteresis.rs:246-261 | prunes by the threshold taken from the new ban, then renews or appends it |
| Hysteresis.RouteDecider.PruneCooldowns | crates/radin-core/src/hysteresis.rs:264-266 | keeps exactly the bans that end later |
| Hysteresis.ImposedKeepsGuard | crates/radin-core/src/hysteresis.rs:246-261 | imposing a ban neither drops nor shortens one still in force while its end is within two cooldowns |
| Hysteresis.ConsultKeepsApart | crates/radin-core/src/hysteresis.rs:164-175 | a switch comes at least the gap after every earlier one to that route, and stays guarded |
| Hysteresis.RunKeepsApart | crates/radin-core/src/hysteresis.rs:159-266 | over every run, switches to one route are at least the smaller cooldown apart |
| HysteresisTheorems.FlapBoundIff | crates/radin-core/src/hysteresis.rs:246-252 | that bound holds for all runs iff the engine's cooldown is at most twice the decider's |
| HysteresisTheorems.FewSwitches | crates/radin-core/src/hysteresis.rs:159-237 | in a shorter stretch there are at most as many switches as routes |
| HysteresisTheorems.ImposedExactly | crates/radin-core/src/hysteresis.rs:246-261 | after a ban is imposed exactly that route is banned until then, and the others as before but for bans that end by the derived threshold |
| HysteresisTheorems.RunStaysAway | crates/radin-core/src/hysteresis.rs:218-261 | over every run with an engine cooldown of at most twice the decider's, no switch returns to a known route within the decider's cooldown after leaving it |
| HysteresisTheorems.BlockHoldsIff | crates/radin-core/src/hysteresis.rs:218-261 | that holds for all runs iff the engine's cooldown is at most twice the decider's |
| HysteresisTheorems.SwitchIff | crates/radin-core/src/hysteresis.rs:104-216 | over every run under the default thresholds, an evaluation no ban holds switches exactly if the candidate gains on what is known of the current route (5 ms and 10 percent of latency, or jitter and loss together), or that was degraded for five seconds, or nothing is known of it |
| HysteresisTheorems.FallingIff | crates/radin-core/src/hysteresis.rs:125-130 | a candidate is falling exactly if it is bad on at least two of 3 percent loss, 20 ms jitter and 200 ms latency |
| HysteresisTheorems.WinsIff | crates/radin-core/src/hysteresis.rs:104-130 | a candidate wins on latency exactly if it is bad on one count at most and gains the margin and the share of the latency known, under any thresholds |
| HysteresisTheorems.KnownIffHeard | crates/radin-core/src/hysteresis.rs:218-243 | the decider knows the metrics it took in last, so none exactly until it was given some or switched |
| HysteresisTheorems.DeciderTracks | crates/radin-core/src/hysteresis.rs:180-191 | the degradation clock is the start of the earliest unbroken regime of degraded evaluations |
| HysteresisTheorems.DegradedSwitchIff | crates/radin-core/src/hysteresis.rs:180-204 | a degradation switch happens iff the evaluation is not blocked, not won on latency by a candidate bad on one count at most, and such a regime has lasted the required time |
| Circuit.CircuitBreaker.Allow | crates/radin-core/src/circuit.rs:78-91 | refuses while open before the cooldown ends, then starts a trial |
| Circuit.CircuitBreaker.RecordSuccess | crates/radin-core/src/circuit.rs:95-112 | new state after a success |
| Circuit.CircuitBreaker.RecordFailure | crates/radin-core/src/circuit.rs:113-131 | new state after a failure |
| Circuit.RunConsistent | crates/radin-core/src/circuit.rs:78-131 | in every run closed means fewer failures than the threshold, half-open fewer successes than required, and trips are counted once |
| Circuit.RefusedIff | crates/radin-core/src/circuit.rs:78-131 | over every run an ask is refused exactly if the last trip was less than the cooldown ago, with no success and no admitted ask since |
| Circuit.DefaultBreaker | crates/radin-core/src/circuit.rs:42-131 | by default the third failure opens a fresh breaker, it refuses for five seconds, and the next ask then is a trial |
| Circuit.TripRate | crates/radin-core/src/circuit.rs:113-131 | without a success, the cooldowns of all trips but the last fit between the first trip and now |
| Circuit.FailuresToTrip | crates/radin-core/src/circuit.rs:113-131 | with failures at any times a fresh breaker opens at exactly the threshold, until the cooldown after that failure, and later failures do not move the end |
| Circuit.SuccessesToClose | crates/radin-core/src/circuit.rs:95-112 | successes needed to close, from half-open and from open |
| Fallback.FallbackEngine.Observe | crates/radin-core/src/fallback.rs:65-108 | moves on exactly when the current transport is signalled, unblocked and not last, and blocks it |
| Fallback.FallbackEngine.ReorderByScores | crates/radin-core/src/fallback.rs:113-131 | new chain from the stable descending sort with the first Direct moved last |
| Fallback.AdvancesIff | crates/radin-core/src/fallback.rs:58-108 | a single signal of any kind moves the chain iff it names the current, unblocked, not last transport; by one place |
| Fallback.DeparturesApart | crates/radin-core/src/fallback.rs:65-131 | in any run, across reorderings, the index stays in range and two departures from one transport are 5,000 ms apart |
| Fallback.LeavesIff | crates/radin-core/src/fallback.rs:65-108 | at any point of a run, reports move the chain exactly if one names the current transport, that is not the last and was not left in the last five seconds |
| Fallback.BlocksAreDepartures | crates/radin-core/src/fallback.rs:88-103 | the blocks of a run are its departures, each for five seconds |
| Fallback.BlockCarriesSignal | crates/radin-core/src/fallback.rs:93-103 | moving on adds one block: of the transport left, with the first signal reported of it, for five seconds |
| Fallback.ReorderedOrder | crates/radin-core/src/fallback.rs:113-131 | the edge transports come from a stable ranking by descending score, in its order; Direct is last whenever scored; nothing is lost except with a duplicate Direct at the end |
| Fallback.ReorderedDistinct | crates/radin-core/src/fallback.rs:113-131 | distinct scored kinds are permuted, and no edge transport stands before one that scored better |
| Sorting.SortIsStable | crates/radin-core/src/fallback.rs:114-115 | the ranking sort permutes, descends and keeps ties in order |
| Sorting.HeadIsFirstMaximum | crates/radin-core/src/engine.rs:322-330 | its head is the first element of the largest score |
| StateMachine.TransportStateMachine.RecordFailure | crates/radin-core/src/state.rs:82-102 | one failure moves at most one stage |
| StateMachine.TransportStateMachine.RecordSuccess | crates/radin-core/src/state.rs:104-121 | success towards or back to healthy |
| StateMachine.TransportStateMachine.BeginRecovery | crates/radin-core/src/state.rs:124-128 | recovering with both counters cleared |
| StateMachine.FailuresNeeded | crates/radin-core/src/state.rs:82-102 | closed form of the stage after n failures, for all thresholds; at least three to fail |
| StateMachine.SuccessesNeeded | crates/radin-core/src/state.rs:104-121 | successes needed to leave recovery |
| StateMachine.RecoveringNeverFails | crates/radin-core/src/state.rs:88-102 | failures alone never take a recovering transport down |
| StateMachine.RecoveryTakes | crates/radin-core/src/state.rs:104-128 | a recovery begun in any state ends after exactly the required successes, however many failures come first |
| StateMachine.FailureRestartsRecovery | crates/radin-core/src/state.rs:82-121 | the successes that end a recovery come in a row: a failure among them starts the count again |
| StateMachine.SuccessRestarts | crates/radin-core/src/state.rs:104-121 | a success wipes out everything short of a failure: further failures count as those of a fresh machine |
| StateMachine.DefaultStages | crates/radin-core/src/state.rs:46-121 | by default degraded at two failures in a row, failing at three, failed at five; a success then begins a recovery and the next ends it |
| Health.HealthTracker.Observe | crates/radin-core/src/health.rs:233-254 | grade, clock and sustained time after a score |
| Health.HealthMonotone | crates/radin-core/src/health.rs:110-175 | with any non-negative weights scores lie in [0, 100] before clamping, and no worse metrics never give a lower score or worse grade |
| Health.SubscoresInvert | crates/radin-core/src/health.rs:156-170 | each falling sub-score takes every value between zero and one at exactly one place, in figures; stability and availability count as they are |
| Health.DefaultHealth | crates/radin-core/src/health.rs:92-177 | by default the sub-scores are worth 20, 15, 30, 15, 10 and 10 points |
| Health.HealthStrict | crates/radin-core/src/health.rs:156-177 | metrics no worse and truly better in one thing score strictly higher |
| Health.PerfectIff | crates/radin-core/src/health.rs:156-177 | the score is 100 exactly without delay, jitter, loss or reconnect, at full stability |
| Health.GradesInFigures | crates/radin-core/src/health.rs:191-279 | the grades lie at 80, 65, 50 and 30 points, and each asks for its monitoring level |
| Health.ClockIsLastSettled | crates/radin-core/src/health.rs:236-248 | the sustain clock is the time of the last observation that did not improve, or of the first one |
| Health.RisesIff | crates/radin-core/src/health.rs:233-254 | the grade rises iff this and every observation within the sustain time improved on the grade then held |
| Health.NeverFlatters | crates/radin-core/src/health.rs:233-254 | the grade is never better than that of the latest score |
| Health.RisesChain | crates/radin-core/src/health.rs:236-240 | after a rise the next improving observation raises the grade at once |
| Health.GradeAfter | crates/radin-core/src/health.rs:233-254 | the exact grade after each observation: that of its score, unless it improved before the sustain time was over |
| Health.RisesTwiceAtOnce | crates/radin-core/src/health.rs:236-240 | a history with two rises at one instant, the second on one observation |
| Probe.ProbeScheduler.MaySendNow | crates/radin-core/src/probe.rs:122-131 | a send is allowed when enabled, budgeted and due |
| Probe.ProbeScheduler.Record | crates/radin-core/src/probe.rs:133-137 | notes the send on the first budget of the kind |
| Probe.ProbeScheduler.ApplyHealth | crates/radin-core/src/probe.rs:141-150 | adapts every budget to the level |
| Probe.AdaptedInRange | crates/radin-core/src/probe.rs:79-91 | every level keeps an interval between one second and its default; calm levels raise it by 50 ms or to the default |
| Probe.CalmRestores | crates/radin-core/src/probe.rs:87-91 | enough calm observations, low and normal in any mixture, restore the default |
| Probe.IntervalsInFigures | crates/radin-core/src/probe.rs:33-91 | the interval of each kind in milliseconds: by default, under high and under aggressive monitoring |
| Probe.CalmInFigures | crates/radin-core/src/probe.rs:87-91 | calm levels raise an interval by 15 or 5 percent, rounded down, up to the default |
| Probe.SchedulerAdapts | crates/radin-core/src/probe.rs:141-150 | over any levels the scheduler adapts each of its eight budgets to every one, in order |
| Probe.MaySendIff | crates/radin-core/src/probe.rs:122-137 | after any run a send of a kind is allowed exactly if it was never sent, or the interval in force has passed since the last |
| Probe.SendsApart | crates/radin-core/src/probe.rs:122-150 | every gated send of a kind comes at least the interval then in force after the one before it, and a second after all earlier ones, under any health levels and any clock |
| Idempotency.ClientIdempotencyGuard.FirstTime | crates/radin-core/src/control.rs:192-200 | prunes expired keys, then accepts and notes a key not held |
| Idempotency.AcceptedIff | crates/radin-core/src/control.rs:192-200 | a key is accepted iff it was not accepted within the last ttl |
| Sync.SyncEngine.Enqueue | crates/radin-core/src/sync.rs:65-87 | refuses a queued key, else appends a fresh item |
| Sync.SyncEngine.NetworkRecovered | crates/radin-core/src/sync.rs:91-100 | local items become pending, a failed queue retrying; nothing else moves |
| Sync.SyncEngine.BuildBatch | crates/radin-core/src/sync.rs:112-153 | the batch and the marked queue |
| Sync.SyncEngine.MarkSynced | crates/radin-core/src/sync.rs:156-170 | removes the batch's items and counts its operations |
| Sync.SyncEngine.MarkFailed | crates/radin-core/src/sync.rs:173-194 | items of the batch retry, or fail at the limit |
| Sync.SyncEngine.DropTelemetry | crates/radin-core/src/sync.rs:198-203 | removes and counts telemetry items |
| SyncTheorems.BatchIsFirstEligible | crates/radin-core/src/sync.rs:112-153 | a batch is exactly the first max(1, max_ops) eligible items in queue order, and only these are marked |
| SyncTheorems.AckConservesIff | crates/radin-core/src/sync.rs:156-164 | an acknowledgement conserves the count iff all its keys are still queued |
| SyncTheorems.StepOk | crates/radin-core/src/sync.rs:65-203 | every step keeps unique keys, disjoint outstanding batches, batches and syncing items in step, and the count |
| SyncTheorems.Conservation | crates/radin-core/src/sync.rs:65-203 | over every run from empty, accepted equals pending plus synced plus dropped |
| SyncProgress.NeverOverLimit | crates/radin-core/src/sync.rs:65-203 | from the empty queue no item ever exceeds max(1, max_attempts), whatever batches are resolved and however often |
| SyncProgress.ItemsRemember | crates/radin-core/src/sync.rs:65-153 | over any calls every item was submitted when it says, counts as attempted once collected, and was collected when it says |
| SyncProgress.FlushingEnds | crates/radin-core/src/sync.rs:112-194 | in every reachable queue, without new operations, all later batches carry at most the remaining attempts |
| SyncProgress.BoundedWaiting | crates/radin-core/src/sync.rs:112-153 | in every reachable queue an eligible item with k ahead is batched by call k * limit + 1 |
| SyncProgress.FailedStays | crates/radin-core/src/sync.rs:91-100 | a failed item is never retried and stays for ever, unless it is telemetry that is dropped |
| SyncProgress.RetriedIff | crates/radin-core/src/sync.rs:173-194 | in every reachable queue an item of a failed batch is ever eligible again iff its attempts are below max_attempts |
| SyncProgress.GivesUp | crates/radin-core/src/sync.rs:112-194 | for every limit, a run from the empty queue that ends with an operation given up |
| SyncProgress.StateStep | crates/radin-core/src/sync.rs:65-203 | the queue state after each step, told from the items: synced exactly if nothing is left, failed exactly if an item is given up |
| SyncProgress.StateTellsItems | crates/radin-core/src/sync.rs:65-203 | in every reachable queue: local exactly until the first batch, syncing only with a batch in flight, synced only with none and nothing but later operations |
| SyncProgress.RecoverySendsOn | crates/radin-core/src/sync.rs:91-100 | after a recovery nothing is local any more, and every other item is as it was |
| SyncProgress.DropInFlightMiscounts | crates/radin-core/src/sync.rs:156-203 | dropping telemetry in flight breaks the count |
| Scoring.ScoreAll | crates/radin-core/src/scoring.rs:145-161 | scores every candidate, or refuses iff one is synthetic and that is not allowed |
| Scoring.NormalizedSum | crates/radin-core/src/scoring.rs:37-53 | normalized weights sum to one |
| Scoring.ScoreMonotone | crates/radin-core/src/scoring.rs:73-133 | scores lie in [0, 100] before clamping and a route no worse on all five metrics never scores lower |
| Scoring.ScoreIsMean | crates/radin-core/src/scoring.rs:114-136 | the score is the mean of the five sub-scores, each under its own weight |
| Scoring.DefaultScore | crates/radin-core/src/scoring.rs:24-136 | by default latency, jitter, loss, stability and handshake are worth 30, 20, 30, 15 and 5 points |
| Scoring.ProportionsMatter | crates/radin-core/src/scoring.rs:37-53 | scaling all weights changes no score |
| Scoring.CurvesInvert | crates/radin-core/src/scoring.rs:66-111 | latency, jitter and handshake curves take each value between zero and one at exactly one place; stability counts as it is |
| Scoring.PowerCurveFits | crates/radin-core/src/scoring.rs:86-96 | the 1.6th power of the loss curve is one of the decreasing maps the other results allow |
| Scoring.HalfLoss | crates/radin-core/src/scoring.rs:85-96 | the loss score is one half exactly where the eighth power of the growth is 32, never from one percent on, and under a third at 1.5 percent |
| Scoring.SelectTransport | crates/radin-core/src/transport.rs:141-171 | the first real measurement of the highest score, none without one |
| Scoring.MeritInFigures | crates/radin-core/src/transport.rs:150-163 | what a measurement is worth: its round trip, jitter, loss, stability and handshake under the default shares |
| Edges.EdgeRegistry.Ingest | crates/radin-core/src/edges.rs:191-214 | registry and accepted ids after a list |
| Edges.EdgeRegistry.Observe | crates/radin-core/src/edges.rs:72-105 | statistics after one probe |
| Edges.EdgeRegistry.RouteCandidates | crates/radin-core/src/edges.rs:263-306 | the candidates in the code's order |
| Edges.HistoryIsHonest | crates/radin-core/src/edges.rs:72-105 | over any history of a new edge: loss and availability are the exact shares of lost and delivered probes; latency, jitter and handshake are the moving averages of the values probed; the last probe is dated |
| Edges.SnapshotOfHistory | crates/radin-core/src/edges.rs:263-306 | so are the metrics decided and scored on, with the squared share of delivered probes as stability |
| Edges.AverageWithin | crates/radin-core/src/edges.rs:80-91 | the average stays within the range of the values probed |
| Edges.ReconnectsPerMinute | crates/radin-core/src/edges.rs:118-123 | reconnections count per sixty samples, and each in full before the sixtieth |
| Edges.AverageConverges | crates/radin-core/src/edges.rs:80-91 | closed form of the moving average: after any list, each new equal value takes a quarter off the distance to it |
| Edges.StabilityIsSquare | crates/radin-core/src/edges.rs:112-116 | the stability index is the square of the availability |
| Edges.IngestedPaired | crates/radin-core/src/edges.rs:191-214 | edges and statistics stay paired under distinct ids, no edge is lost, the final pruning drops nothing |
| Edges.IngestedOf | crates/radin-core/src/edges.rs:191-214 | after a list, the record of an id is the last valid one in it, else the old one; statistics of a known edge are kept |
| Edges.CandidatesExactly | crates/radin-core/src/edges.rs:263-306 | candidates are exactly registered edge times mutually supported transport |
| Edges.CandidatesCarry | crates/radin-core/src/edges.rs:263-306 | a candidate carries the address, region and live statistics of its own edge, unscored |
| Edges.CandidateIdInjective | crates/radin-core/src/engine.rs:59-64 | the id determines edge and transport; the edge is recovered even with dashes |
| Session.Session.Begin | crates/radin-core/src/session.rs:29-40 | a new session |
| Session.Session.Reconnect | crates/radin-core/src/session.rs:43-54 | same session id, fresh connection, counted |
| Session.Session.Migrate | crates/radin-core/src/session.rs:57-63 | same session id, new transport and edge, counted |
| Session.LifeOfSession | crates/radin-core/src/session.rs:43-63 | over any life the id and start are kept, every new connection is counted once as reconnect or migration, the last one tells where the session is, and the last event when it was healthy |
| Session.BeginsHealthy | crates/radin-core/src/session.rs:29-40 | a session begins healthy at its start, with nothing counted |
| Engine.RouteEngine.constructor | crates/radin-core/src/engine.rs:148-172 | initial state, with the default hysteresis |
| Engine.RouteEngine.SetEdges | crates/radin-core/src/engine.rs:177-190 | only the registry changes |
| Engine.RouteEngine.SetVpnState | crates/radin-core/src/engine.rs:204-215 | only the session's health time changes |
| Engine.RouteEngine.OnEdgeObservation | crates/radin-core/src/engine.rs:220-310 | whole new state of a probe; an unknown edge changes nothing |
| Engine.RouteEngine.Screen | crates/radin-core/src/engine.rs:268-272 | breakers asked or created in turn, refused candidates dropped |
| Engine.RouteEngine.SelectBest | crates/radin-core/src/engine.rs:313-382 | first route at once, later ones by the decider |
| Engine.RouteEngine.ApplySelected | crates/radin-core/src/engine.rs:384-430 | route, session and counters of a selection |
| Engine.RouteEngine.ReportTransportFailure | crates/radin-core/src/engine.rs:436-484 | breakers, machine, chain and counters of a report |
| Engine.RouteEngine.ReportTransportSuccess | crates/radin-core/src/engine.rs:520-545 | machine, session and breakers of a report |
| EngineTheorems.StepOk | crates/radin-core/src/engine.rs:177-545 | every step keeps the whole invariant: route, session and decider agree on a registered edge, breakers are consistent, the chain index is in range |
| EngineRuns.ReachableOk | crates/radin-core/src/engine.rs:148-545 | so does every reachable state |
| EngineRuns.SelectionIsSafe | crates/radin-core/src/engine.rs:264-274 | a selected route is on a registered edge, on a transport both sides support, with its live score, behind a breaker that is not open |
| EngineRuns.DeciderFollows | crates/radin-core/src/engine.rs:339-350 | the decider in an engine run is the stand-alone decider run on what the engine hands it |
| EngineRuns.SwitchesApart | crates/radin-core/src/engine.rs:339-350 | in every run on an ordered clock with a cooldown of at most 30 s, switches to one route are the smaller cooldown apart |
| EngineRuns.FewSwitches | crates/radin-core/src/engine.rs:339-350 | in a shorter stretch at most as many switches as routes |
| EngineRuns.DegradedSwitchIff | crates/radin-core/src/engine.rs:339-374 | the engine leaves a degraded route iff its consultations saw it degraded for five seconds on end |
| EngineEvidence.InformedIff | crates/radin-core/src/engine.rs:276-350 | the engine's decider knows metrics of the current route exactly if it was told some or switched before |
| EngineEvidence.SwitchesCarryEvidenceIff | crates/radin-core/src/engine.rs:276-350 | in every run a decider no ban holds switches exactly if it has evidence, of probed edges on both sides, or knows nothing of the current route, or goes by placeholders of an edge never probed; the three exclude each other |
| EngineEvidence.UnprobedTakenIff | crates/radin-core/src/edges.rs:279-297 | a best candidate never probed is taken exactly if no ban holds and the decider knows nothing of the current route, or a latency of at least 5 ms, or five seconds of degradation |
| EngineEvidence.DeciderKnowsLive | crates/radin-core/src/engine.rs:276-350 | in every reachable state the decider knows of the current route nothing, or exactly the live statistics of its edge |
| EngineEvidence.LeavingBansIff | crates/radin-core/src/engine.rs:334-350 | right after a step to another route the ban list holds the old one for 15 s exactly if the decider had switched before and the configured cooldown is under 45 s; a later switch may prune that ban |
| EngineEvidence.BlockHolds | crates/radin-core/src/engine.rs:334-350 | with a configured cooldown of at most 30 s, no run returns within 15 s to a route it left after the decider had switched |
| EngineLaps.EngineBlockHoldsIff | crates/radin-core/src/engine.rs:334-350 | that holds for all runs exactly when the configured cooldown is at most 30 s |
| EngineLaps.EngineReturns | crates/radin-core/src/engine.rs:339-350 | for every cooldown over 30 s, a run from the initial state that returns too early to a route it knew |
| EngineLapses.FirstRouteReturns | crates/radin-core/src/engine.rs:334-336 | for every cooldown, a run that returns to the first route five seconds after leaving it |
| EngineEvidence.RouteIsLastSwitch | crates/radin-core/src/engine.rs:339-416 | the route after a run is that of the decider's last switch, and the moves are exactly the switches to another route than the one before |
| EngineEvidence.FewMoves | crates/radin-core/src/engine.rs:339-416 | with a cooldown of at most 30 s, in a shorter stretch the route moves at most as often as there are routes |
| EngineLaps.EngineFlapBoundIff | crates/radin-core/src/engine.rs:339-350 | switches of the engine to one route are always the smaller cooldown apart exactly when the configured one is at most 30 s |
| EngineLaps.EngineFlaps | crates/radin-core/src/engine.rs:339-350 | for every cooldown over 30 s, a run from the initial state that goes back too early |
| EngineLapses.SwitchOnNothing | crates/radin-core/src/engine.rs:276-350 | a run from the initial state whose one switch is made knowing nothing of the route before, which it leaves unbanned |
| EngineLapses.PlaceholderSwitches | crates/radin-core/src/engine.rs:276-350 | a run in which one lost packet moves the route to an edge never probed, and that edge's placeholder moves it back; neither switch has evidence |
| EngineLapses.DegradedIff | crates/radin-core/src/hysteresis.rs:117-121 | a sampled edge counts as degraded exactly if it is slow, jitters, or lost three percent of all its probes ever |
| EngineLapses.OneLossSwitches | crates/radin-core/src/hysteresis.rs:180-204 | a run with a single lost probe that ends in a switch away from a degraded route |
| EngineLaps.OneSampleSwitch | crates/radin-core/src/hysteresis.rs:193-199 | a run with one sample on each side that ends in a switch for sustained improvement |
| EngineRuns.SessionIdentity | crates/radin-core/src/engine.rs:384-430 | a session keeps its id; migrations grow by exactly the moves |
| EngineRuns.MigrationsCountMoves | crates/radin-core/src/engine.rs:405-416 | migrations equal the moves of the route over its life and are at least the route changes |
| EngineRuns.ProbesInRange | crates/radin-core/src/engine.rs:295 | every probe interval stays in range in every reachable state |
| EngineRuns.HealthFollows | crates/radin-core/src/engine.rs:286-295 | the health tracker in an engine run is the stand-alone tracker run on the scores of the current edge |
| EngineRuns.EngineGrade | crates/radin-core/src/engine.rs:286-295 | in every run on an ordered clock the grade is that of the last score, unless that improved too soon |
| EngineBreakers.ReportsTouchExactly | crates/radin-core/src/engine.rs:436-446 | a report touches exactly its transport's breakers |
| EngineBreakers.OneReportFallsBack | crates/radin-core/src/engine.rs:457-467 | one report moves the chain iff the transport is supported, current, unblocked and not last |
| EngineBreakers.FirstReportFallsBack | crates/radin-core/src/engine.rs:457-467 | from the initial state the first report falls back while the transport is still healthy |
| EngineBreakers.ChainFollows | crates/radin-core/src/engine.rs:457-467 | the fallback chain in an engine run is the stand-alone chain run on the failure reports |
| EngineBreakers.EngineDepartures | crates/radin-core/src/engine.rs:457-467 | in every engine run the chain is the configured one, its index counts the departures, and two from one transport are 5 s apart |
| EngineBreakers.OneReportCounts | crates/radin-core/src/engine.rs:440-448 | one report moves the trip counter by the breakers it trips exactly when it trips one, or finds none of its transport |
| EngineBreakers.TripsCountReports | crates/radin-core/src/engine.rs:440-448 | over every run the counter is the number of reports that found a breaker; no breaker trips more often, and one trips as often exactly when all of them tripped it |
| EngineBreakers.TripsAreTripTimes | crates/radin-core/src/engine.rs:440-448 | the trips a run charges to a breaker are those of the breaker on its own |
| EngineLapses.CountedWithoutTrip | crates/radin-core/src/engine.rs:440-448 | a run from the initial state after which the counter says one and no breaker ever opened |
| EngineBreakers.BreakerFollows | crates/radin-core/src/engine.rs:570-575 | each breaker is a stand-alone breaker run on the steps that concern it |
| EngineBreakers.EngineTripRate | crates/radin-core/src/engine.rs:436-446 | without a success report a route's breaker trips at most once per cooldown |
| EngineParts.MachineFollows | crates/radin-core/src/engine.rs:457-540 | over every run there is a machine for exactly the supported transports, each the stand-alone one run on exactly the reports on its transport, in order |
| EngineParts.StageAfterReports | crates/radin-core/src/engine.rs:457-459 | after n failure reports and no success a supported transport is degraded from two on, failing from three, failed from five |
| EngineParts.CountersCount | crates/radin-core/src/engine.rs:405-462 | over every run `route_changes` counts the moves to another transport, and `transport_fallbacks` these and the failure reports that left a transport failed |
| EngineParts.AdmittedIff | crates/radin-core/src/engine.rs:264-274 | in every run exactly those candidates are admitted to a selection whose breaker has no trip within the cooldown that neither a success nor an admitted request followed |
| EngineParts.RegistryFollows | crates/radin-core/src/engine.rs:177-262 | over every run the registry holds for each id its last valid record, and the statistics of a new edge after exactly its own probes since it was listed |
| EngineParts.EdgeMetrics | crates/radin-core/src/engine.rs:220-262 | so the metrics of a probed edge are the averages and shares of its own probes |
| EngineParts.ProbesFollow | crates/radin-core/src/engine.rs:286-295 | over every run the probe scheduler is the stand-alone one, adapted to the level of each new grade |
| EngineParts.SessionBegins | crates/radin-core/src/engine.rs:384-404 | a session begins with the first route taken, on its transport and edge |
| EngineParts.SessionFollows | crates/radin-core/src/engine.rs:384-416 | from then on it is the stand-alone session, migrated by every move and healthy at every selection, VPN state and success report |

## Left out

- DeltaEmptyRoot.RoundTripIff: says nothing of pairs in which a key with a dot is removed below an empty root key; some of these round-trip by accident (AccidentalRoundTrip), so the equivalence is false there.
- Engine.RouteEngine.OnEdgeObservation: breakers and transport machines inside the engine are held by value and updated through their specification functions; their own classes are proved against the same functions.
- Delta.Apply: writes nested objects by value; the update in place through mutable references is not modelled.
- Scoring.PowerCurveFits: that a map with the powers of the loss curve exists is not proved; the other results hold of any decreasing map into [0, 1]. Float rounding and NaN are not modelled.
- Probe.AdaptedInRange: intervals are scaled in reals and truncated; float rounding is not modelled.
- Negative durations and rates: measured latency, jitter and reconnect rate are non-negative by type.
- The largest-float sentinel: an unmeasured metric, and the decider's initial snapshot, are None; readings near that bound are not modelled.
- Integer widths: clocks, counters and attempts are unbounded, except the 32-bit frame length, which is truncated as in the code.
- Events, telemetry, spike wording, diagnostics, network type and the handshake and DNS failure counters: a log nothing else reads.
- Socket calls, write errors, and the QUIC, HTTP/2, WebSocket, KCP and UDP adapters: library or OS wrappers.
- Unique ids: session and connection ids are fresh opaque numbers.
- `should_apply_delta`, edge health reports, benchmark phases, capability tables, opcodes, keepalive, retry, persistence, security, migration, compression and detection: single expressions, tables or map wrappers.
- Server, FFI, Android, Flutter, CLI and chaos crates: foreign calls, plumbing or test drivers.
