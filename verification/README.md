# Models and proofs of llamactl's stateful core

A Dafny project that models the parts of llamactl whose correctness spans many calls: the fleet
supervisor's decisions, the life of a local server process and of a proxied request, and two
algorithms of the size-measuring script. `dafny verify dfyconfig.toml` checks everything.

Loops, mutable fields and in-place updates are written as methods and classes; each is proved against a
function or an outright property, and the properties of whole histories are lemmas about those functions.
What the outside world decides (the clock, the OS, upstream, actuators, health checks) is either a
parameter or an arbitrary choice, so every result holds for all answers it may give.

| file | what it covers |
|---|---|
| `Executor.dfy` | the executor's retry state, replayed from the journal, and one run over the pending proposals |
| `ExecutorHistory.dfy` | any number of runs: replay equals a remembered state; the life of one proposal |
| `ExecutorMeaning.dfy` | when a proposal is pending, when a call is made and what is recorded, over the journal and the calls alone |
| `AggregatorDb.dfy`, `SnapshotHistory.dfy` | the snapshot table, and the table as a function of its whole write history |
| `LeaseElection.dfy` | the lease holder as the least kept intent; merging, ageing and restarting |
| `CompletionProbe.dfy` | the busy guard folded over any run of probes |
| `Quantiles.dfy`, `Gauges.dfy` | nearest-rank quantiles, the adaptive probe timeout and the bounded latency ring; means, maxima and shares |
| `EngineThroughput.dfy` | the sample windows and the rates measured over them |
| `InfraRollout.dfy` | rollout planning and staged rollout with partial failure |
| `JournalReader.dfy` | the chunked line reader |
| `PidIdentity.dfy`, `Server.dfy` | verdicts about recorded pids; start, retry, abort and stop |
| `KvLease.dfy` | slot leases and registry reservations of interleaved proxy requests, as a state machine |
| `KvHistory.dfy` | that machine over whole runs: when a lease is lost for good, when a held row loses its mark |
| `KvMeaning.dfy` | what each of its steps does to the rows, the leases and `context.kv`, and a cold and a warm request from end to end |
| `KvProxy.dfy` | the proxy's KV code itself, proved to take only that machine's steps |
| `Routing.dfy`, `RoutingMeaning.dfy` | cluster routes, the route map and the model list; what wins and what is listed, by the routes' fields |
| `TunnelFrames.dfy` | cutting a body into frames, reading a frame, and what it asks for |
| `TunnelDispatch.dfy` | the event-stream subscription |
| `StripComments.dfy`, `LockfileClosure.dfy` | comment stripping and the lockfile closure |

ISO timestamps are instants (integers), JSON payloads are opaque strings or abstract values, and token
counters and rates are real numbers. Strings ordered by `localeCompare` are ordered by an arbitrary total
preorder.

## What the proofs turned up

- **KV lease.** A request that throws while it holds the lease outside `context.kv` (in the restore, in the
  replay of a row that was restored and activated, or in the restore-bind injection) gives up the lookup
  without releasing the lease or the reservation. `KvHistory.SlotInUseIffStranded` states this exactly: once
  all requests have finished, a workload's slot is in use if and only if some event of the run was such a throw
  by one of its requests; `KvHistory.StrandedSlotStaysBusy` says that nothing later frees it, and
  `KvHistory.ThrowLosesTheSlot` is a run in which it happens. The comment at
  `packages/core/src/openaiProxy.ts:1636-1639` protects the code after that point, not the calls before it. The
  throw is not an everyday one: `UpstreamSlotClient.restore` (`packages/core/src/kvstore/upstreamSlots.ts:90-132`)
  returns network, HTTP and JSON failures as values and `readTrailer` (`packages/core/src/kvstore/trailer.ts:35-44`)
  returns null on file errors, so it takes some other exception, such as a base URL that does not parse.
- **Held rows.** A row that a request holds is reserved or active, so that nothing else reserves, evicts or
  deletes it, if and only if no request commits a row another one holds: `registry.insert` resets the state to
  idle when the row exists (`packages/core/src/kvstore/registry.ts:69-136`). `KvHistory.HeldRowsGuardedIffNoOverwrite`
  is that equivalence over whole runs, `KvHistory.OverwriteCrossesWorkloads` says that the two requests are of
  different workloads, so that it cannot happen where workloads share no prefix
  (`KvHistory.PrefixesApartStayGuarded`), and `KvHistory.CommitFreesHeldRow` is a run in which it does.
- **Abort against readiness.** The contract of `Server.Host.StartServer` bounds when an ok start and a fired abort
  can coincide: only if the abort fired during the last await of the last health poll
  (`Ready && aborted ==> abortedJustNow`, in `Server.Host.Finished`), because the answer of that probe is
  taken before the signal is looked at again.
- **Replay of pruned snapshots.** A write changes nothing if and only if it repeats the stored content or is
  older than a full set of stored rows; every timestamp that was ever pruned is of the second kind
  (`SnapshotHistory.UnchangedExactlyByReplay`, `SnapshotHistory.PrunedWriteIsReplay`).
- **Rollback.** After a failed activation a peer stays on the new version exactly when it accepted it and was
  not brought back, which includes every rollout without a previous version; a failed health poll brings
  nobody back (`InfraRollout.FailureIsContained`, `InfraRollout.RolloutRollsBack`).
- **Throughput.** A pair of samples with a clock that did not advance is dropped without being counted as a
  reset, so the rates account for the growth inside stretches between such breaks only
  (`EngineThroughput.RatesConserveTokens`).
- **Unsubscribing.** `onStarted` may still be called after the caller has unsubscribed; no data, complete or
  error callback is (`TunnelDispatch.EndsOneWay`).

## Model

| member | source | states |
|---|---|---|
| Executor.Supervisor.RunExecutor | packages/fleet-supervisor/src/executor.ts:201-239 | one run takes, for the node's proposals in journal order and with every retry state replayed from the journal as it was at the start, exactly the turns that are due; it appends their entries in order and makes their calls and no others |
| Executor.Supervisor.TakeTurn | packages/fleet-supervisor/src/executor.ts:211-236 | a terminal or waiting proposal leaves no trace; an expired one is journaled as skipped without any call; any other is executed once |
| Executor.Supervisor.ExecuteOne | packages/fleet-supervisor/src/executor.ts:328-366 | gating by executeId/auto/tier, execution, and the retry stamp on a failed evict or restart |
| Executor.Supervisor.ExecuteAction | packages/fleet-supervisor/src/executor.ts:288-318 | which actions call an actuator, and the entry each outcome leads to |
| Executor.Supervisor.ExecuteRestart | packages/fleet-supervisor/src/executor.ts:246-276 | disable, then enable only if that exited 0, then one more enable only after a nonzero exit, with the status each pattern of answers leads to |
| ExecutorHistory.SummaryIsReplay | packages/fleet-supervisor/src/executor.ts:75-128 | folding entries one at a time into (closed, leading attempt) gives what scanning and stably sorting the whole list gives |
| ExecutorHistory.ReplayIsMemory | packages/fleet-supervisor/src/executor.ts:75-155 | the state replayed from any journal is the state read off a per-proposal summary kept in memory |
| ExecutorHistory.MemoryRunIsReplayRun | packages/fleet-supervisor/src/executor.ts:201-239 | a run that consults only the memory takes the same turns as one that replays the journal |
| ExecutorHistory.ReplayRefinesMemory | packages/fleet-supervisor/src/executor.ts:201-239 | over every history of runs and foreign appends, from any journal whatsoever, the replaying executor and the remembering one have the same journal and the same turns |
| ExecutorHistory.ReplayedStateIsPhase | packages/fleet-supervisor/src/executor.ts:48-155 | for a well-formed trace the replayed state is that of the machine Fresh, Waiting(n, until), Done, GivenUp |
| ExecutorHistory.TurnFromPhase | packages/fleet-supervisor/src/executor.ts:211-236 | a turn is taken exactly when the phase is due; it closes the proposal or is the next numbered, stamped failed attempt |
| ExecutorHistory.RestartTurnIsLawful | packages/fleet-supervisor/src/executor.ts:246-276 | at most one disable and two enables; executed is recorded exactly when the last call is a successful enable |
| ExecutorHistory.ActionTurnIsLawful | packages/fleet-supervisor/src/executor.ts:288-318 | no call for an expired, unselected or never-restart proposal, and none for actions without an actuator |
| ExecutorHistory.StepKeepsAccounted | packages/fleet-supervisor/src/executor.ts:201-239 | one run or foreign append keeps: the journal's entries of a proposal are those of the turns taken for it, and those turns form one life |
| ExecutorHistory.EveryProposalLivesOnce | packages/fleet-supervisor/src/executor.ts:201-239 | so over every history, for a proposal only this executor acts on |
| ExecutorHistory.JournalTraceOverAnyHistory | packages/fleet-supervisor/src/executor.ts:75-239 | its entries are failed attempts 1, 2, ... in order, then at most one executed or skipped entry, three at most in all, nothing after a closing one; and the replayed state is that trace's phase |
| ExecutorHistory.ActuationIsBounded | packages/fleet-supervisor/src/executor.ts:71-73 | at most 3 disables and 6 enables over a whole life, each permitted at its time, and attempt n+2 no sooner than 30 s * 2^n after the one before |
| ExecutorHistory.RunActsExactlyWhenDue | packages/fleet-supervisor/src/executor.ts:211-236 | a run takes one turn for a proposal if it is proposed on that node and due, and none otherwise |
| ExecutorMeaning.ClosedStays | packages/fleet-supervisor/src/executor.ts:75-155 | an executed or skipped entry, or a failure without an attempt number, ends the proposal for good |
| ExecutorMeaning.FreshMeaning | packages/fleet-supervisor/src/executor.ts:75-155 | without such an entry and without a failure that counts, a proposal is pending with three attempts ahead |
| ExecutorMeaning.WaitingMeaning | packages/fleet-supervisor/src/executor.ts:75-155 | otherwise the failure with the greatest attempt number, the first of those, decides: given up at its limit, pending from its retry time on |
| ExecutorMeaning.TurnMeaning | packages/fleet-supervisor/src/executor.ts:246-366 | a turn is taken exactly from a pending state. A call is made if and only if the proposal is due, selected, an evict or restart, and not never-restart. An Enable occurs only if the first call is a Disable that exited 0, a second one only after an Enable with a nonzero exit. A restart is Executed if and only if the first call is that Disable and the last an Enable that exited 0; else reason and exit code are those of the last call. Only a failure carries attempt number, limit and retry time |
| ExecutorMeaning.RunMeaning | packages/fleet-supervisor/src/executor.ts:201-239 | a run takes one such turn for each of the given proposals whose replayed state is pending, in order, its calls answered in order |
| ExecutorMeaning.EveryTurnIsMeant | packages/fleet-supervisor/src/executor.ts:201-366 | so is every turn of every history, from every journal |
| AggregatorDb.Database.WriteSnapshot | packages/fleet-supervisor/src/aggregator-db.ts:88-124 | the table becomes the upsert (received_at kept when the content is identical) followed by the prune of that node to its 200 greatest ts |
| AggregatorDb.Database.GetLatestPerNode | packages/fleet-supervisor/src/aggregator-db.ts:126-162 | exactly one row per node, the greatest by (received_at or ts, ts), in the order of the nodes' UTF-8 bytes, minus those before the cutoff |
| AggregatorDb.Utf8KeepsOrder | packages/fleet-supervisor/src/aggregator-db.ts:147 | that order of the bytes is the order of the code points |
| AggregatorDb.LatestIsUnique | packages/fleet-supervisor/src/aggregator-db.ts:126-162 | a node has one latest row |
| SnapshotHistory.RowsAreTheNewestWritten | packages/fleet-supervisor/src/aggregator-db.ts:88-124 | after any writes a node's rows are the 200 greatest distinct ts ever written for it |
| SnapshotHistory.RetentionMeaning | packages/fleet-supervisor/src/aggregator-db.ts:88-124 | only what was written is stored, at most 200 rows a node; if anything written is missing there are 200, all newer than it |
| SnapshotHistory.NewContentIsLatest | packages/fleet-supervisor/src/aggregator-db.ts:126-162 | new content that arrives after every stored row of its node, or with the last and no earlier ts, heads the node with its own arrival time; a row without an arrival time counts as arrived at its ts |
| SnapshotHistory.EveryRowHasItsOrigin | packages/fleet-supervisor/src/aggregator-db.ts:97-112 | each stored row carries the last content written for its ts, received at the time of the write that began the current run of that content, and that write changed the table |
| SnapshotHistory.UnchangedExactlyByReplay | packages/fleet-supervisor/src/aggregator-db.ts:97-123 | a write leaves the table as it was if and only if it repeats the stored content or is older than 200 stored rows |
| SnapshotHistory.PrunedWriteIsReplay | packages/fleet-supervisor/src/aggregator-db.ts:113-123 | rewriting any pruned ts, with any content, is such a write |
| SnapshotHistory.ReplayedTableIsRetained | packages/fleet-supervisor/src/aggregator-db.ts:113-123 | every node is within the retention limit after any history |
| SnapshotHistory.ReplaysChangeNothing | packages/fleet-supervisor/src/aggregator-db.ts:97-123 | any sequence of such writes leaves the table unchanged |
| SnapshotHistory.HolderHasFreshContent | packages/fleet-supervisor/src/lease-election.ts:54-80 | whoever the election returns at `now` has an eligible intent that a write put into the table, inserting or changing a row, less than `staleAfterMs` before `now` |
| SnapshotHistory.SilentPeerDropsOut | packages/fleet-supervisor/src/lease-election.ts:54-80 | however all writes are interleaved: if every not yet stale write carrying a peer's intent was a replay of the table as it was then, that peer is not the holder |
| SnapshotHistory.ReplaysCannotReviveHolder | packages/fleet-supervisor/src/aggregator-db.ts:97-123 | a sequence of replays changes neither the table nor who is out |
| LeaseElection.ElectLeaseHolder | packages/fleet-supervisor/src/lease-election.ts:54-80 | returns the least (term, candidate) among fresh eligible rows, and none if and only if there are none |
| LeaseElection.ElectIsLeastKept | packages/fleet-supervisor/src/lease-election.ts:54-80 | the election as a function meets the same definition |
| LeaseElection.LeastIsUnique | packages/fleet-supervisor/src/lease-election.ts:62-79 | the definition determines the result |
| LeaseElection.HolderMeaning | packages/fleet-supervisor/src/lease-election.ts:21-80 | the holder is the candidate of a fresh, eligible, well-typed row than which no other has a lower term, nor its term and a lesser name; there is none exactly when no row stands |
| LeaseElection.TextLessMeaning | packages/fleet-supervisor/src/lease-election.ts:72-77 | one name is less than another exactly when it is a proper beginning of it or less at the first difference |
| LeaseElection.BeforeIsStrictTotalOrder | packages/fleet-supervisor/src/lease-election.ts:72-77 | the comparison is a strict total order on standings |
| LeaseElection.RowOrderIsIrrelevant | packages/fleet-supervisor/src/lease-election.ts:54-80 | views with the same rows elect the same holder, in any order and multiplicity |
| LeaseElection.ViewsAgree | packages/fleet-supervisor/src/lease-election.ts:54-80 | two different views agree as soon as each keeps the other's least intent |
| LeaseElection.ElectionOfMerge | packages/fleet-supervisor/src/lease-election.ts:54-80 | the election over two views together is the lesser of their winners |
| LeaseElection.HolderKeptWhileFresh | packages/fleet-supervisor/src/lease-election.ts:64-71 | as time passes over fixed rows the winner stays if and only if a row carrying it is still fresh |
| LeaseElection.RaisedTermNeverWins | packages/fleet-supervisor/src/lease-term.ts:20-35 | raising a candidate's term, as each restart does, never makes it newly win |
| CompletionProbe.MaxProgress | packages/fleet-supervisor/src/completion-probe.ts:126-144 | the greatest counters over processing slots, none when no such slot reports one, and whether any slot is processing or of unknown state |
| CompletionProbe.GuardStateIsHistory | packages/fleet-supervisor/src/completion-probe.ts:173-267 | the carried state is determined by the history: the last counters, the time of the last reset, and the number of counted stalls since |
| CompletionProbe.StepOnObservation | packages/fleet-supervisor/src/completion-probe.ts:146-267 | unobserved probes keep the state, a first, advancing or lowering reading restarts it, the others carry it on |
| CompletionProbe.WedgeNeedsEvidence | packages/fleet-supervisor/src/completion-probe.ts:222-267 | a wedge is declared if and only if the probe is a counted stall and, since the last reset, at least `busyStallChecks` stalls were taken at least `minStallIntervalMs` after it |
| CompletionProbe.FailuresCountWedges | packages/fleet-supervisor/src/completion-probe.ts:173-267 | the failure count is the number of wedge and idle-wedge verdicts |
| CompletionProbe.VerdictMeaning | packages/fleet-supervisor/src/completion-probe.ts:189-267 | from the slots of the last probe: idle-wedge if and only if the probe is wedge-classified, available, and every slot is known to be idle; a probe that is no wedge, unavailable, or of unknown and not processing slots leaves failures and state as they were, without a reason; the busy verdicts follow from resets and stalls |
| CompletionProbe.FailuresAreHistory | packages/fleet-supervisor/src/completion-probe.ts:189-267 | so the failure count is stated by the history alone: the idle failures and the probes at which the evidence for a wedge is complete |
| CompletionProbe.ObservedIsBusyFailure | packages/fleet-supervisor/src/completion-probe.ts:126-144 | what a probe observes, by its slots: only a wedge-classified available reading with a slot known to be processing |
| CompletionProbe.ResetMeaning | packages/fleet-supervisor/src/completion-probe.ts:146-171 | a reset is a first observation, or one with a counter known at both ends that moved |
| CompletionProbe.FlatMeaning | packages/fleet-supervisor/src/completion-probe.ts:152-171 | a flat probe is one whose known counters stand still with none gone missing |
| CompletionProbe.OnlyResetsForgive | packages/fleet-supervisor/src/completion-probe.ts:152-171 | unavailable, ambiguous or counter-dropping readings never lower `stallChecks` or move `lastAdvanceAt` |
| CompletionProbe.FlatRunRaisesExactly | packages/fleet-supervisor/src/completion-probe.ts:222-267 | n flat probes in the window raise failures by exactly max(0, n - busyStallChecks + 1), and its generalisation to any starting count |
| CompletionProbe.FoldSplits | packages/fleet-supervisor/src/completion-probe.ts:173-267 | a run of probes can be split anywhere |
| Quantiles.PercentileIsQuantile | packages/fleet-supervisor/src/completion-probe.ts:98-103 | the value at the nearest rank is the least sample that at least that share of the samples does not exceed |
| Quantiles.QuantilesAscend | packages/fleet-supervisor/src/engine-throughput.ts:193-209 | a larger share never gives a smaller quantile |
| Quantiles.QuantileIsUnique | packages/fleet-supervisor/src/engine-throughput.ts:193-209 | a share determines its quantile, so the definition says everything about the value |
| Quantiles.EffectiveTimeoutCovers | packages/fleet-supervisor/src/completion-probe.ts:105-117 | never below base, never above the larger of base and cap, the base while samples are few; with enough samples and the cap not binding, it leaves k times a latency that 95% of the samples stay within |
| Quantiles.Ring.Push | packages/fleet-supervisor/src/completion-probe.ts:119-124 | the ring holds the last `cap` of what it held and the new sample |
| Quantiles.LastOfLast | packages/fleet-supervisor/src/completion-probe.ts:119-124 | keeping the last n after each push is keeping the last n of everything pushed |
| Quantiles.LastOfMeaning | packages/fleet-supervisor/src/completion-probe.ts:119-124 | what is kept is the end of the sequence: everything while it fits, then the newest |
| EngineThroughput.IntervalRates.AbsorbPair | packages/fleet-supervisor/src/engine-throughput.ts:294-321 | one pair of samples adds its interval to every tally: rates, slot group, interval count, resets |
| EngineThroughput.CollectIntervals | packages/fleet-supervisor/src/engine-throughput.ts:323-339 | the tallies are those of all neighbouring pairs of the window, in order |
| EngineThroughput.IntervalsAreTheNeighbours | packages/fleet-supervisor/src/engine-throughput.ts:331-337 | there is one interval per neighbouring pair |
| EngineThroughput.NextSampleMeaning | packages/fleet-supervisor/src/engine-throughput.ts:266-339 | a further sample adds nothing if the clock did not move on; one reset if the revision is known at both ends and differs or a known counter went back; otherwise, for each counter that grew, a rate whose time is the growth, the decode rate also to the group of the slots busy at both ends |
| EngineThroughput.RatesConserveTokens | packages/fleet-supervisor/src/engine-throughput.ts:266-321 | for every window, rate times time summed over the measured intervals equals the growth of the counter summed over the stretches between breaks (reset, stopped clock, unknown counter) |
| EngineThroughput.StretchesAreMaximal | packages/fleet-supervisor/src/engine-throughput.ts:270-275 | the stretches are the window cut at exactly the breaks |
| EngineThroughput.UnbrokenWindow | packages/fleet-supervisor/src/engine-throughput.ts:277-283 | with known counters, a running clock and no reset, the rates account for the counter's whole movement |
| EngineThroughput.IntervalsAndResetsFit | packages/fleet-supervisor/src/engine-throughput.ts:294-321 | intervals and resets together are at most the number of pairs, with equality exactly when every pair is one or the other |
| EngineThroughput.GroupsFitDecode | packages/fleet-supervisor/src/engine-throughput.ts:318-320 | the slot groups together hold no more rates than were decoded |
| EngineThroughput.DistributionSummarises | packages/fleet-supervisor/src/engine-throughput.ts:198-209 | p10, median and p90 are the nearest-rank quantiles of the values and in that order |
| EngineThroughput.SummaryBounds | packages/fleet-supervisor/src/engine-throughput.ts:435-475 | intervals + resets <= samples - 1; the decode count is within the intervals and each slot group within the decode count |
| EngineThroughput.Recorder.RecordCounters | packages/fleet-supervisor/src/engine-throughput.ts:410-421 | only that workload's window changes, to the last `maxSamples` of its samples and the new one |
| EngineThroughput.Recorder.RecordCompletion | packages/fleet-supervisor/src/engine-throughput.ts:427-433 | likewise for completions |
| EngineThroughput.Recorder.BufferFor | packages/fleet-supervisor/src/engine-throughput.ts:485-493 | an existing buffer is shared, a new one is empty and belongs to no other workload |
| EngineThroughput.Recorder.Forget | packages/fleet-supervisor/src/engine-throughput.ts:481-483 | only that workload's window goes |
| EngineThroughput.Recorder.Get | packages/fleet-supervisor/src/engine-throughput.ts:435-475 | none exactly for an unknown workload; otherwise every field of the statistics summarises its window |
| EngineThroughput.MeanWithinMax | packages/fleet-supervisor/src/engine-throughput.ts:442-465 | the mean occupancy lies between zero and the maximal one, and one is known exactly when the other is |
| Gauges.DefinedValues | packages/fleet-supervisor/src/engine-throughput.ts:235-244 | the known readings, in order |
| Gauges.KnownMeaning | packages/fleet-supervisor/src/engine-throughput.ts:235-244 | each item adds its reading, if it has one, at its place |
| Gauges.MeanOf | packages/fleet-supervisor/src/engine-throughput.ts:211-220 | as many copies of the mean as there are values add up to their sum; none for no values |
| Gauges.MeanBetween | packages/fleet-supervisor/src/engine-throughput.ts:211-220 | a mean lies between any bounds of its values |
| Gauges.MaxOf | packages/fleet-supervisor/src/engine-throughput.ts:222-233 | one of the values and none is greater; none for no values |
| Gauges.PositiveShare | packages/fleet-supervisor/src/engine-throughput.ts:352-365 | the share of the known readings that are above zero; none when none is known |
| Gauges.CountMeaning | packages/fleet-supervisor/src/engine-throughput.ts:352-365 | each value counts once when it is above the bound |
| Gauges.ShareIsAShare | packages/fleet-supervisor/src/engine-throughput.ts:352-365 | between 0 and 1, and 0 exactly when nothing was deferred |
| Gauges.CachedShareOf | packages/fleet-supervisor/src/engine-throughput.ts:367-382 | the cached tokens as a share of all prompt tokens of the usable completions; none without tokens |
| Gauges.TokensMeaning | packages/fleet-supervisor/src/engine-throughput.ts:367-382 | a completion with both counts and at least one token adds each to its sum, any other nothing |
| Gauges.CachedShareIsAShare | packages/fleet-supervisor/src/engine-throughput.ts:367-382 | between 0 and 1, and known exactly when some completion is usable |
| EngineThroughput.NewRecorder | packages/fleet-supervisor/src/engine-throughput.ts:396-408 | refuses fewer than two samples or fewer than one request |
| EngineThroughput.WindowIsLastOfHistory | packages/fleet-supervisor/src/engine-throughput.ts:410-493 | after any calls a workload's buffer is the last `maxSamples` of everything recorded for it since it was last forgotten |
| InfraRollout.PlanIsPartition | packages/fleet-supervisor/src/infra-rollout.ts:25-36 | non-empty groups that partition the peers, others in order and then the local node, which no other peer follows |
| InfraRollout.Fleet.RunGroup | packages/fleet-supervisor/src/infra-rollout.ts:58-124 | the calls made and the outcome, for every pattern of answers |
| InfraRollout.GroupMeaning | packages/fleet-supervisor/src/infra-rollout.ts:58-124 | in the log of a group: installs on every peer; activations of every peer exactly if no install was rejected; polls of every peer exactly if no activation was; and each outcome if and only if the answers say so |
| InfraRollout.RollbackMeaning | packages/fleet-supervisor/src/infra-rollout.ts:95-110 | after a rejected activation, the peers that did not reject are activated back to the previous version, if there is one |
| InfraRollout.SwitchedMeaning | packages/fleet-supervisor/src/infra-rollout.ts:95-110 | those are the peers of the calls that were not rejected, once for each, in order |
| InfraRollout.Fleet.RunRollout | packages/fleet-supervisor/src/infra-rollout.ts:126-151 | the calls of the groups in order up to the first that fails, and its outcome |
| InfraRollout.OkMeansEverywhere | packages/fleet-supervisor/src/infra-rollout.ts:143-150 | after an ok rollout every peer runs the new version and was found healthy, and nobody else changed |
| InfraRollout.FailureIsContained | packages/fleet-supervisor/src/infra-rollout.ts:143-150 | a failure in group k: later groups get no call, and the exact version every peer of the rollout is left on, for each way of failing |
| InfraRollout.FailedInstallActivatesNobody | packages/fleet-supervisor/src/infra-rollout.ts:84-86 | after a failed install, peers of no completed group have had installs only |
| InfraRollout.RolloutRollsBack | packages/fleet-supervisor/src/infra-rollout.ts:95-110 | of a rollout that failed to activate: who is left on the new version, if and only if, and that with every second activation accepted nobody is |
| InfraRollout.RolloutStopsAtFailure | packages/fleet-supervisor/src/infra-rollout.ts:143-150 | a rollout is its completed groups and then at most one failing group |
| InfraRollout.InstallFailureLeaves | packages/fleet-supervisor/src/infra-rollout.ts:72-86 | every call was an install and no version changed |
| InfraRollout.ActivateFailureLeaves | packages/fleet-supervisor/src/infra-rollout.ts:88-110 | the exact version every peer is left on after an activation failure |
| InfraRollout.RollbackIsComplete | packages/fleet-supervisor/src/infra-rollout.ts:95-109 | with a previous version and every second activation accepted, nobody in the group is left on the new version |
| InfraRollout.ActivatedGroupLeaves | packages/fleet-supervisor/src/infra-rollout.ts:112-123 | once all have accepted, the group is on the new version whatever the polls say; ok if and only if every poll was healthy |
| JournalReader.JournalLine.Consume | packages/fleet-supervisor/src/journal-reader.ts:14-36 | a line is returned whole when complete and within the limit; going over the limit is reported once; an unfinished line owns its bytes, so the read buffer may be overwritten |
| JournalReader.JournalLine.BufferIsBounded | packages/fleet-supervisor/src/journal-reader.ts:14-36 | the bytes held never exceed the limit |
| JournalReader.ReadJournalLines | packages/fleet-supervisor/src/journal-reader.ts:46-71 | for every content and every pattern of short reads, yields exactly the split of what was read minus the lines over the limit, in order, last segment included, and reports each removed line once |
| JournalReader.ConsumeChunk | packages/fleet-supervisor/src/journal-reader.ts:56-65 | the segments of one chunk carry the consumed prefix across it |
| JournalReader.SplitIsJoinInverse | packages/fleet-supervisor/src/journal-reader.ts:46-71 | splitting at newlines is undone by joining, and no line holds a newline |
| JournalReader.ShortMeaning | packages/fleet-supervisor/src/journal-reader.ts:1-36 | a line is kept exactly when it has at most 8 MiB; order and repetitions stay |
| JournalReader.ConsumeSegment | packages/fleet-supervisor/src/journal-reader.ts:57-64 | one segment, ended by a newline or by the end of the chunk, moves the consumed prefix forward by exactly its bytes |
| PidIdentity.VerdictMeaning | packages/core/src/pidIdentity.ts:211-268 | exactly when a record is alive, and exactly when it is provably gone; a command expectation can only turn alive into unknown |
| PidIdentity.VerifyPidFiles | packages/core/src/pidIdentity.ts:276-303 | one verdict per path, that of the single-record check of the record that decides the path; so for distinct paths the batch equals the single checks |
| Server.Host.TerminateVerifiedPid | packages/core/src/pidIdentity.ts:344-373 | the signals sent and verdicts taken in every case: SIGTERM, then a look a second until the pid is gone or the grace period is over, then SIGKILL only after a second alive verdict |
| Server.Host.StopServer | packages/core/src/server.ts:1486-1524 | what a stop does is one of the allowed traces, and the files are removed exactly when it reports stopped |
| Server.StopNeverActsOnUnprovenIdentity | packages/core/src/server.ts:1486-1524 | every signal directly follows an alive verdict on that pid; SIGKILL follows SIGTERM and a second alive verdict; unknown never leads to a delete; files go if and only if stopped; killed implies stopped |
| Server.Host.KillTarget | packages/core/src/server.ts:963-982 | the abort handler signals its current target once, if it has one |
| Server.Host.WireAbortToKill | packages/core/src/server.ts:1192-1196 | an abort that already fired kills at once, otherwise the handler listens |
| Server.Host.PollUntilReady | packages/core/src/server.ts:766-786 | ready if and only if the last answer for the pid was 200, with no earlier 200; exited only if the pid was last seen dead; timed out only after `timeoutSeconds` answers, none 200, the pid alive at the end; and what each outcome says about the abort |
| Server.Host.ProbeHealth | packages/core/src/server.ts:690-720 | a health probe reads the answer and whether the pid lives, and records both |
| Server.Host.AbortedStartResult | packages/core/src/server.ts:984-1006 | no pid, both files gone, and nothing armed any more |
| Server.Host.LaunchBackground | packages/core/src/server.ts:1159-1185 | a launched pid is owned by this call; a launch that throws leaves no trace |
| Server.Host.RetryWithMmprojSafeFlags | packages/core/src/server.ts:1038-1116 | the first launch is handed over and stopped, the second recorded in both files, and every early result is consistent |
| Server.Host.Relaunch | packages/core/src/server.ts:1069-1116 | the second launch, recorded, armed and polled; every early result is consistent |
| Server.Host.ClearTheWay | packages/core/src/server.ts:1128-1156 | stop and port check: refused leaves the files alone, adopted records the running pid, otherwise both files are gone |
| Server.Host.SettleAttempt | packages/core/src/server.ts:1276-1288 | an abort cleans up and ends as aborted, readiness ends as ready with the listener gone, anything else goes on |
| Server.Host.FirstAttempt | packages/core/src/server.ts:1260-1288 | launch, record, arm and poll: the files and the poll agree with the result |
| Server.Host.StartServer | packages/core/src/server.ts:1214-1343 | for every interleaving of the abort with the awaits: files absent or naming the same pid, ok means the recorded pid is the returned one and its last health answer was 200, aborted means nothing recorded, the handler and the aborted result only ever signalled a pid this call owned at that moment, and nothing can be signalled after return |
| Server.StartOn | packages/core/src/server.ts:1214-1343 | the same from any state of the files and of the caller's signal |
| KvLease.AdvanceIsAccounted | packages/core/src/openaiProxy.ts:1576-1746 | every atomic segment keeps the request's books and touches only what that request holds |
| KvLease.RestoringIsAccounted | packages/core/src/openaiProxy.ts:1602-1635 | the exits after a restore: failed restore, lost reservation, replay mismatch, throw, success |
| KvLease.HitIsAccounted | packages/core/src/openaiProxy.ts:1585-1596 | reserve, then acquire or undo the reservation |
| KvLease.FalseHitIsAccounted | packages/core/src/openaiProxy.ts:2137-2167 | a false hit gives back what the warm hit held, once |
| KvLease.ReleaseWarmHitIsAccounted | packages/core/src/openaiProxy.ts:1882-1892 | releases what the warm-hit fields hold, once, and clears them |
| KvLease.SavingIsAccounted | packages/core/src/openaiProxy.ts:2331-2389 | the persist lease goes in its own finally block, however the save ends, also by a throw after the row was committed |
| KvLease.RunKeepsInvariant | packages/core/src/openaiProxy.ts:2566-2610 | over every interleaving: each open lease has exactly one owner, at most one is open per workload, no row is marked in vain |
| KvLease.EveryExitBalances | packages/core/src/openaiProxy.ts:2566-2610 | a finished request has released every acquire and every reservation, except exactly one of each if a slot-client or replay call threw on it; a warm hit never takes a second lease |
| KvLease.OneHolderPerSlot | packages/core/src/kvstore/slotAllocator.ts:23-35 | at every moment of every run at most one request holds a lease of a workload, and it holds one |
| KvHistory.AdvanceStrands | packages/core/src/openaiProxy.ts:1602-1635 | a segment strands a lease if and only if it is a throw while the lease is held outside context.kv, and a stranded lease stays so |
| KvHistory.OrphanIffStranded | packages/core/src/openaiProxy.ts:2590-2595 | over any run, a request has a stranded lease if and only if such a throw is among the run's events |
| KvHistory.ExitBalancesUnlessStranded | packages/core/src/openaiProxy.ts:2566-2610 | a finished request has released all it took, but for exactly one lease and one reservation if the run holds such a throw of it |
| KvHistory.SlotInUseIffStranded | packages/core/src/openaiProxy.ts:2566-2610 | when all have finished a slot is in use if and only if the run holds such a throw by a request of that workload |
| KvHistory.StrandedSlotStaysBusy | packages/core/src/openaiProxy.ts:718-725 | from the throw on, whatever follows, that slot is in use at every moment |
| KvHistory.CallsReturnFreesEverySlot | packages/core/src/openaiProxy.ts:2566-2610 | without such a throw every exit balances, no slot stays in use, and with every release written all rows are idle |
| KvHistory.ThrowLosesTheSlot | packages/core/src/openaiProxy.ts:1602-1606 | a run of one request whose restore throws ends with the slot in use and the row reserved |
| KvHistory.AdvanceMoves | packages/core/src/kvstore/registry.ts:165-220 | a segment unmarks only rows its request holds or commits, and what it newly holds it has marked itself |
| KvHistory.HeldRowsGuardedIffNoOverwrite | packages/core/src/kvstore/registry.ts:69-136 | at every moment every held row is marked and has one holder, if and only if no request of the run commits a row that another holds |
| KvHistory.OverwriteUnguards | packages/core/src/openaiProxy.ts:2174-2229 | such a commit leaves the row idle or gone in its holder's hands |
| KvHistory.OverwriteCrossesWorkloads | packages/core/src/openaiProxy.ts:718-725 | it is always a commit by another workload's request |
| KvHistory.HeldRowsAreOwn | packages/core/src/openaiProxy.ts:1668-1678 | a request only ever holds the row of its own prefix hash |
| KvHistory.PrefixesApartStayGuarded | packages/core/src/openaiProxy.ts:1668-1678 | so if requests of different workloads never share a prefix hash, every held row stays guarded over every run |
| KvHistory.CommitFreesHeldRow | packages/core/src/openaiProxy.ts:2174-2229 | a run in which a row being restored from is committed, and freed, by a request of another workload |
| KvMeaning.AdvanceMeaning | packages/core/src/openaiProxy.ts:1576-1746 | every segment does what its answers call for, over the raw rows, open leases, context.kv and place: which answers take a hit, abandon it, drop or free its row, save, commit and evict |
| KvMeaning.ColdMissIsSaved | packages/core/src/openaiProxy.ts:2331-2389 | a prompt that misses, whose body is read, whose save is supported and whose slot is free ends in the registry as an idle row, the slot free again, and of the other rows only evicted idle ones gone |
| KvMeaning.WarmHitIsServed | packages/core/src/openaiProxy.ts:2137-2167 | a prompt whose row is idle and whose slot is free is bound with both in context.kv; its row ends idle, or out of the registry exactly when the first token differs, and the lease is gone |
| KvProxy.Proxy.ProxyOpenAI | packages/core/src/openaiProxy.ts:2566-2610 | the code of one request, against any steps of others at every await, takes only protocol steps and ends with every acquire and reserve it called released once, except one of each if and only if the run holds such a throw of it |
| KvProxy.Proxy.PersistSlotAndMaintain | packages/core/src/openaiProxy.ts:2331-2358 | wherever it stops, by returning or throwing, the row is either untouched or committed as idle; of all rows only evicted idle ones are gone |
| KvProxy.Proxy.MaybeKvLookup | packages/core/src/openaiProxy.ts:1659-1746 | a lookup, whatever it throws, ends where the protocol says a request goes on to forward, with context.kv empty, cold and to be persisted, or holding the row of its own prefix hash and a lease |
| KvProxy.Proxy.ApplyWarmKvHit | packages/core/src/openaiProxy.ts:1576-1606 | a hit is refused exactly with its row not reservable, and nothing changed, or with the slot in use, and the row let go; a warm outcome holds row and lease in context.kv |
| KvProxy.Proxy.AfterRestore | packages/core/src/openaiProxy.ts:1602-1617 | a failed restore or lost reservation gives the row and the lease back, and drops the row only if the restore failed; stated over the rows and leases |
| KvProxy.Proxy.AfterActivation | packages/core/src/openaiProxy.ts:1618-1657 | a replay mismatch gives both back and drops the row; a throw leaves context.kv empty; otherwise it holds row and lease |
| KvProxy.Proxy.CheckFalseHit | packages/core/src/openaiProxy.ts:2137-2167 | with a warm hit on `sha`: the row is gone when the registry writes and deletes, idle when it only writes, untouched when it does not; every other row as it was, the lease gone; without one nothing changes |
| KvProxy.Proxy.ReleaseWarmHitLease | packages/core/src/openaiProxy.ts:1882-1892 | the row the warm hit holds becomes idle if the registry writes, its lease is gone, and nothing else changes |
| KvProxy.Proxy.MaybePersistKv | packages/core/src/openaiProxy.ts:2360-2389 | persisting, with both finally blocks, ends where the protocol says a request goes on to respond |
| KvProxy.Proxy.ForwardAndRespond | packages/core/src/openaiProxy.ts:2596-2609 | forward, persist and respond under the outer finally block; the request is done on every exit and context.kv holds nothing any more |
| Routing.RouteList.AppendPeerRoutes | packages/core/src/workloadRuntime.ts:95-127 | appends the peer's first route of each model not yet seen, nothing for an invalid endpoint |
| Routing.ListClusterRoutes | packages/core/src/workloadRuntime.ts:129-147 | the local routes, then the first offer of each remaining model among the usable peers in configured order |
| Routing.SortIsOrdered | packages/core/src/openaiProxy.ts:135-138 | the routes ordered by kind, then workload, none lost |
| Routing.SortIsStable | packages/core/src/openaiProxy.ts:135-138 | routes level in that order keep the order in which they were listed |
| Routing.BestWins | packages/core/src/openaiProxy.ts:414-453 | a model's route is the least by (kind, workload), the earliest listed among equals |
| Routing.BuildRouteMap | packages/core/src/openaiProxy.ts:414-453 | maps exactly the served models, each to that best route, in the order of the sorted winners |
| Routing.BuildListOpenAIModels | packages/core/src/openaiProxy.ts:132-158 | one entry per winner, in the same order, owned by llamactl-agent for a ModelRun and llamactl-host for a ModelHost |
| Routing.ListedIsRouted | packages/core/src/openaiProxy.ts:132-158 | the advertised models are exactly the route map's keys, in its order, each once |
| Routing.LocalRoutesHavePriority | packages/core/src/workloadRuntime.ts:129-147 | a model any local route serves goes to the best local one; otherwise to the first offer; otherwise nowhere |
| Routing.FirstOfferIsFirstPeer | packages/core/src/workloadRuntime.ts:95-147 | the first offer is the route, field by field, to the first workload of that model on the first configured peer that has a snapshot at most 30 s old, normal pressure, a parsable endpoint and the model; there is none if and only if no such peer exists |
| RoutingMeaning.BestMeaning | packages/core/src/openaiProxy.ts:414-453 | a served model goes to the one of its routes that no other precedes (ModelRun before ModelHost, then the lesser workload name), the first listed on a tie; a model nobody serves to none |
| RoutingMeaning.FirstOfEachMeaning | packages/core/src/workloadRuntime.ts:95-147 | of each model not seen before exactly its first route is kept, the kept ones in their order |
| RoutingMeaning.WinnersMeaning | packages/core/src/openaiProxy.ts:132-158 | the routes behind the advertised models are the winners of all the models served, each once, none behind one that it precedes |
| TunnelDispatch.Subscription.SafeSettle | packages/cli/src/tunnel-dispatch.ts:70-95 | the first settling callback goes through, the rest do nothing |
| TunnelDispatch.Subscription.HandleFrame | packages/cli/src/tunnel-dispatch.ts:97-159 | what one frame leads to while unsettled: complete for a done frame that says ok, an error for one that says not or does not parse, the parsed value for one without an event name, nothing for any other; and nothing once aborted |
| TunnelDispatch.Subscription.DrainSseFrames | packages/cli/src/tunnel-dispatch.ts:247-268 | delivers the complete frames of the buffer in order and keeps what is left |
| TunnelDispatch.Subscription.ReadTunnelSseStream | packages/cli/src/tunnel-dispatch.ts:272-289 | absent an unsubscribe while waiting, the callbacks are those of the concatenated body |
| TunnelDispatch.Subscription.PumpTunnelSse | packages/cli/src/tunnel-dispatch.ts:161-218 | exactly one of complete, error and the caller's unsubscribe ends it, the last only if a handler or the caller did unsubscribe; absent an unsubscribe while waiting, what is heard is the values of the frames before the first terminal one and the ending that one calls for |
| TunnelFrames.FramesOfConcat | packages/cli/src/tunnel-dispatch.ts:247-268 | cutting frames off a prefix first, separators split in any way, changes neither the frames nor the rest |
| TunnelFrames.ActionMeaning | packages/cli/src/tunnel-dispatch.ts:97-159 | a frame succeeds, fails, carries a value or says nothing exactly by its last `event:` and last `data:` line, trimmed |
| TunnelFrames.FailureMeaning | packages/cli/src/tunnel-dispatch.ts:97-159 | a done frame that is malformed or reports an error fails with exactly that; data that does not parse fails |
| TunnelFrames.FieldsAreLastLines | packages/cli/src/tunnel-dispatch.ts:141-152 | a field is the trimmed rest of the last line with its prefix, or empty without one |
| TunnelFrames.TrimMeaning | packages/cli/src/tunnel-dispatch.ts:141-152 | trimming takes off white space on both sides, all of it and nothing else |
| TunnelFrames.LinesRejoin | packages/cli/src/tunnel-dispatch.ts:141-152 | the lines of a frame joined by newlines are the frame |
| TunnelFrames.FramesRejoin | packages/cli/src/tunnel-dispatch.ts:247-268 | the frames, each with its separator, and the rest are the body |
| TunnelDispatch.FrameIsHeard | packages/cli/src/tunnel-dispatch.ts:97-159 | one frame to an unsettled subscription: Complete is heard if and only if it ends well, an Error with exactly its failure if and only if it ends badly, its value if it carries one, and nothing otherwise |
| TunnelDispatch.FramesAreHeard | packages/cli/src/tunnel-dispatch.ts:247-268 | of a list of frames: the values before the first terminal one, then its ending |
| TunnelDispatch.FirstEndingExists | packages/cli/src/tunnel-dispatch.ts:247-268 | every list of frames has that position |
| TunnelDispatch.BodyIsHeard | packages/cli/src/tunnel-dispatch.ts:161-289 | so for a whole body, with the end of the stream where no frame is terminal |
| TunnelDispatch.DeliverAllIsOrderly | packages/cli/src/tunnel-dispatch.ts:118-159 | nothing is delivered after settling |
| TunnelDispatch.ChunkingIsInvisible | packages/cli/src/tunnel-dispatch.ts:247-289 | for every way to cut a body into chunks the callbacks are those of the whole body |
| TunnelDispatch.DeliverAllAborts | packages/cli/src/tunnel-dispatch.ts:118-139 | frames abort a subscription only by a handler that unsubscribes |
| TunnelDispatch.EndsOneWay | packages/cli/src/tunnel-dispatch.ts:70-95 | a subscription the caller did not abort heard exactly one of complete and error, and one it did abort heard neither |
| TunnelDispatch.SettlesExactlyOnce | packages/cli/src/tunnel-dispatch.ts:70-95 | exactly one of complete, error and unsubscribe, and data only before it |
| StripComments.LineCommentEnd | scripts/measure-410.ts:938-944 | stops at the newline or the end |
| StripComments.BlockCommentEnd | scripts/measure-410.ts:946-958 | stops behind the first closing marker or at the end, and writes the newlines passed |
| StripComments.StringLiteralEnd | scripts/measure-410.ts:960-975 | stops behind the closing quote or at the end, escapes honoured, and copies what it passed |
| StripComments.StripText | scripts/measure-410.ts:977-999 | the loop computes the stripped text |
| StripComments.StrippingIsIdempotent | scripts/measure-410.ts:977-999 | stripping twice is stripping once, for every text; and the output has the input's string literals, in order |
| StripComments.NewlinesAreKept | scripts/measure-410.ts:946-999 | the output has the input's newlines |
| StripComments.CopiedTokenIsStable | scripts/measure-410.ts:960-999 | whatever is copied is lexed in the output as it was in the input |
| StripComments.OutputIsCommentFree | scripts/measure-410.ts:977-999 | a text is left as it is if and only if it holds no comment token |
| StripComments.PlainIsCopied | scripts/measure-410.ts:977-999 | a character that opens neither a literal nor a comment is copied |
| StripComments.LineCommentIsDropped | scripts/measure-410.ts:938-944 | a line comment is dropped up to its newline |
| StripComments.BlockCommentLeavesNewlines | scripts/measure-410.ts:946-958 | a block comment, closed or not, leaves its newlines |
| StripComments.LiteralIsCopied | scripts/measure-410.ts:960-975 | a literal in any of the three quotes, with escapes, closed or not, is copied |
| LockfileClosure.ClosureFrom | scripts/measure-410.ts:270-287 | terminates, also on cycles, with exactly the keys reachable from the seeds |
| LockfileClosure.WorkspaceSeeds | scripts/measure-410.ts:289-308 | exactly what the workspaces' remaining dependencies resolve to |
| LockfileClosure.SeedsMeaning | scripts/measure-410.ts:289-308 | the seeds are the top-level packages that a workspace depends on and the last removal naming it does not list |
| LockfileClosure.EdgeMeaning | scripts/measure-410.ts:252-268 | a dependency leads to its nested copy where there is one, and to the top-level one where not |
| LockfileClosure.LockfileDelta | scripts/measure-410.ts:310-329 | before and after are the installed sets, after within before, and the removed packages are their difference in content and in number |
| LockfileClosure.RemovalOnlyShrinks | scripts/measure-410.ts:310-329 | removing dependencies installs nothing new |
| LockfileClosure.RemovedOnlyThroughRemoved | scripts/measure-410.ts:289-329 | an installed package is removed if and only if every workspace dependency that leads to it was removed from that workspace |

## Left out

- Wall-clock stamps (`ts`) and reason texts of journal entries, and how a journal file is parsed.
- Fractional attempt limits, and dates so large that formatting them throws.
- JSON, UTF-8 and date parsing, SQL and SQLite: the snapshot table is a map, a lease is the record its JSON denotes.
- The historical query and the schema migrations of the aggregator database.
- Parsing of metric text and of completion timings.
- Quantiles.PercentileIsQuantile: does not model floating-point rounding of the rank product, because rates and latencies are real numbers here.
- InfraRollout: peers answer one after another in list order; that calls of one phase overlap is not modelled, and a rejected activation is taken to change nothing.
- The standalone rollback command and the health gate's polling loop.
- JournalReader.ReadJournalLines: does not model the decoding of bytes to text; a line is its bytes.
- How a command line is matched against an expected executable: an arbitrary predicate.
- Server.Host.StopServer: does not model unlink or signal errors other than a vanished process.
- Server.Host.PollUntilReady: does not model the sleep itself, because the clock is only a bound on the number of attempts.
- KvProxy.Proxy.ProxyOpenAI: does not model slot files, hashing, deletion of slot artifacts or the content of a saved prefix; the allocators and the registry are one value that all requests share.
- The multi-slot allocator, which the proxy never builds.
- Protocol translation, vendor fields, stream synthesis and the response cache of the proxy.
- Routing: the address of a route is what URL parsing yields, taken as given; `created` stamps and collision warnings are not modelled, nor is the route cache.
- TunnelDispatch.Subscription.ReadTunnelSseStream: does not model exceptions thrown by the caller's handlers, nor text decoding split inside a character.
- The rest of the measuring script, command-line front ends, the desktop app, catalogs and presets.
- `keepAlive.ts` and `rpcServer.ts`, which follow the same stop discipline as `server.ts`.
