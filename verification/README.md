# Verified model of the proxy core

This project models the stateful core of the Impulse HTTP/3 reverse proxy in Dafny and proves
what its components keep over whole runs. Each component is described twice: as functions on
values, about which the run theorems are proved, and, where the program updates things in place,
as classes whose methods are proved to do to their abstract value exactly what those functions do.

| component | modules |
|---|---|
| backend health, dense indexes, picking | `Health`, `PoolModel`, `PoolRuns`, `PoolEpoch`, `BackendRuns`, `Recovery`, `Marks`, `InFlight`, `ProbeFairness`, `Isolation`, `BackendPool` |
| connection-ID trie | `CidTrie`, `CidRuns`, `CidCounts`, `CidRadix` |
| listener groups and worker indices | `WorkerRanges`, `ListenerModel`, `ListenerRuns`, `ListenerGroups` |
| HTTP/3 client scheduler | `H3Client`, `H3Rounds`, `H3ClientRun` |
| concurrent client rotation | `ClientRotation` |
| header pipeline | `Headers`, `Response`, `Forwarded`, `ForwardedChain`, `Request`, `RequestAssembly`, `H1Request`, `H1Policies` |
| backend endpoint text | `Endpoint` |

A run is a sequence of states joined by operations; the clock readings, the load balancer's
choice, thread completion, spawn results, and everything the QUIC library, the socket or the TLS
builder returns are parameters of the operations, so a theorem about runs holds for all of them.
Clock readings never go back. `dafny verify dfyconfig.toml` checks the whole project.

Where the code does not do what one would expect, the model follows the code:

- Index upkeep in the backend pool is the argument of `debug_assert!`. The model takes the build
  as a flag; the run theorems are about the build with debug assertions, and
  `PoolRuns.ReleaseAgreesIffAllHealthy` says exactly when the other build still agrees.
- A probe permit taken by `pick_without_begin` whose request is then dropped is never returned. Once
  the budget is spent that way the backend stays out until some result is recorded on it, exactly;
  see `Recovery.SpentBudgetStallsIff`, and `Recovery.AbandonedProbe` for a run that ends there.
- A listener spawn that fails after some threads started drops their handles
  (crates/edge/src/quic_listener/workers.rs:101-108); those threads are never joined
  (`ListenerModel.DetachedThread`). A wanted group that loses workers is never restaffed;
  `ListenerRuns.EmptiedGroupStays` and `ListenerRuns.ReloadConverges` say exactly when a listener
  still has all its workers, and `ListenerRuns.EmptiedListener` is a run that leaves one with none.
- `rotate_backend_client` installs without comparing the policy again;
  `ClientRotation.AgreesIffWindowsMatch` gives the exact condition on the policy at the two ends of
  each plain rotation, and `ClientRotation.StaleTrace` an interleaving that breaks it.
- Normalizing a response twice keeps its headers but not always its emission policy;
  `Response.EmissionStableIff` gives the exact condition and `Response.EmissionUnstable` a response.
- In append mode a client value that leaves a quoted-string open hides the proxy's own `Forwarded`
  element from a reader; `ForwardedChain.LastIsOursIff` gives the exact condition on the joined
  client values and `ForwardedChain.OpenQuoteHides` an input.
- The comment on `CidRadix::is_empty` speaks of lazy deletion; the code prunes eagerly, and the
  trie is proved to hold no dead node.

## Model

| member | source | states |
|---|---|---|
| PoolModel.Index.Add | crates/lb/src/backend_pool.rs:363-391 | adding keeps dense list and position table inverse, adds exactly the index, and reports failure exactly on a duplicate |
| PoolModel.Index.Remove | crates/lb/src/backend_pool.rs:393-438 | swap-remove keeps the tables inverse and removes exactly the index; the inner assertion holds |
| PoolModel.FollowAgrees | crates/lb/src/backend_pool.rs:85-100 | after any change of one backend both indexes list exactly the healthy and the probing backends, and every upkeep assertion holds |
| PoolModel.NewFromStates | crates/lb/src/backend_pool.rs:32-54 | a pool of healthy backends starts with indexes that agree with the states |
| PoolRuns.IndexesFollowStates | crates/lb/src/backend_pool.rs:70-206 | in every reachable state the indexes agree with the states, and no index assertion fails |
| PoolRuns.NoCooldownMissed | crates/lb/src/backend_pool.rs:173-247 | in every reachable state the cached expiry is at most every passive cooldown, so a reconcile leaves no passive backend ejected past its expiry |
| PoolRuns.ReconcileRecomputes | crates/lb/src/backend_pool.rs:228-247 | when a pass runs, afterwards the cache is a lower bound of every passive expiry and, if set, equals one of them |
| PoolRuns.ReconcileKeeps | crates/lb/src/backend_pool.rs:220-247 | reconciling keeps every invariant, the healthy vector and the epoch, and moves every expired passive backend on |
| PoolRuns.PickProbingExact | crates/lb/src/backend_pool.rs:285-312 | the scan of the probing index finds a backend exactly when some backend of the pool is idle with probe budget left |
| PoolRuns.ScanProbingFirst | crates/lb/src/backend_pool.rs:290-303 | the position found is the first selectable one in rotation order from the starting position |
| ProbeFairness.SelectedInTurn | crates/lb/src/backend_pool.rs:285-303 | while the probing vector is unchanged and a backend stays ready, as many picks as the vector is long select it, whatever happens between them |
| PoolRuns.ReleaseAgreesIffAllHealthy | crates/lb/src/backend_pool.rs:85-100 | without debug assertions the indexes agree with the states of a reachable pool exactly when every backend is Healthy |
| PoolRuns.ReleaseDrifts | crates/lb/src/backend_pool.rs:173-178 | one failed check makes the release build list an ejected backend as healthy |
| PoolEpoch.EpochCountsChanges | crates/lb/src/backend_pool.rs:85-92 | the epoch is the number of healthy-set changes so far, modulo 2^64 |
| PoolEpoch.SameEpochSameVector | crates/lb/src/backend_pool.rs:173-188 | two observations with one epoch fewer than 2^64 changes apart see the same healthy vector, also in between |
| BackendRuns.StepActs | crates/lb/src/backend_pool.rs:108-152 | what each pool operation does to one backend; a permit is granted only to an idle backend with budget |
| BackendRuns.Projects | crates/lb/src/backend.rs:75-203 | seen from one backend, every pool run is a run of the single-backend automaton from a new backend |
| Recovery.RejoinsOnlyAfterProbation | crates/lb/src/backend.rs:75-101 | a backend rejoins the healthy set only after its latest cooldown ran out and as many successes as configured (at least one, and one without a configuration), with no failure between and at most that many permits |
| Recovery.GrantsAreExclusive | crates/lb/src/backend_pool.rs:294-303 | a permit is granted only when the backend's counter of open requests is zero and it has budget left |
| InFlight.CounterIsOpenRequests | crates/lb/src/backend_pool.rs:305-330 | in every run a backend's counter is the number of requests begun on it, by picks that answer with it, healthy begins and accounting, and not yet finished |
| InFlight.ProbesTakeTurns | crates/lb/src/backend_pool.rs:294-312 | between a pick that begins a probe on a backend and the next permit on it a request of that backend finishes |
| Recovery.ExpiredBackendIsProbed | crates/lb/src/upstream_pool.rs:59-79 | a pick after the cooldown of an idle passive backend has run out selects a probe |
| Recovery.EjectedOnlyAfterStreak | crates/lb/src/backend.rs:103-126 | a backend leaves the healthy set only on the failure completing its configured threshold (at least one, three without a configuration) of failures in a row, with no success among them |
| Recovery.HealthyMeansFewerFailures | crates/lb/src/backend.rs:112-125 | over a stretch in which a backend stays healthy and records no success, fewer failures than the configured threshold were recorded |
| Recovery.CooldownServed | crates/lb/src/backend.rs:103-151 | from its ejection until one configured cooldown (ten seconds without a configuration) later a backend is in neither index, whatever is recorded on it meanwhile |
| Marks.EjectionDated | crates/lb/src/backend.rs:103-126 | in every run an ejection ends exactly one configured cooldown after the latest failure that ejected; failures on an ejected backend eject it anew once they are as many as configured |
| Marks.SuccessReports | crates/lb/src/backend.rs:75-101 | a recorded success reports BecameHealthy exactly when it puts the backend back into the healthy set |
| Marks.FailureReports | crates/lb/src/backend.rs:103-126 | a recorded failure reports BecameUnhealthy exactly when it takes the backend out of the healthy set or is the last of the configured number on an ejected one; a failed probe ejects without a report |
| Marks.ObservedCounts | crates/lb/src/backend_pool.rs:105-152 | which results count: classified failures like failed requests, request results only on backends without active checks |
| Marks.PickAnswers | crates/lb/src/upstream_pool.rs:59-79 | a pick probes exactly when some backend is ready for it and then answers with such a backend, and otherwise with the strategy's choice |
| Recovery.PermitsConserved | crates/lb/src/backend.rs:153-202 | in every run successes, budget and unanswered permits of a probing stay add up to the configured number of successes plus the stray ones |
| Recovery.SpentBudgetIsOutstanding | crates/lb/src/backend.rs:153-202 | in every run a probing backend without budget has a granted permit still unanswered |
| Recovery.SpentBudgetStallsIff | crates/lb/src/backend.rs:153-165 | from a spent budget on, the health state stays the same exactly as long as no success or failure is recorded |
| Recovery.AbandonedProbeStalls | crates/lb/src/upstream_pool.rs:73-79 | with the budget spent and no result recorded, the backend is not healthy and gets no further permit, through any number of other operations |
| Recovery.AbandonedProbe | crates/lb/src/upstream_pool.rs:73-79 | a run of one backend: failed request, pick after the cooldown, dropped request; the next pick selects nothing although the backend is idle |
| Isolation.VitalIsReplay | crates/lb/src/backend_pool.rs:108-137 | the state of an actively checked backend, apart from its probe budget and in-flight count, is the replay of its check results alone |
| Isolation.RequestsDoNotInterfere | crates/lb/src/backend.rs:47-52 | two runs with the same timed check results leave an actively checked backend in the same state with the same counts and expiry, apart from probe budget and in-flight count |
| BackendPool.BackendState.RecordSuccess | crates/lb/src/backend.rs:75-101 | does in place what the automaton's success step does |
| BackendPool.BackendState.RecordFailure | crates/lb/src/backend.rs:103-126 | does in place what the automaton's failure step does |
| BackendPool.BackendState.ReadmitIfExpired | crates/lb/src/backend.rs:139-151 | does in place what the automaton's re-admission does |
| BackendPool.BackendState.TryAcquireProbePermit | crates/lb/src/backend.rs:153-165 | does in place what the automaton's permit step does |
| BackendPool.BackendState.RecordProbingSuccess | crates/lb/src/backend.rs:181-202 | counts a probe success, or returns the backend to Healthy at the threshold |
| BackendPool.BackendPool.NewFromStates | crates/lb/src/backend_pool.rs:32-54 | builds the pool the run theorems start from |
| BackendPool.BackendPool.MarkHealthy | crates/lb/src/backend_pool.rs:363-376 | adds exactly the index to the healthy index; false on a duplicate or an index out of range |
| BackendPool.BackendPool.MarkProbing | crates/lb/src/backend_pool.rs:378-391 | adds exactly the index to the probing index; false on a duplicate or an index out of range |
| BackendPool.BackendPool.MarkUnhealthy | crates/lb/src/backend_pool.rs:393-412 | swap-removes exactly the index from the healthy index; false when it was absent |
| BackendPool.BackendPool.MarkNotProbing | crates/lb/src/backend_pool.rs:414-438 | swap-removes exactly the index from the probing index and brings the cursor back in range |
| BackendPool.BackendPool.MarkSuccess | crates/lb/src/backend_pool.rs:70-103 | refines the model's success operation; its assertions hold and agreement is kept |
| BackendPool.BackendPool.MarkRequestSuccess | crates/lb/src/backend_pool.rs:108-118 | ignored for actively checked backends, else a success |
| BackendPool.BackendPool.MarkFailure | crates/lb/src/backend_pool.rs:154-206 | refines the model's failure operation, including the cached expiry |
| BackendPool.BackendPool.MarkRequestFailure | crates/lb/src/backend_pool.rs:128-137 | ignored for actively checked backends, else a failure |
| BackendPool.BackendPool.ReconcileReadmit | crates/lb/src/backend_pool.rs:220-247 | refines the model's re-admission pass |
| BackendPool.BackendPool.ScanProbing | crates/lb/src/backend_pool.rs:290-303 | the rotating loop grants one permit to the backend the model's scan finds |
| BackendPool.BackendPool.PickProbing | crates/lb/src/backend_pool.rs:285-312 | refines the model's probe selection and cursor move |
| BackendPool.BackendPool.BeginRequest | crates/lb/src/backend_pool.rs:314-318 | counts one request in flight and changes nothing else; `InFlight.CounterIsOpenRequests` says what the count is |
| BackendPool.BackendPool.FinishRequest | crates/lb/src/backend_pool.rs:320-330 | counts one request less, never below zero |
| BackendPool.UpstreamPool.Pick | crates/lb/src/upstream_pool.rs:59-79 | reconcile, then probe, then the strategy's choice, as the model orders them |
| BackendPool.UpstreamPool.BeginRequestIfHealthy | crates/lb/src/upstream_pool.rs:81-88 | begins a request exactly on members of the healthy index |
| CidTrie.Canonical | crates/edge/src/cid_radix.rs:121-152 | two pruned tries storing the same IDs are the same tree |
| CidTrie.PutStores | crates/edge/src/cid_radix.rs:52-62 | afterwards exactly the new ID and the ones from before are stored |
| CidTrie.RemoveStores | crates/edge/src/cid_radix.rs:134-152 | afterwards exactly the other IDs are stored |
| CidTrie.RemoveKeeps | crates/edge/src/cid_radix.rs:138-152 | removal leaves no dead node and every ID filed under its own bytes |
| CidRuns.HistoryHolds | crates/edge/src/cid_radix.rs:52-163 | after every history of insert, remove and clear the trie is pruned and holds exactly what a set would |
| CidRuns.HistoryCanonical | crates/edge/src/cid_radix.rs:52-163 | histories with the same outcome on a set build the same tree |
| CidRuns.RemoveUndoesInsert | crates/edge/src/cid_radix.rs:121-152 | removing an ID that was new restores the exact tree |
| CidRuns.LinearScan | crates/edge/src/cid_radix.rs:15-16 | the replaced linear scan returns the longest stored prefix |
| CidRuns.LookupStep | crates/edge/src/cid_radix.rs:95-111 | one byte of the lookup keeps the best match so far, or ends with the longest prefix |
| CidCounts.ScidsCounted | crates/edge/src/cid_radix.rs:184-193 | the SCID count is the number of stored IDs |
| CidCounts.NodesCounted | crates/edge/src/cid_radix.rs:195-202 | the node count is one plus the number of distinct non-empty prefixes of the stored IDs |
| CidCounts.NodesBounded | crates/edge/src/cid_radix.rs:18-21 | the node count is at most one plus the sum of the ID lengths |
| CidRadix.TrieNode.Put | crates/edge/src/cid_radix.rs:52-62 | in-place insertion on linked nodes yields the model's tree |
| CidRadix.TrieNode.PruneRemove | crates/edge/src/cid_radix.rs:138-152 | in-place pruning removal yields the model's tree and reports exactly whether the node is dead |
| CidRadix.TrieNode.CountScids | crates/edge/src/cid_radix.rs:184-193 | counts the nodes that hold an ID |
| CidRadix.CidRadix.Insert | crates/edge/src/cid_radix.rs:52-62 | the index holds the set of IDs from before with this one added |
| CidRadix.CidRadix.Remove | crates/edge/src/cid_radix.rs:134-136 | the index holds the set of IDs from before without this one |
| CidRadix.CidRadix.Clear | crates/edge/src/cid_radix.rs:161-163 | the index is empty |
| CidRadix.CidRadix.LongestPrefixMatch | crates/edge/src/cid_radix.rs:86-119 | returns the longest stored ID that the DCID starts with, None if there is none, and None for the empty DCID |
| CidRadix.CidRadix.IsEmpty | crates/edge/src/cid_radix.rs:173-175 | true exactly when no ID is stored |
| CidRadix.LookupIsLinearScan | crates/edge/src/cid_radix.rs:13-16 | on a non-empty DCID the lookup equals a linear scan over any list of the IDs |
| WorkerRanges.Allocate | impulse/src/listener_group.rs:166-189 | returns first fit over the sorted ranges, which for proper ranges within the machine word is the least base whose slots meet no live range, at most the live slots plus a gap of `count - 1` per range |
| WorkerRanges.FirstFitLeast | impulse/src/listener_group.rs:181-188 | the scan of sorted proper ranges within the machine word ends at the least free base |
| WorkerRanges.SaturationCollides | impulse/src/listener_group.rs:175-188 | at the end of the machine word saturation makes the allocator give one base twice |
| WorkerRanges.SortSorts | impulse/src/listener_group.rs:179 | the ranges are sorted by start and end, none lost or added |
| WorkerRanges.LeastFreeBounded | impulse/src/listener_group.rs:162-165 | every least free base obeys that bound |
| ListenerModel.RunKeeps | impulse/src/listener_group.rs:191-270 | in every reachable state live ranges are disjoint, no group holds more threads than its worker count, and every spawned thread is held by one group, joined once, or detached by a failed spawn |
| ListenerModel.DrainedMeansJoined | impulse/src/listener_group.rs:70-89 | once no group is left, every thread not detached was joined exactly once |
| ListenerModel.DetachedNeverJoined | crates/edge/src/quic_listener/workers.rs:101-108 | a thread detached by a failed spawn is never joined in any continuation |
| ListenerModel.DetachedThread | crates/edge/src/quic_listener/workers.rs:101-108 | one reconcile whose two-worker spawn fails at the second thread leaves thread 0 detached |
| ListenerRuns.ReloadConverges | impulse/src/listener_group.rs:191-254 | for distinct labels, reconcile (spawns may fail), finish, collect, reconcile with working spawns: exactly the desired signatures run if and only if all retiring workers had finished, and then every listener has all its workers if and only if every staying group had all of them and none finished |
| ListenerRuns.SameSignatureIff | impulse/src/listener_group.rs:98-110 | two configurations have one signature if and only if they agree in label, pinning, reuseport and buffer sizes and, zero read as one, in worker, shard and queue numbers |
| ListenerRuns.SpawnedFor | impulse/src/listener_group.rs:113-160 | a group spawned for a configuration carries its settings and has as many threads as it asks for, at least one |
| ListenerRuns.ReloadRetiresIffChanged | impulse/src/listener_group.rs:202-224 | a reload under the same label retires a group exactly when some setting differs, and otherwise leaves it as it is |
| ListenerRuns.LastConfigCounts | impulse/src/listener_group.rs:197-200 | of several configurations with one label the last one counts |
| ListenerRuns.ConvergedIsStable | impulse/src/listener_group.rs:202-236 | for distinct labels, a further reconcile leaves a converged state as it is |
| ListenerRuns.EmptiedGroupStays | impulse/src/listener_group.rs:226-236 | in every run a group that stays wanted has all its workers if and only if it had them and no collect found one finished, and none exactly when all were found finished; no reconcile restaffs it |
| ListenerRuns.EmptiedListener | impulse/src/listener_group.rs:226-236 | a run in which the only worker of a wanted listener ends and the next reconcile leaves the listener converged with no worker |
| ListenerRuns.IndicesStayBounded | impulse/src/listener_group.rs:162-189 | with at most `groups` groups of at most `most` workers, worker indices stay below `groups * (2 * most - 1) + most` over any number of reloads |
| ListenerRuns.PollsDrainIff | impulse/src/listener_group.rs:78-84 | once shutdown is requested, a poll leaves no group exactly when every live worker has been seen finished by then |
| ListenerGroups.CollectFinished | impulse/src/listener_group.rs:46-57 | the swap-remove loop joins exactly the finished handles, each once |
| ListenerGroups.ListenerGroups.CollectFinishedGroups | impulse/src/listener_group.rs:256-270 | the swap-remove loop over groups is the model's collect step |
| ListenerGroups.ListenerGroups.RetireUnwanted | impulse/src/listener_group.rs:202-224 | flags exactly the groups whose signature is no longer desired |
| ListenerGroups.ListenerGroups.ReconcileGroups | impulse/src/listener_group.rs:191-254 | retires, then spawns each missing listener at the allocator's base or drops the started threads; a step of the model, with disjoint ranges, while the indices fit the machine word |
| ListenerGroups.ListenerGroups.ShutdownGroups | impulse/src/listener_group.rs:70-89 | the loop ends exactly when the polls have seen every live worker finished, and then no group is left and every thread not detached was joined exactly once |
| H3Client.LaunchKeeps | impulse/src/bin/h3_client.rs:265-278 | a launched request moves from pending to in flight and nothing else is lost or doubled |
| H3Client.RejectKeeps | impulse/src/bin/h3_client.rs:283-297 | a refused request is queued again or reported failed |
| H3Client.StreamKeeps | impulse/src/bin/h3_client.rs:339-368 | finishing or losing a stream keeps every id in exactly one place |
| H3Client.GiveUpKeeps | impulse/src/bin/h3_client.rs:425-434 | giving up reports each queued id once |
| H3Client.CompletedIsAnswered | impulse/src/bin/h3_client.rs:201-202 | reaching the requested count means one truthful result per id and nothing pending or in flight |
| H3Rounds.SubmitStops | impulse/src/bin/h3_client.rs:245-299 | names the send at which submitting stops: none before it was blocked, each spent one attempt, and there the stream limit is reached, nothing is pending, or the send is blocked |
| H3Rounds.LostExactly | impulse/src/bin/h3_client.rs:133-154 | each lost request is queued again if it has an attempt left and reported failed otherwise |
| H3Rounds.PollLoses | impulse/src/bin/h3_client.rs:319-368 | a reset stream, or one whose body cannot be read, queues its request last if it has an attempt left and reports it failed otherwise |
| H3Rounds.SucceedsIffFinished | impulse/src/bin/h3_client.rs:339-353 | over a chain of rounds a request has succeeded if and only if some round polled the end of the stream that carried it at that point |
| H3Rounds.FailedConnectionReplaced | impulse/src/bin/h3_client.rs:403-441 | a failed flush, failed poll or closed connection leads to the end of the run or to a fresh connection with nothing in flight, and nothing else does |
| H3ClientRun.Client.RetryOrFailRequest | impulse/src/bin/h3_client.rs:133-154 | refines the model's retry-or-fail |
| H3ClientRun.Client.Submit | impulse/src/bin/h3_client.rs:245-299 | does what the submit loop's specification does; ends because every send spends an attempt |
| H3ClientRun.Client.HandlePoll | impulse/src/bin/h3_client.rs:301-378 | a poll event finishes or loses its stream if that is in flight, and changes nothing otherwise |
| H3ClientRun.Client.PollAll | impulse/src/bin/h3_client.rs:301-378 | handles the poll events in order |
| H3ClientRun.Client.Expire | impulse/src/bin/h3_client.rs:381-401 | exactly the timed-out streams are lost, in any order, and nothing else changes |
| H3ClientRun.Client.Reconnect | impulse/src/bin/h3_client.rs:407-441 | loses every stream, then ends when all are answered, gives up exactly at the reconnect limit, or starts a fresh connection |
| H3ClientRun.Client.FailPending | impulse/src/bin/h3_client.rs:425-434 | reports every queued id as failed, in order, and then every id is answered |
| H3ClientRun.Client.Serve | impulse/src/bin/h3_client.rs:201-441 | a round submits, polls, expires and reconnects in that order under exactly the conditions of the loop; says how it ends and which requests are left |
| H3ClientRun.Client.Run | impulse/src/bin/h3_client.rs:156-442 | every normal exit has one result per id; an id succeeds if and only if some round polls the end of the stream carrying it then, and fails only after `retries + 1` sends unless reconnects ran out; no id is sent more often; an early exit has its cause in the last round |
| ClientRotation.RotationsChain | crates/transport/src/h2_pool.rs:118-128 | the Rotated results of every interleaving form one chain of consecutive generations, up to saturation |
| ClientRotation.OutcomesTrue | crates/transport/src/h2_pool.rs:95-174 | Unchanged is reported only for a policy in force and BuildFailed only for a failed build, both leaving the backend as it is; Rotated reports the generations before and after an install, and the policy the call brought is in force then |
| ClientRotation.InstalledWasBuilt | crates/transport/src/h2_pool.rs:110-124 | only a client that was built is ever installed |
| ClientRotation.AgreesIffWindowsMatch | crates/transport/src/h2_pool.rs:95-174 | client and policy agree throughout an interleaving if and only if the policy at the install of every plain rotation is the one at its read |
| ClientRotation.TlsCallsAgree | crates/transport/src/h2_pool.rs:131-174 | with TLS rotations only, client and policy always agree |
| ClientRotation.SteadyWindowsAgree | crates/transport/src/h2_pool.rs:103-124 | if no policy change falls between the read and the install of a plain rotation, client and policy agree throughout the run |
| ClientRotation.StaleTrace | crates/transport/src/h2_pool.rs:103-124 | an interleaving that leaves the old client beside the new policy |
| ClientRotation.MismatchPersists | crates/transport/src/h2_pool.rs:140-148 | while every call asks for the policy in force, client, policy and generation stay as they are, so a mismatch is not repaired |
| ClientRotation.OneRotationWins | crates/transport/src/h2_pool.rs:159-173 | among any number of calls racing to one new policy at most one rotation happens, and exactly one once some call returned without a build failure |
| Headers.SplitUndoesJoin | crates/bridge/src/headers.rs:16-21 | splitting a value at commas gives back any list of comma-free parts it was joined from |
| Headers.TokenIgnoresPadding | crates/bridge/src/headers.rs:17 | a token surrounded by white space is the token itself in lower case |
| Headers.AddTokens | crates/bridge/src/headers.rs:16-21 | the loop collects exactly the non-empty lower-case tokens |
| Response.ResponseConnectionTokens | crates/bridge/src/response.rs:114-128 | collects the tokens of every readable Connection value |
| Response.FilterHeaders | crates/bridge/src/response.rs:168-181 | the filter loop keeps, in order, every header but those under the nine hop-by-hop names (Connection and Upgrade apart when an upgrade is preserved), those listed in Connection when such headers are stripped, Content-Length to HTTP/3 and Alt-Svc to HTTP/1 |
| Response.KeptSpelled | crates/bridge/src/response.rs:98-144 | the same for the model's normalization, with the names written out |
| Response.TokensAreListed | crates/bridge/src/response.rs:114-128 | a token is collected exactly when some readable Connection header lists it |
| Response.TrailersSpelled | crates/bridge/src/response.rs:146-166 | trailers pass the same filter or are dropped altogether |
| Response.NormalizeIdempotent | crates/bridge/src/response.rs:146-181 | normalizing headers or trailers again changes nothing, with and without upgrade preservation |
| Response.DownstreamsDifferOnlyInFraming | crates/bridge/src/response.rs:130-144 | for equal flags the HTTP/3 and HTTP/1 outputs differ only in Content-Length and Alt-Svc |
| Response.EmissionStableIff | crates/bridge/src/response.rs:183-209 | the emission policy survives a second pass exactly unless a dropped zero Content-Length ended the stream |
| Response.EmissionLaw | crates/bridge/src/response.rs:183-209 | bodies are suppressed for HEAD, bodyless requests, 1xx, 204 and 304 but never in a tunnel; the stream ends with the headers then, and on a declared length of zero |
| Response.FirstLengthCounts | crates/bridge/src/response.rs:183-186 | the declared length is that of the first Content-Length header |
| Response.EmissionUnstable | crates/bridge/src/response.rs:183-209 | a 200 response over HTTP/3 with `content-length: 0` ends its stream on the first pass and not on the second |
| Forwarded.EscapeIsOnePass | crates/bridge/src/forwarded.rs:109-111 | the two replacements equal a one-pass escaper |
| Forwarded.HostQuotingRoundTrips | crates/bridge/src/forwarded.rs:109-111 | unescaping returns every host, and scanning stops exactly at the final quote |
| Forwarded.ElementReadsBack | crates/bridge/src/forwarded.rs:29-33 | a reader of the emitted element recovers address, scheme and host exactly, for every host, when no further parameter of the element follows |
| ForwardedChain.LastIsOursIff | crates/bridge/src/forwarded.rs:62-100 | a reader of an appended header takes the proxy's element for the last one if and only if the joined client values close every quoted-string they open |
| ForwardedChain.ChainReadsBack | crates/bridge/src/forwarded.rs:62-100 | then that element reads back as address, scheme and host |
| ForwardedChain.ClosedValues | crates/bridge/src/forwarded.rs:84-100 | values that each close their quoted-strings do so when joined |
| ForwardedChain.OpenQuoteHides | crates/bridge/src/forwarded.rs:62-100 | one open value hides the element, and a second open value can close it again |
| Forwarded.JoinHeaderChain | crates/bridge/src/forwarded.rs:84-100 | absent without values, refused exactly when some value is illegal, else the values joined |
| Forwarded.MergeForwardedChain | crates/bridge/src/forwarded.rs:62-82 | which values each mode emits, and that only those can make it fail |
| Request.ConnectionHeaderTokens | crates/bridge/src/headers.rs:5-24 | collects the tokens of every decodable Connection value |
| Request.GatherHeaders | crates/bridge/src/request.rs:154-194 | the loop sorts every inbound header to its fate, or fails exactly when one is invalid |
| Request.GatherMutations | crates/bridge/src/request.rs:196-211 | keeps the auth headers that may be set, or fails exactly when one is invalid |
| Request.MergeFamilies | crates/bridge/src/forwarded.rs:23-60 | succeeds exactly when every value to be emitted is legal |
| Request.ApplyPolicies | crates/bridge/src/request.rs:132-234 | succeeds exactly on acceptable requests, and then resolves headers, host and chains |
| RequestAssembly.H1ReservedNames | crates/bridge/src/request.rs:236-304 | exactly one Host, at most one Content-Length with the known length, at most one of each forwarding header, no foreign hop-by-hop header |
| RequestAssembly.OrdinaryHeadersSent | crates/bridge/src/request.rs:182-193 | every ordinary inbound header is sent with its value, and any two in the order they came |
| H1Request.NamedHeadersGone | crates/bridge/src/request.rs:154-181 | under a name not reserved that the client lists in Connection (Connection and Upgrade in upgrade mode apart), or that any auth mutation names, if only to remove it, nothing of the client's is sent |
| H1Request.OpenNames | crates/bridge/src/request.rs:154-211 | under every name not reserved the request carries the client's values in order unless withheld, then the mutations' values, or else the proxy's request id or trace context |
| H1Request.EveryName | crates/bridge/src/request.rs:236-304 | the values of an HTTP/1 request under any name whatever |
| H1Request.HopByHopDropped | crates/bridge/src/headers.rs:43-58 | nothing of the client's or the mutations' is sent under any of the nine hop-by-hop names, Connection and Upgrade apart in upgrade mode; only the proxy's own TE is |
| H1Request.ReservedSpelled | crates/bridge/src/headers.rs:26-61 | the names the proxy keeps to itself, written out |
| H1Policies.HostSent | crates/bridge/src/host.rs:7-26 | where the Host value comes from in each mode: endpoint, configured name, or authority before last Host header, blank wishes falling back to the endpoint |
| H1Policies.ForwardingSent | crates/bridge/src/forwarded.rs:23-82 | what each forwarding header holds in each mode: the client's values unless a mutation names it, the proxy's own value, or both in that order |
| H1Policies.AcceptableIff | crates/bridge/src/request.rs:154-211 | which headers and mutations make a request fail |
| H1Policies.TokensAreListed | crates/bridge/src/headers.rs:5-24 | a token is collected exactly when some decodable Connection header of the client lists it |
| RequestAssembly.MutationSent | crates/bridge/src/headers.rs:63-69 | no Connection token of the client removes an auth header |
| H1Request.BuildH1 | crates/bridge/src/h3_to_h1.rs:23-73 | when each error is returned, that a request is built exactly if the resolved host and the trace context can be written, and its values under every name |
| RequestAssembly.Decimal | crates/bridge/src/request.rs:257-262 | the emitted length reads back as the length |
| Endpoint.ParsePrintParse | crates/config/src/backend_endpoint.rs:44-117 | parsing the printed origin gives the same endpoint, for every text that parses |
| Endpoint.ParseImage | crates/config/src/backend_endpoint.rs:44-74 | exactly the well-formed endpoints are results of parsing |
| Endpoint.DefaultsAdded | crates/config/src/backend_endpoint.rs:51-60 | a bare host parses as https with port 443, behind http:// as http with port 80, behind https:// as https with port 443 |
| Endpoint.BracketedNeedsPort | crates/config/src/backend_endpoint.rs:137-141 | a bracketed address without a port is refused, whatever is inside |
| Endpoint.OtherSchemesRefused | crates/config/src/backend_endpoint.rs:56-57 | a text with any other scheme is refused |
| Endpoint.ParsedClean | crates/config/src/backend_endpoint.rs:62-72 | every parsed authority is free of path, query, fragment and blanks, with a legal host name and a port from 1 to 65535 |
| Endpoint.OriginInjective | crates/config/src/backend_endpoint.rs:112-117 | distinct parsed endpoints print differently |
| Endpoint.SplitMatchesValidation | crates/config/src/backend_endpoint.rs:88-105 | splitting recovers the host and port that validation accepted, and the port is 1 to 65535 |

## Left out

- Load-balancing strategies: a pick takes the strategy's answer as a parameter.
- EWMA latency: it affects neither health nor the indexes.
- CidRadix.TrieNode.Put: the insertion loop over a moving node reference is a recursive method, because the ghost trees of the nodes above must follow the change.
- Worker failure flag of the listener loop, log lines and the listener label text.
- The startup spawn loop of impulse/src/app.rs, which has no label check: runs start from no groups and reconcile.
- ListenerGroups.ListenerGroups.ReconcileGroups: disjoint ranges are stated while the worker indices fit a 64-bit word, because past it the allocator collides (`WorkerRanges.SaturationCollides`); with the cap of 1024 workers (crates/config/src/validator/performance.rs:88) they fit below 10^15 groups.
- Saturation of the HTTP/3 client's counters: they are unbounded numbers here, so retries equal to the largest machine word are treated as finite.
- Overflow of clock arithmetic and of the request counter of a backend.
- Lock poisoning and unknown backend names in the client pool; semaphores and connection reuse.
- apply_response_header_defaults, HTTP/2 request targets and URIs: easy members beside the ones proved.
- `parse::<usize>` rejects values above the machine word; the Content-Length reader does not.
- UTF-8 decoding, IDNA conversion, IP-literal parsing and the HTTP library's verdict on method and URI are parameters.
- The size limit of the HTTP library's header map.
- Configuration loading and validation, DNS, TLS setup, metrics, logging, benchmarks.
