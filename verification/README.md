# Verified model of the failover engine

This project models, in Dafny, the part of the proxy that decides where a `/v1/messages` request goes,
what a failure does to an upstream node and when a node comes back, together with the concurrent and
bookkeeping machinery around it.

| file | module | models |
|---|---|---|
| `Common.dfy` | `Common` | optional values, sequences without repetition, elements, set sizes |
| `Breaker.dfy` | `Breaker` | the circuit breaker of one node, as an object with a ghost history and as a state machine over runs |
| `Retry.dfy` | `Retry` | retry settings, exponential back-off with jitter, retryable statuses |
| `Transport.dfy` | `Transport` | the retrying transport inside one attempt, over an oracle of upstream replies |
| `Nodes.dfy` | `Nodes` | accounts, nodes, the five maps that index them, selection, and every change made under the registry lock |
| `Probes.dfy` | `Probes` | the warm-up probes of one node: when their results arrive and what these leave in its record |
| `Warmup.dfy` | `Warmup` | which node a reselection with warm-up activates and what it leaves behind |
| `Priority.dfy` | `Priority` | the invariant that requests go to a cheapest usable node |
| `Journal.dfy` | `Journal` | the journal of a server, every change of the registry in order, and what it says about why a node is active |
| `RequestLog.dfy` | `RequestLog` | the log of one request, round by round, and the accounting laws of such logs |
| `Requests.dfy` | `Requests` | what serving one request does: what a round makes of registry, ledgers and breakers, why it is refused, late or sent, how often a request is sent and how long it lasts |
| `Failover.dfy` | `Failover` | the server: breakers, warm-up, the request loop, node operations with their reselection, any run of operations |
| `Scheduler.dfy` | `Scheduler` | the full health check: two nested semaphores under every interleaving |
| `Hub.dfy` | `Hub` | the WebSocket hub: bounded queues, one serving goroutine, every interleaving |
| `Rollup.dfy` | `Rollup` | the aggregation statements on tables: grouping for hours, overwriting for days and months, retention |
| `MetricsStore.dfy` | `MetricsStore` | the store with its history of inserted rows, the hourly job and retention over many hours |
| `HealthHistory.dfy` | `HealthHistory` | the thinned-out history of health checks |
| `Settings.dfy` | `Settings` | the settings cache and its change feed |

`dafny verify dfyconfig.toml` checks everything.

## How the model is built

* Time is an integer number of nanoseconds that the caller passes in. Upstream replies, probe results, the client
  going away, jitter, response headers and the order in which a Go map is walked are oracles or arbitrary choices.
* Node and account records live in two tables addressed by reference, and the five maps hold references. So the
  sharing of a record by several maps, and the possibility of the maps disagreeing, is part of the model, while a
  whole registry state remains a value that lemmas can speak about.
* A request leaves a log: one round per node picked. `Failover.Server.ServeMessages` ensures `Requests.Handled` of it:
  which nodes were picked and why each was refused, late or sent, what was booked, what became of registry, ledgers and
  breakers, why the request ended and when. What holds of requests is then proved of everything so handled.
* The server keeps, as a ghost, the journal of the registry: every change under the lock, every reselection with its
  probes, every takeover and every activation by hand, each with the maps and tables it left. Every operation states
  which events it adds, and `Journal.IsJournal` that each event leads from the maps and tables before it to those after
  it, so that whatever holds of all journals holds of the server.
* The breaker object carries its history; its fields are always the result of running the state machine over that
  history, so every lemma about runs is a statement about the object.
* The two concurrent protocols are step systems. A run is any sequence of enabled steps, and the properties are
  stated for every run.
* A warm-up probe that is given up goes on, and its result is applied when it arrives. Results that arrive before the
  reselection is over belong to it; later ones are operations of their own. The results of a node that failed its
  warm-up and arrive while further nodes are warmed are applied after those: they touch other records, and that node
  is out of the choice either way.
* The store keeps, beside its tables, every raw row ever inserted, so that what a level holds can be compared with
  what was counted even after retention has deleted it.

## Findings

* `MaxAttempts` does not end a request. It only decides from which sent attempt on attempts are recorded as final
  and a failing node may be marked failed (`RequestLog.EndedByAttempt`, `RequestLog.MarkedOnlyLate`). A request that
  every node rejects with a status to be retried, without a total timeout, with warm-up off and closed breakers, is sent
  to every eligible node (`Requests.RejectedAreAllTried`); `Failover.Server.ServeRejected` serves it, for any such status,
  so the setting caps what is sent exactly when the account has no more eligible nodes than that
  (`Requests.MaxAttemptsCapsIff`, `Requests.SendsBounded`), or no status is to be retried (`RequestLog.NothingRetried`).
  A node that cannot be reached counts as a 503, so whether such a request goes on depends on 503 being listed
  (`Requests.UnreachableSends`, `Failover.Server.ServeUnreachable`).
* 504 is in the default list of retryable statuses, but a 504 always ends the request and is never reported to the
  breaker (`RequestLog.ContextErrorEndsTheRequest`).
* Every request ended by 499, 504 or the overall deadline after a grant leaves one half-open grant unaccounted
  (`RequestLog.OutstandingResults`); once they are all spent the breaker admits nothing until a result or a
  health-check reset arrives (`Breaker.SpentProbesBlock`). If two or more probes are granted before the first
  result, that result reopens the breaker even when it is a success (`Breaker.BurstReopens`).
* The first outcome after any clear opens the breaker if it is a failure, for every legal configuration, because the
  failure rate is then 1 (`Breaker.FirstFailureOpens`).
* A request with a total timeout ends by that timeout plus the transport's pause plus one back-off when warm-up is
  off (`Failover.Server.ServeMessages`, `Requests.Handled`), unless reading its body has taken longer than that: the
  deadline is fixed before the body is read and looked at only afterwards. With warm-up on, `handleFailure` probes other
  nodes before the request goes on; the time this takes is stated exactly (`Requests.RoundEffect`, `Warmup.TimeSpent`).
  A request that marks its node waits for every other eligible node if none passes (`Requests.MarkHoldsUp`). The plain
  bound holds with warm-up on as well if no attempt marks its node (`Requests.UnmarkedEndsOnTime`), hence in every account
  with fewer eligible nodes than `MaxAttempts` or only one (`Requests.FewNodesEndOnTime`). For a request that every node
  rejects at once, with closed breakers, default warm-up, nodes that answer no probe and stand one failure before the
  limit, and a timeout that leaves time for the allowed attempts, it holds exactly then (`Requests.EndsOnTimeIff`);
  otherwise the request lasts 34 seconds (`Requests.OutlastsItsTimeout`). `Failover.Server.ServeHeldUp` serves it.
* Warm-up does not keep a freshly enabled node from becoming active. `enableNode` asks for the active node, which warms
  the enabled one if nothing usable is active, and then activates it all the same if it is cheaper than what came out or
  nothing did: also when it has just failed its warm-up (`Priority.EnabledThoughRefused`, `Failover.Server.EnableNode`).
* Warm-up can activate a node that is marked failed: after an answer followed by a refusal
  (`Warmup.ActivatedThoughFailed`), or by a refusal that arrives after its probe was given up (`Probes.LateRefusal`).
  `Warmup.ActivatedNodeState` says exactly when, from the results that arrived by then, and `Probes.NeverFailedIff`
  what an operator can know beforehand: it cannot happen exactly when every probe has to succeed. With the defaults a
  node whose checks hang for their own 30 seconds is marked failed by a probe that was given up after 17
  (`Probes.SilentNodeIsMarked`).
* The transport can return the body of one response under the status of another (`Transport.StaleBodyExample`);
  `Transport.BodyBelongsToStatus` says exactly when the body is the status's own.
* The day and month statements do not add up. They group by `bucket_start`, which is a column of their source table
  as well as the name of the selected expression, and both SQLite and MySQL take the column: every source row is a
  group of its own, and the upsert overwrites. A day keeps the counters of one of its hours
  (`Rollup.TwoHoursOfOneDay`). For a given order of the rows the result is the sum exactly when in every bucket the rows
  overwritten sum to nothing (`Rollup.OverwriteSummarizes`); for every order the database may choose exactly when no bucket of the window holds two
  source rows unless they count nothing (`Rollup.OverwriteIsExactIff`). The same of the job's own steps:
  `MetricsStore.YesterdayIsComplete`, `MetricsStore.LastMonthIsComplete`.
* Raw rows have no such column, so the hour statement groups as intended. The hourly job aggregates from two hours
  before the moment it runs. It is exact for all tables if and only if that moment is a full hour
  (`MetricsStore.HourlyRunIsExact`); otherwise the first bucket it rewrites loses its earliest rows. Run at every full
  hour it keeps all hours complete that retention has not reached, and yesterday is then complete exactly when the last
  run's day statement lost nothing (`MetricsStore.Store.RunHours`).
* A hub broadcast that meets more full clients than the unregister queue has room for blocks `Run` for good
  (`Hub.BroadcastCompletes`, `Hub.BlockedForever`). Eleven clients of one account that stop reading and 257 messages
  are enough (`Hub.StandstillIsReachable`).
* A PUT that is refused because another account holds the key still renames the account
  (`Nodes.Registry.UpdateAccount`).

## Model

| member | source | states |
|---|---|---|
| Breaker.ApplyDefaults | internal/proxy/circuit_breaker.go:70-87 | the configuration in force is legal whatever was asked for, and legal settings are kept |
| Breaker.WindowIsHistory | internal/proxy/circuit_breaker.go:158-224 | over every run with a non-decreasing clock the stored records after a result are the outcomes since the last clear that are not older than the window, and the failure counter is the trailing run of failures since then |
| Breaker.TrimIsRecent | internal/proxy/circuit_breaker.go:158-186 | dropping expired records from the front keeps exactly the recent ones when times are sorted |
| Breaker.ClosedIsBelowLimits | internal/proxy/circuit_breaker.go:158-252 | in every reachable closed state neither opening condition holds on the stored data |
| Breaker.OpensExactly | internal/proxy/circuit_breaker.go:226-252 | over every run with a non-decreasing clock a result opens a closed breaker if and only if, of all outcomes since the last clear, the last ones in the number of the limit failed, or the failures within the window are at least the configured share of the outcomes within it |
| Breaker.FirstFailureOpens | internal/proxy/circuit_breaker.go:70-87 | after any run with nothing recorded since the last clear, a failure opens the breaker, for every legal configuration |
| Breaker.ProbeCounters | internal/proxy/circuit_breaker.go:120-224 | when each grant is recorded before the next, half-open successes never exceed half-open grants, which never exceed the maximum |
| Breaker.OutstandingIs | internal/proxy/circuit_breaker.go:120-224 | as long as nothing is cleared, the outstanding grants, on which that discipline is stated, are those granted minus the results reported |
| Breaker.RecoveryIsExact | internal/proxy/circuit_breaker.go:206-222 | under the same discipline the breaker closes exactly when the maximum number of probes has been granted and all succeeded |
| Breaker.SpentProbesBlock | internal/proxy/circuit_breaker.go:145-151 | a half-open breaker whose grants are spent refuses every later request until a result or a reset |
| Breaker.BurstGrants | internal/proxy/circuit_breaker.go:136-151 | an open breaker asked any number of times after its cool-down grants the maximum number of probes, or as many as it was asked for if fewer |
| Breaker.CoolsDown | internal/proxy/circuit_breaker.go:136-143 | a breaker opened by a result lets nothing through until the cool-down in seconds has passed since that result, however often it is asked, and the first request from that moment on is the first half-open probe |
| Breaker.BurstReopens | internal/proxy/circuit_breaker.go:206-222 | when two or more probes were all granted before the first result, that result reopens the breaker, success or not |
| Breaker.CircuitBreaker.AllowRequest | internal/proxy/circuit_breaker.go:120-155 | answers what the state machine grants and moves as it does: always when closed; when open exactly from the cool-down after the last change on, turning half-open with one call counted; when half-open exactly while calls are left, counting one more; a refusal changes nothing; the history grows by this question |
| Breaker.CircuitBreaker.constructor | internal/proxy/circuit_breaker.go:61-88 | a new breaker is closed with an empty history; settings out of range become 60 seconds, half, 5 failures, 30 seconds, 3 calls |
| Breaker.CircuitBreaker.RecordResult | internal/proxy/circuit_breaker.go:158-224 | moves as the state machine does, stamping every change of phase with the time of the result; a half-open breaker stays so until its calls are spent, then closes with window and counter cleared if enough succeeded and reopens otherwise; the history grows by this result |
| Breaker.CircuitBreaker.ShouldOpenNow | internal/proxy/circuit_breaker.go:233-252 | the loop over the window decides both opening conditions, the rate by division agreeing with cross multiplication |
| Breaker.CircuitBreaker.Trim | internal/proxy/circuit_breaker.go:158-224 | drops the records older than the window start from the front |
| Breaker.CircuitBreaker.Reset | internal/proxy/circuit_breaker.go:265-277 | leaves the state of a new breaker |
| Retry.LoadRetryConfig | internal/proxy/retry.go:32-107 | the loaded settings are sane whatever the environment holds; each readable positive setting is honoured, any other replaced by its default, the maximum back-off raised to the minimum if below it |
| Retry.ReadOneByOne | internal/proxy/retry.go:32-107 | lists of codes and of timeouts are read entry by entry in order, unusable entries dropped |
| Retry.BackoffBounds | internal/proxy/retry.go:111-131 | a back-off is positive and at most the maximum, and reaches the minimum exactly when minimum and maximum are in order |
| Retry.BackoffNeverShrinks | internal/proxy/retry.go:111-131 | a later attempt never waits less than an earlier one, whatever jitter each draws |
| Retry.BackoffDoubles | internal/proxy/retry.go:111-131 | without jitter the first back-off is the minimum and each later one twice the one before, up to the maximum; jitter adds its fraction of the minimum, up to the maximum; bounds that are not positive stand for 10 and 100 milliseconds |
| Retry.ShouldRetryStatus | internal/proxy/retry.go:134-141 | true exactly for the configured statuses |
| Transport.RetryTransport.RoundTrip | internal/proxy/reverse_proxy.go:28-125 | at most max(1, attempts) base calls, all with the request's body, none after the context ended, separated by growing pauses, stopping at the first 200 or context error, otherwise reporting the last response that any call produced |
| Transport.RoundTripTells | internal/proxy/reverse_proxy.go:45-87 | of the calls and the verdict: the wait before the i-th further call is i times 150 milliseconds; only the last call can be a 200, which is passed on as it is, or a context error; a context that ended is reported with its own reason; everything else takes all tries |
| Transport.BodyBelongsToStatus | internal/proxy/reverse_proxy.go:102-122 | when all tries fail the status is that of the last response, and the body is that response's own exactly when it was readable and not empty, or no response had one |
| Transport.AnswerTells | internal/proxy/reverse_proxy.go:65-122 | when all tries fail: up to 4096 characters of the last answer if it had a readable body, the fault of the last call if no answer ever had one, the last network error if there was no answer |
| Transport.StaleBodyExample | internal/proxy/reverse_proxy.go:61-82 | a run in which the body of a 500 is returned under 502 |
| Transport.EndsInTime | internal/proxy/reverse_proxy.go:45-87 | with an upstream that respects its context no base call starts at or outlives the expiry |
| Nodes.SelectHealthyNodeExcluding | internal/proxy/node_manager.go:263-285 | a cheapest node outside the exclusion set that is neither failed nor disabled nor in the FailedSet, none exactly when there is none |
| Nodes.SelectBestNodeExcluding | internal/proxy/node_manager.go:395-437 | an eligible node outside the exclusion set such that every other one weighs more, or as much and is not older; none exactly when there is none |
| Nodes.Registry.RegisterAccount | internal/proxy/server.go:391-425 | enters an account, its key and its nodes in the maps, over whatever they hold there; if they hold nothing there, all maps still agree |
| Nodes.Registry.CreateAccount | internal/proxy/account_manager.go:18-63 | the four outcomes in order; a success adds exactly one account and one key |
| Nodes.Registry.UpdateAccount | internal/proxy/api_accounts.go:61-101 | the outcomes; the old key is released and the new one points to the account; a refused key change still renames |
| Nodes.Registry.DeleteAccount | internal/proxy/api_accounts.go:102-133 | the outcomes; a success removes the account, its key and all its nodes from the maps and nothing else |
| Nodes.Registry.AddNode | internal/proxy/node_manager.go:26-91 | a record with the given id, time and account, the weight asked for or one, healthy and with all counters zero enters account, index and owner map; answers that no reselection is needed exactly when the active node is usable and not dearer than the new one |
| Nodes.Registry.UpdateNode | internal/proxy/node_manager.go:93-165 | only the weight changes (zero or less counts as one); answers whether it did |
| Nodes.Registry.DeleteNode | internal/proxy/node_manager.go:167-210 | the node leaves all maps, the FailedSet and, if active, the active slot |
| Nodes.Registry.Activate | internal/proxy/node_manager.go:213-228 | an indexed node becomes active whatever its state |
| Nodes.Registry.DisableNode | internal/proxy/node_manager.go:491-503 | sets the flag and answers whether the node was active |
| Nodes.Registry.EnableNode | internal/proxy/node_manager.go:540-556 | clears flag, failure, streak and FailedSet entry |
| Nodes.Registry.ShouldFail | internal/proxy/health.go:43-73 | counts one more failure; true when the streak has reached max(1, limit) |
| Nodes.Registry.MarkFailed | internal/proxy/health.go:76-94 | marks record and FailedSet together, the streak at least 1 |
| Nodes.Registry.RecordMetrics | internal/proxy/metrics.go:48-104 | counts the attempt; a 200 clears failure, streak and FailedSet entry, anything else counts as a failure |
| Nodes.Registry.ApplyHealth | internal/proxy/health.go:273-321 | record and FailedSet follow the result; answers whether the node should be promoted, being enabled and back from failure or cheaper than the active node or that being missing, and whether the active node was lost |
| Nodes.NodeUpdated | internal/proxy/health.go:273-321 | rewriting one node's record together with its FailedSet entry keeps every map in agreement and every FailedSet exact |
| Nodes.Joined | internal/proxy/server.go:391-425 | entering an account keeps every map in agreement |
| Nodes.Rekeyed | internal/proxy/api_accounts.go:77-86 | releasing the old key and taking the new one keeps each key with exactly one account |
| Nodes.Removed | internal/proxy/api_accounts.go:121-127 | removing an account with its nodes keeps every map in agreement |
| Nodes.NodeAdded | internal/proxy/node_manager.go:57-60 | adding a node under a fresh id keeps every map in agreement |
| Nodes.NodeRemoved | internal/proxy/node_manager.go:167-186 | removing a node keeps every map in agreement |
| Probes.NormalizeWarmup | internal/proxy/warmup.go:26-54 | at least one attempt, between one and all successes required; a positive timeout is honoured, otherwise it is 17 seconds; sensible settings are kept |
| Probes.Spent | internal/proxy/warmup.go:104-127 | the time a node's probes are waited for, a timed-out one counting its whole timeout, never exceeds attempts times timeout |
| Probes.PassesMeans | internal/proxy/warmup.go:56-135 | a node passes its warm-up exactly when the number of its probes that succeed within the timeout is the required one, or warm-up is off; each probe is waited for as long as it takes, but no longer than the timeout |
| Probes.NextResult | internal/proxy/health.go:273-321 | applying results one by one in the order of their arrival leaves the record that the last of them decides |
| Probes.WaitedFor | internal/proxy/warmup.go:103-127 | after the wait for a probe its result is the last one applied if it came in time, otherwise it is not applied yet |
| Probes.WarmedNodeState | internal/proxy/warmup.go:75-130 | at any time a probed node is failed exactly when the last result to arrive was a refusal, or none arrived and it was failed before; it is healthy at the end if every probe succeeded in time |
| Probes.NeverFailedIff | internal/proxy/warmup.go:133-135 | no probes whatsoever leave a healthy node failed at the end of a warm-up it passes if and only if the settings require every probe to succeed |
| Probes.SilentNodeIsMarked | internal/proxy/health.go:229-235 | with the default settings a node whose checks hang for 30 seconds is failed when its warm-up of 34 seconds ends |
| Probes.LateRefusal | internal/proxy/warmup.go:108-125 | three probes, one success required: an answer and two hanging checks pass the warm-up and leave the node failed |
| Warmup.ActivatedNodeState | internal/proxy/node_manager.go:310-350 | the activated node is failed exactly when it was warmed and the last result to arrive before its warm-up ended was a refusal; never when all probes have to succeed |
| Warmup.ActivatedThoughFailed | internal/proxy/warmup.go:133-135 | with one success required of two probes, an answer followed by a refusal activates the node failed |
| Warmup.SilentNodeCosts | internal/proxy/warmup.go:26-54 | with the default settings one node that never answers holds a request up for 34 seconds |
| Warmup.SelectedWithout | internal/proxy/node_manager.go:395-449 | after a node failed its warm-up, the choice among the rest is the choice among all |
| Warmup.ChosenAmongPassing | internal/proxy/node_manager.go:310-350 | every usable node that passes its warm-up weighs more than the chosen one, or as much and is not older |
| Warmup.ActivatedWarm | internal/proxy/node_manager.go:310-350 | activating the best eligible node after a passed warm-up obeys the activation rule |
| Warmup.ActivatedAfterRefusal | internal/proxy/node_manager.go:395-449 | a refused warm-up, the recursive selection and the late results of the refused node together obey the activation rule, each node warmed at most once and left as the results say that arrived before the end |
| Warmup.MarkedAndReselected | internal/proxy/health.go:76-133 | after marking a node failed and reselecting, only that node and the nodes actually warmed can have turned failed, the marked node was not warmed, and the warm-up time is bounded by the number of nodes |
| Warmup.RefusalLeavesOut | internal/proxy/node_manager.go:395-449 | through refusals and recursion every eligible node is warmed unless it is no better than the chosen one |
| Warmup.DriftTransitive | internal/proxy/handler.go:231-360 | changes confined to counters, failure states and the active node of one account, making no node eligible, compose |
| Priority.SettledLocally | internal/proxy/node_manager.go:297-350 | no two accounts share a node, so a change inside one account leaves the others' active nodes cheapest |
| Priority.CheapestActivated | internal/proxy/node_manager.go:297-350 | without warm-up a reselection leaves a cheapest eligible node active |
| Priority.SettledThrough | internal/proxy/node_manager.go:26-91 | an operation that asks for a reselection whenever its change could displace the active node keeps every account settled |
| Priority.StagedAdd | internal/proxy/node_manager.go:57-64 | adding a node asks for a reselection whenever one is needed |
| Priority.StagedRewrite | internal/proxy/health.go:370-396 | so do weight changes, disabling and both health-check results |
| Priority.StagedEnable | internal/proxy/node_manager.go:540-596 | enabling a node leaves a cheapest eligible node active |
| Priority.SettledDelete | internal/proxy/node_manager.go:167-186 | deleting a node leaves every account settled |
| Priority.SettledAccounts | internal/proxy/api_accounts.go:61-133 | creating, renaming, rekeying and deleting accounts unsettles none |
| Priority.EnabledThoughRefused | internal/proxy/node_manager.go:582-596 | where nothing usable is active, an enabled node cheaper than every other eligible one takes over though it has just failed its warm-up |
| Journal.JournalGrows | internal/proxy/node_manager.go:26-598 | a change that leads from the last maps and tables to others that agree extends the journal |
| Journal.OnlyChoicesActivate | internal/proxy/node_manager.go:213-228 | of all that changes the registry only a reselection, a takeover or an activation by hand makes a node active |
| Journal.RulesObeyed | internal/proxy/node_manager.go:297-350 | in every journal a reselection chose an eligible node that passed its warm-up when every better eligible one failed its own, and a takeover was by a node that was not disabled, from the active node, failed or dearer, or because the reselection just before had found no node that passes |
| Journal.ActiveWasChosen | internal/proxy/node_manager.go:297-350 | in every journal an active node was active from the start on, or was chosen by a step that obeyed its rule on the tables of that moment and has been active ever since |
| Journal.OnlyDisablingDisables | internal/proxy/node_manager.go:491-503 | of a node that stays active only the event of disabling it sets the flag |
| Journal.DisabledAfterwards | internal/proxy/node_manager.go:491-503 | a node that is active by a reselection or a takeover though disabled was disabled after it was chosen |
| Journal.AskedJustNow | internal/proxy/node_manager.go:238-252 | after an enabled node's account has been asked for its active node, the answer is the active node or the last event is a reselection that found none |
| RequestLog.FinalsWhileRetrying | internal/proxy/handler.go:312-328 | while all sent attempts were retried, max(0, n - MaxAttempts + 1) are recorded as final and no retry success is |
| RequestLog.EndedByAttempt | internal/proxy/handler.go:284-341 | a request ended by its k-th sent attempt has 1 + max(0, k - MaxAttempts) final attempts, and a retry success exactly when a later attempt succeeded after a failed first one |
| RequestLog.RanOut | internal/proxy/handler.go:238-276 | one that runs out of nodes or time after n sends has max(0, n - MaxAttempts + 1) and no retry success |
| RequestLog.AttemptBooking | internal/proxy/handler.go:284-348 | the n-th attempt is final exactly if its status is not to be retried, being below 500, unlisted, 499 or 504, or n has reached MaxAttempts; a success counts as one of the retry exactly if n is above one; its node is marked exactly if it failed for another reason than its context, n has reached MaxAttempts and the streak is at least one and the limit; only a status to be retried is followed by another round |
| RequestLog.ContextErrorEndsTheRequest | internal/proxy/handler.go:292-311 | a 499 or 504 is the last round, final, and never marks the node |
| RequestLog.MarkedOnlyLate | internal/proxy/handler.go:342-348 | a node is marked only from the MaxAttempts-th sent attempt on and with a streak of at least max(1, limit) |
| RequestLog.GrantsBalance | internal/proxy/handler.go:243-305 | in one request a node's grants exceed its reported results by one exactly when the request ended on it by 499, 504 or the deadline |
| RequestLog.Conservation | internal/proxy/handler.go:243-305 | over any run of requests grants minus results is the number of requests that ended that way |
| RequestLog.OutstandingResults | internal/proxy/handler.go:243-305 | the same of the ledgers that a list of requests leaves; `Failover.Server.Run` states it of the server |
| RequestLog.CallsBounded | internal/proxy/handler.go:231-360 | upstream calls are at most the distinct nodes tried times the transport's tries |
| RequestLog.RoundsFit | internal/proxy/handler.go:227-231 | a request that picks each node at most once has no more rounds than the account has nodes |
| RequestLog.NothingRetried | internal/proxy/handler.go:307-311 | if no status is to be retried, a request is sent at most once |
| Requests.StatusTells | internal/proxy/reverse_proxy.go:387-425 | an attempt counts as 200 exactly when its last upstream call answered 200; as 504 or 499 exactly when the transport ended on a deadline or another context error, its own context's or one a call reported, or when no call succeeded and that is what the upstream said last; else as the last response, and as 503 if there was none; no call starts after the client has gone or the attempt has expired |
| Requests.AttemptAnswers | internal/proxy/handler.go:307-311 | an attempt ends the request as its answer exactly if its retry status is below 500 or not listed, or its status is 499 or 504 |
| Requests.AttemptExpires | internal/proxy/handler.go:262-276 | an attempt expires with its own timeout, or the common one if it has none, or at the overall deadline if that comes first, before which it starts |
| Requests.NextAttemptAt | internal/proxy/handler.go:354-359 | after an attempt that is retried the next round that its breaker does not refuse begins when the back-off of that attempt is over: with an attempt at that moment, or late if the total timeout has passed |
| Requests.FirstAttemptAt | internal/proxy/handler.go:215-276 | the first such round begins when the body has been read |
| Requests.TransportEnds | internal/proxy/reverse_proxy.go:45-87 | an attempt ends by its expiry plus the transport's longest pause |
| Requests.EffectMeans | internal/proxy/handler.go:328-349 | the effect of a round makes no node eligible, newly fails only the node it marked and the nodes it warmed, which are other ones, and keeps the active node cheapest |
| Requests.AttemptCounts | internal/proxy/handler.go:288-341 | an attempt that marks nothing changes its node's record only: one more request, a 200 clears the failure state and anything else is one more failure, and an attempt that failed for another reason than its context lengthens the streak; the journal entry says the same |
| Requests.RoundServed | internal/proxy/handler.go:231-360 | one more round on the cheapest open node keeps the whole-request invariant: each node once, by non-decreasing weight |
| Requests.RoundRuled | internal/proxy/handler.go:238-282 | over the rounds so far: one is refused only if the breaker its node had when the request came refuses it, and always then unless the node has been warmed meanwhile; it is late exactly when not refused with the deadline passed; an attempt expires at the earlier of deadline and timeout; its streak counts on from the node's record; one that marks its node warms every other node eligible at the start, but for such as were marked or warmed before or are no better than the one that passes |
| Requests.MarkWarmsOpen | internal/proxy/node_manager.go:395-449 | the reselection after a mark warms every other eligible node unless it is no better than the last one warmed, which passes |
| Requests.BreakersGrow | internal/proxy/handler.go:243-305 | a breaker of a node neither picked nor warmed has not changed, one of a picked node not warmed is where the question and the report of its round took it, a warmed one may have been cleared |
| Requests.BreakerOfAttempt | internal/proxy/handler.go:243-305 | after a request the breaker of a node it was sent to, not warmed meanwhile, has been asked when the attempt began and, unless that ended with 499 or 504, told when it was finished whether it was a 200 with no retry status of 500 or more |
| Requests.RecordsGrow | internal/proxy/handler.go:328-348 | the record of a node neither picked nor warmed stays that from the start |
| Requests.ProgressGrows | internal/proxy/handler.go:231-360 | one more round keeps all of this, the pace of the attempts and the ledgers included |
| Requests.TurnTaken | internal/proxy/handler.go:243-360 | after a round the loop goes on, at once or after a back-off, exactly if the round was refused or its attempt is retried; otherwise the whole request has been handled as promised, in time |
| Requests.AddsOfRequest | internal/proxy/handler.go:231-360 | a request adds to the journal exactly the events of its rounds in order: each attempt counted, each mark with the reselection after it |
| Requests.RequestCalls | internal/proxy/reverse_proxy.go:33-45 | the bound on upstream calls for the logs the loop produces |
| Requests.SendsBounded | internal/proxy/handler.go:231-360 | a request is sent at most as often as its account had eligible nodes when it came |
| Requests.AttemptIsRejected | internal/proxy/reverse_proxy.go:45-122 | an attempt of which every call ends in time, with a status to be retried or, if 503 is one, with a network error, is retried, however often the transport calls |
| Requests.RejectedAreAllTried | internal/proxy/handler.go:231-359 | a request that every node rejects, by answers or by network errors, without total timeout and with closed breakers, is sent to every node that was eligible when it came and not warmed meanwhile; with warm-up off to as many nodes as were eligible, whatever MaxAttempts says |
| Requests.AttemptIsUnreachable | internal/proxy/reverse_proxy.go:387-425 | an attempt on a node that cannot be reached, with time for all its calls, makes all of them and counts as a 503 |
| Requests.UnreachableSends | internal/proxy/handler.go:307-359 | a request whose nodes cannot be reached, without total timeout and with closed breakers, gets a 503 from each attempt; it is sent to every eligible node if 503 is to be retried, and to one, if there is one, if it is not |
| Requests.MaxAttemptsCapsIff | internal/proxy/handler.go:312-359 | once one request is rejected so, MaxAttempts caps the requests to the account if and only if the account has no more eligible nodes than that |
| Requests.MarkHoldsUp | internal/proxy/handler.go:340-343 | a request that marks a node while no node passes its warm-up warms every other node that was eligible and neither marked nor warmed before, tried or not, and lasts until each of them has been waited for |
| Requests.OutlastsItsTimeout | internal/proxy/handler.go:215-218 | with default warm-up, nodes that answer no probe and stand one failure before the limit, and time for the allowed attempts, a request to at least two and at least MaxAttempts eligible nodes that all reject it lasts at least 34 seconds whatever its total timeout |
| Requests.RejectedOnAndOn | internal/proxy/handler.go:312-359 | a request that every node rejects goes on to another node without marking one as long as there are eligible nodes, time and attempts before the last allowed one |
| Requests.LastAllowedMarks | internal/proxy/handler.go:340-343 | its MaxAttempts-th attempt marks its node if the node stands one failure before the limit |
| Requests.UnmarkedEndsOnTime | internal/proxy/handler.go:215-218 | a request of which no attempt marks its node ends by its deadline plus the longest pause and back-off, warm-up or not |
| Requests.FewNodesEndOnTime | internal/proxy/handler.go:340-343 | so does every request to an account with fewer eligible nodes than MaxAttempts, or only one |
| Requests.EndsOnTimeIff | internal/proxy/handler.go:340-343 | in the circumstances of OutlastsItsTimeout the request keeps that time if and only if the account has fewer eligible nodes than MaxAttempts, or only one |
| Requests.SmallAccountsAreSpared | internal/proxy/handler.go:342-348 | requests never fail a node of an account with fewer nodes than MaxAttempts |
| Requests.RequestSpares | internal/proxy/handler.go:342-348 | so no request newly fails a node of any account, its own or another, with fewer nodes than MaxAttempts |
| Requests.ServedSettles | internal/proxy/handler.go:231-360 | a served request leaves every account settled |
| Failover.Server.GetOrCreateBreaker | internal/proxy/server.go:131-151 | the node has a breaker afterwards, a new one if it had none; no other breaker changes |
| Failover.Server.Admit | internal/proxy/handler.go:243-251 | admits exactly what the node's breaker grants and moves that breaker only |
| Failover.Server.Report | internal/proxy/handler.go:303-305 | the node's breaker, and no other, is told the outcome |
| Failover.Server.LandResults | internal/proxy/health.go:273-321 | the results that arrive in an interval are applied in the order of their arrival: the record, the FailedSet and no other breaker than the node's follow |
| Failover.Server.ProbeOnce | internal/proxy/warmup.go:103-127 | one probe: earlier results that arrive during the wait are applied, then its own if it is in time; it counts as a success exactly if it came in time and was one; a success leaves the node with a breaker as good as new |
| Failover.Server.WarmupNode | internal/proxy/warmup.go:75-130 | counts the timely successful probes, leaves the record as the results say that arrived by then, given-up probes included, takes exactly as long as it waits, and touches no other node's breaker; with breakers on, any success leaves the node with a breaker as good as new |
| Failover.Server.SelectBestAndActivateExcluding | internal/proxy/node_manager.go:395-488 | terminates, warms each node at most once, activates of the usable nodes that pass their warm-up a cheapest one and of these an oldest, every better one having failed its warm-up, or leaves the active node alone when none passes; every warmed record is what the results say that arrived before the end; the breaker of a node activated through warm-up is as good as new |
| Failover.Server.AddNode | internal/proxy/node_manager.go:26-91 | a record with the weight asked for, or one, made now and healthy enters, followed by a reselection exactly when it displaces the active node: never if that is usable and not dearer, and then nothing else changes; accounts stay settled; the journal grows by exactly these changes; no breaker changes but those of warmed nodes, which may be cleared |
| Failover.Server.UpdateNode | internal/proxy/node_manager.go:93-165 | the registry change followed by a reselection exactly when the weight changed; accounts stay settled; the journal grows by exactly these changes; breakers as above |
| Failover.Server.DisableNode | internal/proxy/node_manager.go:491-537 | the registry change followed by a reselection exactly when the node was active; accounts stay settled; the journal grows by exactly these changes; breakers as above |
| Failover.Server.EnableNode | internal/proxy/node_manager.go:540-598 | the node becomes active exactly when nothing usable or cheaper is in use after asking for the active node; accounts stay settled; the journal grows by exactly these changes; breakers as above |
| Failover.Server.TakeOver | internal/proxy/node_manager.go:582-596 | the enabled node becomes active exactly if nothing is in use or what is in use is failed or dearer, which the journal says |
| Failover.Server.ManageAccount | internal/proxy/api_accounts.go:61-133 | an account operation enters what it did in the journal and unsettles no account |
| Failover.Server.DeleteNode | internal/proxy/node_manager.go:167-210 | accounts stay settled; the journal grows by the deletion exactly if the node was there |
| Failover.Server.GetActiveNode | internal/proxy/node_manager.go:238-252 | the active node if usable, else the result of a reselection; the journal grows by that reselection; breakers as above |
| Failover.Server.CheckNode | internal/proxy/health.go:197-418 | the result is applied, a success leaves the node with a new breaker, and a reselection follows exactly when the node is to be promoted or the active node was lost; accounts stay settled; the journal grows by exactly these changes; no other breaker changes but those of warmed nodes, which may be cleared |
| Failover.Server.HandleFailure | internal/proxy/health.go:76-133 | marks the node failed and reselects over the whole account, entering both in the journal and taking exactly as long as the warm-up of the nodes it tried; the breakers of all others, the marked one included, stay |
| Failover.Server.Settle | internal/proxy/handler.go:328-348 | the attempt is counted in the node's record; the node is marked exactly on the last allowed attempt with a full streak |
| Failover.Server.Attempt | internal/proxy/handler.go:278-349 | one attempt: the transport's outcome, its classification and bookkeeping, what its breaker made of the report, marked or not, that only warmed nodes' breakers changed besides, the registry's change, and the time it takes; what its status means is StatusTells |
| Failover.Server.TryNode | internal/proxy/handler.go:238-349 | refused exactly when the breaker refuses, late exactly when the deadline has passed, otherwise one attempt that expires at the earlier of deadline and timeout |
| Failover.Server.ServeMessages | internal/proxy/handler.go:211-371 | each node picked at most once by non-decreasing weight; why each round was refused, late or sent and when an attempt expires; every attempt booked, paced by its back-off and bounded by the deadline; what became of every breaker; ledgers following the log; why the request ended, never by the loop cap; and its end bounded |
| Failover.Server.ServeRejected | internal/proxy/handler.go:312-359 | serves, for any status to be retried, the request that every node rejects with it: it is sent once for each eligible node, and MaxAttempts caps the requests to the account if and only if there are no more of those |
| Failover.Server.ServeUnreachable | internal/proxy/handler.go:307-359 | serves the request whose nodes all refuse the connection: every attempt counts as a 503, and it is sent to each eligible node if 503 is to be retried and to one of them if not |
| Failover.Server.ServeHeldUp | internal/proxy/handler.go:215-218 | serves the request of OutlastsItsTimeout, whatever the number of nodes: it keeps its total timeout with the longest pause and back-off added if and only if the account has fewer eligible nodes than MaxAttempts, or only one, and lasts 34 seconds otherwise |
| Failover.Server.Serve | internal/proxy/handler.go:211-371 | a request keeps all accounts settled with warm-up off, spares every small account, and leaves its log in the ledgers and in the journal |
| Failover.Server.Perform | internal/proxy/node_manager.go:26-598 | one operation from outside keeps maps and breakers and extends the journal by events that it causes, with its own node, result and probes; with warm-up off and unless it is a manual activation it keeps the cheapest choice; only a request moves the ledgers, as its log says |
| Failover.Server.ActivateByHand | internal/proxy/node_manager.go:213-228 | an indexed node becomes active whatever its state and weight, which the journal says |
| Failover.Server.ProbeLate | internal/proxy/warmup.go:108-125 | a warm-up result that arrives after its reselection is applied to record and FailedSet and entered in the journal; no active node changes |
| Failover.Server.Run | internal/proxy/node_manager.go:26-598 | so does any sequence of operations: the journal has grown by the events of each operation in turn; with warm-up on or off every active node was active when the journal began or was chosen by a step of it that obeyed its rule on the tables of that moment, and has been active since; with warm-up off and no manual activation it is the cheapest choice; a node's breaker lacks one more result for every request that ended unreported on the node, and requests alone fail no node of a small account |
| Scheduler.NormalizeWorkers | internal/proxy/health_scheduler.go:63-87 | the workers asked for, two if none, but at most four and at most two per processor |
| Scheduler.NormalizeCliWorkers | internal/proxy/health_scheduler.go:90-104 | the workers asked for, one if none, but at most all of them |
| Scheduler.StepIsSound | internal/proxy/health_scheduler.go:243-268 | every send, receive and deferred call keeps each channel's fill and the wait group equal to the goroutines that owe them |
| Scheduler.LimitsHold | internal/proxy/health_scheduler.go:219-227 | at most `workers` checks run and at most `cliWorkers` of them are CLI checks |
| Scheduler.ReceivesNeverBlock | internal/proxy/health_scheduler.go:249-261 | a goroutine on its way out, by return or by panic, never blocks on giving a token back |
| Scheduler.NoPanicEscapes | internal/proxy/health_scheduler.go:230-237 | a panicking check still makes its deferred calls: its panic is recovered before the goroutine ends, and the wait group counts exactly the goroutines not done |
| Scheduler.SomeoneCanStep | internal/proxy/health_scheduler.go:230-270 | until all goroutines are done one of them can step |
| Scheduler.StepCounts | internal/proxy/health_scheduler.go:230-270 | every step takes exactly one of the steps left |
| Scheduler.EmptyWhenDone | internal/proxy/health_scheduler.go:234-268 | both channels and the wait group are empty when all goroutines are done, however many checks panicked |
| Scheduler.EveryRun | internal/proxy/health_scheduler.go:219-273 | all of this at every moment of every interleaving, which is stuck only when it is finished, after a number of steps fixed in advance |
| Scheduler.OneTokenToRun | internal/proxy/health_scheduler.go:249-266 | a goroutine whose check is no CLI check, or any if the CLI limit is not the tighter one, begins it exactly when the first channel has room, and never touches the second |
| Scheduler.TwoTokensToRun | internal/proxy/health_scheduler.go:249-257 | a CLI check under a tighter limit takes a token of the second channel first and then one of the first |
| Scheduler.RunTogetherIff | internal/proxy/health_scheduler.go:219-268 | any set of checks can be going on at one moment of some run, and no others with them, if and only if they are no more than the workers and the CLI checks among them no more than the CLI workers |
| Scheduler.LimitsAttained | internal/proxy/health_scheduler.go:219-268 | both limits are reached if there is enough to do |
| Scheduler.HealthScheduler.constructor | internal/proxy/health_scheduler.go:31-48 | the worker counts are the normalized ones and in order |
| Scheduler.HealthScheduler.CollectTasks | internal/proxy/health_scheduler.go:172-211 | one task for exactly the nodes of registered accounts, without disabled ones if so configured |
| Scheduler.HealthScheduler.CheckAllNodes | internal/proxy/health_scheduler.go:166-275 | any schedule the channels allow is a run of the step system and ends with all checks done, both channels empty and the panics recovered |
| Hub.StepIsSound | internal/proxy/ws_hub.go:49-116 | every step of the hub, the handlers, readers and writers keeps the invariant |
| Hub.EveryRunIsSafe | internal/proxy/ws_hub.go:39-116 | in every run a message reaches only clients of its account, no channel is closed twice or written after it was closed, no queue overflows |
| Hub.EveryClientIsSomewhere | internal/proxy/ws_hub.go:39-116 | in every run a client that has joined is queued for its registration, registered under its account, or closed with its closing logged, and only one of these; what it has not read is the last of what was delivered to it; queues hold at most 10, 10 and 256 entries, buffers at most 256 |
| Hub.BlockedForever | internal/proxy/ws_hub.go:106-116 | once `Run` waits for room in the unregister queue it waits forever: nothing more is delivered and the client map never changes |
| Hub.BroadcastCompletes | internal/proxy/ws_hub.go:91-116 | an undisturbed broadcast completes exactly when the account's full clients are at most the free places of the unregister queue, then serving all others; otherwise `Run` blocks |
| Hub.StandstillIsReachable | internal/proxy/ws_hub.go:39-116 | for any message a run from the empty hub ends with `Run` blocked: ten removals queued, eleven clients with 256 messages unread, and 256 broadcasts waiting |
| Hub.WSHub.AddClient | internal/proxy/ws_hub.go:62-72 | the client joins its account's set |
| Hub.WSHub.RemoveClient | internal/proxy/ws_hub.go:74-89 | a registered client is removed and closed, an empty account dropped; otherwise nothing |
| Hub.WSHub.BroadcastToAccount | internal/proxy/ws_hub.go:91-116 | does what the steps of an undisturbed broadcast do, in any order of the clients, and returns unless blocked |
| Rollup.HoursAndDays | internal/store/metrics.go:411-431 | hours and days are buckets, days made of whole hours |
| Rollup.GroupTotal | internal/store/metrics.go:317-332 | grouping as the hour statement does: any selection of groups sums to what their rows sum to, in every counter |
| Rollup.UpsertRows | internal/store/metrics.go:331-349 | an upsert replaces exactly the rows of the keys it brings |
| Rollup.AggregatedRows | internal/store/metrics.go:296-354 | the hour statement: each touched bucket becomes the sum of its selected source rows, every other row stays |
| Rollup.AggregationIsIdempotent | internal/store/metrics.go:296-354 | running the hour statement again changes nothing |
| Rollup.AggregateSummarizes | internal/store/metrics.go:296-354 | with an aligned start the hours hold exactly the full sums of the window's buckets |
| Rollup.LevelsAgree | internal/store/metrics.go:296-354 | a complete level holds in the window, under any selection of buckets, exactly what the level below holds |
| Rollup.RollUp | internal/store/metrics.go:411-431 | filling a level from a complete level below makes it complete with respect to the lowest exactly when the statement loses nothing |
| Rollup.ExactIffAligned | internal/store/metrics.go:317-332 | grouping by bucket is exact for all tables if and only if the window starts at a bucket boundary |
| Rollup.OverwrittenRows | internal/store/metrics.go:321-348 | the day and month statements leave in each touched bucket the counters of the source row put last, every other row stays |
| Rollup.TwoHoursOfOneDay | internal/store/metrics.go:321-348 | two hours of one day, whatever the order: the day holds one of them, not their sum |
| Rollup.OverwriteSummarizes | internal/store/metrics.go:321-348 | for a given order the window's buckets hold their full sums if and only if in every bucket the rows put before the last one sum to nothing |
| Rollup.LosslessInEveryOrder | internal/store/metrics.go:321-348 | nothing is lost in any order if and only if no bucket holds two source rows unless they count nothing |
| Rollup.OverwriteIsExactIff | internal/store/metrics.go:321-348 | so the statement is exact for every order the database may choose if and only if that holds of the rows it selects |
| Rollup.CleanupKeepsLevels | internal/store/metrics.go:357-391 | retention leaves two levels in agreement over every window both retain |
| MetricsStore.DerivedAddsUp | internal/store/metrics.go:17-47 | counts left out are derived so that total is successes plus failures, and deriving again changes nothing |
| MetricsStore.Store.InsertMetrics | internal/store/metrics.go:17-47 | one row is appended, under the default account if none is named; a missing total becomes successes plus failures, missing successes the rest of a positive total, a missing number of response times that total |
| MetricsStore.Store.AggregateMetrics | internal/store/metrics.go:296-354 | which rows each table holds afterwards, by granularity, with the default windows; raw data is no target; nothing else changes |
| MetricsStore.Store.RunAggregation | internal/proxy/scheduler.go:138-167 | the three windows, in order, each level reading what the one before wrote; yesterday is complete exactly when its step loses nothing, given complete hours, and last month sums its days exactly when the month step loses nothing |
| MetricsStore.Store.CleanupMetrics | internal/store/metrics.go:357-391 | exactly the rows past each table's own retention go, months are kept, and raw data stays the recent part of what was inserted |
| MetricsStore.NextBucket | internal/proxy/scheduler.go:145-149 | aggregating from the last complete boundary to the next one completes the level up to there with respect to everything inserted, and spoils nothing |
| MetricsStore.Store.constructor | internal/proxy/scheduler.go:84-108 | an empty store is ready for its first hour from any two boundaries |
| MetricsStore.Store.RunHour | internal/proxy/scheduler.go:138-167 | one hour: rows of this hour and late ones of the hour before arrive, the job runs, retention may; hours stay complete up to now, and yesterday is complete after the run, the first of a day or a later one, exactly when its day statement lost nothing |
| MetricsStore.AfterCleanup | internal/store/metrics.go:357-391 | retention moves the start of the complete hours to the next full hour after its cut-off, leaves every day from there on with an hour of it, and does not change whether yesterday is complete |
| MetricsStore.Store.RunHours | internal/proxy/scheduler.go:138-167 | with the job at every full hour and retention at any moments between, all hours since the start that retention has not reached hold the sums of everything ever inserted for them, and yesterday is complete exactly when the last run's day statement lost nothing |
| MetricsStore.YesterdayIsComplete | internal/proxy/scheduler.go:151-156 | the job's day step makes yesterday the sum of everything inserted for it exactly when it loses nothing, given complete hours |
| MetricsStore.LastMonthIsComplete | internal/proxy/scheduler.go:158-163 | the month step makes last month the sum of the days it reads exactly when it loses nothing; likewise of everything inserted, given complete days |
| MetricsStore.HourlyRunIsExact | internal/proxy/scheduler.go:145-149 | the hour step is exact for all tables if and only if the job runs at a full hour |
| HealthHistory.HistoryIsThin | internal/proxy/health.go:649-681 | with increasing check times records have increasing times and are checks, and the newest record has the newest outcome; if no lookup failed, neighbours with equal outcomes are five minutes apart |
| HealthHistory.HistoryIsFaithful | internal/proxy/health.go:649-681 | the outcome of every check, stored or not, is that of the record in force at its time |
| HealthHistory.History.Record | internal/proxy/health.go:527-566 | a check is stored if there is no record or the lookup fails, and otherwise exactly if it is not older than the last record and has another outcome or comes five minutes after it; nothing without a store |
| Settings.LastOneWins | internal/proxy/settings_cache.go:135-142 | of several listed settings with one key the last counts |
| Settings.MaxVersionIsLargest | internal/proxy/settings_cache.go:129-140 | the version of a listing is the largest positive one in it, zero if there is none |
| Settings.AnnouncedDifferences | internal/proxy/settings_cache.go:149-179 | announcing exactly the differences brings an up-to-date observer up to date again |
| Settings.SettingsCache.Set | internal/proxy/settings_cache.go:71-96 | the cache changes only after the store accepted, and then every callback is told once; every observer stays in agreement; the version rule |
| Settings.SettingsCache.UpdateLocal | internal/proxy/settings_cache.go:99-107 | takes over a value and tells every callback once; every observer stays in agreement |
| Settings.SettingsCache.Refresh | internal/proxy/settings_cache.go:122-180 | after a successful listing the cache is the last-wins map; exactly the keys added, removed or changed are announced, once, to every callback; a missing store or a failed listing changes nothing |
| Settings.SettingsCache.NotifyChange | internal/proxy/settings_cache.go:182-190 | every callback is told |

## Left out

- Nodes and accounts as objects: they are records in tables addressed by reference. Sharing of a record is kept; that the source holds a pointer to a node across unlocked code, and may read a field changed meanwhile, is not.
- HTTP serving, header copying, streaming, TLS and the SPA: the client sees only what the oracles and the written status say; which of several attempts' bytes reach the client is not modelled.
- Account lookup by API key with fallback to the default account, trimming of input strings, permissions, sessions, share tokens, pricing and the usage log itself: one-line rules; the log records which attempts are final.
- Interference during one operation: each operation, including a reselection with warm-up that gives up the lock between choice and activation, runs to its end before the next one starts; a reselection the source starts in the background after a lost active node runs at once.
- What a late probe result does to a request that is still running when the reselection is over: it is an operation of its own, before or after the request.
- Warm-up concurrency slots and probe methods: they only delay probes.
- A panic inside the reverse proxy after a grant: the breaker would never hear of that attempt.
- Storage errors after an in-memory change, notifications and WebSocket publishing inside node operations: they do not influence routing.
- Loading accounts and nodes from the store at start-up, the configured name of the default account, and the retry count and health interval an account carries: routing reads none of them after start-up except the transport's attempt count, which is a parameter.
- Fresh identifiers: drawn from a clock in the source, assumed unused and not empty here.
- Floating point: failure rate and jitter are reals, and the back-off never overflows a 64-bit duration.
- Integer widths: counters, weights and times are unbounded.
- SQL: tables are collections; the settings upsert with no account is not part of the model.
- The calendar: a month is any grouping of days into intervals, with some way to step back one month.
- Hub keep-alive, write deadlines and the size limit on incoming messages: a writer takes one message at a time and may stop taking any.
- Health history with equal check times or concurrent checks of one node.
- Failover.Server.Run: with warm-up on it states by which step and rule each active node was chosen, not that it is still the cheapest, since warm-up may rightly leave a cheaper node inactive.
- Scheduler.HealthScheduler.CheckAllNodes: what a check does to its node is `Failover.Server.CheckNode`; the full check states only who runs when.
