# Verified model of the WAI proxy's reliability and routing engine

This project models, in Dafny, the part of the proxy that decides where a request goes, what happens when
an upstream fails, and what is counted along the way, and proves what that part promises:

* **Circuit breakers** (`CircuitMachine`, `CircuitStore`, `CircuitRuns`, `Tickets`). One closed / open /
  half-open machine per upstream, replayed from its history; the registry of circuits with its keys, recency
  order and eviction; every run of the registry under any mix of callers, health reports, resets and
  settings; and the tickets that requests hold. The class methods are proved to change the fields exactly as
  the machine does, and the results about runs are proved of the machine.
* **Retry and fallback** (`Routing`, `FallbackChain`, `Handler`). Deployment selection, round robin, the
  fallback walk, and the nested loop of the request handler with its deadline, its exclusion set and the
  settlement of a ticket on every exit. What an attempt meets (circuits, load, ticket, outcome, duration,
  jitter) is an arbitrary input of each attempt, so the results hold whatever other requests do meanwhile.
* **Model registry** (`ModelRegistry`). The name and alias index, its greedy rebuild, and adding in place.
* **Counting and bounded stores** (`UsageLogger`, `RateLimiter`, `AlertDispatcher`). Hourly rollups against
  base rows, windowed counters against the true count, and the drop-oldest queue with cooldowns.
* **SQL scanners** (`SqlScanner`) and the **auto router** (`AutoRouter`, `RouterRuns`): one turn of a
  conversation, and every run of the router's two caches.

`Prelude` holds shared vocabulary and `Models` the routed entities. The Retry-After delay is that of section
10.2.3 of RFC 9110, as an optional real.

`dafny verify dfyconfig.toml` checks the whole project.

## Findings

Where a promise does not hold of the code on every input, the code is modelled as it is and the exact
condition is proved.

* A new circuit can be its own eviction victim; the caller then drives an object the registry no longer
  holds. It happens if and only if there are no more idle circuits than the registry was over its limit
  before: in a registry that is just full, if and only if no circuit is idle (`CircuitStore.TouchKeeps`).
  `CircuitRuns.SelfEvictionIsReachable` gives a run for every setting.
* The load of a circuit is at most the number of tickets out on it (`Tickets.LoadNeverExceedsTickets`). It is
  exactly that number throughout a run if and only if the circuit was never evicted or reset while a ticket
  was out on it (`Tickets.LoadExactIff`); `Tickets.LoadCanFallBelowTickets` gives a run where it falls below.
* `add_model` drops the model's old aliases before it checks the new ones, and never checks the new name
  against aliases. `ModelRegistry.AddModelKeepsIff` says, on the input alone, when it returns and when it
  keeps the index consistent: if every alias is free, exactly when the name is not another model's alias; if
  not, exactly when the aliases before the first taken one are those the model already had.
  `ModelRegistry.ReturnCanShadowAlias` and `ModelRegistry.RaiseCanLoseAliases` give a call of either kind
  that does not.
* A flush reads its creation time once and the hour bucket once per event. After any run in which the clock
  does not step back behind a batch's creation time, the hourly table agrees with the stored creation times
  if and only if no event was rolled up in a later hour than its batch was created in
  (`UsageLogger.RunAuditIff`); `UsageLogger.FlushAcrossTheHour` gives a flush that breaks the agreement.
* The answer of the rate limiter is the true ordinal of a request if and only if its counter was not pruned
  before (`RateLimiter.AnswerExactIff`). With a clock that does not run backwards a pruned counter is never
  asked for again (`RateLimiter.AnswerIsOrdinal`); `RateLimiter.StepBackRecounts` gives a run in which the
  clock steps back and the second request of a minute is counted as its first.
* The auto router's decision cache joins the clipped prompt text, the names and the settings with `|` and the
  names with `,`, and names may contain both. Under one configuration it can answer with a model that is not
  a candidate if and only if two lists of admissible names run into each other
  (`RouterRuns.MisroutesIffNamesClash`). A rule that admits all names over an alphabet is safe if and only if
  the alphabet has neither character (`RouterRuns.AlphabetMisroutesIff`). `RouterRuns.CommaMisroutes` and
  `RouterRuns.BarMisroutes` give a run for each.
* A circuit is closed by a success from any phase, and by nothing else (`CircuitMachine.ClosesIffSuccess`),
  although the module documentation only shows closing from half-open;
  `CircuitMachine.OpenCanCloseDirectly` gives a history.
* The context-window exit of the retry loop is modelled although the statuses for which `_forward` raises
  never lead to it (`Handler.ContextExitIsIdle`).

## Model

| member | source | states |
|---|---|---|
| CircuitMachine.CountersMatchLog | src/wai/proxy/circuit.py:225-341 | Always enabled: consecutive failures are the trailing failure run of all outcomes ever recorded, trips are the openings since last closed, closed iff no trips, closed implies fewer failures than the threshold, a probe is in flight only when half-open, and no step leads from closed to half-open |
| CircuitMachine.FailuresMatchLog | src/wai/proxy/circuit.py:262-290 | The failure counter is the trailing failure run under any settings, even ones that change or disable the breaker |
| CircuitMachine.TripSetsLadderCooldown | src/wai/proxy/circuit.py:328-341 | The k-th opening since last closed holds traffic for the k-th step of the doubling, capped ladder, or for the Retry-After up to the cap |
| CircuitMachine.TripCooldownMonotone | src/wai/proxy/circuit.py:330-336 | The ladder never shrinks, never falls below a tenth of a second and never exceeds the cap |
| CircuitMachine.CooldownBounded | src/wai/proxy/circuit.py:307-341 | In every reachable state an open circuit's cooldown ends no later than the last operation plus the cap, and no probe started later than the last operation |
| CircuitMachine.RecoversWhenLeftAlone | src/wai/proxy/circuit.py:197-244 | After the longer of the cap and the probe timeout without operations, a circuit admits the next request whatever came before |
| CircuitMachine.BlockedWhileCooling | src/wai/proxy/circuit.py:225-313 | Once opened, a circuit gives out only forced tickets until its cooldown ends, unless a success or a healthy probe comes first, whatever failures, acquires and releases happen |
| CircuitMachine.AllowsPredictsTicket | src/wai/proxy/circuit.py:197-244 | `allows` says yes exactly when `acquire` at the same instant would not answer "forced" |
| CircuitMachine.WindowIsLogSuffix | src/wai/proxy/circuit.py:130-130 | The deque always holds the last 512 outcomes ever recorded |
| CircuitMachine.WindowRefinesLog | src/wai/proxy/circuit.py:316-326 | With a clock that does not run backwards, the rate rule decides on the 512-sample deque as on the unbounded log whenever at most 512 outcomes lie in the window |
| CircuitStore.KeyRoundTrip | src/wai/proxy/circuit.py:105-168 | A circuit rebuilt from its key alone has the identity the key was made of |
| CircuitStore.VictimIsLeastRecent | src/wai/proxy/circuit.py:175-183 | The eviction victim is the first idle circuit in recency order, or the first of all when none is idle |
| CircuitStore.Evicted | src/wai/proxy/circuit.py:175-183 | Eviction stops at the limit, and survivors keep identity and history |
| CircuitStore.TouchKeeps | src/wai/proxy/circuit.py:163-183 | Looking a circuit up changes no other circuit and makes it the most recently used one; a new one is missing afterwards iff there are no more idle circuits than the registry is over its limit |
| CircuitStore.NewcomerEvicted | src/wai/proxy/circuit.py:175-183 | The most recently used circuit, if idle, is evicted iff all idle circuits have to go |
| CircuitStore.SurvivesIff | src/wai/proxy/circuit.py:175-183 | Which circuits an eviction takes: the least recently used idle ones first, then the least recently used of the others, position by position |
| CircuitStore.EvictedKeepsOrder | src/wai/proxy/circuit.py:175-183 | The survivors of an eviction keep their recency order |
| CircuitStore.TouchMoves | src/wai/proxy/circuit.py:163-173 | Touching a known circuit moves it to the end of the recency order and changes nothing else |
| CircuitStore.StripsSlashes | src/wai/proxy/circuit.py:105-106 | An address is compared without its trailing slashes, all of them and nothing else |
| CircuitStore.HealthKeys | src/wai/proxy/circuit.py:356-359 | A health report reaches each matching circuit exactly once and no other |
| CircuitStore.Circuit.Admit | src/wai/proxy/circuit.py:225-244 | Fields and ticket after admission are those of the machine |
| CircuitStore.Circuit.Released | src/wai/proxy/circuit.py:246-254 | Fields after a release are those of the machine |
| CircuitStore.Circuit.Succeeded | src/wai/proxy/circuit.py:256-272 | Fields after a success are those of the machine |
| CircuitStore.Circuit.Failed | src/wai/proxy/circuit.py:275-313 | Fields after a failure are those of the machine, with the breaker disabled too |
| CircuitMachine.FailureOpensIff | src/wai/proxy/circuit.py:297-326 | A failure opens a closed circuit, whatever its past, iff it carries a Retry-After the settings honour, or completes enough failures in a row, or lifts the share of failures among all outcomes in the window to the threshold |
| CircuitMachine.RateIsShare | src/wai/proxy/circuit.py:316-326 | The rate rule compares the number of failures in the window with the threshold times the number of outcomes there, once there are enough |
| CircuitMachine.PhaseAfter | src/wai/proxy/circuit.py:225-375 | The phase after any operation in any history: a success closes; an unhealthy report, a failed probe or a failure too many opens and counts one more trip; a healthy report or a request after the cooldown makes an open circuit half-open; anything else leaves the phase alone |
| CircuitMachine.TicketIff | src/wai/proxy/circuit.py:197-244 | After any history a request gets the normal ticket iff the breaker is disabled or the circuit closed, and the forced one iff the cooldown runs or a probe granted less than 120 seconds ago is still out; otherwise the probe |
| CircuitMachine.ClosedIsClean | src/wai/proxy/circuit.py:256-272 | A closed circuit has no trips, no cooldown and no probe |
| CircuitMachine.LadderLaw | src/wai/proxy/circuit.py:328-336 | The first trip costs the configured cooldown, each of the next sixteen twice the one before, up to the cap, with a tenth of a second and a second as the least of either |
| CircuitMachine.OpenKeepsCooldown | src/wai/proxy/circuit.py:307-309 | While a circuit stays open only a newer Retry-After moves the end of its cooldown, and never to an earlier time |
| CircuitMachine.LastFailureMatchesLog | src/wai/proxy/circuit.py:275-290 | The time selection goes by is that of the last failure or unhealthy report |
| CircuitMachine.ClosesIffSuccess | src/wai/proxy/circuit.py:256-272 | A success closes a circuit from any phase and nothing else does |
| CircuitMachine.OpenCanCloseDirectly | src/wai/proxy/circuit.py:265-272 | A circuit can be closed at the instant it was opened without being half-open |
| CircuitStore.Circuit.RateExceeded | src/wai/proxy/circuit.py:316-326 | Counting samples and failures along the deque decides as the definition over the samples in range |
| CircuitStore.Circuit.DoTrip | src/wai/proxy/circuit.py:328-341 | Fields after a trip are those of the machine |
| CircuitStore.Circuit.Probed | src/wai/proxy/circuit.py:363-375 | Fields after a health probe are those of the machine |
| CircuitStore.CircuitRegistry.FindVictim | src/wai/proxy/circuit.py:178-181 | The scan over the live objects finds the victim of the abstract registry |
| CircuitStore.CircuitRegistry.Evict | src/wai/proxy/circuit.py:175-183 | The eviction loop over objects does what the abstract registry does and replaces no surviving object |
| CircuitStore.CircuitRegistry.Get | src/wai/proxy/circuit.py:163-173 | The circuit returned carries the key's current state, and is the registered one unless it was evicted on the spot |
| CircuitStore.CircuitRegistry.Drive | src/wai/proxy/circuit.py:225-313 | An operation on a circuit obtained earlier extends that circuit's history by exactly that operation, and is invisible to the registry if the circuit was evicted |
| CircuitStore.CircuitRegistry.Acquire | src/wai/proxy/circuit.py:225-244 | One locked acquire is one step of the abstract registry and returns the ticket the current state calls for |
| CircuitStore.CircuitRegistry.Release | src/wai/proxy/circuit.py:246-254 | One locked release is one step; an unknown key changes nothing |
| CircuitStore.CircuitRegistry.RecordSuccess | src/wai/proxy/circuit.py:256-273 | One locked success is one step, creating the circuit if it is unknown |
| CircuitStore.CircuitRegistry.RecordFailure | src/wai/proxy/circuit.py:275-314 | One locked failure is one step, creating the circuit if it is unknown |
| CircuitStore.CircuitRegistry.IsAllowed | src/wai/proxy/circuit.py:197-221 | The answer is yes exactly when an acquire now would not be forced, for unknown keys and a disabled breaker too |
| CircuitStore.CircuitRegistry.ReportHealth | src/wai/proxy/circuit.py:345-377 | One locked health report is one step over all matching circuits |
| CircuitRuns.StepEffect | src/wai/proxy/circuit.py:163-377 | An event extends the history of exactly the circuits it reaches, and leaves every other surviving circuit as it was |
| CircuitRuns.PresentIff | src/wai/proxy/circuit.py:163-377 | Exactly which circuits are in the registry after an event: none after a reset, else those before and the new one, less those the eviction down to the limit takes |
| CircuitRuns.HealthReachesIff | src/wai/proxy/circuit.py:345-375 | A health report concerns exactly the known circuits of its model at its address, or of the model everywhere if it names none; an unhealthy one without any creates one; none if the breaker is disabled |
| CircuitRuns.NewIdentity | src/wai/proxy/circuit.py:163-173 | A new circuit is the one the event looked up, with the identity its caller gave or its key spells |
| CircuitRuns.RunIsFaithful | src/wai/proxy/circuit.py:133-377 | In every run the fields of a live circuit are the replay of what was done to it since it was created, across eviction, reset and reconfiguration |
| CircuitRuns.CountersMatchOutcomes | src/wai/proxy/circuit.py:256-341 | The counters and the window of every live circuit in every run are functions of its outcome log |
| CircuitRuns.BoundedRecovery | src/wai/proxy/circuit.py:185-377 | A key that no event has reached for the longer of the cap and the probe timeout is admitted again, whatever happened before and to other keys meanwhile |
| CircuitRuns.ProbesAreSpaced | src/wai/proxy/circuit.py:218-254 | While a circuit stays half-open, two probe grants are 120 seconds apart unless a probe ticket is released between them |
| CircuitRuns.SizeBounded | src/wai/proxy/circuit.py:175-183 | With fixed settings the registry never holds more circuits than configured, or 16 if that is less |
| CircuitRuns.SelfEvictionIsReachable | src/wai/proxy/circuit.py:163-183 | Under any settings a run leads to a request whose circuit is gone when the lock is released |
| Tickets.HoldersAgree | src/wai/proxy/handler.py:335-423 | In any interleaving the shared table of ticket holders agrees with each request's own view |
| Tickets.LoadEffect | src/wai/proxy/circuit.py:225-292 | Acquires and settlements of a key are the only events that move its load, by one |
| Tickets.LoadNeverExceedsTickets | src/wai/proxy/circuit.py:225-292 | For every interleaving of requests, with evictions, resets and ticketless failures, a circuit's load is at most the tickets out on it |
| Tickets.LoadExactIff | src/wai/proxy/circuit.py:225-292 | The load equals the tickets out at every moment iff the circuit was never evicted or reset while a ticket was out; then the clamp at zero never swallows a settlement |
| Tickets.LoadCanFallBelowTickets | src/wai/proxy/circuit.py:225-292 | A reset while a request holds a ticket leaves the load below the tickets |
| Routing.SelectDeployment | src/wai/proxy/routing.py:26-72 | A deployment is selected unless no usable one exists, and an excluded upstream only when every usable upstream is excluded, under every strategy and circuit state |
| Routing.GateRespected | src/wai/proxy/routing.py:45-72 | What is selected, in full: among the deployments with an address, not excluded unless all are, and admitted by their circuits, the first least busy, the first of the lowest priority value, the one whose turn or draw it is, or the first; if no circuit admits, the first that failed least recently; nothing only if there is none with an address |
| Routing.LeftAreEligible | src/wai/proxy/routing.py:45-57 | The filters one after the other leave exactly the eligible deployments, and then the admitted ones, in configured order |
| Routing.RoundRobinCounters.Next | src/wai/proxy/routing.py:18-23 | Each draw of a model returns how often that model drew before, whatever other models draw |
| Routing.RoundRobinCounters.Select | src/wai/proxy/routing.py:26-72 | A selection on the shared counters draws a number only in the round-robin branch and picks what the run of requests before it calls for |
| Routing.RoundRobinFair | src/wai/proxy/routing.py:18-71 | Over any run of selections, each of the n deployments of a model whose admitted list is stable is selected k/n times, rounded down or up, in its k requests, with requests for other models interleaved at will |
| ModelRegistry.RebuildAgrees | src/wai/proxy/registry.py:132-185 | After a rebuild from any database, configuration and previous state the alias map is exactly the union of the registered models' aliases and no alias is another model's name |
| ModelRegistry.RebuildSources | src/wai/proxy/registry.py:138-181 | Every registered definition is an active DB model, the previous definition of a DB model that did not fit, or a YAML model without a DB row |
| ModelRegistry.DbRowGets | src/wai/proxy/registry.py:168-174 | A database row gets its new definition iff that shares no name or alias with the models registered from the rows before it; else its previous definition iff that fits; else nothing |
| ModelRegistry.YamlRowGets | src/wai/proxy/registry.py:175-180 | A YAML model without a database row is registered iff it shares no name or alias with the database models and the YAML models before it |
| ModelRegistry.GovernedYamlAbsent | src/wai/proxy/registry.py:140-143 | A YAML model whose DB row is inactive or deleted is not registered |
| ModelRegistry.ReloadIsFixpoint | src/wai/proxy/registry.py:132-185 | Reloading a second time from the same database changes nothing, although the second run falls back on the first run's result |
| ModelRegistry.SecondReloadListsTheSame | src/wai/proxy/registry.py:182-226 | The sorted list is the same after a second reload |
| ModelRegistry.ResolveIsScan | src/wai/proxy/registry.py:202-208 | Indexed lookup equals a linear search by name, then by alias |
| ModelRegistry.AddModelKeepsIff | src/wai/proxy/registry.py:187-200 | `add_model` returns iff no other registered model has one of the aliases as its name or alias, and keeps the index consistent iff a condition on the input holds: the name is nobody's alias, or the aliases before the first taken one are the old ones; a raise that keeps it has changed nothing |
| ModelRegistry.AddedModelResolves | src/wai/proxy/registry.py:187-208 | After a call that keeps the index consistent the name and aliases of the model lead to the new definition, aliases only the old one had lead nowhere, and every other name leads where it did |
| ModelRegistry.ReturnCanShadowAlias | src/wai/proxy/registry.py:187-200 | A returning `add_model` can leave an alias that is another model's name |
| ModelRegistry.RaiseCanLoseAliases | src/wai/proxy/registry.py:187-200 | A raising `add_model` can lose aliases |
| ModelRegistry.Registry.TryAddModel | src/wai/proxy/registry.py:151-164 | Everything is checked before anything is written: the index changes only if no name or alias collides |
| ModelRegistry.Registry.ReplaceDbModels | src/wai/proxy/registry.py:132-185 | The rebuild loops yield the specified index, consistent and listed in order, from any earlier state |
| ModelRegistry.Registry.RebuildSorted | src/wai/proxy/registry.py:225-226 | The list is ascending by name and lists every registered model once |
| ModelRegistry.Registry.Lookup | src/wai/proxy/registry.py:202-208 | The lookup finds what a scan of the sorted list by name and then by alias finds; in an inconsistent index it still prefers the name and finds nothing only if neither name nor alias target is registered |
| ModelRegistry.Registry.AddModel | src/wai/proxy/registry.py:187-200 | Editing the dicts in place, with a raise half way, leaves exactly the specified index |
| FallbackChain.ResolvesIff | src/wai/proxy/handler.py:686-699 | A request resolves to a model iff a search for its canonical name (team alias, org alias or itself) finds it, the caller may use it and the name is not reserved |
| FallbackChain.ResolveModel | src/wai/proxy/handler.py:686-699 | A model resolved for a caller passed that caller's access check |
| FallbackChain.AllowedIff | src/wai/proxy/access.py:38-51 | A caller may use exactly the models on every allowlist that binds it: its org's, and those of its team and key unless they are missing or empty |
| FallbackChain.LinkIgnoresSpace | src/wai/proxy/routing.py:120-122 | A fallback link leads where its name without surrounding whitespace resolves, and a blank one nowhere |
| FallbackChain.WalkFallbackNames | src/wai/proxy/routing.py:111-130 | The walk returns the longest chain of resolving links with distinct names and at most limit + 1 models |
| FallbackChain.ChainUnique | src/wai/proxy/routing.py:111-130 | There is only one such chain |
| FallbackChain.ChainIsAccessible | src/wai/proxy/routing.py:104-130 | A chain holds at most one model more than the configured depth, 17 at most and 6 if none is configured, and fewer only if its last link leads nowhere or back; the caller may use every one of them |
| FallbackChain.TriedChain | src/wai/proxy/handler.py:304-313 | The filters in full: the healthy models in chain order, all if none is; of more than one of those, the ones some circuit admits, all if none does |
| Handler.DelayBounded | src/wai/proxy/handler.py:198-229 | A model is given up iff a retry would hit a failed upstream whose Retry-After exceeds the limit; such a retry waits for its Retry-After or the backoff drawn, whichever is longer, any other just the backoff; every wait lies between half the step and the larger of the two caps |
| Handler.BackoffLaw | src/wai/proxy/handler.py:198-203 | Backoff steps double from the configured base, sixteen times at most, up to the configured maximum; a wait is any time from half a step to a whole one |
| Handler.Settlement | src/wai/proxy/handler.py:231-253 | However an attempt ended, its ticket is settled by exactly one registry call on its own key |
| Handler.OnlyBlameCounts | src/wai/proxy/handler.py:231-253 | Network errors, 429 and 5xx count against a circuit, good answers close it, and cache hits, other 4xx and exceptions change nothing but its load, which every settlement lowers, and the probe flag, which goes exactly when a half-open circuit gets its probe ticket back; a Retry-After is passed on exactly from a 429 or a raised 503 |
| Handler.GripIsHold | src/wai/proxy/handler.py:335-423 | The order of acquire, forward, settle and sleep in a trace is the one-ticket discipline the registry's accounting relies on |
| Handler.DecideRetry | src/wai/proxy/handler.py:403-419 | A retry is granted exactly when the pause is allowed and ends before the deadline |
| Handler.ContextExitIsIdle | src/wai/proxy/handler.py:383-385 | For the statuses `_forward` raises a model is given up only over the pause or the deadline |
| Handler.Attempt | src/wai/proxy/handler.py:335-423 | An attempt asks for one ticket, forwards once and settles that ticket once on every exit, before any sleep; a failed upstream is excluded; the sleep ends before the deadline |
| Handler.TryOnce | src/wai/proxy/handler.py:322-423 | One pass of the retry loop keeps the run exact and within its bounds |
| Handler.TryCandidate | src/wai/proxy/handler.py:317-423 | Each attempt on a candidate goes where the selection points given the failures before it, is settled as its outcome demands and followed by a retry exactly when the rules grant one, at exactly that time |
| Handler.AttemptsExactly | src/wai/proxy/handler.py:314-419 | One attempt more than `max_retries` is made on a candidate, each after the wait of the one before, unless an attempt is answered, breaks off, asks for too much patience or leaves no time before the deadline, and then no more; without retries exactly one |
| Handler.SettledWhereSent | src/wai/proxy/handler.py:324-423 | Every attempt goes to an address of the model, and its ticket is settled under the key of the deployment there |
| Handler.FirstAttemptsDiffer | src/wai/proxy/routing.py:38-53 | With n distinct upstreams the first n attempts on a candidate hit n different ones |
| Handler.NextSpreads | src/wai/proxy/handler.py:320-365 | A failed upstream is used again only once every usable upstream of the model has failed |
| Handler.Handle | src/wai/proxy/handler.py:314-426 | Candidates are tried in chain order and skipped only when their run ended in moving on; no ticket is held at the end; a candidate gets at most `max_retries` + 1 forwards and the chain their sum, retries start within the model's timeout or else the configured budget, and all sleeping fits in the largest of these |
| Handler.RequestEnds | src/wai/proxy/handler.py:350-426 | A request is answered iff the last attempt of the last candidate tried was, and breaks off iff that one did; every candidate before was left over an error of its upstream |
| Handler.Serve | src/wai/proxy/handler.py:296-426 | From a requested name to the answer: every model tried passed the caller's access check, there is at least one and at most as many as the depth allows, in the order of the filtered fallback chain, and an unresolved name is sent nowhere |
| Handler.InterleavedRequests | src/wai/proxy/handler.py:335-423 | However requests running the handler interleave, at any moment and mid-trace, a circuit's load is at most the tickets out on it |
| Handler.NoLoadWhenIdle | src/wai/proxy/handler.py:335-423 | Once all requests are over no circuit carries any load, even if circuits were evicted or reset meanwhile |
| UsageLogger.Rollup.Count | src/wai/usage/logger.py:183-191 | Counting an event adds its weight, with a missing cost as zero and a missing ttft not counted |
| UsageLogger.UsageLogger.RollUp | src/wai/usage/logger.py:137-191 | The rollup objects of a batch sum exactly the base rows of their slot, one object per slot, successful events only |
| UsageLogger.UsageLogger.UpsertAll | src/wai/usage/logger.py:216-248 | The upserts add every rollup to its row and touch no other row |
| UsageLogger.UsageLogger.Flush | src/wai/usage/logger.py:134-250 | After any flush, committed or failed, every hourly row is the group-by sum of the base rows of its slot and no other row exists; a failed flush changes no table |
| UsageLogger.UsageLogger.Run | src/wai/usage/logger.py:113-132 | Every event taken from the queue is in exactly one batch or pending, in order; every batch is full but those a timeout or the end forced; nothing is pending after either; the base rows and the request log grow by the committed batches in order |
| UsageLogger.AggregateGrows | src/wai/usage/logger.py:193-231 | Appending base rows and adding their sums keeps the hourly table the aggregate of the base table |
| UsageLogger.HourlyAddsUp | src/wai/usage/logger.py:177-231 | An hourly row exists iff a base row of its key, model and hour does; it counts those rows and adds up their tokens, known costs, durations and known times to first token, column by column |
| UsageLogger.BaseRowsAre | src/wai/usage/logger.py:141-178 | The base rows of a batch are its 2xx events, in order, each in the hour of its own clock reading |
| UsageLogger.ReceivedAre | src/wai/usage/logger.py:113-132 | The events received are those handed over before the first stop |
| UsageLogger.TableIgnoresBatches | src/wai/usage/logger.py:134-248 | The hourly table depends on the events and the hours they were rolled up in, not on how they were batched or when the batches were written |
| UsageLogger.RowsIgnoreBatches | src/wai/usage/logger.py:134-191 | However events are batched, committed and stamped, their base rows do the work of one batch of all committed events |
| UsageLogger.RunsEndWithOneTable | src/wai/usage/logger.py:113-248 | Two runs that commit the same events, each rolled up in the same hour, end with the same hourly table, whatever their buffer sizes, timeouts, failures and creation times |
| UsageLogger.RunAuditIff | src/wai/usage/logger.py:113-171 | After any run of batches, none walked before it was created, the hourly table agrees with the stored creation times iff no event was rolled up in a later hour than its batch was created in |
| UsageLogger.FlushAcrossTheHour | src/wai/usage/logger.py:141-171 | A flush created in the last second of an hour and rolled up a second later breaks the agreement |
| RateLimiter.CounterExactIff | src/wai/ratelimit/limiter.py:116-125 | A local counter equals the number of its increments iff it was never pruned, and is smaller otherwise |
| RateLimiter.DroppedIsOver | src/wai/ratelimit/limiter.py:122-124 | Only minute counters whose minute is over are pruned |
| RateLimiter.AnswerIsOrdinal | src/wai/ratelimit/limiter.py:116-125 | With a clock that does not run backwards increments are answered 1, 2, 3, ... per window across any number of prunes |
| RateLimiter.ReadingsAreClocked | src/wai/ratelimit/limiter.py:61-76 | Windows computed and counters pruned at readings that do not decrease form such a run |
| RateLimiter.AnswerExactIff | src/wai/ratelimit/limiter.py:116-125 | Without any clock assumption an answer is the true ordinal iff the counter was not pruned before |
| RateLimiter.StepBackRecounts | src/wai/ratelimit/limiter.py:122-125 | A clock that steps back over a prune makes the second request of a minute count as the first |
| RateLimiter.LimitHolds | src/wai/ratelimit/limiter.py:116-125 | Per scope and window exactly the first `limit` increments are answered within the limit, or all if there are fewer |
| RateLimiter.RequestsWithinLimit | src/wai/ratelimit/limiter.py:61-76 | Over any run of requests at most `limit` of those subject to the limit are let through per scope and window, however often counters are pruned |
| RateLimiter.ScopeLimitHolds | src/wai/ratelimit/limiter.py:61-76 | Of the requests of one key, team or org with a limit, no more than that are let through in one minute or day |
| RateLimiter.TurnedAwayOver | src/wai/ratelimit/limiter.py:61-76 | A request is turned away only over a limit of its own that is used up |
| RateLimiter.ChecksAre | src/wai/ratelimit/limiter.py:12-16 | The checks of a caller are its positive limits in the scopes it belongs to, key before team before org, the minute before the day |
| RateLimiter.WindowContains | src/wai/ratelimit/limiter.py:19-26 | A window starts on a full minute or day and holds the clock reading, and there is only one such start |
| RateLimiter.RateLimiter.Increment | src/wai/ratelimit/limiter.py:116-125 | An increment is counted locally and pending, returns the specified answer and keeps written, pending, in-flight and lost counts summing to the true count |
| RateLimiter.RateLimiter.CheckProxyRequest | src/wai/ratelimit/limiter.py:61-76 | Scopes are counted in order until one is over its limit; a request passes iff none is |
| RateLimiter.RateLimiter.TakePending | src/wai/ratelimit/limiter.py:134-137 | Taking the pending counters loses none |
| RateLimiter.RateLimiter.WriteBatch | src/wai/ratelimit/limiter.py:138-148 | Each counter of a batch is added to its row or lost with its failed write, so without failures nothing is lost |
| SqlScanner.QmarkToDollar | src/wai/db/dialect.py:17-38 | The scanner computes the quote-parity rewriting: a placeholder is rewritten iff an even number of quotes precede it, numbered from 1 in order, and all else is copied |
| SqlScanner.DollarClears | src/wai/db/dialect.py:17-38 | Rewriting leaves no placeholder outside strings and keeps every quote |
| SqlScanner.DollarIdempotent | src/wai/db/dialect.py:17-38 | Rewriting twice is rewriting once |
| SqlScanner.DollarNumbers | src/wai/db/dialect.py:17-38 | Rewriting puts `$1`, `$2` and so on between the pieces the placeholders outside strings separate |
| SqlScanner.PiecesAreAll | src/wai/db/dialect.py:17-38 | Those pieces, with the separator between them, are the text |
| SqlScanner.DigitsSpell | src/wai/db/dialect.py:33-34 | Placeholder numbers are decimal, without leading zeros |
| Prelude.StripTrims | src/wai/db/dialect.py:103-113 | Stripping takes whitespace off both ends of a text, all of it and nothing else |
| SqlScanner.TrimmedAre | src/wai/db/dialect.py:89-113 | The statements are the pieces between semicolons outside strings that are not blank, in order, without the whitespace around them |
| SqlScanner.SplitScript | src/wai/db/dialect.py:89-113 | On comment-free text the splitter returns the trimmed, non-blank pieces between the semicolons outside strings |
| SqlScanner.SplitRoundTrip | src/wai/db/dialect.py:89-113 | On comment-free text no statement is blank, padded or contains a semicolon outside strings, and joining the statements with semicolons and splitting again returns the same list |
| SqlScanner.InsideIsOdd | src/wai/db/dialect.py:25-31 | The scanners' flag, which every quote flips, says whether an odd number of quotes precede |
| AlertDispatcher.AlertDispatcher.Enqueue | src/wai/alerts/dispatcher.py:105-116 | The queue holds the latest submissions up to its size, and exactly the drops are counted |
| AlertDispatcher.AlertDispatcher.Take | src/wai/alerts/dispatcher.py:124-133 | Events leave in submission order |
| AlertDispatcher.AlertDispatcher.QueueIsSuffix | src/wai/alerts/dispatcher.py:105-120 | The queue is a suffix of the submission log, and submitted = taken + queued + dropped |
| AlertDispatcher.AlertDispatcher.Process | src/wai/alerts/dispatcher.py:169-202 | An event fires in exactly the scopes whose rule permits it and whose cooldown is over, each judged on the map before the event; the map is cleared only above 10000 entries |
| AlertDispatcher.ScopesAre | src/wai/alerts/dispatcher.py:175-183 | An event is judged in its org's scope and then in the platform's if it has no org, is critical or of an unknown kind |
| AlertDispatcher.AlertDispatcher.FiresByLog | src/wai/alerts/dispatcher.py:145-192 | An event fires in a scope iff the rule is enabled and its severity suffices, and the last firing of its key since the map was cleared, or else the one on record, is at least the cooldown ago |
| AlertDispatcher.FiresAre | src/wai/alerts/dispatcher.py:191-192 | Every firing of an event with a dedupe key is noted, whatever the cooldown |
| AlertDispatcher.AlertDispatcher.Consider | src/wai/alerts/dispatcher.py:184-192 | One scope fires iff the rule permits and the cooldown is over, and no other scope's entry changes |
| AlertDispatcher.FiringsAreApart | src/wai/alerts/dispatcher.py:145-192 | While the map is not cleared, any two firings of one scope, kind and dedupe key are at least the rule's cooldown apart |
| AutoRouter.PickComplex | src/wai/proxy/auto_router.py:391-410 | The pick is a candidate and is marked complex |
| AutoRouter.HeuristicRoute | src/wai/proxy/auto_router.py:413-455 | The model is a candidate, and an image-free decision is marked complex iff the prompt is |
| AutoRouter.HeuristicPrefers | src/wai/proxy/auto_router.py:391-455 | Images go to the strongest vision model, complex prompts to the fixed model or else to the draw among those that are not the default, everything else to the default, and without it coding tasks to the strongest coder and the rest to the cheapest model, ties to the first |
| AutoRouter.FittingFits | src/wai/proxy/auto_router.py:466-475 | The candidates are the models that hold the request or are of unknown size, in order, or all if none is |
| AutoRouter.KeyDeterminesNames | src/wai/proxy/auto_router.py:555-560 | Two unambiguous questions with one cache key are the same question |
| AutoRouter.OrderIsIrrelevant | src/wai/proxy/auto_router.py:555-560 | The order in which the candidates come does not change the key |
| AutoRouter.FreshTurn | src/wai/proxy/auto_router.py:544-605 | A turn without a session takes the decision of the last 60 seconds for its key, else the classifier's if the heuristic is less than 0.7 confident, else the heuristic's, and files a new one among at most 512 |
| AutoRouter.StickyTurn | src/wai/proxy/auto_router.py:522-537 | A turn that finds its conversation's entry, at most half an hour old and with a fitting model, stays on it, unless it is complex and the entry is not: then it goes to the complex pick |
| AutoRouter.OpeningTurn | src/wai/proxy/auto_router.py:538-542 | Any other turn is decided afresh and opens the conversation's entry |
| RouterRuns.MisroutesIffNamesClash | src/wai/proxy/auto_router.py:544-605 | Under one configuration some run of calls ends with an answer that is not a candidate iff two admissible candidate lists, one with a model the other lacks, join to the same text, or one to the other's text behind fewer than 800 characters and a bar |
| RouterRuns.AlphabetMisroutesIff | src/wai/proxy/auto_router.py:555-563 | A rule for names over an alphabet lets some run end with an answer that is not a candidate iff the alphabet has the comma or the bar, with the configuration changing at will |
| RouterRuns.CommaMisroutes | src/wai/proxy/auto_router.py:555-563 | Asked about the models `a` and `b` the router answers with the model `a,b` cached before |
| RouterRuns.BarMisroutes | src/wai/proxy/auto_router.py:555-563 | A prompt that ends in a bar and a letter, asked about the model `b`, is answered with a model cached before whose name is that letter, a bar and `b` |
| RouterRuns.RoutesStayInPool | src/wai/proxy/auto_router.py:504-605 | With names free of commas and bars every turn of every conversation is routed to a fitting candidate, through both caches |
| RouterRuns.SessionsUpgradeOnce | src/wai/proxy/auto_router.py:504-655 | In any run of the router with other conversations interleaved, a conversation whose turns are at most half an hour apart and whose model keeps fitting is routed to another model at most once, by a complex turn whose pick is marked complex |
| RouterRuns.CachesBounded | src/wai/proxy/auto_router.py:646-665 | The router never holds more than 512 decisions and 4096 conversations |
| AutoRouter.AutoRouter.SessionGet | src/wai/proxy/auto_router.py:630-644 | A session sticks iff its entry exists, has not expired and its model still fits; a hit slides the expiry, an expired entry goes and any other is left alone |
| AutoRouter.AutoRouter.SessionPut | src/wai/proxy/auto_router.py:646-655 | A decision is stored unless it is a sticky answer; storing it changes no other entry and drops only the oldest of an overfull cache |
| AutoRouter.DropOldest | src/wai/proxy/auto_router.py:651-664 | Trimming removes exactly the given number of entries, none younger than one it keeps |
| AutoRouter.AutoRouter.RouteFresh | src/wai/proxy/auto_router.py:544-605 | The answer is the live cached one, else the confident heuristic, else the classifier's, else the heuristic, and only a new answer to a prompt without images is filed, under its own key |
| AutoRouter.AutoRouter.Route | src/wai/proxy/auto_router.py:504-542 | A live session's turn keeps the model and renews the entry, or upgrades and files the complex pick; any other turn is decided afresh and opens the session; both caches change in no other way |

## Left out

* HTTP forwarding, streaming, provider adapters, headers and bodies: an attempt is its outcome.
* Parsing of Retry-After headers, including infinite values and dates: the delay is an optional real.
* Floating point: times, costs and scores are reals.
* Clocks, random draws, weighted choice and jitter are inputs; the weights' distribution is not modelled.
* Error texts, metrics, alerts and snapshots produced by circuits.
* The handler's per-upstream busy count is an input of selection; its own bookkeeping mirrors that of tickets.
* `ProxyHandler._model_admitted`, the health checker's verdicts and the circuits' answers during the filters are inputs of `FallbackChain.Tried`.
* Routing a request for the reserved automatic name, from the auto router's choice on.
* Loading of the access and alias caches, and models changing between the links of one walk.
* Model attributes that routing does not read (provider, keys, prices) and copying of models on lookup.
* The registry's YAML dict is a sequence of models; that it holds one model per name comes from its constructor and is not needed.
* Organisation, team and user labels of rollup rows and the remaining columns of request logs.
* The queue in front of the usage logger, which drops events when full, and cancellation during a flush.
* PostgreSQL: a table is a map or a sequence and a transaction happens entirely or not at all.
* Token and spend limits of the rate limiter, which read sums from the database.
* Comment stripping and `INSERT OR IGNORE` rewriting in the SQL dialect: text is taken after them.
* Delivery, channel choice and storing of alerts, and the event time read from the store (an input).
* Prompt analysis, model scores, the classifier call and session-key derivation of the auto router; digests are taken to be injective, so a key stands for what was hashed.
* The confidence and the other findings of the prompt analysis are inputs independent of the prompt text; `RouterRuns.MisroutesIffNamesClash` and `RouterRuns.AlphabetMisroutesIff` rely on it, the two example runs do not.
* Other turns slipping in between the steps of one auto-router turn while the classifier is awaited.
* AutoRouter.DropOldest: does not say which entry goes first when several share the oldest stamp; the results hold for every choice.
* ModelRegistry.Registry.Lookup: does not tell apart the two kinds of `KeyError`, for an unknown name and for an alias of an unregistered model; both are `None`.
* Admin API, user interface, MCP client, response cache and configuration: create-read-update plumbing without claims of this kind.
