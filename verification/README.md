# A verified model of xnode-agent

xnode-agent reconciles one Xray server with the state a panel wants. This project models its decisions in Dafny and proves
what they keep: over one call, over a whole plan, and over every run of synchronisations, crashes, retries and interleaved
connections. `dafny verify dfyconfig.toml` checks all of it.

What the outside decides (validation, writes, process starts, API answers, the panel, clocks) is an argument or an event that
may come out either way, so every theorem ranges over all outcomes. Loops and objects of the source are loops and classes
here, each proved equal to a function on values; the theorems are about those functions.  Where a definition is shared by an
operation and a theorem about it, a further theorem says on the fields of the data what the definition means.

## The modules

| file | what it holds |
|---|---|
| `Order`, `Text`, `Model` | Go's string order and sorting, string search, the panel's data types |
| `Accounting` | the synthetic Xray identity and its parsers |
| `Builder` | the full Xray configuration: inbounds, statistics levels, managed routing |
| `ConfigMeaning` | the configuration and the served handlers, told on the fields of the state |
| `Runtime` | the handler table of a live Xray, its API commands, and the hot-reload planner |
| `HotUsers`, `Refinement`, `Exactness` | diff-then-patch against rebuild, and exactly when the two agree |
| `PlanMeaning` | which operations a plan holds, when it asks for a restart, and whom it serves throughout, told on the fields of both states |
| `RuntimeSafety`, `NonDisruption` | what every prefix of a plan keeps, and exactly which users it interrupts; levels and routing |
| `Process` | the process manager: configuration, last-good backup, live process |
| `Reconcile` | rounds and runs of the reconcile loop as documented |
| `ShadowedError`, `WrittenLoop` | rounds and runs of the loop as written |
| `Policy`, `PolicyMeaning` | quota, expiry, IP and device limits, draining; whole states, position by position |
| `Traffic` | the spool, retries and a panel that claims each event once; quota soundness |
| `PolicyFile` | the policy document and its tombstones |
| `Limiter`, `LimiterSafety`, `RateLimit` | admission, release and the shared bucket of the patched dispatcher |
| `Tracker`, `AccessLog`, `SessionReports` | the pruned session tracker, the log it reads, merged reports |
| `SessionRuns` | runs of the tracker and the log it reads, together |
| `Agent`, `AgentRuns` | one synchronisation of the agent, and runs of them, end to end |
| `SyncMeaning` | what one synchronisation does, told on the panel's answer and the readings |

## What the proofs found

* **Hot reload against rebuild.** With unique accounting emails among the enabled users, running the plan does *not* always
  give the rebuilt table. `Exactness.HotReloadIsExact` states exactly when it does: no inbound takes a tag that a later
  survivor still holds, and every survivor is `Faithful`, which only speaks about users whose ID occurs twice in an inbound.
  `RuntimeSafety.SwappedTagsStopThePlan` and `RuntimeSafety.HiddenUserIsLost` are concrete failures. Tags can collide with a
  newly added inbound too, not only between two survivors.
* **The fallback is unreachable.** docs/ARCHITECTURE.md:61 and docs/RUNTIME_API.md:45 promise a full restart after a failed hot
  operation. The error tested at internal/agent/agent.go:206 is not the one set at lines 191-193, so the code accepts a plan that
  stopped half-way and persists its state. `ShadowedError` shows that one round as written keeps the planner's starting point true
  under all failures exactly when the plan is empty, and `WrittenLoop.WrittenLoopIsExact` that all runs do exactly when none of
  them reaches a hot reload with something to do or a change over a configuration left stale by a failed recovery.
* **The run invariant fails even with the fallback.** A failed recovery returns before the state is persisted
  (internal/agent/agent.go:242-245). A later rollback can then run a configuration the persisted state does not describe.
  `Reconcile.RunKeepsTruth` gives the exact condition over whole runs; `Reconcile.FailedRecoveryMisleadsThePlanner` reaches the
  failure in three rounds from a fresh node, whatever the three states are.
* **A fresh node keeps a bad first configuration** and makes it the backup (`Process.FreshNodeKeepsBadConfig`).
  `Process.DiskStaysGood` says for every node, fresh or not, exactly when an unproven file is left on disk.
* **After a tombstone expires** an old session is cut only if its generation is not zero, the generation of an unknown user
  (`Limiter.OldSessionIO`).
* **Draining** keeps new sessions out, however the node goes on, exactly when no session is between its mode check and its
  admission (`LimiterSafety.DrainingHoldsExactlyWhenSettled`).
* **The IP limit** is not restored by an admission: a session from an address in use is admitted above it.
  `LimiterSafety.AdmissionRespectsSnapshot` says exactly when the limit holds afterwards, and
  `LimiterSafety.InUseAddressExceedsLimit` reaches the failure.
* **Non-disruption.** A plan that runs to the end leaves a user uninterrupted exactly when its inbound keeps its base and the
  planner finds the users equal or can patch them without retiring this one (`NonDisruption.PrefixIsNonDisruptive`).

## Model

| member | source | states |
|---|---|---|
| Accounting.SanitizeFixpoint | internal/xray/builder.go:11-14 | An ID survives unchanged exactly when it has no greater-than sign, no bar and no blank; each of these becomes an underscore and nothing else changes |
| Accounting.ParseFormattedEmail | internal/xray/builder.go:197-206 | Parsing a formatted email gives the sanitised pair, and fails only for an empty ID |
| Accounting.FormatParsedEmail | internal/xray/builder.go:197-206 | Whatever the email parser accepts, formatting its two parts gives back |
| Accounting.EmailsEqual | internal/xray/builder.go:11-14 | Two accounting emails are equal exactly when the sanitised user and inbound IDs are |
| Accounting.CounterNameRoundTrip | internal/xray/builder.go:208-218 | A counter name built from an accounting email parses back to the sanitised IDs and the direction, exactly when neither ID is empty and the direction has no separator |
| Accounting.CleanCounterNameRoundTrip | internal/xray/builder.go:208-218 | It parses back to the original IDs exactly when they have no reserved character |
| Accounting.FormatParsedName | internal/xray/builder.go:208-218 | Whatever the counter parser accepts is the counter name of the IDs and the direction it returns |
| Order.StrLessMeaning | internal/session/tracker.go:208-213 | Strings are compared at the first character in which they differ, and a proper prefix comes first |
| Builder.BuildInbound | internal/xray/builder.go:88-145 | The built inbound carries one client for each enabled user, in order, under its accounting email and level, or fails for a missing ID, tag or protocol |
| Builder.CollectLevels | internal/xray/builder.go:75-86 | The levels with statistics are zero and exactly those of the enabled users |
| Builder.CollectManagedRules | internal/xray/builder.go:147-179 | One rule for each enabled user with an outbound of its own, in state order |
| Builder.BuildConfig | internal/xray/builder.go:16-73 | The whole configuration, or an error when any inbound, outbound, routing or DNS part cannot be built |
| ConfigMeaning.DocumentMeaning | internal/xray/builder.go:88-145 | A document needs ID, tag and protocol; it takes over what the panel sent, and lists the enabled users in order, with email, level and credential, in place of the clients or, for WireGuard with enabled users, of the peers |
| ConfigMeaning.HandlerMeaning | internal/xray/builder.go:16-73 | Xray started from a state serves under each tag the handler of that inbound, with an account for exactly its enabled users |
| ConfigMeaning.NothingElseIsServed | internal/xray/builder.go:33-41 | No other tag is served |
| ConfigMeaning.UserRulesAre | internal/xray/builder.go:159-171 | The rules of an inbound, by position: one for each enabled user with an outbound, under its accounting email |
| ConfigMeaning.RoutingMeaning | internal/xray/builder.go:147-179 | When the routing message is accepted, when there is a routing object, and that managed rules stand in front of the panel's |
| ConfigMeaning.ConfigBuilds | internal/xray/builder.go:33-71 | A configuration can be built exactly when every inbound has ID, tag and protocol, all outbounds and the DNS part parse, and the routing message fits the managed rules |
| ConfigMeaning.ConfigHolds | internal/xray/builder.go:16-73 | It holds level zero and the levels of the enabled users, the inbound documents in order, the panel's outbounds or the two default ones, DNS and routing |
| Model.CollectInboundsById | internal/xray/runtime.go:174-180 | Lookup by inbound ID, a later duplicate winning |
| Model.CollectUsersById | internal/xray/runtime.go:182-188 | Lookup by user ID, a later duplicate winning |
| Runtime.CollectRoutes | internal/xray/runtime.go:131-147 | The routes of a state, sorted by inbound and then user |
| Runtime.CompareUsers | internal/xray/runtime.go:197-212 | The comparison of two user lists, as the loops compute it |
| Runtime.FindNewLevel | internal/xray/runtime.go:50-60 | The first enabled user whose level the previous state did not load, if any |
| Runtime.PlanUsers | internal/xray/runtime.go:91-113 | All removals of retired users of the old version, then all additions for the new one |
| Runtime.PlanInbound | internal/xray/runtime.go:71-114 | Add, replace, patch or leave alone one desired inbound |
| Runtime.PlanRuntime | internal/xray/runtime.go:45-117 | The plan: a restart with its reason, or removals followed by the operations of each desired inbound |
| PlanMeaning.UsersAlikeMeaning | internal/xray/runtime.go:197-217 | Users are taken as equal exactly when the lists are equally long, have the same IDs, and the entry that counts for each ID has the same level, credential and enabled flag in both |
| PlanMeaning.RetiredMeaning | internal/xray/runtime.go:94-99 | An enabled user has to go exactly when the entry that counts for its ID on the other side is missing, disabled, or has another level or credential |
| PlanMeaning.PlanHolds | internal/xray/runtime.go:62-117 | A plan holds exactly the operations the difference of the two states calls for: removals and additions of inbounds, replacements, and per-user changes in inbounds that keep every field but users and metadata |
| PlanMeaning.PanelFiguresPlanNothing | internal/xray/runtime.go:215-219 | When only limits, used traffic, panel emails, accounts, generations or metadata have changed, the plan is empty |
| PlanMeaning.UnchangedUserIsServed | internal/xray/runtime.go:65-114 | A user that stays enabled with its ID, level and credential, in an inbound equal in every field but users and metadata, is served with its account after every prefix of the plan |
| PlanMeaning.RestartOnFields | internal/xray/runtime.go:45-60 | A restart is asked for exactly when outbounds, routing or DNS parse to something else, the users' own outbounds have changed, or an enabled user has a level not loaded before; and the first of these reasons is given |
| PlanMeaning.FirstNewLevel | internal/xray/runtime.go:50-60 | The level named in the reason is that of the first enabled user, in state order, whose level was not loaded |
| HotUsers.AccountTableOfClients | internal/xray/builder.go:106-118 | Loading the built clients gives one account for each enabled user, the last one winning for a shared email |
| HotUsers.UniqueIdsAreVisible | internal/xray/runtime.go:182-188 | With unique user IDs no enabled user is hidden from the planner's lookup |
| HotUsers.EqualUsersEqualAccounts | internal/xray/runtime.go:197-212 | Users taken as equal have equal accounts exactly when hidden users are covered on both sides |
| HotUsers.UntouchedHandler | internal/xray/runtime.go:83-85 | A handler the planner leaves alone is the one a rebuild would load exactly when the pair is faithful |
| HotUsers.PatchedAccounts | internal/xray/runtime.go:94-113 | Accounts kept by the removals plus the added ones are the accounts of the new version |
| HotUsers.UserPatch | internal/xray/runtime.go:91-113 | The user operations all succeed and turn the old handler into the new one, touching no other tag |
| Refinement.TableServes | internal/xray/builder.go:16-73 | A process started from a state serves each inbound under its own tag and nothing else |
| Refinement.InboundRound | internal/xray/runtime.go:71-114 | One planned inbound succeeds exactly when no other live inbound holds its tag, and then serves its new version |
| Refinement.ReadyReloadRefinesRebuild | internal/xray/runtime.go:45-117 | With faithful survivors a plan runs to the end exactly when tags come free in order, and then it is a rebuild |
| Refinement.HotReloadRefinesRebuild | internal/xray/runtime.go:45-117 | The same for states in which every enabled user is visible to the lookup by ID |
| Refinement.StableTagsSuffice | internal/xray/runtime.go:65-114 | If no inbound takes another one's old tag, the plan always succeeds and equals a rebuild |
| Exactness.UnfaithfulPatch | internal/xray/runtime.go:91-113 | A patch between versions that hide an unchanged user on one side only never gives the new handler |
| Exactness.RoughPlanMisses | internal/xray/runtime.go:65-114 | One inbound that is unfaithful or wants a tag still taken spoils the whole plan; no later operation repairs it |
| Exactness.HotReloadIsExact | internal/xray/runtime.go:45-117 | Diff-then-patch equals rebuild if and only if tags come free in order and every survivor is faithful |
| RuntimeSafety.PrefixHasNoStrangers | internal/xray/runtime.go:247-277 | After any number of commands every account in the table is granted by the old or the new state |
| NonDisruption.PlanSpares | internal/xray/runtime.go:65-114 | A plan has no command against an enabled user exactly when the user is undisturbed: its inbound keeps its base, and the users are found equal or can be patched without retiring it |
| NonDisruption.PresenceIsExact | internal/xray/runtime.go:247-277 | A user is served after every prefix of any commands exactly when every command against it comes too late to be carried out |
| NonDisruption.PrefixIsNonDisruptive | internal/xray/runtime.go:65-114 | An undisturbed user is served, with its account, after every prefix of the plan; when the plan runs to the end, no other user is |
| PlanMeaning.UndisturbedMeaning | internal/xray/runtime.go:71-99 | Who is undisturbed, on fields: the inbound keeps every field but users and metadata, and all users are alike or the API can change users and this one is kept as it is |
| RuntimeSafety.RestartMeaning | internal/xray/runtime.go:45-60 | A restart is asked for exactly when the global parts differ or an enabled user needs a level not loaded before |
| RuntimeSafety.LevelsStayCovered | internal/xray/runtime.go:50-60 | Over any chain of hot reloads after a restart, the levels loaded at that restart cover every enabled user |
| RuntimeSafety.ManagedRoutingMeaning | internal/xray/runtime.go:126-149 | The sorted comparison of routes succeeds exactly when the two states have the same set of routes |
| RuntimeSafety.HotReloadKeepsRouting | internal/xray/runtime.go:119-149 | States with equal global parts send every email to the same outbound, whatever their inbound and user order |
| RuntimeSafety.SwappedTagsStopThePlan | internal/xray/runtime.go:78-81 | Two survivors that swap tags make the plan fail |
| RuntimeSafety.HiddenUserIsLost | internal/xray/runtime.go:94-113 | Two whole states with distinct emails, a plan without restart that runs to the end, and a table without the user that a rebuild would serve |
| Process.Manager.Restart | internal/xray/process.go:194-247 | Whatever ran is gone; the configuration on disk runs if it starts |
| Process.Manager.Rollback | internal/xray/process.go:107-119 | The backup, if there is one and it can be written, becomes the configuration and is started |
| Process.Manager.Apply | internal/xray/process.go:64-85 | The whole new state and outcome of a change, for all combinations of faults |
| Process.Manager.ForceApply | internal/xray/process.go:87-105 | The same for a forced change, which restarts even for equal content |
| Process.Manager.Store | internal/xray/process.go:47-62 | The file and the backup follow the content; the live process is left alone |
| Process.Manager.Recover | internal/xray/process.go:255-269 | A restart of the current configuration, and failing that of the backup |
| Process.Manager.Start | internal/xray/process.go:186-193 | Nothing for a running process, otherwise a start of the configuration on disk |
| Process.Manager.Stop | internal/xray/process.go:229-246 | The process is gone and both files stay |
| Process.Manager.ApplyRuntime | internal/xray/runtime.go:243-279 | The table after the commands up to the first refused or failed one, and whether all went through |
| Process.ExecutedIsPrefix | internal/xray/runtime.go:243-279 | What ran is a prefix of the commands; it is all of them exactly when none is refused or fails in time |
| Process.PatchMeaning | internal/xray/runtime.go:243-279 | A plan that asks for a restart is left alone; any other leaves files, levels and routing as they were and the table after a prefix of its commands, all of them exactly when the patch is complete |
| Process.FailedSwitchRestoresOld | internal/xray/process.go:64-119 | New content that does not validate changes nothing; content that does not start puts the old configuration back, running again if it still starts |
| Process.SwitchMeaning | internal/xray/process.go:64-119 | The five ways a change can end, with both files, the process and the outcome of each, for every node and every combination of faults |
| Process.UnchangedMeaning | internal/xray/process.go:47-67 | Equal content changes nothing; storing other content changes the files alone, if it is valid and can be written |
| Process.RecoveryMeaning | internal/xray/process.go:255-269 | The three ways a recovery can end; one that leaves nothing running has failed |
| Process.DiskStaysGood | internal/xray/process.go:64-119 | With any faults and any files, none included, an unproven configuration is left on disk exactly when it was written, did not start, and could not be rolled back |
| Process.FreshNodeKeepsBadConfig | internal/xray/process.go:107-111 | Without a backup a failing first configuration stays on disk and becomes the next backup |
| Process.LastGoodStaysGood | internal/xray/process.go:47-119 | Over every run of changes, hot reloads, recoveries, starts, stops and crashes, disk and backup hold only configurations that were good or from which a process ran |
| Reconcile.HotReloadServes | internal/agent/agent.go:188-199 | A completed hot reload turns a process that behaves like the old configuration into one that behaves like the new one: handlers, levels, outbounds, DNS and routing |
| Reconcile.CheckMeaning | internal/agent/agent.go:239-247 | A process that has died stays down until the next round, one that runs without answering is recovered, and the round fails exactly when nothing runs after that |
| Reconcile.PersistedStateIsTrue | internal/agent/agent.go:188-190 | Under the invariant a running process serves exactly the table of the persisted state, which the next plan starts from |
| Reconcile.RoundKeepsTruth | docs/ARCHITECTURE.md:61 | One round with the documented fallback keeps the invariant exactly when it does not roll back a stale state, and exactly when a state becomes stale |
| Reconcile.RunKeepsTruth | docs/ARCHITECTURE.md:61 | Over every run of the documented loop with crashes the invariant holds throughout exactly when no round rolls back a stale state |
| Reconcile.HealthyRunKeepsTruth | docs/RUNTIME_API.md:45 | As long as no recovery fails, every plan of a run of the documented loop starts from the truth |
| Reconcile.FreshNodeIsHonest | internal/agent/agent.go:120-121 | A fresh node satisfies the invariant |
| Reconcile.FailedRecoveryMisleadsThePlanner | internal/agent/agent.go:242-245 | Three rounds leave a process that runs the second state while the first is persisted |
| ShadowedError.AcceptedChangesTable | internal/xray/runtime.go:247-277 | Every accepted command changes the table |
| ShadowedError.RoundLeavesPrefix | internal/agent/agent.go:190-211 | As written, a failing hot reload ends the round without an error, with the table its commands left and the new state persisted |
| ShadowedError.ShadowedErrorIsHarmlessWithoutOperations | internal/agent/agent.go:190-211 | As written, the next plan starts from the truth under every failure if and only if the plan has no operation |
| ShadowedError.FallbackRepairs | docs/ARCHITECTURE.md:61 | With the documented fallback the same round either keeps its old state and the invariant, or serves the new state |
| WrittenLoop.FreshNodeIsSound | internal/agent/agent.go:120-121 | A fresh node satisfies the invariant of the loop as written |
| WrittenLoop.RoundStaysSound | internal/agent/agent.go:172-270 | A round as written keeps that invariant unless it is a hot reload with something to do, or changes the configuration over a stale one |
| WrittenLoop.MisleadingBreaks | internal/agent/agent.go:182-231 | Either of these can always leave a process that does not serve the persisted state |
| WrittenLoop.WrittenLoopIsExact | internal/agent/agent.go:120-273 | For the loop as written and any states the panel sends, with crashes and any failing validations, starts, reloads and recoveries: every plan starts from the truth if and only if no run reaches a hot reload with something to do or a change over a stale configuration |
| Policy.CheckUsers | internal/policy/evaluator.go:29-55 | In place, each enabled user over a limit is switched off, with one violation each, for the first limit in order |
| Policy.CollectCaps | internal/policy/evaluator.go:60-69 | The smallest positive device limit of each account among users still enabled |
| Policy.TrimAccounts | internal/policy/evaluator.go:70-82 | In place, exactly the users beyond the cap of their account are switched off |
| Policy.Evaluate | internal/policy/evaluator.go:20-85 | The evaluated state and violations of all inbounds, on a clone of the input |
| Policy.EligibleMeaning | internal/policy/evaluator.go:29-55 | Individually eligible: enabled, not expired, used plus pending bytes below a positive quota, and seen from no more addresses than a positive IP limit unless its mode is off |
| Policy.EvaluationMeaning | internal/policy/evaluator.go:29-82 | Nothing but enabled flags changes; a user stays enabled exactly when it is enabled, not expired, below its quota, within its IP limit, and fewer eligible members of its account come before it than the smallest cap among them |
| Policy.ViolationsAreTheFlips | internal/policy/evaluator.go:26-82 | Violations correspond one to one to the users that were switched off; each carries its user and inbound, and the first reason that applies with its figures: the time and the expiry, the used and pending bytes and the quota, the addresses seen and the IP limit, or the rank in the account and the cap it exceeds |
| Policy.EvaluationIsIdempotent | internal/policy/evaluator.go:20-85 | Evaluating the result again changes nothing and reports nothing |
| PolicyMeaning.EvaluatedState | internal/policy/evaluator.go:20-22 | Nothing of a state changes but the users of its inbounds, each inbound being evaluated for itself |
| PolicyMeaning.SessionsByKeyMeaning | internal/policy/evaluator.go:22-25 | Of several session records of one user the last one counts |
| PolicyMeaning.AllViolationsExplained | internal/policy/evaluator.go:26-84 | Over the whole state each violation explains one user that was switched off, and each such user has one |
| Policy.QuotaDisables | internal/policy/evaluator.go:40-47 | Used plus pending bytes at or above a positive quota leave the user disabled |
| Policy.FilterInPlace | internal/policy/evaluator.go:106-111 | The in-place filter keeps exactly the members, in order, in the front of the clone |
| Policy.DrainUsers | internal/policy/evaluator.go:119-127 | Filtering the clone leaves the array it was cloned from unmodified |
| Policy.ApplyDrain | internal/policy/evaluator.go:89-117 | The drained state, computed with the in-place filter |
| Policy.DrainMeaning | internal/policy/evaluator.go:89-117 | A pair is a member after draining exactly when it was one before and is still desired |
| PolicyMeaning.DrainedState | internal/policy/evaluator.go:89-117 | The drained state is the desired one in mode draining, with exactly the inbounds that were there before, in order, each trimmed |
| PolicyMeaning.KeptUsersAre | internal/policy/evaluator.go:106-111 | A trimmed inbound has exactly the users that were members, unchanged and in order |
| Policy.DrainingOnlyShrinks | internal/agent/agent.go:153-157 | Over any run of draining syncs the members are exactly those of an earlier sync that every desired state since has kept |
| Policy.PendingUsage | internal/policy/evaluator.go:129-138 | The bytes per key of one batch; nameless and non-positive records count nothing |
| Policy.MergeUsage | internal/policy/evaluator.go:139-143 | Usage maps add up key by key |
| Traffic.Spool.Enqueue | internal/traffic/spool.go:28-45 | A batch is in the spool after a successful write, and nothing changes otherwise |
| Traffic.Spool.Delete | internal/traffic/spool.go:82-88 | The file is gone after a successful removal; a missing file is no error |
| Traffic.Spool.List | internal/traffic/spool.go:47-80 | Every spooled batch once, by collection time and then event ID |
| Traffic.ListingIsUnique | internal/traffic/spool.go:73-80 | That order leaves one listing only, although the sort is not stable |
| Traffic.ListingOrder | internal/traffic/spool.go:73-78 | Of two listed batches the earlier one was collected earlier, or at the same time with a smaller event ID |
| Traffic.Spool.PendingUsage | internal/traffic/spool.go:90-100 | The bytes of all spooled batches, key by key |
| Traffic.Panel.Post | docs/TRAFFIC_DELIVERY.md:35-39 | The panel bills a batch the first time it sees its event ID and never again |
| Traffic.RetryTraffic | internal/agent/agent.go:354-370 | One retry pass over the sorted spool with any pattern of answers and failed deletes |
| Traffic.CollectTraffic | internal/agent/agent.go:372-389 | One collection: spool, post, delete, stopping at the first failure |
| Traffic.RetryRemovesPrefix | internal/agent/agent.go:354-370 | A pass takes exactly a prefix of the sorted spool out of it: the batches acknowledged and deleted before the first failure |
| Traffic.RetryPosts | internal/agent/agent.go:354-370 | What a pass makes the panel claim: the batches before the first failure, and the one it stops at unless that post was refused |
| Traffic.CollectionMeaning | internal/agent/agent.go:372-389 | Spool, claimed IDs and ledger after a collection, for every outcome of its three steps |
| Traffic.RecordUsage | internal/policy/evaluator.go:129-138 | A record charges its own value to its own user and inbound, unless one is missing or the value is not positive |
| Traffic.RunConservesTraffic | internal/agent/agent.go:354-389 | Over every run the panel's ledger plus what is only in the spool is everything ever enqueued, and a batch leaves the spool only after it was billed |
| Traffic.PendingCoversEverything | internal/agent/agent.go:132-138 | Ledger plus pending usage exceed everything enqueued by exactly the batches billed but not yet deleted |
| Traffic.QuotaIsSound | internal/agent/agent.go:123-157 | A user whose enqueued bytes reach a positive quota comes out of the evaluation disabled, with late billing and lost answers |
| Traffic.CounterChargesUser | internal/xray/stats.go:32-53 | The text of a user counter is read back to its sanitised IDs, direction and value, and charged to the key the evaluator looks up exactly when both IDs have no reserved character |
| Traffic.OtherCountersChargeNobody | internal/xray/stats.go:32-53 | A counter that is not one of a user is kept under its name and charged to nobody |
| PolicyFile.PolicyStore.WriteCorePolicy | internal/limits/policyfile.go:37-111 | The document of a state with the tombstones of the previous document, replaced in one step or not at all |
| PolicyFile.MergeTombstones | internal/limits/policyfile.go:64-81 | Present identities keep their policy; absent ones stay only while their tombstone lasts, blocked and without limits |
| PolicyFile.StrictPolicyEmails | internal/limits/policyfile.go:128-148 | Exactly the live entries that are blocked or limited, once each and sorted |
| PolicyFile.CurrentKeys | internal/limits/policyfile.go:46-59 | The document has an entry for every identity of the state and for no other |
| PolicyFile.PolicyOfLastUser | internal/limits/policyfile.go:49-59 | The document carries for each accounting email the rates, connection limit, generation and block of the last user that has it, and its IP limit unless the inbound's mode is off |
| PolicyFile.LimitedIsStrict | internal/limits/policyfile.go:128-148 | A user of the state counts as strict exactly when it is disabled or has a positive rate, connection or effective IP limit |
| PolicyFile.TombstoneRun | internal/limits/policyfile.go:61-81 | Over any run of writes, an identity first missing at time t is blocked until t + 300 in every later document, with a deadline that never moves and its old generation, and in no document after that |
| PolicyFile.ReaddedIsLive | internal/limits/policyfile.go:67-70 | A write that finds the identity in the state ends its tombstone |
| PolicyFile.MissingIsStrict | internal/limits/policyfile.go:61-148 | A missing identity counts as strict exactly until its deadline, if the previous document was of this version and had it |
| Limiter.Dispatcher.Refresh | patches/xray-v26.7.28/xnode_limiter.go.txt:61-101 | Mode and policies after a reload that finds no file, an unchanged or broken one, or a new document |
| Limiter.Dispatcher.Admit | patches/xray-v26.7.28/xnode_limiter.go.txt:158-182 | The locked section admits exactly within the limits and then counts the session; a refusal leaves the tables unchanged |
| Limiter.Dispatcher.Release | patches/xray-v26.7.28/xnode_limiter.go.txt:184-207 | The counts of the session are taken back, and empty entries removed |
| Limiter.PolicyForMeaning | patches/xray-v26.7.28/xnode_limiter.go.txt:114-123 | An entry counts until its tombstone expires; anybody else is neither blocked nor limited |
| Limiter.Dispatcher.Wait | patches/xray-v26.7.28/xnode_limiter.go.txt:225-266 | The outcome of a wait: passed, refused for one of three reasons, or a deadline reserved from the shared bucket of its user and direction; no other bucket moves |
| Limiter.Dispatcher.BucketFor | patches/xray-v26.7.28/xnode_limiter.go.txt:211-220 | One bucket object per key, shared with no other key; making it changes no other bucket |
| Limiter.BucketsAreApart | patches/xray-v26.7.28/xnode_limiter.go.txt:244-253 | No two users and no two directions share a bucket |
| Limiter.OldSessionIO | patches/xray-v26.7.28/xnode_limiter.go.txt:114-123 | I/O of a removed identity fails until the tombstone's deadline under every document since, and afterwards exactly when its generation is not zero |
| Limiter.CurrentSessionIO | patches/xray-v26.7.28/xnode_limiter.go.txt:225-252 | Under the document of a state, a session's I/O goes on at the user's own rate while the user is enabled, has the same generation and no more live sessions than it may have, and is refused for the first of these that fails |
| Limiter.EventKeepsInv | patches/xray-v26.7.28/xnode_limiter.go.txt:144-209 | Each critical section of each session keeps the counts equal to the admitted and unreleased sessions |
| LimiterSafety.RunKeepsCounts | patches/xray-v26.7.28/xnode_limiter.go.txt:144-209 | Under every interleaving the counts per user and per address are exact, stored counts are positive, and no inner map is empty |
| LimiterSafety.AdmissionMeaning | patches/xray-v26.7.28/xnode_limiter.go.txt:158-177 | A session is admitted exactly when one more session, and its address unless in use, fit the snapshot's limits, counted in real sessions |
| LimiterSafety.EntryMeaning | patches/xray-v26.7.28/xnode_limiter.go.txt:144-182 | One whole admission: a session gets in exactly when the node does not drain, the user is not blocked, and one more session and its address fit, counted in real sessions |
| LimiterSafety.AnonymousEntry | patches/xray-v26.7.28/xnode_limiter.go.txt:144-151 | A session without a user gets in unless the node drains, and is not counted |
| LimiterSafety.DocumentDecidesEntry | patches/xray-v26.7.28/xnode_limiter.go.txt:61-182 | From the state to the dispatcher: under its document a session gets in exactly when the mode is not draining, the user is enabled, and its own connection limit and, unless turned off, IP limit leave room |
| LimiterSafety.ReloadMeaning | patches/xray-v26.7.28/xnode_limiter.go.txt:61-101 | A document brings the state's mode, active if empty, and its entries; a missing file lets everybody in; any other version is ignored |
| LimiterSafety.LiveSessionIO | patches/xray-v26.7.28/xnode_limiter.go.txt:225-245 | A live session reads and writes exactly while its user is enabled, has its generation, and has no more live sessions than it may |
| LimiterSafety.AdmissionRespectsSnapshot | patches/xray-v26.7.28/xnode_limiter.go.txt:158-182 | After an admission the user is within the snapshot's connection limit; it is within its IP limit exactly when the address is new or the addresses in use were within it before |
| LimiterSafety.InUseAddressExceedsLimit | patches/xray-v26.7.28/xnode_limiter.go.txt:166-177 | A reachable state in which a session from an address in use is admitted with three addresses in use under an IP limit of two |
| LimiterSafety.LimitsHold | patches/xray-v26.7.28/xnode_limiter.go.txt:144-209 | While every loaded document caps a user, no interleaving takes its sessions or addresses above the caps |
| LimiterSafety.DrainingNeverAdmits | patches/xray-v26.7.28/xnode_limiter.go.txt:144-147 | Once draining has settled, the set of live sessions only shrinks until the mode changes |
| LimiterSafety.DrainingHoldsExactlyWhenSettled | patches/xray-v26.7.28/xnode_limiter.go.txt:144-182 | A draining node admits nobody any more, however it goes on, if and only if no session is on its way in |
| LimiterSafety.InFlightSlipsThrough | patches/xray-v26.7.28/xnode_limiter.go.txt:144-182 | A session past its mode check is still admitted after draining is loaded, if its limits allow |
| RateLimit.Bucket.Reserve | patches/xray-v26.7.28/xnode_limiter.go.txt:253-266 | The critical section of a wait as a step of the state machine |
| RateLimit.DurationMeaning | patches/xray-v26.7.28/xnode_limiter.go.txt:257-261 | A wait is the time its bytes take at its rate in whole nanoseconds, neither shorter nor longer |
| RateLimit.RunKeepsInv | patches/xray-v26.7.28/xnode_limiter.go.txt:222-280 | Every deadline is the closed form of a leaky bucket, never earlier and never later, and `next` never goes back |
| RateLimit.RateBound | patches/xray-v26.7.28/xnode_limiter.go.txt:222-280 | For any number of connections and any interleaving of waits, returns and cancellations, 10^9 times the bytes passed by time t is at most r times the nanoseconds elapsed plus the number of waits that passed |
| RateLimit.ReturnPasses | patches/xray-v26.7.28/xnode_limiter.go.txt:266-280 | A wait that returns passes exactly its bytes at that moment; one that is cancelled, like a reservation, passes none |
| RateLimit.WaitIsAskedFor | patches/xray-v26.7.28/xnode_limiter.go.txt:222-280 | Reservations at rate r or more that keep the bucket busy wait no longer than all their bytes take at r |
| RateLimit.DeadlineIsExact | patches/xray-v26.7.28/xnode_limiter.go.txt:222-280 | At one rate every deadline of every run is the time the bytes since the bucket became busy take, but for less than a nanosecond per reservation |
| Tracker.SessionTracker.Add | internal/session/tracker.go:103-117 | The entry of the key after one event; the address takes the time of the last event added, even an older one |
| Tracker.SessionTracker.Records | internal/session/tracker.go:179-215 | Entries are pruned at the cutoff, dead ones dropped, and one row reported for each other one, sorted |
| Tracker.AddKeepsInv | internal/session/tracker.go:103-117 | Adding keeps the agreement between the pruned tracker and the whole log |
| Tracker.PruneKeepsInv | internal/session/tracker.go:184-200 | Pruning keeps the agreement for every later cutoff; a key survives exactly when it has an event not before the cutoff |
| Tracker.PrunedTrackerIsWholeLog | internal/session/tracker.go:179-215 | For every interleaving of additions and reports with cutoffs that never go back, each report is what the whole log gives |
| Tracker.ReportIsUnique | internal/session/tracker.go:208-213 | At most one report matches a log, so map order and sorting leave no choice |
| Tracker.ReportOrder | internal/session/tracker.go:208-213 | Rows are sorted by inbound and then user, and no two have both alike |
| Tracker.CountSinceMeaning | internal/session/tracker.go:189-195 | The count of a key is the number of its events not before the cutoff |
| Tracker.LatestMeaning | internal/session/tracker.go:114-116 | The last time of a key is that of one of its events, and none is later |
| Tracker.LastAddedMeaning | internal/session/tracker.go:112 | The time of an address is that of the event added last |
| AccessLog.AccessLineRoundTrip | internal/session/tracker.go:49-78 | An accepted line written for a user and an inbound parses to their sanitised IDs, its source and the time of its prefix |
| AccessLog.AcceptedLineMeaning | internal/session/tracker.go:49-78 | What every line that is read looks like: the source between the first marker and the first acceptance behind it, the accounting email as the first word behind the last email marker, and the time in front |
| AccessLog.ConsumeFile | internal/session/tracker.go:121-177 | One call adds the events of exactly the complete lines it consumes and moves the offset behind the last line end |
| AccessLog.FindStart | internal/session/tracker.go:134-157 | Where a call starts: after the last offset, at the beginning of a replaced or shrunken file, or behind the first line end of a bounded tail |
| AccessLog.BoundedTail | internal/session/tracker.go:141-157 | A first read of more than 8 MiB starts in its last 8 MiB, behind the first line end there |
| AccessLog.LogIsConsumedOnce | internal/session/tracker.go:119-177 | Over any calls on an append-only file all complete lines so far are consumed once and in order, and a partial line waits |
| AccessLog.RotationRestarts | internal/session/tracker.go:136-140 | A replaced or shrunken file is read from its beginning, whatever came before |
| SessionRuns.RunCycle | internal/agent/agent.go:284-291 | Reading the log and reporting, as one step |
| SessionRuns.CycleReportsTheLog | internal/session/tracker.go:121-215 | Over any run of reading and reporting, each report is what all events read so far give |
| SessionRuns.TrackerHasReadTheFile | internal/session/tracker.go:119-177 | Over any run on an append-only file the events read are those of exactly its complete lines, once and in order, up to the time a line without one is given |
| SessionReports.Merge | internal/agent/agent.go:303-332 | The merged rows before and after sorting |
| SessionReports.MergeMeaning | internal/agent/agent.go:303-332 | Each key of either input once, sorted; exact rows win and take the recent connection count of their key |
| Agent.CountOnline | internal/session/tracker.go:217-226 | Distinct users with an address, and the number of addresses |
| Agent.Agent.EvaluateState | internal/agent/agent.go:148-158 | The threshold turns into draining, draining filters by the persisted state, and the result is evaluated |
| Agent.Agent.HotReload | internal/agent/agent.go:188-211 | Validate, patch, store; no failure is seen outside |
| Agent.Agent.Converge | internal/agent/agent.go:188-231 | Hot reload, forced restart, or ordinary change, as the round of the reconcile loop says |
| Agent.Agent.Reconverge | internal/agent/agent.go:172-247 | The process side of a sync is the round as written, and says whether the state may be persisted |
| Agent.Agent.SyncState | internal/agent/agent.go:138-273 | Persisted state, process, policy document, mode, drain and strict readiness after the panel's answer, on every path |
| Agent.Agent.ExchangeTraffic | internal/agent/agent.go:123-126 | The retry pass, then a collection if the process runs and has counted something |
| Agent.Agent.Snapshot | internal/agent/agent.go:284-301 | The policy is evaluated on Xray's online sessions if it runs and answers, otherwise on the pruned access log; reports merge both |
| Agent.Agent.Sync | internal/agent/agent.go:120-273 | One whole sync; the pending usage it evaluates is that of the spool after the traffic exchange and before the panel is asked |
| SyncMeaning.UnusableAnswerChangesNothing | internal/agent/agent.go:138-146 | Without an answer, or with a mode that is none of the five, nothing changes |
| SyncMeaning.NextMode | internal/agent/agent.go:148-155 | A node drains exactly when it is told to, or a positive traffic threshold is reached and it is neither disabled nor in maintenance; otherwise the mode is the panel's |
| SyncMeaning.SyncedMode | internal/agent/agent.go:148-170 | That mode is persisted, written to the policy document and shown, active if it is empty |
| SyncMeaning.NextMembers | internal/agent/agent.go:148-158 | A draining node with a persisted state keeps of the desired members those it had; any other has exactly the desired ones |
| SyncMeaning.DocumentBlocks | internal/agent/agent.go:157-170 | The document of a sync blocks exactly the users that are disabled, expired, over quota with pending bytes, seen from too many addresses, or beyond the cap of their account |
| SyncMeaning.DrainReadyMeaning | internal/agent/agent.go:160-164 | A draining node is ready exactly when no more distinct users are online than its target, or than zero if that is negative |
| SyncMeaning.StrictReadyMeaning | internal/agent/agent.go:171-270 | After a completed sync the node is ready for strict policies exactly when no entry needs the patched core, or Xray is to run and has it; and the state is persisted if that write succeeds |
| SyncMeaning.UnservedStops | internal/agent/agent.go:173-181 | A state that is disabled or in maintenance stops Xray and is persisted |
| SyncMeaning.GoodSyncServes | internal/agent/agent.go:172-273 | When everything goes through, the state is persisted, and Xray runs exactly when the node is enabled and neither disabled nor in maintenance |
| SyncMeaning.SessionsMeaning | internal/agent/agent.go:284-301 | The policy is evaluated on Xray's own sessions when it runs and answers, and on the marked rows of the access log otherwise |
| SyncMeaning.TrackedAddresses | internal/session/tracker.go:217-226 | The number of tracked addresses counts every row's addresses |
| Agent.SyncIsRound | internal/agent/agent.go:120-273 | A sync whose writes succeed persists exactly what the round persists |
| Agent.OverQuotaIsBlocked | internal/agent/agent.go:123-170 | From enqueued bytes to the dispatcher: the policy document of a sync blocks every user over its quota, even if bringing the process to the state fails |
| Agent.DrainingSyncShrinks | internal/agent/agent.go:148-157 | A draining sync, failing or not, leaves no new member in the persisted state |
| Agent.DrainingRunShrinks | internal/agent/agent.go:148-157 | Over any run of draining syncs with failures anywhere, membership never grows |
| AgentRuns.ExchangeKeepsInv | internal/agent/agent.go:123-126 | The traffic exchange of a sync is a legal retry and then perhaps a legal collection, and keeps the traffic invariant |
| AgentRuns.RunKeepsTraffic | internal/agent/agent.go:120-273 | The traffic invariant holds along every run of syncs from an empty spool, with late billing and any failures |
| AgentRuns.RunConservesTraffic | internal/agent/agent.go:120-273 | Along every such run, billed plus only-spooled bytes are all bytes enqueued |
| AgentRuns.QuotaHoldsInEveryRun | internal/agent/agent.go:120-170 | In every sync of every run, a user whose enqueued bytes have reached a positive quota is blocked by the policy document it writes |

## Left out

- HotUsers.UserPatch: asks for distinct accounting emails among the enabled users and for unchanged users hidden alike, because otherwise it is false; `Exactness.UnfaithfulPatch` is the other half.
- Refinement.HotReloadRefinesRebuild: a corollary of `Exactness.HotReloadIsExact` for states without hidden users; the exact statement is there.
- Reconcile.RoundKeepsTruth: about the fallback the documentation promises; `ShadowedError` and `WrittenLoop` are about the code as written. States are assumed well keyed and writes to succeed.
- Reconcile.RunKeepsTruth: a crash may come between any two rounds; inside a round the process may die only before the health check.
- WrittenLoop.WrittenLoopIsExact: states are assumed well keyed and file writes to succeed.
- ShadowedError.ShadowedErrorIsHarmlessWithoutOperations: about rounds that the hot-reload branch handles, in a healthy process and with successful file writes.
- NonDisruption.PrefixIsNonDisruptive: about protocols with managed users; for a plan that stops half-way `NonDisruption.PresenceIsExact` is the exact statement.
- Process.LastGoodStaysGood: a completed hot reload counts as running the new configuration as if booted from it; `Reconcile.HotReloadServes` says in which sense.
- LimiterSafety.LimitsHold: a user whose policy is not capped in some loaded document may exceed a later limit. Above a connection limit its sessions are refused at their next read or write; no later check enforces an IP limit.
- Limiter.Dispatcher.Wait: the link wrappers around it are not modelled; the generation a session captured when it was wrapped is an argument.
- RateLimit.RateBound: durations are truncated whole nanoseconds; the floating-point division of the source and its rounding are not modelled.
- Traffic.RunConservesTraffic: starts at the spool; bytes lost between resetting Xray's counters and the write are outside, as docs/TRAFFIC_DELIVERY.md:41-43 admits. Event IDs are assumed unique, and totals are unbounded integers rather than 64-bit ones.
- Traffic.QuotaIsSound: assumes a readable spool; an unreadable one counts as no pending usage in the source.
- Tracker.PrunedTrackerIsWholeLog: needs cutoffs that never go back, which a forward clock and a fixed window give.
- Tracker.SessionTracker.Records: the list of times is filtered into a new sequence, not in the front of the old one; no other reference to it exists.
- AccessLog.AccessLineRoundTrip: reading a source address and a log time are parameters; the host and port syntax is not part of this model, and white space above U+00FF is not trimmed.
- AccessLog.LogIsConsumedOnce: needs calls without read errors and without the bounded tail of 8 MiB; a file truncated and refilled beyond the old offset between two calls is not noticed, here or in the source.
- Agent.Agent.Sync: heartbeats, node metadata, sending the session report, log lines and the external limiter are not part of this model, and neither is an unreadable spool or log.
- Traffic.CollectTraffic: starts from the records read; querying Xray's counters is not part of this model.
- JSON: documents are compared as decoded values; encoding, decoding and the nil maps that persisting drops are not modelled. A null routing document together with managed rules, on which the source panics, is an error here.
- Configurations are compared as structured values where the source compares SHA-256 sums of bytes.
- Xray itself: how it loads two inbounds with one tag or two users with one email is taken as the last one winning; handlers, outbounds and routing are its observable parts.
- WireGuard peers and generic protocols have no user manager, so their inbounds are replaced as a whole.
- HTTP, the admin server, the panel client, health sampling, configuration defaults, packaging and command-line entry points.
