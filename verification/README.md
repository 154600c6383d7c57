# Verified model of Deckwatch's core algorithms

Deckwatch deploys and watches applications on Kubernetes. This project models the parts of it that
are algorithms or protocols and proves what they are relied on for. Each module follows one source
file, or one part of a long one:

| module | what it models |
|---|---|
| PluginOrder | Kahn's algorithm over the capability graph, cycle fallback, filter on unmet dependencies |
| KeyedMerge, PodMerge | merging plugin results into a pod spec, in place |
| PodEntries | what the merged entries, annotations and accounts say, spec by spec |
| PluginRun | the fold over the plugins that threads outputs from one to the next |
| BuildProtocol, BuildRuns, BuildSafety | the GitOps build protocol as a step system: poll, Jobs, manifest Job, rollout |
| BuildActions | what one poll and one monitor pass do, in terms of Jobs, tags and the row |
| PatchCache | the fingerprint cache of the plugin reconciler |
| RefScan, RefJump | the scanner for a git ref advertisement, and its jump past whole matches |
| RateLimit | the per-namespace sliding-window limiter |
| SseStream, SseEvents | the incremental parser of a streamed API response, and what its lines do |
| AutoRollback, RollbackRuns | the auto-rollback automaton, persisted in annotations, and its runs |
| LogSanitize | the log sanitiser: escape stripping and line capping |
| RegistryPaths | the path parsers of the container registry and its browser |
| AuditPages | cursor pagination of the audit log |
| Admission | the admission webhook and its memory-quantity arithmetic |
| Seqs, Strings | shared vocabulary |

Code that changes state is imperative here too: classes with the source's fields, loops with the
source's variables, each tied to a function of the old state. The theorems are about those
functions and about runs, sequences of steps in which the outcome of every external call is part
of the step. Calls into Kubernetes, the database, the network and plugins may succeed, fail, or
fail after taking effect, as the step says; clock readings, listings and plugin behaviour are
parameters.

## What turned out not to hold

Each is stated with a witness and, where the code meets the property on some inputs, with the exact
condition.

- "Providers run before consumers" holds for all edges if and only if there is no cycle
  (`AllEdgesForwardIff`), and edges start at the last provider of a capability only
  (`EarlierProviderMayRunLater`, `EveryProviderPrecedes`).
- The filter on unmet dependencies does not cascade (`FilterDoesNotCascade`, `ReturnedAreClosedIff`)
  and is not made for a single plugin (`RunOrderIsMet`).
- Repeating a merge changes nothing if and only if the pod has a container (`IdempotentIffContainer`).
- The status of a build moves back when an architecture Job that failed succeeds on a retry
  (`RetryMovesBack`, `RetryMovesBackIff`).
- A rollout can be attempted before its build is complete if and only if a manifest Job of the same
  group was left over (`EarlyRolloutIffLeftover`); such a state is reachable (`LeftoverIsReachable`).
- Two consecutive builds can have the same commit (`SkipAllowsRebuild`), if and only if another commit
  was skipped by the path filters since (`RebuildIff`, `RebuildNeedsSkip`).
- The fingerprint cache is spoiled by a patch that the server applied but reported as failed, by an
  edit from outside that leaves something with another fingerprint, and by a deletion from outside,
  each over a cached fingerprint, and by no other step of the model (`LostResponseDiverges`,
  `StepKeepsCoherentIff`, `DivergesIffSpoiled`).
- The ref scanner panics on some valid responses, under every branch name (`PanicIsReachable`,
  `ScanPanicsIff`), and its jump past whole matches can miss a match for branch names above 40 bytes
  (`JumpIsHarmlessIff`, `LongBranchOverlap`) or a panic for shorter ones, "master" among them
  (`JumpIsExactIff`, `MasterHidesSomething`).
- Callers that check before others have recorded pass the limit, by up to one less than their number
  (`LimitHoldsIffOneCaller`, `OvershootIff`).
- An opt-out inside a tick that is about to stamp leaves a live marker (`OptOutInsideTick`,
  `StaleCountdown`).
- C1 control characters pass the sanitiser although its documentation says "only printable
  characters" (`C1ControlsPass`, `PrintableIff`).
- A page limit of 0 returns an empty page without a cursor (`WalkIsTheListing`), and a row inserted
  behind the cursor is never seen by that walk (`LateRowReceivedIff`).
- "Must never denounce a valid pod as malformed" fails for valid requests the parser cannot read,
  such as fractions (`DenouncedIff`, `ValidPodIsDenouncedIff`, `TwoOverOneAndAHalf`).
- A registry name with "manifests" inside it loses its tag list, and one with "blobs" inside it its
  manifests too; for blobs and uploads the name matters only if "/blobs/uploads" is inside it
  (`RoundTrip`, `TagListIsShadowed`).

## Model

| member | source | states |
|---|---|---|
| `PluginOrder.BuildProviders` | src/plugins.rs:823-829 | the capability map built by the nested loops holds, for every capability, its last provider, and nothing else |
| `PluginOrder.BuildGraph` | src/plugins.rs:831-850 | the adjacency lists and in-degree counters the loops leave are exactly the declared edges, repeats counted, self-dependencies left out |
| `PluginOrder.GraphIsEdges` | src/plugins.rs:831-850 | the graph has an edge from i to j exactly when some dependency of j has i, another plugin, as its provider; lists name existing plugins in order |
| `PluginOrder.EdgeIff` | src/plugins.rs:831-850 | such an edge is there if and only if i and j are different plugins and i is the last provider of a capability that j names as a hard or as an optional dependency |
| `PluginOrder.Kahn` | src/plugins.rs:852-865 | the queue loop pops exactly the plugins that can ever become ready, in first-in first-out order; along the loop each counter equals the edges, with multiplicity, from plugins not yet popped, so no decrement underflows, nothing is queued twice and the loop ends |
| `PluginOrder.AppendRemaining` | src/plugins.rs:867-880 | cycle participants are appended in load order |
| `PluginOrder.SortByDependencies` | src/plugins.rs:818-917 | the returned order is the one the declarative specification describes: ready plugins, stuck plugins, filter on unmet hard dependencies, and the shortcut for at most one plugin |
| `PluginOrder.ScheduleIsUnique` | src/plugins.rs:818-880 | that specification leaves no choice: two orders that satisfy it are equal |
| `PluginOrder.ScheduleIsPermutation` | src/plugins.rs:852-880 | before filtering every plugin occurs exactly once |
| `PluginOrder.ProviderPrecedesConsumer` | src/plugins.rs:812-813 | every provider precedes its consumer unless both are stuck |
| `PluginOrder.StuckIsLargest` | src/plugins.rs:867-880 | the stuck set is the largest set whose every member has a provider in the set |
| `PluginOrder.NoEdgesKeepsLoadOrder` | src/plugins.rs:815-816 | without edges the load order is unchanged |
| `PluginOrder.UndependentKeepLoadOrder` | src/plugins.rs:815-816 | two plugins without a provider of their own keep their relative load order, whatever the others do |
| `PluginOrder.KeptIsSubsequence` | src/plugins.rs:885-917 | the filter keeps precisely the positions whose hard dependencies are all provided, in order |
| `PluginOrder.RunOrderIsMet` | src/plugins.rs:819-821 | every returned plugin has its hard dependencies provided if and only if it is not the case that a single plugin with an unmet one was loaded: the shortcut skips the check |
| `PluginOrder.ReturnedIff` | src/plugins.rs:882-917 | with two or more plugins, exactly those are returned for whose every hard dependency some loaded plugin lists the capability |
| `PluginOrder.ReturnedProviderRunsFirst` | src/plugins.rs:812-813 | in every order returned for an acyclic graph, the last provider of a capability runs before whoever names it as a hard or optional dependency |
| `PluginOrder.AllEdgesForwardIff` | src/plugins.rs:852-880 | every provider runs before its consumers, for all edges at once, if and only if the capability graph has no cycle |
| `PluginOrder.EveryProviderPrecedes` | src/plugins.rs:812-813 | the documented order holds of every provider, last or not, if the graph has no cycle and no needed capability has two providers |
| `PluginOrder.EarlierProviderMayRunLater` | src/plugins.rs:824-829 | it fails for a provider that is not the last one of its capability: a concrete run order |
| `PluginOrder.ReturnedAreClosedIff` | src/plugins.rs:882-917 | with two or more plugins, those returned provide for each other if and only if every dependency of a plugin that passes the filter has a provider that passes too |
| `PluginOrder.FilterDoesNotCascade` | src/plugins.rs:882-916 | a concrete run in which they do not: a plugin stays although its only provider is disabled |
| `PluginRun.ApplyPlugins` | src/plugins.rs:930-990 | the loop leaves the pod, the resource list and the wanted service accounts of the recorded calls, made in scheduler order |
| `PluginRun.RunPlugin` | src/plugins.rs:943-987 | the loop body extends the recorded calls by one call, handed the outputs accumulated so far |
| `PluginRun.ApplyPlugin` | src/plugins.rs:930-990 | one iteration: a failed plugin changes nothing, a result is merged and its outputs are kept only if there are any |
| `PluginRun.TotalsAre` | src/plugins.rs:930-990 | after any calls: the resources and the wanted accounts of the successful ones, in call order, and their results merged in that order under the names of their plugins; a failed call leaves nothing |
| `PluginRun.CallIsHandedEarlierOutputs` | src/plugins.rs:930-990 | each call is handed exactly what the calls before it accumulated |
| `PluginRun.AccumulatedExactly` | src/plugins.rs:930-990 | with unique names that is exactly the non-empty outputs of the calls that succeeded |
| `PluginRun.ConsumerSeesProvider` | src/plugins.rs:812-813 | a consumer outside the stuck set runs after its surviving provider and is handed the non-empty outputs of the successful provider call, unchanged |
| `KeyedMerge.PushMissing` | src/plugins.rs:1420-1450 | the shared loop pushes an entry exactly when its key is not there yet |
| `KeyedMerge.FirstWriterWins` | src/plugins.rs:1420-1450 | under each key stands the first entry of list and additions together |
| `KeyedMerge.MergeConcat` | src/plugins.rs:1494-1620 | merging twice is merging the concatenation once |
| `PodMerge.PodTarget.ApplyEnvVars` | src/plugins.rs:1420-1450 | in-place update of the primary container and the env annotation; no effect without env vars or without containers |
| `PodMerge.PodTarget.ApplySidecars` | src/plugins.rs:1494-1577 | in-place update of primary mounts, volumes, containers and the sidecar annotation |
| `PodMerge.PodTarget.ApplyInitContainers` | src/plugins.rs:1579-1620 | in-place update of the init containers |
| `PodMerge.PodTarget.ApplyServiceAccount` | src/plugins.rs:1665-1687 | sets the account and its annotation unless the pod has one other than "default" |
| `PodMerge.PodTarget.ApplyResult` | src/plugins.rs:958-974 | everything one successful plugin call does to the pod |
| `PodMerge.RunMergesConcatenation` | src/plugins.rs:1420-1620 | after a whole run each of the five lists is the user's list merged once with all additions in run order |
| `PodMerge.UserEntriesStayInFront` | src/plugins.rs:1420-1620 | the user's env vars, mounts, volumes, init containers and containers stay in front unchanged, the primary container first |
| `PodMerge.NamesStayUnique` | src/plugins.rs:1420-1620 | unique names stay unique in all five lists, whatever the plugins emit |
| `PodMerge.FirstEnvWriterWins` | src/plugins.rs:1420-1450 | under each env-var name stands the user's entry or else the first any plugin emitted |
| `PodMerge.FirstContainerWriterWins` | src/plugins.rs:1494-1577 | the same for containers |
| `PodMerge.RunChoosesAccount` | src/plugins.rs:1665-1687 | after a run the account is the pod's own, else the first request other than "default", else "default" if there was any request |
| `PodMerge.AnnotationKeysDiffer` | src/plugins.rs:1665-1687 | the service-account annotation is never overwritten by the env or sidecar record of any plugin |
| `PodMerge.IdempotentIffContainer` | src/plugins.rs:1420-1687 | applying the same results again changes neither pod spec nor annotations, for all results, if and only if the pod has a container |
| `PodEntries.EnvIsExtended` | src/plugins.rs:1420-1450 | one merge of env vars: behind the old entries of the primary container, unchanged, one entry per name not there yet, which says what the first spec of that name asks for; no effect without a container |
| `PodEntries.EnvSpecLands` | src/plugins.rs:1452-1492 | a spec whose name is free and first in the list gets exactly one entry: its secret reference, not optional, else its config-map reference, else its value, and no value if that is empty |
| `PodEntries.EnvAfterRun` | src/plugins.rs:1420-1492 | the same for a whole run and the specs of all plugins in run order |
| `PodEntries.MountsAfterRun` | src/plugins.rs:1502-1526 | the primary container's mounts are extended by what the sidecars mount into it, once per name and path, with path, sub-path and read-only flag as given |
| `PodEntries.VolumesAfterRun` | src/plugins.rs:1528-1536 | the volumes are extended by what the sidecars declare, once per name, each with the source its type names |
| `PodEntries.InitContainersAfterRun` | src/plugins.rs:1579-1620 | the init containers are extended once per name, each with image, env, port, resources and mounts as given |
| `PodEntries.ContainersAfterRun` | src/plugins.rs:1538-1577 | the containers are extended in the same way, and of the primary one nothing changes but env and mounts |
| `PodEntries.ResultIsRecorded` | src/plugins.rs:1444-1449 | the annotations after one result: the names of the env vars and containers it added, if any, under its own two keys, and the account if it set one |
| `PodEntries.JoinCommaLaws` | src/plugins.rs:1444-1449 | recorded names are joined by single commas |
| `PodEntries.AccountAfterResult` | src/plugins.rs:1665-1687 | the account after one result, in terms of the pod's and of the two the result can name |
| `BuildProtocol.CheckBuildGroupStatus` | src/watcher.rs:822-893 | the counting loop computes a status that depends only on which Jobs there are, not on their order or repetition |
| `BuildProtocol.FinishNeverMovesBack` | src/watcher.rs:822-893 | when a Job's only pod finishes the status never moves back along InProgress, ArchesComplete, ManifestInProgress, terminal |
| `BuildProtocol.ManifestNeverMovesBack` | src/watcher.rs:822-893 | creating the manifest Job after the architectures moves the status on to ManifestInProgress |
| `BuildProtocol.RetryMovesBackIff` | src/watcher.rs:864-892 | a Job that failed and then succeeds moves the status back if and only if it is an architecture Job, no other one has failed, and no manifest Job has ended |
| `BuildProtocol.RetryMovesBack` | src/watcher.rs:864-892 | the only architecture Job of a build takes the status from failed back to complete |
| `BuildRuns.Watcher.PollCycle` | src/watcher.rs:96-273 | one poll of the application is the poll step: no second build while building, none for the same head, path filters, trigger, row update |
| `BuildRuns.Watcher.TriggerBuild` | src/watcher.rs:541-689 | creates one Job per architecture and records the build only if all of them and the row update succeed |
| `BuildRuns.Watcher.CreateJobWithCleanup` | src/watcher.rs:504-527 | delete, then up to six create calls while the old Job is still there; for all answers of the cluster, whether it succeeds and what it leaves |
| `BuildRuns.SucceedsIff` | src/watcher.rs:504-527 | a Job is created if and only if the old one is gone by one of the six attempts and no call up to that one fails |
| `BuildRuns.FailureLeaves` | src/watcher.rs:504-527 | a failed creation leaves what was there if the old Job outlasts the last call, else the new Job or none as the failing call got through or not |
| `BuildRuns.EveryFailureHappens` | src/watcher.rs:504-527 | the three effects a failing creation has in the step relation are all produced by some answers of the cluster |
| `BuildRuns.Watcher.CreateArchJob` | src/watcher.rs:593-678 | one iteration: the Job, the image tag and the name for that architecture |
| `BuildRuns.Watcher.CreateArchJobs` | src/watcher.rs:591-688 | stops at the first Job that cannot be created and leaves the ones before it |
| `BuildRuns.Watcher.MonitorBuilds` | src/watcher.rs:1158-1427 | one monitor pass over the application is the monitor step |
| `BuildRuns.Watcher.RollOut` | src/watcher.rs:1206-1284 | the rollout of repository:short_sha, deferred while the image is not available |
| `BuildRuns.Watcher.CreateManifestJob` | src/watcher.rs:1285-1323 | creates the manifest Job, or closes the build as failed |
| `BuildRuns.Watcher.Close` | src/watcher.rs:1272-1284 | closes the row, then cleans up, only if the row update succeeded |
| `BuildActions.RolloutIff` | src/watcher.rs:1158-1284 | a monitor pass attempts a rollout if and only if it could list the Jobs of a running build, none has failed, the manifest Job or, with one architecture, all architecture Jobs have succeeded, and the image is available; then it is of the first seven characters of the commit in the row |
| `BuildActions.StatusWrittenIff` | src/watcher.rs:1158-1427 | from a running build the row becomes success if and only if it was written and this pass attempted a rollout, and failed if and only if it was written and a Job of the group has failed or creating the manifest Job did; nothing else of the row changes |
| `BuildActions.JobsAfterMonitor` | src/watcher.rs:1272-1284 | a pass deletes Jobs of the group only, and only when it closes the build |
| `BuildActions.ManifestIsCreated` | src/watcher.rs:1285-1323 | complete architectures, more than one, get a new manifest Job for that tag, and nothing else changes |
| `BuildActions.MonitorWaits` | src/watcher.rs:1158-1205 | in every other case a pass changes nothing |
| `BuildActions.PollBuildsIff` | src/watcher.rs:96-273 | a poll records a build if and only if no build is running, the remote stands at another commit, the path filters let it pass or do not apply, and all Jobs and the row update succeed; what it does otherwise |
| `BuildActions.BuildStarts` | src/watcher.rs:541-689 | what the build then looks like: the row, one new Job per architecture with its name and tag spelled out, other Jobs untouched |
| `BuildRuns.RowMoves` | src/watcher.rs:122-125 | the row moves to building by polling only and to success or failed by monitoring only; commit and group are frozen while it is building |
| `BuildRuns.SameHeadStartsNothing` | src/watcher.rs:170-175 | polling an unchanged head does nothing |
| `BuildRuns.RunHandlesOnce` | src/watcher.rs:170-245 | over every run no commit is handled twice in a row and the row names the commit handled last |
| `BuildRuns.RebuildNeedsSkip` | src/watcher.rs:170-245 | two consecutive builds of one commit have a commit skipped by the path filters between them |
| `BuildRuns.RebuildIff` | src/watcher.rs:170-245 | between builds, polling can record a build of the commit built last if and only if the row names another commit |
| `BuildRuns.SkipAllowsRebuild` | src/watcher.rs:200-213 | a run that builds one commit twice in a row around a skip |
| `BuildSafety.StatusMeans` | src/watcher.rs:862-893 | what each group status says about the active build |
| `BuildSafety.StepKeepsInvariant` | src/watcher.rs:96-1427 | every step keeps: the Jobs of the active build are its own, with its tags, and its manifest Job was made after the architectures were done |
| `BuildSafety.RolloutsAreSafe` | src/watcher.rs:1201-1400 | in every run in which no build starts over a left-over manifest Job, each rollout is attempted only after all architecture Jobs of its build succeeded, and the manifest Job too if there is more than one, and names the image that build pushed |
| `BuildSafety.OneArchRolloutsAreSafe` | src/watcher.rs:1206-1284 | with one architecture every rollout of every run is safe, unconditionally |
| `BuildSafety.BuildNeverMovesBack` | src/watcher.rs:822-893 | as long as a build is open and no architecture Job retries, the status the monitor sees never moves back, over any run of polls, monitor passes, ending pods (manifest retries included) and reaped Jobs, however the build was started |
| `BuildSafety.StepAdvances` | src/watcher.rs:1201-1323 | each such step leaves every Job of the group at least as finished and adds at most a manifest Job to complete architectures |
| `BuildSafety.EarlyRolloutIffLeftover` | src/watcher.rs:591-688 | a build just started can be rolled out early, in some continuation, if and only if a manifest Job of its group is still in the cluster |
| `BuildSafety.LeftoverRollsOutEarly` | src/watcher.rs:876-879 | how: one successful pod and one monitor pass |
| `BuildSafety.LeftoverIsReachable` | src/watcher.rs:935-949 | a run from the empty state that gets there: cleanup fails, the head moves to a skipped commit and back |
| `PatchCache.KeysAreDistinct` | src/watcher.rs:1919-1919 | two workloads never share a cache key, whatever their kinds, since a namespace has neither colon nor slash |
| `PatchCache.Reconciler.ReconcileOne` | src/watcher.rs:1919-1942 | one workload of one cycle: skip on an equal fingerprint, else patch and remember the fingerprint on success |
| `PatchCache.Reconciler.Clear` | src/handlers/plugins.rs:214-214 | clearing forgets every fingerprint and touches nothing on the server |
| `PatchCache.StepKeepsCoherentIff` | src/watcher.rs:2022-2046 | a step, outside writes included, keeps the cache coherent with the server if and only if it neither loses a response over a cached fingerprint nor writes from outside what that fingerprint does not match |
| `PatchCache.SkipsOnlyWhenEqual` | src/watcher.rs:1919-1930 | a patch is skipped only if the last one the server accepted is the desired one, collisions apart |
| `PatchCache.SkippedIff` | src/watcher.rs:1919-1942 | over every run a patch is skipped if and only if the last one accepted for that workload since the cache was cleared has the same fingerprint |
| `PatchCache.CacheIsInvisible` | src/watcher.rs:1570-1576 | over any run of reconciles, failures, clears and outside writes without such an event the server ends up as if every patch had been sent |
| `PatchCache.DivergesIffSpoiled` | src/watcher.rs:1919-1942 | from a coherent state a step, outside edits and deletions included, can be followed by a difference on the server if and only if it is such an event |
| `PatchCache.TwoPatchesAgreeIff` | src/watcher.rs:1570-1576 | two accepted patches leave the server right if and only if they do not collide |
| `PatchCache.LostResponseDiverges` | src/watcher.rs:1931-1942 | a patch applied by the server but reported as failed is hidden by the cache afterwards |
| `RefScan.ParseRefSha` | src/watcher.rs:323-339 | the search loop returns the verdict of the scan |
| `RefScan.ScanRefs` | src/watcher.rs:325-338 | the loop finds, judges and jumps past each whole match |
| `RefScan.VerdictIsSha` | src/watcher.rs:327-335 | a match qualifies exactly if 40 hex digits end before it with only spaces or NULs between, and these digits are returned |
| `RefScan.VerdictIsPanic` | src/watcher.rs:328-331 | judging a match panics if and only if the 40 bytes before the padding start in the middle of a character |
| `RefScan.ScanMeans` | src/watcher.rs:326-337 | the scan ends with the verdict of the one match it visits that is not rejected |
| `RefScan.ScanPanicsIff` | src/watcher.rs:326-337 | on all responses: it panics if and only if the first match visited and not rejected splits a character |
| `RefScan.AdvertisedRefIsRead` | src/watcher.rs:323-339 | if 40 hexadecimal digits and only spaces or NULs stand before the first occurrence of refs/heads/ and the branch, these digits are returned |
| `RefScan.ReadShaIsAdvertised` | src/watcher.rs:323-339 | and whatever is returned stands before the ref name like that |
| `RefJump.PanicIsReachable` | src/watcher.rs:331-331 | under every branch name a valid UTF-8 response makes it panic |
| `RefScan.AsciiNeverPanics` | src/watcher.rs:329-331 | a corollary: ASCII responses never do |
| `RefScan.EveryPositionFails` | src/watcher.rs:323-339 | trying every position fails if and only if no position qualifies |
| `RefScan.EveryPositionIsFirst` | src/watcher.rs:323-339 | otherwise it returns the digits before the first qualifying match |
| `RefScan.ScanIsEveryPosition` | src/watcher.rs:336-336 | on all responses where no rejected match hides a qualifying one, the jump gives the answer of trying every position if and only if it does not panic |
| `RefJump.ScanIsFirstVerdict` | src/watcher.rs:336-336 | where no rejected match hides one that decides, the jump does exactly what trying every position does, panics included |
| `RefJump.JumpIsExactIff` | src/watcher.rs:336-336 | on all valid responses the jump does exactly that, panics included, if and only if the ref name hides nothing in an overlap with itself |
| `RefJump.MasterHidesSomething` | src/watcher.rs:336-336 | a short branch name can hide something: for "master" some valid response makes the jump and trying every position differ |
| `RefScan.JumpIsHarmlessIff` | src/watcher.rs:336-336 | the jump gives no wrong answer on any response if and only if the ref name has no overlap with itself that ends in 40 hex digits |
| `RefScan.ShortBranchHasNoOverlap` | src/watcher.rs:323-324 | branch names of at most 40 bytes have none |
| `RefScan.LongBranchOverlap` | src/watcher.rs:323-324 | a branch name of 41 bytes has one |
| `RefScan.OverlapIsMissed` | src/watcher.rs:336-336 | with such an overlap there is a response whose only qualifying match is missed |
| `RateLimit.RateLimiter.constructor` | src/rate_limit.rs:89-96 | a new limiter has no records and a limit of at least one |
| `RateLimit.RateLimiter.SetLimit` | src/rate_limit.rs:102-108 | the limit changes at once, records stay |
| `RateLimit.RateLimiter.Snapshot` | src/rate_limit.rs:119-151 | reports the window and prunes the list as a side effect; other namespaces and the history untouched |
| `RateLimit.RateLimiter.Check` | src/rate_limit.rs:156-158 | the same, and consumes nothing |
| `RateLimit.CheckCountsTheLastHour` | src/rate_limit.rs:119-158 | over every run with a clock that does not go back, a check answers: the jobs recorded for the namespace in the last 3600 seconds against the limit set last, zero counting as one |
| `RateLimit.RateLimiter.Record` | src/rate_limit.rs:162-174 | prunes and appends the clock reading; the history gains that reading |
| `RateLimit.Prune` | src/rate_limit.rs:176-190 | the scan drops exactly the entries before the first live one, and nothing before the first full window |
| `RateLimit.NamespacesAreIndependent` | src/rate_limit.rs:84-84 | an operation on one namespace changes no other |
| `RateLimit.PruneKeepsLive` | src/rate_limit.rs:176-190 | prune never drops a live entry, whatever the order of the instants |
| `RateLimit.PruneSorted` | src/rate_limit.rs:177-178 | on sorted instants it keeps nothing else |
| `RateLimit.ListIsLiveHistory` | src/rate_limit.rs:162-190 | under non-decreasing time the list of every namespace is the full history filtered to the window as of its last prune |
| `RateLimit.ResetBounds` | src/rate_limit.rs:135-138 | the oldest entry is live until the reported seconds have passed and gone one second later |
| `RateLimit.ResetFreesSlot` | src/rate_limit.rs:56-59 | a namespace at its limit regains a slot within that second and not before |
| `RateLimit.WindowsStayBounded` | src/rate_limit.rs:153-174 | for one caller that checks, then records, every window of the full history holds at most the limit |
| `RateLimit.SharedLimitOvershoot` | src/rate_limit.rs:153-174 | with c callers in any interleaving and any raises of the limit, live records plus approved callers never exceed limit + c - 1, as long as that fits 32 bits |
| `RateLimit.OvershootIff` | src/rate_limit.rs:153-174 | that bound holds of every run if and only if limit + c is at most 2^32, and then no smaller one does |
| `RateLimit.OvershootIsReached` | src/rate_limit.rs:153-174 | it is reached for every limit and every number of callers |
| `RateLimit.CountStartsAgain` | src/rate_limit.rs:134-134 | past 2^32 records the reported count starts again at zero and the bound is passed |
| `RateLimit.LimitHoldsIffOneCaller` | src/rate_limit.rs:153-174 | the limit itself is never passed if and only if there is a single caller |
| `SseStream.MessageStream` | src/anthropic.rs:282-331 | for every division into chunks the deltas sent and the outcome are those of the one-pass parser on all bytes, early stop, disconnect and read error included |
| `SseEvents.DataLine` | src/anthropic.rs:310-326 | a data line by the type of its event: a delta is sent or finds the client gone, "message_stop" stops, an error ends with the message or the default, any other type is ignored |
| `SseEvents.EventWithData` | src/anthropic.rs:305-326 | an event line and its data line, anywhere in the stream, act by the type named |
| `SseEvents.DataBehindBlank` | src/anthropic.rs:299-303 | behind a blank line a data line has no effect |
| `SseEvents.OtherLine` | src/anthropic.rs:295-326 | a line that is neither blank, nor an event, nor data does nothing |
| `SseEvents.ReadErrorEnds` | src/anthropic.rs:287-290 | without a read error all bytes arrive; with one, those before it do, and the stream ends with its message |
| `SseEvents.BatchReports` | src/anthropic.rs:312-331 | the caller gets all text sent and the parser's own end, or else that of the stream |
| `SseStream.DrainLines` | src/anthropic.rs:292-327 | the inner loop takes out complete lines and keeps the rest in the buffer |
| `SseStream.LinesOfConcat` | src/anthropic.rs:290-294 | the lines of a concatenation are the lines so far and those of the buffered rest with the new bytes |
| `SseStream.LinesDecompose` | src/anthropic.rs:292-294 | the lines and the rest make up the bytes, each line with one newline, at its end |
| `SseStream.DecompositionIsUnique` | src/anthropic.rs:292-294 | no other division into lines does |
| `SseStream.StoppedEarly` | src/anthropic.rs:312-324 | after the parser has ended, later bytes change nothing |
| `SseStream.UnterminatedLineIsDropped` | src/anthropic.rs:292-330 | a last line without newline has no effect |
| `SseStream.SplittingAChunk` | src/anthropic.rs:288-290 | cutting a chunk in two anywhere changes neither the bytes delivered nor how the stream ends |
| `AutoRollback.HealthyMeans` | src/kube_ext.rs:176-220 | a phase that counts as healthy has a status, no failure condition, and enough replicas available or none desired |
| `AutoRollback.HealthyIff` | src/kube_ext.rs:176-220 | exactly when a deployment is left alone, over its conditions and replica counts |
| `AutoRollback.ActionIff` | src/auto_rollback.rs:106-182 | exactly when a tick rolls back, and to which revision, when it stamps and when it clears the marker |
| `AutoRollback.FindPreviousRevision` | src/auto_rollback.rs:187-255 | collect, sort and pop: the result is the previous revision |
| `AutoRollback.PreviousRevision` | src/auto_rollback.rs:224-254 | the greatest templated revision strictly below the current one, if there is any |
| `AutoRollback.RollbackSource` | src/auto_rollback.rs:287-311 | the first ReplicaSet listed with the target revision decides: it is rolled back to if it has a pod template, else, or if there is none of that revision, the rollback fails |
| `AutoRollback.AnnotatedDeployment.ListDeployment` | src/auto_rollback.rs:81-84 | the first half of a tick: opted-out deployments are passed over |
| `AutoRollback.AnnotatedDeployment.EvaluateDeployment` | src/auto_rollback.rs:106-182 | the second half: at most one annotation write or rollback, with the marker written as decided if the write takes effect |
| `AutoRollback.AnnotatedDeployment.Decide` | src/auto_rollback.rs:106-182 | the order of the checks: healthy, unstamped, grace period, target, rollback |
| `AutoRollback.AnnotatedDeployment.SetAutoRollback` | src/handlers/deployments_ux.rs:881-921 | opting out empties the marker, opting in leaves it |
| `RollbackRuns.FireMeans` | src/auto_rollback.rs:106-182 | a decision to roll back rests on an unhealthy deployment, a marker of at least 300 s, and the greatest templated revision below the current one |
| `RollbackRuns.RunIsJustified` | src/auto_rollback.rs:106-182 | over every run a standing marker was stamped by an unhealthy tick and left standing by every tick since |
| `RollbackRuns.FireHasGracePeriod` | src/auto_rollback.rs:106-182 | each rollback has a stamp at least 300 s earlier, and each tick evaluated since was unhealthy or failed to clear |
| `RollbackRuns.NoTickIsSkipped` | src/handlers/deployments_ux.rs:881-921 | if no opt-out falls inside a tick that is about to stamp, no tick in between was skipped either |
| `RollbackRuns.FiresAreApart` | src/auto_rollback.rs:321-337 | two rollbacks of one deployment, the first of which took effect, are at least 300 s apart |
| `RollbackRuns.OptOutInsideTick` | src/handlers/deployments_ux.rs:888-896 | an opt-out inside a tick leaves a live marker if and only if the tick had found the deployment unhealthy and without a timestamp |
| `RollbackRuns.StaleCountdown` | src/handlers/deployments_ux.rs:888-896 | a run in which re-enabling resumes a countdown from before the opt-out |
| `LogSanitize.StripControlBytes` | src/log_sanitize.rs:57-111 | the nested iterator loops compute what a character automaton lets through |
| `LogSanitize.CsiIsDropped` | src/log_sanitize.rs:66-74 | ESC [ is dropped up to and with the first character from @ to ~, whatever stands before it and behind, and to the end of the text without one |
| `LogSanitize.OscIsDropped` | src/log_sanitize.rs:75-88 | ESC ] is dropped up to and with BEL, or ESC and a backslash; another character behind that ESC is text again; without an end all is dropped |
| `LogSanitize.EscapeIsDropped` | src/log_sanitize.rs:89-94 | any other escape is two characters long, a last ESC stands alone |
| `LogSanitize.TextIsShown` | src/log_sanitize.rs:97-107 | outside of escapes: tab, LF, CR and what is printable stays, DEL goes, other C0 controls become a question mark |
| `LogSanitize.StripIsClean` | src/log_sanitize.rs:54-56 | no ESC, no DEL and no C0 control but tab, LF and CR in the output, from any state of the automaton |
| `LogSanitize.StripFixesExactlyClean` | src/log_sanitize.rs:57-111 | exactly the clean texts are left alone, and stripping twice is stripping once |
| `LogSanitize.SafeCutIffOutsideEscapes` | src/log_sanitize.rs:57-111 | stripping distributes over a cut, for every continuation, if and only if the cut is outside an escape sequence |
| `LogSanitize.PrintableIff` | src/log_sanitize.rs:54-56 | the output is free of all control characters but tab, LF and CR, as documented, if and only if no C1 control of the input is read as text |
| `LogSanitize.C1ControlsPass` | src/log_sanitize.rs:54-56 | a C1 control by itself passes |
| `LogSanitize.CutAtBoundary` | src/log_sanitize.rs:133-139 | the decrement loop cuts at the longest prefix of whole characters within the cap |
| `LogSanitize.CutIsNearTheCap` | src/log_sanitize.rs:133-138 | at most three bytes of the cap stay unused |
| `LogSanitize.LongLineIsMarked` | src/log_sanitize.rs:35-39 | a line of up to 2048 bytes stays, a longer one keeps the longest prefix of whole characters within them and gets the marker |
| `LogSanitize.FastPathAgrees` | src/log_sanitize.rs:117-121 | the fast path returns what the line loop would |
| `LogSanitize.CapLineLength` | src/log_sanitize.rs:116-142 | the loop over lines caps each line by itself |
| `LogSanitize.CapWorksByLine` | src/log_sanitize.rs:116-142 | the output has as many lines, each the capped input line, none above the cap plus the marker |
| `LogSanitize.CappingTwice` | src/log_sanitize.rs:133-139 | capping a line again leaves it alone if and only if it fitted or was cut right at the cap |
| `LogSanitize.SanitizeLogs` | src/log_sanitize.rs:147-150 | the pipeline: clean output, no line above 2068 bytes |
| `RegistryPaths.RecognisesExactly` | src/routes.rs:530-576 | the parser recognises exactly the printed paths of the routable requests, and an upload start also without its slash |
| `RegistryPaths.RecognisedPrintsBack` | src/routes.rs:530-576 | soundness: whatever is recognised prints back as the input |
| `RegistryPaths.RoundTrip` | src/routes.rs:530-576 | a request is read back as itself if and only if it is routable, for each of the six actions |
| `RegistryPaths.PlainRequestsRoundTrip` | src/routes.rs:515-576 | names without inner "blobs" or "manifests" components, references without slash and digests without slash that do not start with "uploads" always are ("Endpoints" in the OCI Distribution Specification v1.1) |
| `RegistryPaths.WrittenPathIsRead` | src/routes.rs:515-576 | the routes spelled out: _catalog, and below the name tags/list, manifests/ and blobs/ with the argument, and blobs/uploads with or without slash or with a session |
| `RegistryPaths.PlainPathsAreDistinct` | src/routes.rs:515-576 | two such requests never share a path |
| `RegistryPaths.TagListIsShadowed` | src/routes.rs:556-574 | a repository with "manifests" inside its name loses its tag list to a manifest of the shorter name |
| `RegistryPaths.UiRecognisesExactly` | src/routes.rs:774-788 | the browser parser is a bijection onto tag lists and manifests with non-empty parts and a slash-free tag other than "tags" |
| `RegistryPaths.UiPathsAreRead` | src/routes.rs:774-788 | the two browser routes spelled out |
| `AuditPages.AuditLog.LogAction` | src/audit.rs:27-50 | inserts one row; a taken id is refused |
| `AuditPages.AuditLog.ListAuditLogs` | src/audit.rs:97-136 | fetching one row more than the page yields the page and the cursor |
| `AuditPages.ListingIsAscending` | src/audit.rs:103-114 | a listing is in strictly ascending id order |
| `AuditPages.NextPageContinues` | src/audit.rs:105-108 | the page after a cursor continues exactly where the page before stopped |
| `AuditPages.WalkIsTheListing` | src/audit.rs:97-136 | following the cursors over an unchanging table yields exactly the filtered table in order, if and only if the limit is not 0 or nothing matches |
| `AuditPages.WalkReturnsExactly` | src/audit.rs:97-136 | with a positive limit a client who follows the cursors gets exactly the rows of the resource type and the namespace asked for |
| `AuditPages.PageHoldsUpTo` | src/audit.rs:101-127 | one page: such rows past the cursor, ascending, as many as there are up to the limit, 50 by default and 200 at most, the lowest ids first |
| `AuditPages.WalkLength` | src/audit.rs:97-136 | in one page for an empty listing, else in rows / limit pages rounded up, all but the last one full |
| `AuditPages.GrowthDisturbsNothing` | src/audit.rs:54-68 | with rows inserted between pages no row is repeated and every row there at the start is received |
| `AuditPages.LateRowReceivedIff` | src/audit.rs:97-136 | a row that is first there for a later page is received if and only if that page is asked for and its cursor has not passed the row |
| `Admission.BytesMeans` | src/handlers/admission.rs:326-356 | on all inputs: the unbounded amount cut off at 2^64 - 1 if the quantity is readable, else 2^64 - 1 |
| `Admission.WrittenQuantity` | src/handlers/admission.rs:330-356 | for digits of any length, any suffix, sign, white space: min(value * multiplier, 2^64 - 1) |
| `Admission.SuffixesAreRead` | src/handlers/admission.rs:330-356 | digits with each of the nine suffixes, blanks around or not, are read as their product with the factor Kubernetes gives the suffix, cut off at 2^64 - 1 |
| `Admission.ParseU64Means` | src/handlers/admission.rs:351-355 | checked parsing of digits succeeds exactly if their value fits 64 bits |
| `Admission.ParsedIff` | src/handlers/admission.rs:351-355 | what is parsed: digits, behind a plus sign or not, of a value up to 2^64 - 1, and nothing else |
| `Admission.DenouncedIff` | src/handlers/admission.rs:302-315 | the memory warning fires exactly if the limit is readable, below 2^64 - 1, and the request is unreadable or larger |
| `Admission.DenouncedOverMemory` | src/handlers/admission.rs:302-324 | a container is denounced only over the "memory" entries of its limits and requests |
| `Admission.FractionalRequestIsDenounced` | src/handlers/admission.rs:326-329 | "must never denounce a valid pod" fails for every fractional request, exactly with a readable limit below 2^64 - 1 |
| `Admission.ValidPodIsDenouncedIff` | src/handlers/admission.rs:326-329 | a readable limit that covers the fractional request, compared without rounding, is denounced if and only if it is below 2^64 - 1 |
| `Admission.TwoOverOneAndAHalf` | src/handlers/admission.rs:326-329 | a limit of 2Gi covers a request of 1.5Gi and is denounced |
| `Admission.CheckContainer` | src/handlers/admission.rs:278-295 | the warnings of one container, memory first |
| `Admission.CheckDeployment` | src/handlers/admission.rs:268-297 | the loop pushes the warnings of the containers in order, and none if a spec is missing |
| `Admission.OffendersAreDenounced` | src/handlers/admission.rs:278-286 | the memory warnings are exactly one per offending container, in order |
| `Admission.WarnedIff` | src/handlers/admission.rs:268-297 | a warning is given if and only if some container breaks the policy it names while that policy is on |
| `Admission.CheckIngress` | src/handlers/admission.rs:360-376 | a warning exactly if the class name is missing and the policy on |
| `Admission.Evaluate` | src/handlers/admission.rs:207-260 | denied exactly for a protected namespace and a foreign actor while the policy is on; advisory checks never deny and are not made on a denied request |
| `Admission.DeniedIff` | src/handlers/admission.rs:207-222 | who is turned away, with the three namespaces and the actor names spelled out |

## Left out

- CacheIsInvisible: is stated for runs without a fingerprint collision and without an event that spoils the cache, because a 64-bit fingerprint cannot be injective and `DivergesIffSpoiled` shows the other case fails.
- RolloutsAreSafe: claims that the rollout was attempted, not that the deployment was patched, because patch errors are discarded; and it speaks of tags, because the Job builds the branch's head rather than a fixed commit.
- BuildNeverMovesBack: leaves out retrying architecture Jobs, because `RetryMovesBack` shows that they move the status back.
- ResetBounds: the upper bound is for an oldest entry that does not lie in the future of the clock reading.
- FiresAreApart: needs a clock that does not go back and a first rollback that took effect, because the source reads a wall clock and a failed patch leaves the marker standing.
- BuildRuns: one application, fixed architecture settings, none of the architectures called "manifest"; a poll or a monitor pass is one step; webhook and manual triggers, which also write the row, are not modelled; Job names are pairs of group and suffix, not joined strings.
- BuildRuns: the pauses between the create calls of one Job are part of one step; nothing else happens in them.
- BuildRuns: Jobs of the active group are not removed from outside while it is building; other Jobs may be at any time.
- AutoRollback: the loop over namespaces and deployments is left out; one deployment is followed. The poller of this commit does not call the cycle at all, so the runs are those of a caller that does.
- PodMerge: container and pod fields that the merge does not touch are left out, and an empty resource list is not distinguished from a missing one beyond what the converters do.
- PluginRun: what a plugin computes, its WASM sandbox and its logging; a plugin may behave in any way, but is a function of its index and of the outputs it is handed.
- RateLimit: a poisoned lock, and two operations on the lock at once; the lock makes each operation one step.
- SseStream: lossy UTF-8 decoding, trimming and the two JSON extractors are parameters of the parser.
- AuditPages: ids are ranks in the column's order, since collation belongs to the database; a failing query is an error response and is not modelled.
- Admission: JSON decoding of the object and the wording of messages; warnings are values with the container's name and the two quantities.
- LogSanitize: the fence and its nonce around the prompt.
- RefScan: the HTTP request for the advertisement; a slice that would split a character is the outcome `Panic`.
- Kubernetes manifests of Jobs, credentials, metrics, logging, encryption, licences and the frontend: calls into libraries or plain data, no algorithm to prove.
- CronJob image synchronisation, provisioned resources and the internal-registry check: what the API server or registry does with the call is not visible here.
