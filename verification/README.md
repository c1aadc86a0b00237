# Verified models of the Temporal samples' protocols

This project models the workflows of the samples repository that are concurrent protocols or
carry round trips, and proves what they promise.

How the models are built:

- A Temporal workflow is code that is atomic between two `await`s. Each signal handler, and each
  stretch of a run between two awaits, is a function from state value to state value. Where the
  source is a class that updates its fields, a class here has the same fields, its methods update
  them in place, and each method is proved to do exactly what the function says (`View()` is the
  state value of the object).
- Around the functions stands a labelled state machine: a `Step` is one atomic stretch of code or
  one delivery of a message, `Enabled` says when it may happen, `Reaches(s, steps, t)` says that the
  list of steps leads from `s` to `t`. A theorem about `Reaches` speaks about every interleaving and
  every run, including the runs that continue as new. Fields marked as history record what happened.
  The code never reads them; they only say what the environment may do (a release key is one never
  drawn before, a completion comes from a child that was started and finished).
- Clocks, random keys, activity results, the network, gzip, SHA-256 and protobuf are parameters or
  steps of the environment.

| files | system |
|---|---|
| `ResourcePool.dfy`, `ResourceUser.dfy`, `ResourcePoolSystem.dfy` | the lock protocol of the resource pool, as a whole system |
| `ResourcePoolLeaks.dfy`, `ResourcePoolProgress.dfy` | two runs that leak; every waiting request can still be served |
| `ResourcePoolRequests.dfy` | who asked, who is granted, and that a grant can be handed back |
| `Dsl.dfy`, `DslSchedules.dfy`, `DslOrder.dfy` | the DSL interpreter: its plain meaning, its interleavings, what order they keep |
| `DslCalls.dfy` | what an activity is called with and what becomes of its result |
| `DslPrompt.dfy` | the interleavings in which, as in the source, a leaf is scheduled as soon as it can be |
| `SlidingWindow.dfy`, `Batch.dfy` | one sliding-window chain, and the batch of all partitions |
| `ClusterManager.dfy`, `ClusterSchedules.dfy` | the cluster manager's operations, and their interleavings under the lock |
| `ClusterProgress.dfy` | the cluster manager can be brought to its end |
| `RedisKey.dfy`, `RedisStore.dfy`, `Payloads.dfy` | the Redis driver: key grammar and concurrent stores |
| `CodecServer.dfy` | the codec server's pipeline and the compression codec |
| `TraceTree.dfy`, `TraceWalk.dfy` | the trace flattener |
| `EntityChat.dfy`, `UpdatableTimer.dfy` | the entity chat and the updatable timer |

## What does not hold

Where the code does less than its description says, the model follows the code and the exact
condition is proved.

- Resource pool: a release that arrives before the grant's own acknowledgement is ignored, and the
  resource then stays held. Grants a run received but never took vanish with that run. `NoLeak`
  says that these, and nothing else, leak; `EarlyReleaseLeaks` and `QueuedGrantLeaks` are two such
  runs.
- Cluster manager: bad nodes are freed by deleting a job called `BAD!` (`BadAbsorbing`). A first
  assignment that is not refused reports the number of nodes asked for exactly when nothing matched the name before and
  the count is not negative (`FirstAssignment`). The source's comment on the input promises that
  assigning again resizes the job: it never does, and the answer has the size asked for exactly when
  the job already matches that many nodes (`NoResize`, `ResizeFails`). A job that was deleted never
  gets a node again, except that `BAD!` gets what health checks find (`NeverGains`, `GainsIff`), and
  assigning it again is answered with no nodes, except that `BAD!` lists the bad nodes and the empty
  name the nodes of all jobs (`AfterDelete`).
- Sliding window: a page size or window below one, or a range past the record count, never returns
  unless the range is empty (`ReturnsIff`). `DeliversIff` is the condition for a whole batch, where
  a negative number of partitions returns zero at once.
- Redis keys: an absent, an empty and a literal `null` name give one key (`KeysDetermine`).
- Codec server: without a prestorage codec, a payload that already is a reference comes back
  resolved; a prestorage codec that changes the length of the list loses or adds payloads on the way
  back, since `zip` writes results only into existing places (`RoundTrip`, `LengthMatters`). A
  payload that only turns out to be a reference after decoding is resolved by the
  preserve-then-download way and not by the direct one (`PreserveThenDownload`, `LateDiffers`).
- Trace flattener: a repeated id can make the walk endless (`EndlessOnRepeatedId`); the walk ends
  exactly when no path from a root meets an id twice (`EndsExactly`).

## Model

| member | source | states |
|---|---|---|
| ResourcePoolSystem.Safety | resource_pool/pool_client/resource_pool_workflow.py:54-149 | Over every run of pool, users and messages: at most one live grant per resource (in flight, queued, in use or detached across continue-as-new), each recorded by the pool under its own key or awaiting acknowledgement; the key table inverts the held resources and is what a rebuild gives; requests popped plus waiters are the acquires in arrival order |
| ResourcePoolSystem.StepKeeps | resource_pool/pool_client/resource_pool_client.py:54-85 | Every step of every participant keeps the inductive invariant behind safety: backing, distinct keys, no released key on a live grant, a sound await |
| ResourcePoolSystem.InvExcludes | resource_pool/pool_client/resource_pool_workflow.py:80-97 | Two live grants of one resource are one and the same grant, because both must carry the key the pool records or awaits |
| ResourcePoolSystem.StaleReleaseHarmless | resource_pool/pool_client/resource_pool_workflow.py:55-74 | In every reachable state, a release of a key released before takes no resource from its present holder, recorded or awaiting |
| ResourcePoolSystem.StepAccounted | resource_pool/pool_client/resource_pool_workflow.py:57-60 | Exact leak accounting: a key becomes unreleasable in a step if and only if the step ignores its last early release or ends a run with that grant still queued |
| ResourcePoolSystem.NoLeak | resource_pool/pool_client/resource_pool_workflow.py:69-74 | At rest, the keys still in the table are exactly the ones lost on the way; all resources are free and the table empty if and only if none was lost |
| ResourcePoolLeaks.EarlyReleaseLeaks | resource_pool/pool_client/resource_pool_workflow.py:55-97 | A run from a fresh pool to rest in which the release beats the acknowledgement, and the one resource is still held at rest |
| ResourcePoolLeaks.QueuedGrantLeaks | resource_pool/pool_client/resource_pool_client.py:31-36 | A run to rest in which a second grant reaches a workflow run on its way out and is lost with its queue |
| ResourcePoolProgress.AllServed | resource_pool/pool_client/resource_pool_workflow.py:106-149 | From every reachable state in which the pool has not failed, some continuation, with resources added where none is free, pops every request received so far, in order |
| ResourcePoolRequests.RequestsConserved | resource_pool/pool_client/resource_pool_client.py:38-41 | Over every run, the requests received and those on their way are exactly those of the workflow runs that began without a grant, each once and under its own workflow id |
| ResourcePoolRequests.GrantsReachRequesters | resource_pool/pool_client/resource_pool_workflow.py:87-97 | In every reachable state, whatever grant a workflow has queued, uses or carries over, the pool records it, or is recording it, for that very workflow id |
| ResourcePoolRequests.CanHandBack | resource_pool/pool_client/resource_pool_client.py:63-85 | From every reachable state in which the pool has not failed, a workflow that owns a grant or has one waiting can come to its end with the resource free again |
| ResourcePool.RebuildReproduces | resource_pool/pool_client/resource_pool_workflow.py:29-33 | Rebuilding the table on continue-as-new gives the same table |
| ResourcePool.TableCounts | resource_pool/pool_client/resource_pool_workflow.py:29-33 | The table is empty exactly when nothing is held, and no two resources are held under one key |
| ResourcePool.ReleaseFrees | resource_pool/pool_client/resource_pool_workflow.py:55-74 | A known key frees just the resource recorded under it (the branch for a resource not held is unreachable); an unknown key changes nothing; the table stays the inverse |
| ResourcePool.AddKeeps | resource_pool/pool_client/resource_pool_workflow.py:36-43 | Adding resources adds exactly the new ones, free, and touches no holder and no key |
| ResourcePool.SettleKeeps | resource_pool/pool_client/resource_pool_workflow.py:88-104 | An acknowledgement records the holder under its fresh key; a missing workflow or another error changes no holder |
| ResourcePool.LoopConserves | resource_pool/pool_client/resource_pool_workflow.py:106-149 | The loop blocks or continues as new exactly when there is no waiter or no free resource, and continuing as new changes nothing; otherwise the first waiter gets a free resource |
| ResourcePool.FirstFree | resource_pool/pool_client/resource_pool_workflow.py:118-122 | A result is a free resource; no result means that every resource is held |
| ResourcePool.FirstFreeIsFirst | resource_pool/pool_client/resource_pool_workflow.py:118-122 | The resource found is the first free one in insertion order |
| ResourcePool.ResourcePoolWorkflow.constructor | resource_pool/pool_client/resource_pool_workflow.py:26-33 | The loop over the holders builds the table of the specification |
| ResourcePool.ResourcePoolWorkflow.AddResources | resource_pool/pool_client/resource_pool_workflow.py:36-43 | The loop's new state is that of adding every name in turn, known names ignored |
| ResourcePool.ResourcePoolWorkflow.AcquireResource | resource_pool/pool_client/resource_pool_workflow.py:46-52 | The request is appended to the waiters, nothing else changes |
| ResourcePool.ResourcePoolWorkflow.ReleaseResource | resource_pool/pool_client/resource_pool_workflow.py:55-74 | The new state is the specification's, in all three branches |
| ResourcePool.ResourcePoolWorkflow.GetFreeResource | resource_pool/pool_client/resource_pool_workflow.py:118-122 | The search loop finds the first free resource in insertion order |
| ResourcePool.ResourcePoolWorkflow.AssignNextResource | resource_pool/pool_client/resource_pool_workflow.py:106-116 | Serves exactly when there is a waiter and a free resource, and otherwise changes nothing |
| ResourcePool.ResourcePoolWorkflow.RunPass | resource_pool/pool_client/resource_pool_workflow.py:134-149 | One pass of the loop, including continue-as-new, refines the specification's pass |
| ResourcePool.ResourcePoolWorkflow.SignalSettled | resource_pool/pool_client/resource_pool_workflow.py:88-104 | What follows the awaited signal, for each way it can end |
| ResourceUser.OwnershipHandedOn | resource_pool/resource_user_workflow.py:60-88 | Ownership ends only together with a release of the very grant owned; detaching hands the same grant to the next run, which reattaches without asking again and does not detach a second time |
| ResourceUser.OneRelease | resource_pool/resource_user_workflow.py:60-88 | Under one grant, whatever its activities do: at most two activities end, four if the workflow was asked to continue as new, and none after one that fails; then exactly one release was sent, for that grant; and a second run began if and only if it was asked for and neither of the first two failed |
| ResourceUser.FirstRun | resource_pool/resource_user_workflow.py:78-88 | The next run of a workflow that detached uses the same grant, starts over with its activities, and does not continue as new again |
| ResourceUser.AcquiredResource.Detach | resource_pool/shared.py:29-31 | Detaching marks the object and hands over resource and key |
| ResourceUser.ResourceUserWorkflow.HandleAcquireResponse | resource_pool/pool_client/resource_pool_client.py:31-36 | A response is queued behind the earlier ones |
| ResourceUser.ResourceUserWorkflow.BeginRun | resource_pool/pool_client/resource_pool_client.py:63-72 | A run reattaches to the grant in its input or sends one acquire |
| ResourceUser.ResourceUserWorkflow.TakeFirst | resource_pool/pool_client/resource_pool_client.py:65-68 | The first queued grant is taken |
| ResourceUser.ResourceUserWorkflow.ActivityEnded | resource_pool/resource_user_workflow.py:60-88 | The way out of the block releases unless detached, on failure as on success |
| DslSchedules.Confluence | dsl/workflow.py:63-85 | For a race-free program, every interleaving from its start, finished from left to right, gives the variables of plain sequential evaluation; so does every complete schedule |
| DslSchedules.ExecutePreserves | dsl/workflow.py:63-85 | From any partly executed race-free state, firing any list of events leaves the final variables as they were going to be |
| DslSchedules.FinishStart | dsl/workflow.py:63-85 | Running a fresh task to its end from left to right is plain evaluation |
| DslSchedules.FireLocal | dsl/workflow.py:67-71 | What an event does depends only on the variables the task still reads |
| DslSchedules.UnwrittenUnchanged | dsl/workflow.py:72-73 | In every schedule, racy or not, a variable no activity writes keeps its presence and value |
| DslCalls.Called | dsl/workflow.py:67-73 | In every complete schedule of any program, racy or not: an activity is called with the values of its argument names at its scheduling, in the order of the names, the empty text for one not set; scheduling changes no variable; and completion stores what it gives under its result name, if it has one, and changes nothing else |
| DslPrompt.PromptSchedules | dsl/workflow.py:63-85 | When leaves are scheduled as soon as they are reached, the complete schedules of any program, racy or not, are exactly the orderings that schedule and complete each leaf once, respect program order, and have no completion between a schedule event and the last event it had to wait for |
| DslPrompt.PromptOutcome | dsl/workflow.py:63-85 | The outcome of such a schedule is that of its completions delivered one by one, each followed by scheduling all that became ready; the order of schedule events among each other does not show |
| DslPrompt.ActivationsArePrompt | dsl/workflow.py:63-85 | Every order of completions that runs the program to its end this way is that of such a schedule |
| DslPrompt.RacesMatter | dsl/workflow.py:67-85 | A program with a race has two such schedules that end with different variables, because arguments are read when scheduling and results written on completion |
| DslOrder.Schedules | dsl/workflow.py:63-85 | Every complete schedule, prompt or not, schedules and completes each activity leaf once, a leaf before it completes and sequence elements wholly one after the other. The converse is about the wider model, in which a reached leaf may wait before it is scheduled |
| DslOrder.FireIff | dsl/workflow.py:74-85 | An event happens only when nothing still to come has to precede it; in the wider model, where a reached leaf may wait, also whenever |
| DslOrder.Progress | dsl/workflow.py:63-85 | An unfinished program can always do some event that is still to come |
| DslOrder.Terminates | dsl/workflow.py:63-85 | No schedule is longer than twice the number of leaves, and a complete one has exactly that length |
| Dsl.EvalFrame | dsl/workflow.py:72-73 | Evaluation leaves unwritten variables alone |
| Dsl.ArgumentsInOrder | dsl/workflow.py:69 | Arguments come in the order of their names, the empty text for a missing one |
| Dsl.EvalAllInOrder | dsl/workflow.py:76-77 | Elements are evaluated one after the other |
| Dsl.DSLWorkflow.Run | dsl/workflow.py:56-61 | The result is the evaluation of the root on a copy of the input |
| Dsl.DSLWorkflow.ExecuteStatement | dsl/workflow.py:63-85 | The recursive method with its loops over elements updates the variables as evaluation says |
| SlidingWindow.Accounting | batch_sliding_window/sliding_window_workflow.py:69-157 | Over the whole chain: progress plus window size is the number of ids started; started ids are the range so far, in order, once each; the window holds only started ids and is never overfull; ids out of the window have finished |
| SlidingWindow.Result | batch_sliding_window/sliding_window_workflow.py:124-150 | A chain that returns returns the size of its range, started each id once, finished all, and took as many runs as there are pages, whatever the order and repetition of signals |
| SlidingWindow.Completes | batch_sliding_window/sliding_window_workflow.py:81-150 | From every reachable state of a chain with sensible parameters, some continuation returns |
| SlidingWindow.ReturnedRuns | batch_sliding_window/sliding_window_workflow.py:131-150 | A returned chain over a range that is not empty had sensible parameters and took just enough runs for its pages |
| SlidingWindow.ReturnsIff | batch_sliding_window/record_loader_activity.py:51-59 | A chain can return if and only if its range is empty, or page and window are at least one and the range lies within the record count |
| SlidingWindow.WindowFills | batch_sliding_window/sliding_window_workflow.py:103-118 | From its start a chain can fill its window, or start its whole range if that is smaller, before anything completes |
| SlidingWindow.WaitsOnlyWhenFull | batch_sliding_window/sliding_window_workflow.py:105-107 | In every reachable state, a run with records left waits for room exactly while the window is full |
| SlidingWindow.SlidingWindowWorkflow.constructor | batch_sliding_window/sliding_window_workflow.py:68-71 | A run starts from the input's window, offset and progress |
| SlidingWindow.SlidingWindowWorkflow.LoadPage | batch_sliding_window/sliding_window_workflow.py:84-98 | The page of the offset, or the loader's refusal, or no page past the end |
| SlidingWindow.SlidingWindowWorkflow.StartNextChild | batch_sliding_window/sliding_window_workflow.py:103-118 | With room in the window, the next record enters it before its child starts |
| SlidingWindow.SlidingWindowWorkflow.ChildHandleReceived | batch_sliding_window/sliding_window_workflow.py:112-120 | A started child is counted by this run |
| SlidingWindow.SlidingWindowWorkflow.ContinueAsNewOrComplete | batch_sliding_window/sliding_window_workflow.py:124-149 | The next run carries window and progress on; the last run drains |
| SlidingWindow.SlidingWindowWorkflow.HandleCompletionSignal | batch_sliding_window/sliding_window_workflow.py:152-157 | A completion counts once; a repeated one changes nothing |
| SlidingWindow.Range | batch_sliding_window/record_loader_activity.py:56-57 | The ids of a page, in order, none beyond the limit |
| Batch.BatchSafety | batch_sliding_window/batch_workflow.py:46-99 | In every run of all partitions side by side: records in flight never exceed the requested window, the loader's guard never fires, and no record is started in two partitions |
| Batch.BatchResult | batch_sliding_window/batch_workflow.py:97-99 | When all partitions return, the sum is the record count, every record was started and finished, and each partition took one run per page of the batch's page size |
| Batch.PlanTiles | batch_sliding_window/batch_workflow.py:51-95 | For 1 <= partitions <= window, the ranges tile the records without gap or overlap, every window is at least one, the windows add up to the one asked for, sizes and windows are even to within one, and every child has the page size of the batch |
| Batch.BatchCompletes | batch_sliding_window/batch_workflow.py:70-99 | From every sound state of all partitions together, some continuation makes every partition return |
| Batch.DeliversIff | batch_sliding_window/batch_workflow.py:39-99 | For all parameters, some run of the batch returns the record count if and only if there is a partition, a window for each and, with records to process, a page of at least one; or nothing to do and a negative number of partitions |
| Batch.DivideFair | batch_sliding_window/batch_workflow.py:101-110 | The parts add up to the number and differ by at most one, larger ones first |
| Batch.DivideIntoPartitions | batch_sliding_window/batch_workflow.py:101-110 | The loop computes the division of the specification, for every sign of the divisor |
| Batch.StartChildren | batch_sliding_window/batch_workflow.py:46-95 | The loop with its running offset and clamp gives the children of the specification |
| ClusterSchedules.Atomicity | message_passing/safe_message_handlers/workflow.py:101-213 | Whatever the interleaving, the cluster and every answer are those of doing the operations in one step each, in the order in which they took the lock; an operation outside that list was turned away after shutdown |
| ClusterSchedules.NodesSafe | message_passing/safe_message_handlers/workflow.py:113-213 | In every reachable state the node set is fixed, each node is free, bad or owned by a known job, and what a handler chose before its activity is still as it found it |
| ClusterSchedules.Admission | message_passing/safe_message_handlers/workflow.py:104-111 | For every run, told from its steps alone: a handler is answered that the cluster is shut down if and only if it is an update that passed the wait for the start after a shutdown; every other handler that passed it waits for the lock, is in its activity or is in the log |
| ClusterSchedules.StartedWith | message_passing/safe_message_handlers/workflow.py:217-221 | Whatever nodes the start activity reported are the nodes of the cluster for good, all free at first |
| ClusterProgress.CanReturn | message_passing/safe_message_handlers/workflow.py:224-254 | From every reachable state, some continuation answers every handler and makes the workflow return |
| ClusterSchedules.FinalCounts | message_passing/safe_message_handlers/workflow.py:249-254 | The workflow returns only after a shutdown, with every handler over and nobody holding the lock; the returned counts are those of all operations done in order |
| ClusterManager.AtomicOwners | message_passing/safe_message_handlers/workflow.py:113-213 | The owner of each node after each operation; a failed activity, a refusal or the guard changes nothing |
| ClusterManager.Effects | message_passing/safe_message_handlers/workflow.py:113-213 | Each operation node by node, with jobs and answer: a deletion frees exactly the nodes of its job, a health check marks exactly the assigned nodes that fail, an assignment takes exactly the first free nodes; what is refused or fails changes nothing |
| ClusterManager.AssignedExactly | message_passing/safe_message_handlers/workflow.py:183-193 | A job name matches its nodes, the empty name the nodes of all jobs, bad nodes apart |
| ClusterManager.AtomicKeeps | message_passing/safe_message_handlers/workflow.py:113-213 | Every operation keeps: each node is free, bad or owned by a job in `jobs_assigned` |
| ClusterManager.BadAbsorbing | message_passing/safe_message_handlers/workflow.py:158-209 | A bad node stays bad, except exactly when the job `BAD!` is deleted |
| ClusterManager.FreeNeverBad | message_passing/safe_message_handlers/workflow.py:195-209 | A free node gets an owner exactly by being chosen for an assignment, and turns bad only for the job name `BAD!` |
| ClusterManager.FirstAssignment | message_passing/safe_message_handlers/workflow.py:115-145 | For every name and count: too many is refused; otherwise the answer has the requested size if and only if nothing matched the name before and the count is not negative |
| ClusterManager.NoResize | message_passing/safe_message_handlers/workflow.py:113-118 | For every job assigned before, every count and outcome, the guard answers with what the name matches and changes nothing, so the answer has the requested size if and only if the job already matches that many; line 48 promises otherwise |
| ClusterManager.ResizeFails | message_passing/safe_message_handlers/workflow.py:46-50 | A job of one node asks for two while one is free, and keeps its one |
| ClusterManager.GainsIff | message_passing/safe_message_handlers/workflow.py:113-213 | A job assigned before gains a node in one operation if and only if it is called `BAD!` and a health check finds that node bad |
| ClusterSchedules.NeverGains | message_passing/safe_message_handlers/workflow.py:113-213 | Over any later operations, a job assigned once and not called `BAD!` never gains a node |
| ClusterSchedules.AfterDelete | message_passing/safe_message_handlers/workflow.py:113-175 | After a deletion and any later operations, assigning the job again changes nothing and is answered with no nodes; the exact conditions for `BAD!` and the empty name |
| ClusterManager.Where | message_passing/safe_message_handlers/workflow.py:177-193 | A query finds exactly the matching nodes |
| ClusterManager.ClusterManagerWorkflow.constructor | message_passing/safe_message_handlers/workflow.py:217-221 | The started cluster has every node free |
| ClusterManager.ClusterManagerWorkflow.AssignAfterActivity | message_passing/safe_message_handlers/workflow.py:143-145 | The loop after the activity writes and answers as specified |
| ClusterManager.ClusterManagerWorkflow.UnassignAfterActivity | message_passing/safe_message_handlers/workflow.py:174-175 | The loop frees exactly the chosen nodes |
| ClusterManager.ClusterManagerWorkflow.HealthCheckAfterActivity | message_passing/safe_message_handlers/workflow.py:208-209 | The loop marks exactly the checked nodes found bad |
| RedisKey.KeysDetermine | external_storage_redis/_driver.py:98-140 | Under one prefix, two keys are equal if and only if digest, namespace, kind, type, id and run id are, up to absent, empty and `null` names being one |
| RedisKey.ReadBack | external_storage_redis/_driver.py:98-140 | Parsing a printed key gives the scope and digest back, normalized |
| RedisKey.NormalPrintsSame | external_storage_redis/_driver.py:105-136 | The difference that reading back loses never shows in a key |
| RedisKey.QuoteRoundTrip | external_storage_redis/_driver.py:105-106 | Percent-encoding is undone by decoding, leaves no colon, and is empty only for an empty name |
| RedisKey.QuotesExactly | external_storage_redis/_driver.py:105-106 | Letters, digits and `-._~` stay; every other byte becomes a percent sign and two upper-case hexadecimal digits |
| RedisKey.TrimsExactly | external_storage_redis/_driver.py:86 | Exactly the colons at the end of the prefix are taken off |
| RedisKey.SegmentText | external_storage_redis/_driver.py:108-137 | The segments of each kind of key, word by word |
| RedisKey.SplitJoin | external_storage_redis/_driver.py:137-140 | Segments without colons are recovered from their joined form |
| RedisKey.BuildKey | external_storage_redis/_driver.py:98-140 | The growing list of segments prints the specified key |
| RedisStore.StoreThenRetrieve | external_storage_redis/_driver.py:142-228 | After any interleaving with other stores, retrieving the claims of a successful store succeeds, and returns the payloads in order unless other bytes offered in its own scope collide with one of them; other scopes do not matter |
| RedisStore.StoreSucceedsIff | external_storage_redis/_driver.py:149-180 | In every reachable state, a new store call can succeed if and only if each of its payloads is within the size limit |
| RedisStore.RunKeeps | external_storage_redis/_driver.py:149-180 | Over every run of concurrent stores, each key is that of its value's digest, no value changes, and every task that wrote has its key in the database |
| RedisStore.ValueUnderClaim | external_storage_redis/_driver.py:158-178 | Under a claim's key lies a value of the claim's digest, offered within the claim's scope |
| RedisStore.Integrity | external_storage_redis/_driver.py:206-228 | A list of claims with digests is retrieved if and only if each finds bytes of its digest, and each payload returned is parsed from bytes of its claim's digest |
| RedisStore.RetrievesExactly | external_storage_redis/_driver.py:192-224 | Which error a claim gives, exactly: missing, another algorithm, another digest; a claim without digest or algorithm is not checked |
| RedisStore.RetrieveEach | external_storage_redis/_driver.py:28-41 | The gathered call succeeds if and only if every fetch does, with the results in order |
| RedisStore.RetrieveAll | external_storage_redis/_driver.py:182-228 | For any order in time of the fetches: success exactly when each claim can be fetched, then with the payloads in order of the claims; otherwise the error of the first failure in time |
| CodecServer.RoundTrip | external_storage/handler.py:97-132 | For any list and any list-level codecs that undo themselves: decode after encode is the identity if and only if, with a prestorage codec, that codec kept the list's length, and without one, no input is a reference |
| CodecServer.LengthMatters | external_storage/handler.py:78-84 | A codec that undoes itself but puts a header in front, on which no list survives |
| CodecServer.EncodeOffloads | external_storage/handler.py:97-114 | With the outer layer taken off, what encoding gives holds, at each place, the payload from the prestorage codec or a reference that resolves to it, a reference exactly where the store takes that payload; nothing is left that the store would still take |
| CodecServer.ReferencesExactly | external_storage/handler.py:31-38 | A payload is a reference exactly when its metadata reads the two names, whatever else it holds |
| CodecServer.DownloadExactly | external_storage/handler.py:134-148 | A list is refused unless all are references; otherwise each is resolved and decoded in its place |
| CodecServer.LateDiffers | external_storage/handler.py:116-148 | A compressed reference on which preserving and downloading differs from decoding at once |
| CodecServer.CompressedRoundTrip | external_storage/codec.py:9-30 | With the compression codec, every payload list survives, references included |
| CodecServer.CompressionFits | external_storage/codec.py:14-30 | The compression codec undoes itself, keeps the length, never puts out a reference and decodes payload by payload |
| CodecServer.CompressedForm | external_storage/codec.py:14-30 | A compressed payload has the one metadata entry and data that decompress to the serialized payload; a payload without that entry passes decoding unchanged |
| CodecServer.PreserveKeeps | external_storage/handler.py:116-132 | Through the whole decode pipeline and for any list-level codec: with `preserveStorageRefs` every reference keeps its place and value, the length is that of decoding without it, and without references both decode alike |
| CodecServer.PreserveThenDownload | external_storage/handler.py:116-148 | For a codec that decodes payload by payload: what decoding at once gives for each payload, and that preserving references and downloading them later gives the same except where a payload that was no reference decodes to one |
| CodecServer.PreserveThenDownloadEncoded | external_storage/handler.py:116-148 | For payloads the server encoded and that are no references, both ways give the originals |
| CodecServer.DecodeNonRefsIsMap | external_storage/handler.py:71-84 | For a codec that decodes payload by payload, gather and scatter is that map on the non-references |
| CodecServer.GatherAt | external_storage/handler.py:78-81 | A non-reference is found among the gathered at the number of non-references before it |
| CodecServer.ScatterAll | external_storage/handler.py:82-83 | Without references the results overwrite the list from the front, as far as the shorter of the two goes |
| CodecServer.DecodeNonReferences | external_storage/handler.py:71-84 | The index list, the gathered list and the scattering loop over the zip compute the rank-based specification, for results of any length |
| CodecServer.EncodeHandler | external_storage/handler.py:97-114 | The handler's rebinding of its list is the three-layer pipeline |
| CodecServer.DecodeHandler | external_storage/handler.py:116-132 | The layers in reverse, with and without resolving references |
| CodecServer.DownloadHandler | external_storage/handler.py:134-148 | Refusal unless all are references, else resolved and decoded |
| CodecServer.DecompressAll | external_storage/codec.py:23-30 | The appending loop decodes each payload in place |
| TraceTree.OnlyTiesMatter | langfuse_tracing/verify_trace.py:117-124 | The rows depend on the input order only through the order among siblings of one name: the sort is stable |
| TraceTree.OrderIndependent | langfuse_tracing/verify_trace.py:107-124 | With distinct sibling names any reordering of the input gives the same rows |
| TraceTree.SiblingsExactly | langfuse_tracing/verify_trace.py:108-123 | Under a parent come exactly the observations that name it, by ascending name in lexicographic order, those of one name in input order |
| TraceTree.ForestExactly | langfuse_tracing/verify_trace.py:115-123 | The roots are the observations without a parent, the children of every node the siblings under its id, in that order |
| TraceTree.RowsReadBack | langfuse_tracing/verify_trace.py:107-124 | The rows can be unflattened to exactly the ordered, labelled forest they came from |
| TraceTree.GroupByParent | langfuse_tracing/verify_trace.py:108-112 | The dict holds each parent's children in input order |
| TraceTree.Walk | langfuse_tracing/verify_trace.py:115-120 | The walk appends the preorder of the observation's tree |
| TraceTree.BuildTree | langfuse_tracing/verify_trace.py:107-124 | Dict, walk and appended rows give the flattened forest |
| TraceWalk.EndsIff | langfuse_tracing/verify_trace.py:115-123 | The walk ends within a depth if and only if no chain from a root is longer |
| TraceWalk.EndsExactly | langfuse_tracing/verify_trace.py:115-123 | For any trace, the walk ends if and only if no path from a root meets an id twice, if and only if it ends within as many levels as there are observations |
| TraceWalk.Terminates | langfuse_tracing/verify_trace.py:115-123 | With unique ids it ends within the number of observations, orphans and unreachable cycles or not |
| TraceWalk.EndlessOnRepeatedId | langfuse_tracing/verify_trace.py:117-120 | Two observations with one id on which no depth suffices |
| TraceWalk.ExactlyOnce | langfuse_tracing/verify_trace.py:107-124 | With unique ids, exactly the observations reachable from a root are shown, once each, at the depth of their chain from the root, with their type and their name or `<generation>`; all are shown if and only if all are reachable |
| EntityChat.Conservation | bedrock/entity/workflows.py:34-120 | Over the whole chain, prompts accepted are those answered, in progress, queued or carried over, with multiplicity; the workflow returns only when all accepted are answered |
| EntityChat.HistoryOfRun | bedrock/entity/workflows.py:41-98 | Within a run prompts are taken in the order lined up; the history is the summary the run was handed, if not empty, followed by the exchanges in that order, at most seven lines, and a run continues as new after exactly three exchanges |
| EntityChat.SummariesHandedOn | bedrock/entity/workflows.py:78-113 | A run is handed the summary made last; a chat closes with a new one exactly if its last run had an exchange, else with the one it was handed, or none |
| EntityChat.Closes | bedrock/entity/workflows.py:44-120 | From every state some continuation closes the chat |
| EntityChat.EntityBedrockWorkflow.OnUserPrompt | bedrock/entity/workflows.py:123-129 | A prompt is queued unless the chat has ended |
| EntityChat.EntityBedrockWorkflow.OnEndChat | bedrock/entity/workflows.py:132-133 | The end flag is set, nothing else changes |
| EntityChat.EntityBedrockWorkflow.BeginRun | bedrock/entity/workflows.py:34-42 | The carried summary opens the history; carried prompts go behind those already signalled |
| EntityChat.EntityBedrockWorkflow.RunPass | bedrock/entity/workflows.py:48-120 | One pass of the loop: the next prompt, the closing summary, or the return |
| EntityChat.EntityBedrockWorkflow.OnResponse | bedrock/entity/workflows.py:68-100 | A response is recorded, and a long history leads to the summary |
| UpdatableTimer.NoLostUpdate | updatable_timer/updatable_timer_lib.py:12-36 | Told from the updates made and not from the timer: after any updates and clock advances the timer is set for the time last asked for; a blocked sleep is armed for it or, exactly if it was asked for since the last look, has the flag pending; a returned one returned at or past the time in force |
| UpdatableTimer.ReturnsWhenDue | updatable_timer/updatable_timer_lib.py:12-32 | `sleep` returns no earlier than the time asked for; it looks at the clock and returns exactly if that time has come, else arms for it; it can wake exactly if something was asked for since or that time has come; and then its own next steps return |
| UpdatableTimer.SleepingTimer.SleepPass | updatable_timer/updatable_timer_lib.py:14-29 | One pass of the loop up to its wait |
| UpdatableTimer.SleepingTimer.UpdateWakeUpTime | updatable_timer/updatable_timer_lib.py:34-36 | The new time is set and the flag raised |

## Left out

- Resource pool: operator-forced release, workflow termination and activity retries. The error of a
  signal that is neither acknowledged nor refused stops the pool.
- Resource pool: a lost signal. Signals are delivered once per workflow id, across runs, except that
  release signals may also be repeated at any time.
- The user's wait for a grant may time out at any moment its queue is empty; the wall-clock bound of
  five minutes is not modelled.
- DslSchedules.Confluence: activities succeed; a failing activity, which abandons its siblings
  running, is not modelled. What an activity returns depends on its name and arguments alone.
- DslOrder.Schedules: in these two modules a reached leaf may wait before it is scheduled, which the
  event loop never does. What is said of all schedules covers the event loop's; the converse does not.
- DslPrompt.PromptSchedules: one completion is delivered at a time. When several are delivered
  together, a leaf may be scheduled after more of them; only what is said of all schedules covers that.
- Dsl.DSLWorkflow.Run: the object runs the branches of a parallel statement in order.
- Dsl.DSLWorkflow.ExecuteStatement: the branches of a parallel statement run in order; `DslSchedules`
  and `DslPrompt` are where their interleavings are.
- SlidingWindow.Accounting: a loader that refuses stops the run, where the server would retry it. A
  child whose start is refused by the server, which would stop the run, is not modelled.
- Batch.BatchResult: the record count is not negative, as a count is; a failing child fails the batch.
- ClusterSchedules.Atomicity: one run from its start. A run that continues as new starts the cluster
  again and overwrites the node map, so nothing is carried over. Health checks may come at any time,
  more often than the timer in `run` allows.
- ClusterManager.FreeNeverBad: the activity's hash test is any set of failing names; the nodes found
  bad are the checked nodes in that set.
- RedisStore.StoreThenRetrieve: no key expires and the server loses nothing; claims carry a key. A
  cancelled task may still write, which allows more than the source does.
- RedisStore.RetrieveAll: the database does not change while one call fetches, and failures of the
  connection are not modelled.
- CodecServer.RoundTrip: the SDK's offload is assumed to store large payloads that are no references,
  to undo that on retrieval and to leave the rest alone; retrieval of a dangling reference is not
  modelled, nor are HTTP and JSON.
- TraceTree.BuildTree: the recursion carries a budget of depth, which the source has only as the
  interpreter's recursion limit; fetching and printing the trace are not modelled.
- EntityChat.Conservation: `chat_ended` is not carried to the next run and prompts signalled before a
  run begins come ahead of carried ones, so no order is claimed across runs. Activities succeed. The
  texts of the model prompts are not modelled.
- UpdatableTimer.ReturnsWhenDue: times are integers.
- The other samples (workers, starters, plugins, patching, versioning, encryption, schedules): plumbing
  around library code that is not part of this model.
