# Gonitor: verified model

Gonitor is a task monitor: it runs scheduled tasks with dependencies and retries, serves them over HTTP, and
pushes their state to browsers over WebSockets. This project models the parts of it that are protocols or
state machines and proves what they guarantee over whole runs.

| file | what it models |
|---|---|
| `RouteGroups.dfy` | nested route groups, with Go slices on real, shared backing arrays |
| `LimiterCache.dfy` | the table of token buckets and the pass that evicts idle ones |
| `LeaseLock.dfy` | the Redis lease lock with its watchdog, under a clock and all interleavings |
| `Collections.dfy` | one fact about sets that the loops over maps need |
| `TaskStore.dfy` | the tables, and chains of dependencies |
| `DependencyGate.dfy` | admission of a run by the latest finished run of its dependency |
| `JobRun.dfy` | one run: attempts, 8-bit retry arithmetic, 64-bit sleeps, the closing of its log row, its pushes |
| `TaskPayload.dfy` | the check on task mutations |
| `TaskTransfer.dfy`, `TransferGraph.dfy` | import and export, and what they do to the dependency graph |
| `Scheduler.dfy` | the scheduler's index and the controllers that keep it in step with the task table |
| `RunAccounting.dfy` | which runs count as running |
| `SubscriptionServer.dfy` | subscriptions, fan-out, automatic subscription to new logs |
| `RunStream.dfy` | the pushes of a run as a follower receives them, among everything else the server does |
| `SocketClient.dfy` | the browser's outbox, registry, resubscription and dispatch, end to end with that server |
| `Reconnect.dfy` | the reconnect budget |

Objects the program updates in place are classes whose methods are proved against functions on values; the
results over runs are lemmas about those functions, or methods that drive the objects through any sequence of
events. Every step that touches shared state is atomic.

Where the code departs from what one would expect of it, the model keeps the code's behaviour and states the
exact condition:

* A watchdog that is a tenth of the lease late loses the key; a lease under ten milliseconds has no slack at all.
  The program asks for the whole lease again on renewal; if the client library sends whole seconds, the part of a
  second that is cut off comes out of that tenth.
* A release, forced or not, holds the object's mutex while it sends on the cancel channel. It can return exactly when
  the watchdog is spawned or asleep as it deletes the key; if the timer has just fired the two wait for each other for
  ever, and so does a forced release by an object without a watchdog.
* A forced release keeps exclusion exactly when no other object held the key.
* Eviction is noticed by callers exactly when a bucket is larger than sixty seconds of refill.
* A callback that uses an enclosing group can overwrite a middleware of its own group; which cells survive is
  decided by the last write that fits.
* With 127 retries the 8-bit limit wraps and an admitted run makes no attempt; a retry interval above
  9223372036 seconds wraps to a shorter sleep or none.
* Both dependency checks refuse only cycles of length one; longer ones are accepted and block every task that
  leads into them for good, so that every task can run exactly if the table is acyclic. An edit keeps the table acyclic exactly when the new dependency does not lead back.
* An import whose outside dependency names an id about to be given out can close a cycle the batch does not have.
  The table stays acyclic exactly when the new rows are acyclic among themselves, which the batch and the next id
  decide.
* Deleting a task leaves it scheduled; a stop whose write fails, and an enabled task for an unknown node, also
  pull scheduler and table apart.
* A run started by hand is counted as running until its task is unscheduled.
* Unmounting one of two handlers of a key silences the other; keys without handlers are resubscribed.
* The page's heartbeat carries an object where the server expects a string (`Websocket.js:28-33`, `client.go:61-67`),
  so it is skipped and never answered.
* If the old connection's unregistration is handled after the new registration, the new connection is silent.
* The "-1: no limit" of the socket options (`Socket.js:51`) holds exactly until the first successful open, which
  sets the count to ten.

## Model

| member | source | states |
|---|---|---|
| RouteGroups.Append | web/routes/router.go:46-52 | Appending writes into spare cells of the shared array exactly when they suffice, otherwise into a fresh array; no group's own elements change |
| RouteGroups.Registered | web/routes/router.go:50-74 | The engine gets the group's middlewares, then the route's, then the action, for the five known verbs; which spare cells are overwritten |
| RouteGroups.RunNested | web/routes/router.go:44-48 | A nested group's callback registers exactly its subtree's routes and leaves the enclosing group's middlewares as they were |
| RouteGroups.RunBody | web/routes/router.go:44-74 | For every tree of groups, every capacity and every growth of the arrays, the routes registered are those the tree prescribes |
| RouteGroups.RunRouter | web/routes/router.go:36-42 | The same from the root group, which takes over the caller's slice with its spare cells |
| RouteGroups.EntriesAreTheRoutes | web/routes/router.go:36-74 | Each registered chain belongs to a route of the tree and is root, enclosing groups outermost first, own middlewares, action, with no slot unset; every route with a known verb is there |
| RouteGroups.ExpectedMeans | web/routes/router.go:44-60 | Each enclosing group adds its path and middlewares in front; inside, the route's url, its middlewares, its action last |
| RouteGroups.RunOps | web/routes/router.go:44-74 | Whatever a callback opens and registers on whatever groups it can name, each cell of an array ends as the last append that fits in the array left it |
| RouteGroups.UseGroups | web/routes/router.go:44-74 | So a group keeps its middlewares through any such use if and only if the last value written into each of its cells is the one that was there |
| RouteGroups.OwnUseIsHarmless | web/routes/router.go:44-74 | Whatever is opened and registered on the given group and groups opened below it, none of its cells is overwritten |
| RouteGroups.UseOwnGroup | web/routes/router.go:44-74 | So a callback that keeps to its own group leaves the group's middlewares as they were |
| RouteGroups.OverwrittenIff | web/routes/router.go:44-53 | Two lists appended at the same cell: when the first survives the second |
| RouteGroups.OuterRegistrationMayClobber | web/routes/router.go:44-59 | One registration on the enclosing group: a callback keeps its own chain if and only if an append moved or the lists agree where they overlap |
| LimiterCache.Limiter.Allow | web/component/limiter/limiter.go:32-35 | One token is taken if the refilled level allows; the time is recorded even when refused |
| LimiterCache.Limiters.GetLimiter | web/component/limiter/limiter.go:37-49 | A key keeps the limiter and the rate it was first given; a new one starts full |
| LimiterCache.Limiters.AskOnce | web/component/limiter/limiter.go:24-49 | Lookup and Allow together: answer and table contents, other keys untouched |
| LimiterCache.Limiters.InspectOne | web/component/limiter/limiter.go:54-59 | A key is dropped exactly when idle for more than sixty whole seconds |
| LimiterCache.Limiters.ClearPass | web/component/limiter/limiter.go:51-61 | One whole pass, in any order: exactly the keys idle when it looked at them are gone |
| LimiterCache.Serve | web/component/limiter/limiter.go:24-61 | The class answers any sequence of calls and evictions as the table of values does |
| LimiterCache.LevelLater | web/component/limiter/limiter.go:32-35 | The future level of a bucket depends only on its present level |
| LimiterCache.AskMeans | web/component/limiter/limiter.go:24-49 | A call is allowed exactly if a whole token is there, takes it, costs nothing when refused, and notes the time either way |
| LimiterCache.AskAgrees | web/component/limiter/limiter.go:24-49 | Tables offering equal levels answer alike and stay level |
| LimiterCache.InspectKeepsLevels | web/component/limiter/limiter.go:51-60 | Dropping an idle bucket that a minute refills changes no level |
| LimiterCache.EvictionInvisible | web/component/limiter/limiter.go:24-61 | For any timed sequence the answers equal those of a table that never evicts, if evicted keys refill within a minute |
| LimiterCache.EvictionInvisibleIff | web/component/limiter/limiter.go:24-61 | Eviction can never be noticed if and only if every burst is at most sixty seconds of its rate |
| LeaseLock.Redis.SetNx | web/component/lock/lock.go:35-35 | Sets owner and expiry only if no live entry exists |
| LeaseLock.Redis.RunReleaseScript | web/component/lock/lock.go:194-204 | Deletes only a live entry whose owner is the caller |
| LeaseLock.Lock.Get | web/component/lock/lock.go:29-49 | Held afterwards if and only if the key was free; the watchdog then starts |
| LeaseLock.Lock.Block | web/component/lock/lock.go:129-162 | Whatever others do between polls: success means the key is this object's with a full lease, failure means the waiting time is over |
| LeaseLock.Lock.StartTimer | web/component/lock/lock.go:54-60 | The timer runs for the lease less a tenth in whole milliseconds |
| LeaseLock.Lock.TimerFired | web/component/lock/lock.go:60-65 | The select takes the timer and no longer receives |
| LeaseLock.Lock.Check | web/component/lock/lock.go:85-102 | First half of a renewal, under the object's mutex |
| LeaseLock.Lock.Prolong | web/component/lock/lock.go:102-126 | Second half: the expiry moves if the key still exists, otherwise the watchdog ends |
| LeaseLock.Lock.Unlock | web/component/lock/lock.go:184-204 | A release by the owner frees the key, by anybody else it changes no entry |
| LeaseLock.Lock.SendCancel | web/component/lock/lock.go:206-209 | The release reads the cancel channel there is at that moment |
| LeaseLock.TimelyHoldersOwn | web/component/lock/lock.go:52-82 | A watchdog less than a tenth of the lease behind still has its key |
| LeaseLock.StepKeepsInv | web/component/lock/lock.go:29-126 | Every step of every lock object keeps keys and watchdogs consistent |
| LeaseLock.MutualExclusion | web/component/lock/lock.go:29-213 | In every timely interleaving no two locks on a key are held, and no acquisition of a held key succeeds |
| LeaseLock.SlackOf | web/component/lock/lock.go:56-107 | The slack of a lock: a tenth of the lease for exact renewals, less what whole seconds cut off otherwise |
| LeaseLock.ExclusiveIff | web/component/lock/lock.go:52-107 | Holders keep their keys in all runs with watchdogs less than a bound behind if and only if the bound is at most what the timer leaves of every lease, a tenth, and of every renewal |
| LeaseLock.TakeOver | web/component/lock/lock.go:29-49 | An unused lock object acquires any key that is not live, whoever believes to hold it |
| LeaseLock.LostKeyIsTaken | web/component/lock/lock.go:29-82 | Beyond the bound two locks can hold one key |
| LeaseLock.OnlyTheOwnerReleases | web/component/lock/lock.go:85-213 | No renewal and no foreign release changes or removes a live entry's owner |
| LeaseLock.LostKeyEndsWatchdog | web/component/lock/lock.go:67-126 | A watchdog ends exactly when it finds its key gone |
| LeaseLock.NoWatchdogLasts | web/component/lock/lock.go:43-82 | Over any run, an object without a watchdog gets one only by acquiring the key |
| LeaseLock.ForceReleaseBreaksExclusion | web/component/lock/lock.go:165-181 | A forced release by another object lets a third lock in while the first is held |
| LeaseLock.ForceReleaseKeepsExclusionIff | web/component/lock/lock.go:165-181 | After a forced release holders own their keys if and only if no other object held that key |
| LeaseLock.ReturnsIff | web/component/lock/lock.go:52-209 | Some run brings a release that holds the mutex to its end if and only if its watchdog is in the select with the channel being sent on, or no channel was read yet and it is on its way there |
| LeaseLock.SentTooEarly | web/component/lock/lock.go:52-209 | A release that read the channel before its watchdog put in a new one never returns |
| LeaseLock.ForceReleaseReturnsIff | web/component/lock/lock.go:165-181 | A forced release can return if and only if the caller's own watchdog is spawned or asleep |
| LeaseLock.ReleaseReturnsIff | web/component/lock/lock.go:184-213 | A release by the owner can return if and only if its watchdog is spawned or asleep |
| DependencyGate.LatestFinished | task/task.go:157-164 | The finished row of a task with the highest id, or none |
| DependencyGate.RefusalMeaning | task/task.go:145-169 | Which of the refusals is given, and what it says about the dependency |
| DependencyGate.AdmitIff | task/task.go:145-169 | The gate opens if and only if there is no dependency, or it is another live task whose last finished run succeeded |
| DependencyGate.AskedAtOnce | task/task.go:145-169 | The two queries made at one moment give the verdict of the whole check |
| DependencyGate.VerdictMoves | task/taskRunning.go:142-207 | The answer on a dependency moves exactly when a run of it is skipped (then it is a failure), when the last run of it to be over ends, and when an edge node reports on it |
| DependencyGate.SkippedRunShutsGate | task/taskRunning.go:142-176 | A skipped run shuts the gate for every task that depends on it, whatever succeeded before |
| DependencyGate.RefusalLasts | task/task.go:157-167 | Over any run a refusal lasts until a later run of the dependency ends well or an edge node reports a success |
| DependencyGate.StepKeepsGated | task/taskRunning.go:142-207 | With the two queries and the creation of the row as separate steps of interleaved runs, every admitted run lies after a success of its dependency, and every run let through has one before it |
| DependencyGate.TransitiveGating | task/task.go:145-169 | Whenever a run is admitted, every task on its chain has a successful run, each earlier in the log than the one depending on it |
| DependencyGate.EndlessNeverAdmitted | task/task.go:145-169 | No run of a task whose local chain never ends is ever admitted |
| DependencyGate.CyclesNeverRun | task/task.go:145-169 | No task on, or leading into, a dependency cycle is ever admitted |
| DependencyGate.RunnableIff | task/task.go:145-169 | With local runs only, a task can be admitted in some run if and only if its chain ends |
| DependencyGate.AcyclicEnds | task/task.go:145-169 | In an acyclic table every chain ends |
| DependencyGate.AllRunnableIff | task/task.go:145-169 | With local runs only, every task can be admitted in some run if and only if the table is acyclic |
| JobRun.RunningInstance.Run | task/taskRunning.go:75-140 | One attempt: what it records, pushes and returns for every outcome of the process and the assertion |
| JobRun.RunningInstance.BeforeRun | task/taskRunning.go:142-183 | A running row if the gate opens, a finished failed row otherwise |
| JobRun.Round | task/handler.go:41-53 | One attempt and, if it fails, its pause: records, pushes and time slept so far |
| JobRun.RunningInstance.AfterRun | task/taskRunning.go:185-201 | The row is closed with the last attempt's result and the 8-bit attempt count less one, and pushed |
| JobRun.RetryLoop | task/handler.go:35-54 | The attempts made, their records, pushes and the total sleep, for any script of outcomes |
| JobRun.ExecJob | task/handler.go:18-55 | One run from gate to closed row: succeeded if and only if some attempt did, retries counted exactly, total back-off, and everything it pushes in order |
| JobRun.RunMeans | task/taskRunning.go:116-193 | An attempt is won by a clean exit with no assertion or one that holds; every attempt but the last was lost, the run stops early only after a won one, and the row succeeds if and only if some attempt was won |
| JobRun.RecordsMean | task/taskRunning.go:75-140 | Each record says what happened in its attempt |
| JobRun.SleptMeans | task/handler.go:41-53 | The nanoseconds slept after every lost attempt, the last one included |
| JobRun.StartOnce | task/task.go:66-84 | A manual run: one attempt, gated like any other; its row, its pushes and the output it returns |
| JobRun.ManualMeans | task/task.go:66-84 | What a manual run pushes, push by push |
| JobRun.RetryBudget | task/handler.go:35-40 | One to retries+1 attempts, and none at all exactly when retries is 127 |
| JobRun.LastDecides | task/taskRunning.go:187-193 | The last attempt succeeded if and only if some attempt did |
| JobRun.DefaultBackoff | task/handler.go:49-53 | Without an interval, k failures sleep k(k+1)/2 minutes |
| JobRun.IntervalBackoff | task/handler.go:49-53 | With an interval, k failures sleep exactly k intervals if and only if one interval fits 64-bit nanoseconds |
| TaskPayload.AcceptedIff | web/controller/task.go:56-108 | A payload is accepted if and only if it is well formed and depends on nothing or on another live task |
| TaskPayload.WellFormedMeans | web/controller/task.go:56-108 | The conditions on the fields, one by one |
| TaskPayload.DependencyProblems | web/controller/task.go:81-92 | Which answer a dependency gets: negative, itself, unknown, or none |
| TaskPayload.LongerCyclesAccepted | web/controller/task.go:84-93 | Two tasks can be edited to depend on each other |
| TaskPayload.EditAcyclicIff | web/controller/task.go:84-93 | Editing a task of an acyclic table to depend on another leaves it acyclic if and only if no chain from that one reaches the task |
| TaskTransfer.ExportTaskItems | web/controller/task_transfer.go:56-80 | Each task exported field by field, in order |
| TaskTransfer.ExportMeans | web/controller/task_transfer.go:56-80 | An exported item has the task's own field under each name |
| TaskTransfer.CreateOne | web/controller/task_transfer.go:90-133 | A row is created exactly for a well-formed item whose create succeeds |
| TaskTransfer.CreateAll | web/controller/task_transfer.go:90-138 | First pass: all rows under consecutive fresh ids, and the renaming of ids, the last item with an id winning |
| TaskTransfer.Resolve | web/controller/task_transfer.go:144-158 | The renamed or kept dependency, refused exactly when it exists nowhere or is the row itself |
| TaskTransfer.LinkAll | web/controller/task_transfer.go:140-164 | Second pass: every dependency renamed, or a failure exactly when one does not resolve or save |
| TaskTransfer.ImportTaskItems | web/controller/task_transfer.go:82-169 | Succeeds if and only if all items are well formed, all dependencies resolve and no database call fails; otherwise the rows are unchanged |
| TransferGraph.ImportableIff | web/controller/task_transfer.go:140-164 | With well-formed items and no database failure an import succeeds if and only if every copy ends up depending on nothing or on another row that exists afterwards |
| TransferGraph.FaultsOnlyRefuse | web/controller/task_transfer.go:82-169 | Which database failures make it fail, and no others |
| TransferGraph.ImportedDependenciesExist | web/controller/task_transfer.go:140-164 | Whatever fails, no import stores a dependency on a row that does not exist or on the row itself |
| TaskTransfer.WithRowsLookup | web/controller/task_transfer.go:130-164 | Old rows are as they were, new ones under their ids |
| TransferGraph.IsomorphismIff | web/controller/task_transfer.go:140-159 | With distinct positive ids the copies form the same graph as the items if and only if no outside dependency names a new id |
| TransferGraph.EdgesOfAnImport | web/controller/task_transfer.go:134-159 | Duplicate ids: the edge goes to the last; outside dependencies are kept; no row depends on itself |
| TransferGraph.AcyclicIff | web/controller/task_transfer.go:130-163 | For every batch, repeated ids and any outside dependencies included: the whole table is acyclic after the import if and only if it was before and the new rows are among themselves, as computed from the batch and the next id |
| TransferGraph.AcyclicBatchIff | web/controller/task_transfer.go:130-163 | If no outside dependency names a new id, the condition is that table and batch are acyclic, the last item with an id counting |
| TransferGraph.StaysBackward | web/controller/task_transfer.go:140-164 | After an import, too, no row depends on an id not yet given out |
| TransferGraph.OutsideDependencyCanCloseACycle | web/controller/task_transfer.go:148-153 | An accepted import whose outside dependency names a new id closes a cycle though batch and table have none |
| TransferGraph.ImportFrame | web/controller/task_transfer.go:113-137 | New rows are fresh and disabled, one per item, and no old row changes |
| TransferGraph.ExportAfterImport | web/controller/task_transfer.go:56-169 | Exporting the created rows returns the items, ids and batch dependencies renamed, all disabled |
| TransferGraph.ImportAfterExport | web/controller/task_transfer.go:56-169 | Importing an export copies every task, renamed and disabled |
| TransferGraph.SecondCopy | web/controller/task_transfer.go:56-169 | Export and import again: the second copy is the first with ids shifted |
| Scheduler.Manager.AddTask | task/task.go:36-63 | When a task is scheduled, with a fresh entry and the row now stored; a second call never makes a second entry |
| Scheduler.Manager.StopInstance | task/taskIns.go:42-50 | Entry and listing go together |
| Scheduler.Manager.DeleteTask | task/task.go:97-102 | The task is gone from list and cron, everything else stays |
| Scheduler.Manager.UpdateTask | task/task.go:87-94 | Afterwards the task is scheduled with its present row, or not at all, and others are untouched |
| Scheduler.Manager.Start | task/task.go:104-121 | Exactly the live, enabled, local tasks with an accepted schedule are scheduled |
| Scheduler.Manager.Stop | task/task.go:123-129 | Deleting while iterating empties both list and cron |
| Scheduler.Manager.CleanUp | task/handler.go:27-34 | The run is no longer counted; the nil dereference happens exactly when the task is no longer listed |
| Scheduler.SchedulableMeans | task/task.go:51-54 | A task is kept off this scheduler exactly by being disabled or by a known node that is not the master |
| Scheduler.AgreesMeans | task/task.go:172-182 | Agreement, task by task |
| Scheduler.RowMeans | web/controller/task.go:284-301 | A stored row has the payload's own field under each name |
| Scheduler.Server.SyncTaskToNode | web/controller/agent.go:250-276 | Which new task is scheduled here, and the error for an unknown node |
| Scheduler.Server.AddTask | web/controller/task.go:275-316 | Agreement with the table is kept if and only if the task is disabled, refused, or its node is known; a new task closes no cycle |
| Scheduler.Server.EditTask | web/controller/task.go:318-370 | The edited row is stored and scheduled as it now is; agreement is kept; the table stays acyclic if and only if the new dependency does not lead back to the task |
| Scheduler.Server.StartTask | web/controller/task.go:205-229 | The row is enabled; agreement is kept |
| Scheduler.Server.StopTask | web/controller/task.go:182-203 | Agreement is kept if and only if the write succeeds or the task was not scheduled |
| Scheduler.Server.DeleteTask | web/controller/task.go:372-396 | Agreement is kept if and only if the task was not scheduled |
| Scheduler.Server.ImportTasks | web/controller/task_transfer.go:191-208 | Imported tasks are not scheduled; agreement is kept; when the table is acyclic afterwards |
| Scheduler.Serve | web/controller/task.go:182-396 | Over any sequence of requests ids and entries stay in bijection, and no row depends on an id not yet given out, and safe requests keep list and table in agreement, snapshots included |
| Scheduler.SafeMeans | web/controller/task.go:182-396 | The requests that are not safe: a deletion, a stop whose write fails, an enabled task for an unknown node |
| Scheduler.ChangedRow | task/task.go:172-182 | How one changed row moves the set of schedulable tasks |
| RunAccounting.StepKeepsInv | task/handler.go:27-34 | Every step keeps the count of running runs exact |
| RunAccounting.CountedExactly | task/task.go:66-143 | In every reachable state a scheduled task counts exactly the runs that launched under its present entry and are manual or not over |
| RunAccounting.LaunchCounts | task/taskRunning.go:105-112 | A run whose process starts while its task is scheduled is counted |
| RunAccounting.StaysCounted | task/task.go:137-143 | Until the task is unscheduled or, unless started by hand, the run is over |
| RunAccounting.OverIsNotCounted | task/handler.go:27-34 | A cron run that is over is not counted |
| RunAccounting.ManualRunsStayCounted | task/task.go:66-84 | A finished run is still counted if and only if it was started by hand under the present entry |
| RunAccounting.OverviewCounts | task/push.go:25-31 | The pushed process count, summed task by task in any order, is the number of different runs counted, and the other count is the number of tasks listed |
| SubscriptionServer.Client.ToggleSubscribe | web/ws/client.go:163-177 | The nested map behaves as a set of keys, stored flags always true |
| SubscriptionServer.Client.IsSubscribed | web/ws/client.go:148-157 | Membership in that set |
| SubscriptionServer.Client.SendSubscribedInfo | web/ws/client.go:187-210 | One update is queued exactly for a subscribed key |
| SubscriptionServer.Manager.FanOut | web/ws/ws.go:34-37 | In any iteration order each listed, subscribed client gets one frame |
| SubscriptionServer.Manager.SubscribeToNewLog | web/ws/subscription/log.go:24-30 | Exactly the followers of a task's new logs are subscribed to the new log |
| SubscriptionServer.Replay | web/ws/ws.go:24-48 | For any history each connection's queue is exactly the frames its history says, in order and without duplicates |
| SubscriptionServer.ListedIff | web/ws/ws.go:28-33 | A connection is listed if and only if nothing under its client id was handled after its registration |
| SubscriptionServer.FollowsIff | web/ws/client.go:163-177 | A connection follows a key if and only if some event subscribed it, its own message or a new log while it followed the task's new logs, and it has not unsubscribed since |
| SubscriptionServer.BroadcastIff | web/ws/ws.go:34-37 | In terms of the history alone: a broadcast queues one frame exactly for the connections listed and subscribed |
| SubscriptionServer.OtherEventsQueue | web/ws/client.go:94-109 | Nothing else queues an update; a ping queues its answer |
| SubscriptionServer.StreamComplete | web/ws/ws.go:24-48 | A listed connection that follows some keys and is left alone receives every broadcast on them, in order and once |
| SubscriptionServer.LateUnregisterSilences | web/ws/ws.go:29-33 | A late unregistration of the old connection silences the new one |
| RunStream.OnlyMine | web/ws/ws.go:34-37 | In any interleaving with events that are silent on a key, the broadcasts on that key are the run's own, in order |
| RunStream.AboutMeans | task/taskRunning.go:105-113 | What a run pushes about its log: two for every attempt whose process started, all saying it is on, and a last one saying it is over with all its records |
| RunStream.ElsewhereMeans | web/ws/subscription/log.go:18-34 | What "whatever else happens" allows, event by event |
| RunStream.RunLogComplete | web/ws/subscription/log.go:18-34 | A follower of a task's new logs, whatever else happens meanwhile, gets the announcement of a run that begins, and after it exactly the run's pushes for every script of attempts: two per started process, saying that it is on, and last the final state, saying that it is over, in order |
| RunStream.FollowedJob | task/handler.go:18-55 | Running a job: it is admitted if and only if the gate opens, and then, whatever its pushes are interleaved with, its followers are told about the run and receive all of it |
| SocketClient.Socket.FireSend | web/client/src/common/socket/Socket.js:189-202 | The whole outbox is written in order if the connection is open, nothing otherwise |
| SocketClient.Page.Mount | web/client/src/common/socket/Websocket.js:119-138 | Registry and outbox after mounting a handler |
| SocketClient.Page.Unmount | web/client/src/common/socket/Websocket.js:139-150 | Registry and outbox after unmounting; the key stays |
| SocketClient.Page.OnOpen | web/client/src/common/socket/Websocket.js:34-52 | Every registered key is resubscribed once, with or without handlers |
| SocketClient.Page.Dispatch | web/client/src/common/socket/Websocket.js:53-69 | The handlers called for an update |
| SocketClient.EventuallyRead | web/ws/client.go:61-94 | Reading a frame leaves what the server will follow unchanged; a page heartbeat is skipped |
| SocketClient.StepKeepsInv | web/client/src/common/socket/Websocket.js:34-153 | Every step of page, connection and server keeps what the server will follow in line with what the page asked for |
| SocketClient.OutboxConserves | web/client/src/common/socket/Socket.js:178-202 | Frames written and outbox together are the sequence of sends, over any reconnects |
| SocketClient.QuietServer | web/client/src/common/socket/Websocket.js:34-153 | A quiet connected page is followed on exactly the keys it last asked for, server-made subscriptions aside |
| SocketClient.LiveKeysWantedIff | web/client/src/common/socket/Websocket.js:139-150 | The one step that loses a live key is unmounting one of several handlers |
| SocketClient.QuietAfterLoss | web/client/src/common/socket/Websocket.js:34-153 | A page that lost its first connection with everything on the wire does come to be quiet and listed on its second |
| SocketClient.DeliveredInOrder | web/ws/client.go:119-131 | In every run what has reached the page on a connection is what the server queued for it first, in order |
| SocketClient.BroadcastReachesHandler | web/client/src/common/socket/Websocket.js:34-153 | End to end: after any losses and reconnects, a broadcast on a live key of a quiet page with one handler per key is one frame of its connection, can be delivered while connected, and calls that handler and no other, whatever happens meanwhile |
| SocketClient.DeadKeysComeBack | web/client/src/common/socket/Websocket.js:36-51 | Keys without handlers are followed again after a reconnect |
| Reconnect.Socket.OnClose | web/client/src/common/socket/Socket.js:120-130 | When a timer is set and when the count is reset |
| Reconnect.Socket.OnTimer | web/client/src/common/socket/Socket.js:207-219 | One connection more, one reconnect less |
| Reconnect.AtMostTheCount | web/client/src/common/socket/Socket.js:120-219 | Without a successful open at most the configured number of further connections is made |
| Reconnect.FailingUsesTheCount | web/client/src/common/socket/Socket.js:207-219 | Failing every time makes exactly that many |
| Reconnect.NoLimitIff | web/client/src/common/socket/Socket.js:51-219 | Configured without limit, runs of any number of further connections remain possible if and only if no open has succeeded |
| Reconnect.TenAfterOpen | web/client/src/common/socket/Socket.js:95-98 | After one successful open at most ten further connections are made, whatever was configured |
| Reconnect.TenRetriesAfterOpen | web/client/src/common/socket/Socket.js:42-98 | And if they all fail, exactly ten are made |
| Reconnect.RetriesIff | web/client/src/common/socket/Socket.js:207-219 | After a close the page tries again if and only if it has reconnects left or no limit |

## Left out

- LeaseLock.Lock.Get: a lock object is used by one goroutine at a time, leases are positive (to Redis a lease of 0 means no expiry), an object that lost its key and takes it again counts only its new watchdog, Redis answers without errors, and an entry is live strictly before its expiry; what EXPIRE sets is a parameter, since the client library is not part of this model.
- LeaseLock.ReturnsIff: says when a release can return; that it then does return depends on the scheduler and is not treated.
- LimiterCache.Limiters.AskOnce: lookup and Allow happen at one instant; rates are exact reals, finite and not negative; the eviction pass may look at any key at any time.
- DependencyGate.TransitiveGating: dependencies and node assignments are fixed during a run of the system; edge nodes may report any result for their own tasks.
- JobRun.ExecJob: one run by itself, without a concurrent writer of its row; processes, scripts, log files, the log text and result handlers are reduced to their outcomes. The writes of the log row succeed. The gate's queries and the creation of the row are apart in `DependencyGate` only.
- TaskTransfer.ImportTaskItems: a create stores the fields as given (the column default of `priority` is the ORM's business) and ids are consecutive within the transaction.
- TaskPayload.AcceptedIff: the cron parser and the script engine are given as the answers they return.
- Scheduler.Manager.AddTask: a scheduled task is a value in the list, so the aliasing of its record is not captured; killing processes, cron firing and the skip and delay wrappers are left to the library; the node table does not change.
- RunAccounting.CountedExactly: the recorded process is not modelled beyond the fact that a counted run has launched one.
- SubscriptionServer.Replay: the bounded message channel, write errors, malformed messages and the race on a map that is still being set up are not modelled.
- RunStream.RunLogComplete: a push is what the run determines of it; process id, times and the encoding are a given function of that.
- SocketClient.Page.Mount: the nested registry object is a map keyed by type and id together; timers only decide when an outbox is flushed; `destroy` and the restarting of heartbeat timers are not modelled.
- Paging, users, tokens, nodes, deployment, metrics, notifications and rendering: simple or input and output.
