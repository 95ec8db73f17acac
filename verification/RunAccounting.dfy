/** Which runs a scheduled task counts as running (task/task.go `addTaskRunningIns`, task/handler.go's
    deferred cleanup, task/task.go `StartOnceTask`), over every interleaving of runs with scheduling and
    unscheduling. */
module RunAccounting {
  import opened Collections
  import opened TaskStore
  import opened Scheduler

  /** A run, by its log id in the map below: its task, whether it was started by hand, the cron entries
      its task had when one of its attempts started a process, and whether it is over. */
  datatype Run = Run(task: int, manual: bool, launchedUnder: set<int>, over: bool)

  datatype World = World(list: TaskList, lastEntry: int, runs: map<int, Run>)

  datatype Step =
    | Schedule(task: Task)
    | Unschedule(taskId: int)
    | Open(logId: int, taskId: int, manual: bool)
    | Launch(logId: int)
    | Close(logId: int)

  predicate Enabled(w: World, step: Step) {
    match step
    case Schedule(task) => task.id !in w.list
    case Unschedule(taskId) => taskId in w.list
    case Open(logId, _, _) => logId !in w.runs
    case Launch(logId) => logId in w.runs && !w.runs[logId].over
    case Close(logId) => logId in w.runs && !w.runs[logId].over
  }

  function Next(w: World, step: Step): World
    requires Enabled(w, step)
  {
    match step
    case Schedule(task) =>
      var entry := w.lastEntry + 1;
      w.(list := w.list[task.id := TaskInstance(task.id, task, entry, {})], lastEntry := entry)
    case Unschedule(taskId) => w.(list := w.list - {taskId})
    case Open(logId, taskId, manual) => w.(runs := w.runs[logId := Run(taskId, manual, {}, false)])
    case Launch(logId) =>
      var run := w.runs[logId];
      var entries := if run.task in w.list then {w.list[run.task].entryId} else {};
      w.(list := Counted(w.list, run.task, logId),
         runs := w.runs[logId := run.(launchedUnder := run.launchedUnder + entries)])
    case Close(logId) =>
      var run := w.runs[logId];
      w.(list := if run.manual then w.list else Uncounted(w.list, run.task, logId),
         runs := w.runs[logId := run.(over := true)])
  }

  /** Nothing but these conditions restricts what can happen next. */
  lemma AnythingMayHappen(w: World, task: Task, logId: int, taskId: int, manual: bool)
    ensures task.id !in w.list ==> Enabled(w, Schedule(task))
    ensures taskId in w.list ==> Enabled(w, Unschedule(taskId))
    ensures logId !in w.runs ==> Enabled(w, Open(logId, taskId, manual))
    ensures logId in w.runs && !w.runs[logId].over ==> Enabled(w, Launch(logId)) && Enabled(w, Close(logId))
  {
  }

  predicate Legal(w: World, steps: seq<Step>)
    decreases |steps|
  {
    steps == [] || (Enabled(w, steps[0]) && Legal(Next(w, steps[0]), steps[1..]))
  }

  function End(w: World, steps: seq<Step>): World
    requires Legal(w, steps)
    decreases |steps|
  {
    if steps == [] then w else End(Next(w, steps[0]), steps[1..])
  }

  const START := World(map[], 0, map[])

  /** The runs that ought to be counted: those of the task that started a process while it was
      scheduled under its present entry and, unless started by hand, are not over. */
  function Running(w: World, taskId: int): set<int>
    requires taskId in w.list
  {
    set logId | logId in w.runs && w.runs[logId].task == taskId
                && w.list[taskId].entryId in w.runs[logId].launchedUnder
                && (w.runs[logId].manual || !w.runs[logId].over)
  }

  ghost predicate Inv(w: World) {
    && (forall taskId <- w.list ::
          w.list[taskId].entryId <= w.lastEntry && w.list[taskId].running == Running(w, taskId))
    && (forall logId <- w.runs, entry <- w.runs[logId].launchedUnder :: entry <= w.lastEntry)
  }

  lemma StepKeepsInv(w: World, step: Step)
    requires Inv(w) && Enabled(w, step)
    ensures Inv(Next(w, step))
  {
    var w' := Next(w, step);
    forall taskId <- w'.list ensures w'.list[taskId].running == Running(w', taskId) {
      if step.Schedule? && taskId == step.task.id {
        assert forall logId <- w.runs :: w.lastEntry + 1 !in w.runs[logId].launchedUnder;
        assert forall logId :: logId !in Running(w', taskId);
      } else {
        assert w.list[taskId].running == Running(w, taskId);
        if step.Launch? {
          if w.runs[step.logId].task == taskId {
            assert Running(w', taskId) == Running(w, taskId) + {step.logId};
          } else {
            assert Running(w', taskId) == Running(w, taskId);
          }
        }
      }
    }
  }

  /** In every reachable state each scheduled task counts exactly those runs. */
  lemma {:induction false} CountedExactly(w: World, steps: seq<Step>)
    requires Inv(w) && Legal(w, steps)
    ensures var end := End(w, steps);
            Inv(end) && forall taskId <- end.list :: end.list[taskId].running == Running(end, taskId)
    decreases |steps|
  {
    if steps != [] {
      StepKeepsInv(w, steps[0]);
      CountedExactly(Next(w, steps[0]), steps[1..]);
    }
  }

  /** The run is counted under its task. */
  predicate CountedNow(w: World, logId: int) {
    logId in w.runs && w.runs[logId].task in w.list && logId in w.list[w.runs[logId].task].running
  }

  /** A run whose process starts while its task is scheduled is counted, and stays so until the task is
      unscheduled or, unless it was started by hand, the run is over. */
  lemma LaunchCounts(w: World, logId: int)
    requires Enabled(w, Launch(logId)) && w.runs[logId].task in w.list
    ensures CountedNow(Next(w, Launch(logId)), logId)
  {
  }

  lemma {:induction false} StaysCounted(w: World, steps: seq<Step>, logId: int)
    requires CountedNow(w, logId) && Legal(w, steps)
    requires forall i | 0 <= i < |steps| ::
               steps[i] != Unschedule(w.runs[logId].task) && (w.runs[logId].manual || steps[i] != Close(logId))
    ensures CountedNow(End(w, steps), logId)
    decreases |steps|
  {
    if steps != [] {
      StaysCounted(Next(w, steps[0]), steps[1..], logId);
    }
  }

  /** A cron run that is over is not counted. */
  lemma OverIsNotCounted(w: World, logId: int)
    requires Enabled(w, Close(logId)) && !w.runs[logId].manual
    ensures !CountedNow(Next(w, Close(logId)), logId) && Next(w, Close(logId)).runs[logId].over
  {
  }

  lemma LegalMeans(w: World, step: Step, rest: seq<Step>)
    requires Enabled(w, step) && Legal(Next(w, step), rest)
    ensures Legal(w, [step] + rest) && End(w, [step] + rest) == End(Next(w, step), rest)
  {
    assert ([step] + rest)[1..] == rest;
  }

  /** A run started by hand is counted for as long as its task keeps its cron entry, finished or not;
      a cron run stops being counted when it is over. */
  lemma ManualRunsStayCounted(steps: seq<Step>, taskId: int, logId: int)
    requires Legal(START, steps)
    requires var w := End(START, steps);
             taskId in w.list && logId in w.runs && w.runs[logId].over && w.runs[logId].task == taskId
    ensures var w := End(START, steps);
            logId in w.list[taskId].running <==>
            w.runs[logId].manual && w.list[taskId].entryId in w.runs[logId].launchedUnder
  {
    CountedExactly(START, steps);
  }

  /** The runs counted under some task of `tasks`. */
  function CountedUnder(w: World, tasks: set<int>): set<int>
    requires tasks <= w.list.Keys
  {
    set logId | logId in w.runs && w.runs[logId].task in tasks && logId in Running(w, w.runs[logId].task)
  }

  /** No run is counted under two tasks. */
  lemma OneMoreTask(w: World, tasks: set<int>, taskId: int)
    requires Inv(w) && tasks <= w.list.Keys && taskId in w.list && taskId !in tasks
    ensures |CountedUnder(w, tasks + {taskId})| == |CountedUnder(w, tasks)| + |w.list[taskId].running|
  {
    var before, more := CountedUnder(w, tasks), Running(w, taskId);
    assert before !! more;
    assert CountedUnder(w, tasks + {taskId}) == before + more;
    assert w.list[taskId].running == more;
  }

  /** `sendTaskOverviewDynamicInfo`: whatever the order of iteration, the sum of the tasks' counts is
      the number of different runs they count, so no run is pushed twice. */
  method OverviewCounts(w: World) returns (processCount: nat, enableCount: nat)
    requires Inv(w)
    ensures processCount == |CountedUnder(w, w.list.Keys)| && enableCount == |w.list|
  {
    processCount, enableCount := 0, 0;
    var unvisited := w.list.Keys;
    ghost var visited := {};
    while unvisited != {}
      invariant visited + unvisited == w.list.Keys && visited !! unvisited
      invariant processCount == |CountedUnder(w, visited)| && enableCount == |visited|
      decreases unvisited
    {
      NonEmpty(unvisited);
      var taskId :| taskId in unvisited;
      OneMoreTask(w, visited, taskId);
      processCount := processCount + |w.list[taskId].running|;
      enableCount := enableCount + 1;
      unvisited, visited := unvisited - {taskId}, visited + {taskId};
    }
    assert visited == w.list.Keys;
  }
}
