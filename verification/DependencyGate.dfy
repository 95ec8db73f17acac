/** The dependency gate (task/task.go, task/taskRunning.go): a run is admitted only when the latest
    finished run of the task it depends on succeeded. */
module DependencyGate {
  import opened TaskStore

  datatype Verdict = Admit | DependsOnItself | NoSuchDependency | NeverFinished | LastRunFailed

  /** The finished row of `task` with the highest id. */
  function LatestFinished(logs: seq<TaskLog>, task: int): (r: Option<nat>)
    ensures r.Some? ==> r.value < |logs| && logs[r.value].taskId == task && !logs[r.value].status
    ensures r.Some? ==> forall j | r.value < j < |logs| :: logs[j].taskId == task ==> logs[j].status
    ensures r.None? ==> forall j | 0 <= j < |logs| :: logs[j].taskId == task ==> logs[j].status
  {
    if logs == [] then None
    else
      var last := |logs| - 1;
      if logs[last].taskId == task && !logs[last].status then Some(last)
      else LatestFinished(logs[..last], task)
  }

  datatype Answer = Settled(verdict: Verdict) | Exists

  /** `validateTaskDependency` up to its first query, over the ids that query can see. */
  function FirstRead(task: int, dependsOn: int, live: set<int>): Answer {
    if dependsOn == 0 then Settled(Admit)
    else if dependsOn == task then Settled(DependsOnItself)
    else if dependsOn !in live then Settled(NoSuchDependency)
    else Exists
  }

  /** Its second query. */
  function SecondRead(dependsOn: int, logs: seq<TaskLog>): Verdict {
    match LatestFinished(logs, dependsOn)
    case None => NeverFinished
    case Some(row) => if logs[row].execResult then Admit else LastRunFailed
  }

  /** The whole check, when nothing happens between the two. */
  function Validate(task: int, dependsOn: int, live: set<int>, logs: seq<TaskLog>): Verdict {
    match FirstRead(task, dependsOn, live)
    case Settled(verdict) => verdict
    case Exists => SecondRead(dependsOn, logs)
  }

  /** A finished run that succeeded. */
  predicate Success(log: TaskLog, task: int) {
    log.taskId == task && !log.status && log.execResult
  }

  /** The gate opens exactly for a task without dependency, or with a live other task whose last
      finished run is a success. */
  lemma AdmitIff(task: int, dependsOn: int, live: set<int>, logs: seq<TaskLog>)
    ensures Validate(task, dependsOn, live, logs) == Admit <==>
            dependsOn == 0 ||
            (dependsOn != task && dependsOn in live &&
             exists j: nat | j < |logs| :: Success(logs[j], dependsOn) &&
                                           forall m | j < m < |logs| :: logs[m].taskId == dependsOn ==> logs[m].status)
  {
    var latest := LatestFinished(logs, dependsOn);
    if latest.Some? && logs[latest.value].execResult {
      assert Success(logs[latest.value], dependsOn);
    }
  }

  /** What each refusal says about the table. */
  lemma RefusalMeaning(task: int, dependsOn: int, live: set<int>, logs: seq<TaskLog>)
    ensures var verdict := Validate(task, dependsOn, live, logs);
            && (verdict == DependsOnItself <==> dependsOn == task != 0)
            && (verdict == NoSuchDependency <==> dependsOn != 0 && dependsOn != task && dependsOn !in live)
            && (verdict == NeverFinished ==>
                  forall j | 0 <= j < |logs| && logs[j].taskId == dependsOn :: logs[j].status)
            && (verdict == LastRunFailed ==>
                  exists j: nat | j < |logs| ::
                    logs[j].taskId == dependsOn && !logs[j].status && !logs[j].execResult &&
                    forall m | j < m < |logs| :: logs[m].taskId == dependsOn ==> logs[m].status)
  {
    var latest := LatestFinished(logs, dependsOn);
    if latest.Some? {
      assert logs[latest.value].taskId == dependsOn;
    }
  }

  // ---------------------------------------------------------------- whole runs

  /** Where `beforeRun` is: the dependency exists and its log is still to be read, or the verdict is in
      and the log row still to be created. */
  datatype Stage = Found(task: int) | Decided(task: int, verdict: Verdict)

  /** The runs that have not written their log row yet are `pending`, under names of their own. */
  datatype World = World(live: set<int>, logs: seq<TaskLog>, pending: map<int, Stage>)

  /** What can happen: a run makes its first query, its second, and writes its row; an admitted run
      ends; an edge node reports a result; the set of live tasks changes.  Runs interleave freely. */
  datatype Step =
    | Ask(run: int, task: int)
    | Look(run: int)
    | Create(run: int)
    | Finish(row: nat, ok: bool, retries: int)
    | Report(task: int, ok: bool)
    | SetLive(tasks: set<int>)

  const START := World({}, [], map[])

  /** The fixed dependency column, and the tasks assigned to edge nodes. */
  datatype Setup = Setup(dep: int -> int, remote: set<int>)

  predicate Enabled(u: Setup, w: World, step: Step) {
    match step
    case Ask(run, task) => task != 0 && run !in w.pending
    case Look(run) => run in w.pending && w.pending[run].Found?
    case Create(run) => run in w.pending && w.pending[run].Decided?
    case Finish(row, _, _) => row < |w.logs| && w.logs[row].status
    case Report(task, _) => task in u.remote && task in w.live
    case SetLive(_) => true
  }

  /** `beforeRun` writes a running row, or `recordSkippedRun` a finished, failed one. */
  function Opening(verdict: Verdict, task: int): TaskLog {
    TaskLog(task, verdict == Admit, false, 0)
  }

  function Closing(log: TaskLog, ok: bool, retries: int): TaskLog {
    log.(status := false, execResult := ok, retryTimes := retries)
  }

  function Asked(u: Setup, task: int, live: set<int>): Stage {
    match FirstRead(task, u.dep(task), live)
    case Settled(verdict) => Decided(task, verdict)
    case Exists => Found(task)
  }

  function Next(u: Setup, w: World, step: Step): World
    requires Enabled(u, w, step)
  {
    match step
    case Ask(run, task) => w.(pending := w.pending[run := Asked(u, task, w.live)])
    case Look(run) =>
      var task := w.pending[run].task;
      w.(pending := w.pending[run := Decided(task, SecondRead(u.dep(task), w.logs))])
    case Create(run) =>
      w.(logs := w.logs + [Opening(w.pending[run].verdict, w.pending[run].task)], pending := w.pending - {run})
    case Finish(row, ok, retries) => w.(logs := w.logs[row := Closing(w.logs[row], ok, retries)])
    case Report(task, ok) => w.(logs := w.logs + [TaskLog(task, false, ok, 0)])
    case SetLive(tasks) => w.(live := tasks)
  }

  predicate Legal(u: Setup, w: World, steps: seq<Step>)
    decreases |steps|
  {
    steps == [] || (Enabled(u, w, steps[0]) && Legal(u, Next(u, w, steps[0]), steps[1..]))
  }

  function End(u: Setup, w: World, steps: seq<Step>): World
    requires Legal(u, w, steps)
    decreases |steps|
  {
    if steps == [] then w else End(u, Next(u, w, steps[0]), steps[1..])
  }

  /** Nothing but these conditions restricts what can happen next. */
  lemma AnythingMayHappen(u: Setup, w: World, run: int, task: int, row: nat, ok: bool, retries: int, tasks: set<int>)
    ensures task != 0 && run !in w.pending ==> Enabled(u, w, Ask(run, task))
    ensures run in w.pending ==> (Enabled(u, w, Look(run)) || Enabled(u, w, Create(run)))
    ensures row < |w.logs| && w.logs[row].status ==> Enabled(u, w, Finish(row, ok, retries))
    ensures task in u.remote && task in w.live ==> Enabled(u, w, Report(task, ok))
    ensures Enabled(u, w, SetLive(tasks))
  {
  }

  // ---------------------------------------------------------------- how the verdict on a dependency moves

  /** `row` is a run of `d` that is on, and no later run of `d` is over. */
  predicate EndsLast(logs: seq<TaskLog>, row: nat, d: int) {
    && row < |logs| && logs[row].taskId == d && logs[row].status
    && forall m | row < m < |logs| :: logs[m].taskId == d ==> logs[m].status
  }

  /** The answer of the second query is the result of the one finished row after which only running
      rows follow. */
  lemma LastFinishedDecides(logs: seq<TaskLog>, d: int, row: nat)
    requires row < |logs| && logs[row].taskId == d && !logs[row].status
    requires forall m | row < m < |logs| :: logs[m].taskId == d ==> logs[m].status
    ensures SecondRead(d, logs) == if logs[row].execResult then Admit else LastRunFailed
  {
    assert LatestFinished(logs, d) == Some(row);
  }

  /** Tables with the same finished rows of `d` give the same answer. */
  lemma SameAnswer(d: int, logs: seq<TaskLog>, logs': seq<TaskLog>)
    requires |logs| <= |logs'|
    requires forall m | 0 <= m < |logs| && logs[m].taskId == d && !logs[m].status :: logs'[m] == logs[m]
    requires forall m | 0 <= m < |logs'| && logs'[m].taskId == d && !logs'[m].status ::
               m < |logs| && logs[m] == logs'[m]
    ensures SecondRead(d, logs') == SecondRead(d, logs)
  {
    match LatestFinished(logs, d) {
      case Some(row) =>
        LastFinishedDecides(logs, d, row);
        LastFinishedDecides(logs', d, row);
      case None =>
        assert LatestFinished(logs', d).None?;
    }
  }

  /** A run that is skipped counts as a failed run of its task. */
  lemma SkippedRunFails(u: Setup, w: World, run: int)
    requires Enabled(u, w, Create(run)) && w.pending[run].verdict != Admit
    ensures SecondRead(w.pending[run].task, Next(u, w, Create(run)).logs) == LastRunFailed
  {
    LastFinishedDecides(Next(u, w, Create(run)).logs, w.pending[run].task, |w.logs|);
  }

  /** What becomes of row `row` does not matter once a later one is over. */
  lemma LaterDecides(logs: seq<TaskLog>, logs': seq<TaskLog>, d: int, row: nat, later: nat)
    requires |logs| == |logs'| && row < later < |logs| && logs[later].taskId == d && !logs[later].status
    requires forall m | 0 <= m < |logs| && m != row :: logs'[m] == logs[m]
    ensures SecondRead(d, logs') == SecondRead(d, logs)
  {
    var last := LatestFinished(logs, d).value;
    assert later <= last;
    LastFinishedDecides(logs, d, last);
    LastFinishedDecides(logs', d, last);
  }

  /** A run that ends decides, unless a later one of its task is already over. */
  lemma EndedRunDecides(u: Setup, w: World, row: nat, ok: bool, retries: int, d: int)
    requires Enabled(u, w, Finish(row, ok, retries))
    ensures SecondRead(d, Next(u, w, Finish(row, ok, retries)).logs) ==
            if EndsLast(w.logs, row, d) then (if ok then Admit else LastRunFailed) else SecondRead(d, w.logs)
  {
    var logs' := Next(u, w, Finish(row, ok, retries)).logs;
    if EndsLast(w.logs, row, d) {
      LastFinishedDecides(logs', d, row);
    } else if w.logs[row].taskId == d {
      var later: nat :| row < later < |w.logs| && w.logs[later].taskId == d && !w.logs[later].status;
      LaterDecides(w.logs, logs', d, row, later);
    } else {
      SameAnswer(d, w.logs, logs');
    }
  }

  lemma ReportDecides(u: Setup, w: World, task: int, ok: bool, d: int)
    requires Enabled(u, w, Report(task, ok))
    ensures SecondRead(d, Next(u, w, Report(task, ok)).logs) ==
            if task == d then (if ok then Admit else LastRunFailed) else SecondRead(d, w.logs)
  {
    var logs' := Next(u, w, Report(task, ok)).logs;
    if task == d {
      LastFinishedDecides(logs', d, |w.logs|);
    } else {
      SameAnswer(d, w.logs, logs');
    }
  }

  lemma CreateDecides(u: Setup, w: World, run: int, d: int)
    requires Enabled(u, w, Create(run))
    ensures SecondRead(d, Next(u, w, Create(run)).logs) ==
            if w.pending[run].task == d && w.pending[run].verdict != Admit then LastRunFailed else SecondRead(d, w.logs)
  {
    if w.pending[run].task == d && w.pending[run].verdict != Admit {
      SkippedRunFails(u, w, run);
    } else {
      SameAnswer(d, w.logs, Next(u, w, Create(run)).logs);
    }
  }

  /** The answer on a dependency `d` moves exactly when a run of it is skipped, when the last run of it
      to be over ends, and when an edge node reports on it. */
  lemma VerdictMoves(u: Setup, w: World, step: Step, d: int)
    requires Enabled(u, w, step)
    ensures SecondRead(d, Next(u, w, step).logs) ==
            match step
            case Create(run) =>
              if w.pending[run].task == d && w.pending[run].verdict != Admit then LastRunFailed
              else SecondRead(d, w.logs)
            case Finish(row, ok, _) =>
              if EndsLast(w.logs, row, d) then (if ok then Admit else LastRunFailed) else SecondRead(d, w.logs)
            case Report(task, ok) =>
              if task == d then (if ok then Admit else LastRunFailed) else SecondRead(d, w.logs)
            case _ => SecondRead(d, w.logs)
  {
    match step {
      case Create(run) => CreateDecides(u, w, run, d);
      case Finish(row, ok, retries) => EndedRunDecides(u, w, row, ok, retries, d);
      case Report(task, ok) => ReportDecides(u, w, task, ok, d);
      case _ =>
    }
  }

  /** So a skipped run shuts the gate for every task that depends on it, however long ago it last
      succeeded. */
  lemma SkippedRunShutsGate(u: Setup, w: World, run: int, t: int, live: set<int>)
    requires Enabled(u, w, Create(run)) && w.pending[run].verdict != Admit
    requires u.dep(t) == w.pending[run].task != 0
    ensures Validate(t, u.dep(t), live, Next(u, w, Create(run)).logs) != Admit
  {
    SkippedRunFails(u, w, run);
  }

  /** The steps that open it again: the last run of `d` to be over ends well, or an edge node reports a
      success. */
  predicate Reopens(w: World, step: Step, d: int) {
    match step
    case Finish(row, ok, _) => ok && EndsLast(w.logs, row, d)
    case Report(task, ok) => ok && task == d
    case _ => false
  }

  predicate NeverReopens(u: Setup, w: World, steps: seq<Step>, d: int)
    requires Legal(u, w, steps)
    decreases |steps|
  {
    steps == [] || (!Reopens(w, steps[0], d) && NeverReopens(u, Next(u, w, steps[0]), steps[1..], d))
  }

  /** Once refused because of `d`, refused until a step opens the gate again, over any run. */
  lemma {:induction false} RefusalLasts(u: Setup, w: World, steps: seq<Step>, t: int, live: set<int>)
    requires u.dep(t) != 0 && SecondRead(u.dep(t), w.logs) != Admit
    requires Legal(u, w, steps) && NeverReopens(u, w, steps, u.dep(t))
    ensures Validate(t, u.dep(t), live, End(u, w, steps).logs) != Admit
    decreases |steps|
  {
    if steps != [] {
      VerdictMoves(u, w, steps[0], u.dep(t));
      RefusalLasts(u, Next(u, w, steps[0]), steps[1..], t, live);
    }
  }

  // ---------------------------------------------------------------- the invariant

  /** Row `i` belongs to a run that was admitted and is still on, or that succeeded. */
  predicate Ran(log: TaskLog) {
    log.status || log.execResult
  }

  ghost predicate SuccessBefore(logs: seq<TaskLog>, i: nat, task: int)
    requires i <= |logs|
  {
    exists j: nat | j < i :: Success(logs[j], task)
  }

  /** Row `i`, if it is an admitted run of a local task, comes after a success of the task's
      dependency. */
  ghost predicate GatedAt(u: Setup, logs: seq<TaskLog>, i: nat)
    requires i < |logs|
  {
    var task := logs[i].taskId;
    Ran(logs[i]) && task !in u.remote && u.dep(task) != 0 ==> SuccessBefore(logs, i, u.dep(task))
  }

  ghost predicate Gated(u: Setup, logs: seq<TaskLog>) {
    forall i: nat | i < |logs| :: GatedAt(u, logs, i)
  }

  /** A run that has been let through has seen a success. */
  ghost predicate Cleared(u: Setup, w: World, run: int)
    requires run in w.pending
  {
    var stage := w.pending[run];
    stage.Decided? && stage.verdict == Admit && u.dep(stage.task) != 0 ==>
      SuccessBefore(w.logs, |w.logs|, u.dep(stage.task))
  }

  ghost predicate Inv(u: Setup, w: World) {
    Gated(u, w.logs) && forall run <- w.pending :: Cleared(u, w, run)
  }

  /** Successes are never removed, nor moved. */
  lemma SuccessStays(u: Setup, w: World, step: Step, i: nat, task: int)
    requires Enabled(u, w, step) && i <= |w.logs| && SuccessBefore(w.logs, i, task)
    ensures |w.logs| <= |Next(u, w, step).logs| && SuccessBefore(Next(u, w, step).logs, i, task)
  {
    var j: nat :| j < i && Success(w.logs[j], task);
    assert Success(Next(u, w, step).logs[j], task);
  }

  lemma SecondReadSaw(dependsOn: int, logs: seq<TaskLog>)
    requires SecondRead(dependsOn, logs) == Admit
    ensures SuccessBefore(logs, |logs|, dependsOn)
  {
    assert Success(logs[LatestFinished(logs, dependsOn).value], dependsOn);
  }

  lemma OldRowsStayGated(u: Setup, w: World, step: Step, i: nat)
    requires Enabled(u, w, step) && i < |w.logs| && GatedAt(u, w.logs, i)
    ensures i < |Next(u, w, step).logs| && GatedAt(u, Next(u, w, step).logs, i)
  {
    var task := w.logs[i].taskId;
    assert Next(u, w, step).logs[i].taskId == task;
    if Ran(w.logs[i]) && task !in u.remote && u.dep(task) != 0 {
      SuccessStays(u, w, step, i, u.dep(task));
    }
  }

  /** A row that is new was written by a run that had been cleared, or reported by an edge node. */
  lemma NewRowIsGated(u: Setup, w: World, step: Step)
    requires Enabled(u, w, step) && Inv(u, w) && |w.logs| < |Next(u, w, step).logs|
    ensures |Next(u, w, step).logs| == |w.logs| + 1 && GatedAt(u, Next(u, w, step).logs, |w.logs|)
  {
    if step.Create? {
      var stage := w.pending[step.run];
      assert Cleared(u, w, step.run);
      if stage.verdict == Admit && u.dep(stage.task) != 0 {
        SuccessStays(u, w, step, |w.logs|, u.dep(stage.task));
      }
    }
  }

  lemma SuccessGrows(logs: seq<TaskLog>, i: nat, task: int)
    requires i <= |logs| && SuccessBefore(logs, i, task)
    ensures SuccessBefore(logs, |logs|, task)
  {
    var j: nat :| j < i && Success(logs[j], task);
    assert Success(logs[j], task);
  }

  lemma PendingStaysCleared(u: Setup, w: World, step: Step, run: int)
    requires Enabled(u, w, step) && Inv(u, w) && run in Next(u, w, step).pending
    ensures Cleared(u, Next(u, w, step), run)
  {
    var stage := Next(u, w, step).pending[run];
    if stage.Decided? && stage.verdict == Admit && u.dep(stage.task) != 0 {
      if step == Look(run) {
        SecondReadSaw(u.dep(stage.task), w.logs);
      } else {
        assert Cleared(u, w, run);
        SuccessStays(u, w, step, |w.logs|, u.dep(stage.task));
        SuccessGrows(Next(u, w, step).logs, |w.logs|, u.dep(stage.task));
      }
    }
  }

  /** Every admitted run lies after a success of its dependency, and every run let through has one
      before it, however their steps interleave. */
  lemma StepKeepsGated(u: Setup, w: World, step: Step)
    requires Enabled(u, w, step) && Inv(u, w)
    ensures Inv(u, Next(u, w, step))
  {
    var w' := Next(u, w, step);
    forall i: nat | i < |w'.logs| ensures GatedAt(u, w'.logs, i) {
      if i < |w.logs| {
        OldRowsStayGated(u, w, step, i);
      } else {
        NewRowIsGated(u, w, step);
      }
    }
    forall run <- w'.pending ensures Cleared(u, w', run) {
      PendingStaysCleared(u, w, step, run);
    }
  }

  lemma {:induction false} RunsKeepGated(u: Setup, w: World, steps: seq<Step>)
    requires Legal(u, w, steps) && Inv(u, w)
    ensures Inv(u, End(u, w, steps))
    decreases |steps|
  {
    if steps != [] {
      StepKeepsGated(u, w, steps[0]);
      RunsKeepGated(u, Next(u, w, steps[0]), steps[1..]);
    }
  }

  /** Asking and looking at one moment is the whole check. */
  lemma AskedAtOnce(u: Setup, w: World, run: int, task: int)
    requires task != 0 && run !in w.pending
    ensures var w' := Next(u, w, Ask(run, task));
            w'.pending[run] == if w'.pending[run].Found? then Found(task)
                               else Decided(task, Validate(task, u.dep(task), w.live, w.logs))
    ensures var w' := Next(u, w, Ask(run, task));
            w'.pending[run].Found? ==>
              Next(u, w', Look(run)).pending[run] == Decided(task, Validate(task, u.dep(task), w.live, w.logs))
  {
  }

  // ---------------------------------------------------------------- transitive gating

  /** The first `k` dependencies of `task` exist, and all but the last run locally. */
  ghost predicate LocalChain(u: Setup, task: int, k: nat) {
    && (forall m: nat | 1 <= m <= k :: Chain(u.dep, task, m) != 0)
    && (forall m: nat | 1 <= m < k :: Chain(u.dep, task, m) !in u.remote)
  }

  lemma {:induction false} LocalChainTail(u: Setup, task: int, k: nat)
    requires 0 < k && LocalChain(u, task, k)
    ensures LocalChain(u, u.dep(task), k - 1) && u.dep(task) != 0 && (1 < k ==> u.dep(task) !in u.remote)
  {
    assert Chain(u.dep, task, 1) == u.dep(task);
    forall m: nat | 1 <= m <= k - 1
      ensures Chain(u.dep, u.dep(task), m) == Chain(u.dep, task, m + 1)
    {
    }
  }

  /** From a success of `task` at row `i`, the successes of its dependencies, one before the other. */
  lemma {:induction false} EarlierSuccesses(u: Setup, logs: seq<TaskLog>, i: nat, task: int, k: nat)
    returns (rows: seq<nat>)
    requires Gated(u, logs) && i < |logs| && Success(logs[i], task)
    requires LocalChain(u, task, k) && (0 < k ==> task !in u.remote)
    ensures |rows| == k + 1 && rows[0] == i
    ensures forall m | 0 <= m <= k :: rows[m] < |logs| && Success(logs[rows[m]], Chain(u.dep, task, m))
    ensures forall m | 0 <= m < k :: rows[m + 1] < rows[m]
    decreases k
  {
    rows := [i];
    if 0 < k {
      LocalChainTail(u, task, k);
      assert GatedAt(u, logs, i) && Ran(logs[i]);
      var j: nat :| j < i && Success(logs[j], u.dep(task));
      var rest := EarlierSuccesses(u, logs, j, u.dep(task), k - 1);
      rows := [i] + rest;
      forall m | 0 <= m <= k ensures rows[m] < |logs| && Success(logs[rows[m]], Chain(u.dep, task, m)) {
        if 0 < m { assert rows[m] == rest[m - 1]; }
      }
    }
  }

  /** A run of the task has been let through and is about to write its row. */
  predicate Admitted(w: World, run: int, task: int) {
    run in w.pending && w.pending[run] == Decided(task, Admit)
  }

  ghost predicate SomeAdmitted(w: World, task: int) {
    exists run :: Admitted(w, run, task)
  }

  /** Whenever a run is admitted, every task on its dependency chain already has a successful run, and
      along the chain those runs lie earlier and earlier in the log. */
  lemma TransitiveGating(u: Setup, steps: seq<Step>, run: int, task: int, k: nat) returns (rows: seq<nat>)
    requires Legal(u, START, steps) && Admitted(End(u, START, steps), run, task)
    requires LocalChain(u, task, k)
    ensures var logs := End(u, START, steps).logs;
            && |rows| == k
            && (forall m | 0 <= m < k :: rows[m] < |logs| && Success(logs[rows[m]], Chain(u.dep, task, m + 1)))
            && (forall m | 0 <= m < k - 1 :: rows[m + 1] < rows[m])
  {
    var w := End(u, START, steps);
    RunsKeepGated(u, START, steps);
    rows := [];
    if 0 < k {
      LocalChainTail(u, task, k);
      assert Cleared(u, w, run);
      var j: nat :| j < |w.logs| && Success(w.logs[j], u.dep(task));
      rows := EarlierSuccesses(u, w.logs, j, u.dep(task), k - 1);
    }
  }

  lemma {:induction false} DescendingFits(rows: seq<nat>, bound: nat)
    requires forall m | 0 <= m < |rows| - 1 :: rows[m + 1] < rows[m]
    requires rows != [] ==> rows[0] < bound
    ensures |rows| <= bound
    decreases |rows|
  {
    if rows != [] {
      DescendingFits(rows[1..], rows[0]);
    }
  }

  /** A dependency chain that never ends: in particular one that runs into a cycle. */
  ghost predicate Endless(u: Setup, task: int) {
    forall m: nat | 1 <= m :: Chain(u.dep, task, m) != 0 && Chain(u.dep, task, m) !in u.remote
  }

  /** No run of a task on, or leading into, a dependency cycle is ever admitted. */
  lemma EndlessNeverAdmitted(u: Setup, steps: seq<Step>, run: int, task: int)
    requires Legal(u, START, steps) && Endless(u, task)
    ensures !Admitted(End(u, START, steps), run, task)
  {
    var w := End(u, START, steps);
    if Admitted(w, run, task) {
      var rows := TransitiveGating(u, steps, run, task, |w.logs| + 1);
      DescendingFits(rows, |w.logs|);
      assert false;
    }
  }

  lemma {:induction false} AroundTheCycle(dep: int -> int, task: int, n: nat, m: nat)
    requires 0 < n && Chain(dep, task, n) == task && task != 0 && dep(0) == 0
    ensures Chain(dep, task, m) != 0
    decreases m
  {
    if m < n {
      if Chain(dep, task, m) == 0 {
        ChainSplit(dep, task, m, n - m);
        ZeroChain(dep, n - m);
        assert false;
      }
    } else {
      AroundTheCycle(dep, task, n, m - n);
      ChainSplit(dep, task, n, m - n);
    }
  }

  /** Every local task that reaches a cycle, after any number of dependencies, is blocked for good. */
  lemma CyclesNeverRun(u: Setup, steps: seq<Step>, run: int, task: int, lead: nat, n: nat)
    requires Legal(u, START, steps) && u.dep(0) == 0 && u.remote == {}
    requires 0 < n && Chain(u.dep, task, lead) != 0 &&
             Chain(u.dep, Chain(u.dep, task, lead), n) == Chain(u.dep, task, lead)
    ensures !Admitted(End(u, START, steps), run, task)
  {
    forall m: nat | 1 <= m ensures Chain(u.dep, task, m) != 0 {
      if m < lead {
        if Chain(u.dep, task, m) == 0 {
          ChainSplit(u.dep, task, m, lead - m);
          ZeroChain(u.dep, lead - m);
          assert false;
        }
      } else {
        ChainSplit(u.dep, task, lead, m - lead);
        AroundTheCycle(u.dep, Chain(u.dep, task, lead), n, m - lead);
      }
    }
    EndlessNeverAdmitted(u, steps, run, task);
  }

  // ---------------------------------------------------------------- and everything else can run

  lemma {:induction false} EndSplit(u: Setup, w: World, first: seq<Step>, second: seq<Step>)
    requires Legal(u, w, first) && Legal(u, End(u, w, first), second)
    ensures Legal(u, w, first + second) && End(u, w, first + second) == End(u, End(u, w, first), second)
    decreases |first|
  {
    if first == [] {
      assert first + second == second;
    } else {
      EndSplit(u, Next(u, w, first[0]), first[1..], second);
      assert (first + second)[1..] == first[1..] + second;
    }
  }

  lemma OneStep(u: Setup, w: World, step: Step)
    requires Enabled(u, w, step)
    ensures Legal(u, w, [step]) && End(u, w, [step]) == Next(u, w, step)
  {
    assert [step][1..] == [];
  }

  /** One more step. */
  lemma Then(u: Setup, w: World, steps: seq<Step>, step: Step) returns (more: seq<Step>)
    requires Legal(u, w, steps) && Enabled(u, End(u, w, steps), step)
    ensures Legal(u, w, more) && End(u, w, more) == Next(u, End(u, w, steps), step)
  {
    OneStep(u, End(u, w, steps), step);
    EndSplit(u, w, steps, [step]);
    more := steps + [step];
  }

  /** If the check passes now, a run can be admitted now. */
  lemma CanBeAdmitted(u: Setup, w: World, run: int, task: int) returns (steps: seq<Step>)
    requires task != 0 && run !in w.pending && Validate(task, u.dep(task), w.live, w.logs) == Admit
    ensures Legal(u, w, steps)
    ensures End(u, w, steps) == w.(pending := w.pending[run := Decided(task, Admit)])
  {
    AskedAtOnce(u, w, run, task);
    OneStep(u, w, Ask(run, task));
    steps := [Ask(run, task)];
    var w' := End(u, w, steps);
    if w'.pending[run].Found? {
      steps := Then(u, w, steps, Look(run));
      assert w'.pending[run := Decided(task, Admit)] == w.pending[run := Decided(task, Admit)];
    }
  }

  /** One admitted run that succeeds, when no other is about to begin. */
  lemma OneRun(u: Setup, w: World, task: int) returns (steps: seq<Step>)
    requires task != 0 && w.pending == map[] && Validate(task, u.dep(task), w.live, w.logs) == Admit
    ensures Legal(u, w, steps)
    ensures End(u, w, steps) == World(w.live, w.logs + [TaskLog(task, false, true, 0)], map[])
  {
    var row := |w.logs|;
    steps := CanBeAdmitted(u, w, 0, task);
    steps := Then(u, w, steps, Create(0));
    var w' := End(u, w, steps);
    assert w'.pending == map[] && w'.logs == w.logs + [TaskLog(task, true, false, 0)];
    steps := Then(u, w, steps, Finish(row, true, 0));
    assert w'.logs[row := TaskLog(task, false, true, 0)] == w.logs + [TaskLog(task, false, true, 0)];
  }

  lemma {:induction false} FixedPoint(dep: int -> int, task: int, k: nat)
    requires dep(task) == task
    ensures Chain(dep, task, k) == task
  {
    if 0 < k {
      FixedPoint(dep, task, k - 1);
    }
  }

  /** A task is admitted right after its dependency succeeded. */
  lemma AdmittedAfter(u: Setup, task: int, k: nat, live: set<int>, logs: seq<TaskLog>)
    requires task != 0 && Chain(u.dep, task, k) == 0 && u.dep(task) in live
    requires logs != [] && logs[|logs| - 1] == TaskLog(u.dep(task), false, true, 0)
    ensures Validate(task, u.dep(task), live, logs) == Admit
  {
    if u.dep(task) == task {
      FixedPoint(u.dep, task, k);
      assert false;
    }
    assert Success(logs[|logs| - 1], u.dep(task));
    AdmitIff(task, u.dep(task), live, logs);
  }

  /** Running a finite chain from its far end upwards. */
  lemma {:induction false} ChainCanSucceed(u: Setup, w: World, task: int, k: nat) returns (steps: seq<Step>)
    requires task != 0 && w.pending == map[] && 0 < k && Chain(u.dep, task, k) == 0
    requires forall m: nat | m < k :: Chain(u.dep, task, m) != 0 && Chain(u.dep, task, m) in w.live
    ensures Legal(u, w, steps) && End(u, w, steps).live == w.live && End(u, w, steps).pending == map[]
    ensures var logs := End(u, w, steps).logs; 0 < |logs| && logs[|logs| - 1] == TaskLog(task, false, true, 0)
    decreases k
  {
    if u.dep(task) == 0 {
      steps := OneRun(u, w, task);
    } else {
      var d := u.dep(task);
      assert Chain(u.dep, task, 1) == d;
      assert k != 1;
      forall m: nat | m < k - 1 ensures Chain(u.dep, d, m) != 0 && Chain(u.dep, d, m) in w.live {
        assert Chain(u.dep, task, m + 1) == Chain(u.dep, d, m);
      }
      var first := ChainCanSucceed(u, w, d, k - 1);
      var v := End(u, w, first);
      assert Chain(u.dep, d, 0) == d;
      AdmittedAfter(u, task, k, v.live, v.logs);
      var second := OneRun(u, v, task);
      EndSplit(u, w, first, second);
      steps := first + second;
    }
  }

  lemma {:induction false} LeastZero(dep: int -> int, task: int, some: nat) returns (k: nat)
    requires Chain(dep, task, some) == 0
    ensures Chain(dep, task, k) == 0 && forall m: nat | m < k :: Chain(dep, task, m) != 0
  {
    if m: nat :| m < some && Chain(dep, task, m) == 0 {
      k := LeastZero(dep, task, m);
    } else {
      k := some;
    }
  }

  /** Make the chain live and run it from its far end. */
  lemma DependencyCanSucceed(u: Setup, task: int, k: nat) returns (steps: seq<Step>)
    requires Chain(u.dep, task, k) == 0 && forall m: nat | m < k :: Chain(u.dep, task, m) != 0
    requires task != 0 && u.dep(task) != 0
    ensures Legal(u, START, steps)
    ensures var w := End(u, START, steps);
            && w.pending == map[] && u.dep(task) in w.live
            && w.logs != [] && w.logs[|w.logs| - 1] == TaskLog(u.dep(task), false, true, 0)
  {
    var d, all := u.dep(task), set m | 0 <= m < k :: Chain(u.dep, task, m);
    assert Chain(u.dep, task, 1) == d;
    OneStep(u, START, SetLive(all));
    var v := Next(u, START, SetLive(all));
    forall m: nat | m < k - 1 ensures Chain(u.dep, d, m) != 0 && Chain(u.dep, d, m) in all {
      assert Chain(u.dep, task, m + 1) == Chain(u.dep, d, m);
    }
    assert Chain(u.dep, d, 0) == d;
    var rest := ChainCanSucceed(u, v, d, k - 1);
    EndSplit(u, START, [SetLive(all)], rest);
    steps := [SetLive(all)] + rest;
  }

  /** Then the gate opens for the task itself. */
  lemma ChainCanBeAdmitted(u: Setup, task: int, k: nat) returns (steps: seq<Step>)
    requires Chain(u.dep, task, k) == 0 && forall m: nat | m < k :: Chain(u.dep, task, m) != 0
    requires task != 0
    ensures Legal(u, START, steps) && Admitted(End(u, START, steps), 0, task)
  {
    if u.dep(task) == 0 {
      steps := CanBeAdmitted(u, START, 0, task);
    } else {
      var first := DependencyCanSucceed(u, task, k);
      var w := End(u, START, first);
      AdmittedAfter(u, task, k, w.live, w.logs);
      var second := CanBeAdmitted(u, w, 0, task);
      EndSplit(u, START, first, second);
      steps := first + second;
    }
  }

  /** Some run of the system from `w` admits a run of the task. */
  ghost predicate Runnable(u: Setup, w: World, task: int) {
    exists steps :: Legal(u, w, steps) && SomeAdmitted(End(u, w, steps), task)
  }

  lemma RunnableBy(u: Setup, w: World, steps: seq<Step>, run: int, task: int)
    requires Legal(u, w, steps) && Admitted(End(u, w, steps), run, task)
    ensures Runnable(u, w, task)
  {
  }

  /** With local runs only, a task can be admitted in some run of the system exactly when its
      dependency chain ends. */
  lemma RunnableIff(u: Setup, task: int)
    requires task != 0 && u.remote == {} && u.dep(0) == 0
    ensures Runnable(u, START, task) <==> exists k: nat :: Chain(u.dep, task, k) == 0
  {
    if some: nat :| Chain(u.dep, task, some) == 0 {
      var k := LeastZero(u.dep, task, some);
      var steps := ChainCanBeAdmitted(u, task, k);
      RunnableBy(u, START, steps, 0, task);
    } else {
      forall steps | Legal(u, START, steps) ensures !SomeAdmitted(End(u, START, steps), task) {
        if run :| Admitted(End(u, START, steps), run, task) {
          EndlessNeverAdmitted(u, steps, run, task);
        }
      }
    }
  }

  // ---------------------------------------------------------------- and acyclic tables

  /** A chain that comes back to a task it has left is a cycle. */
  lemma RepeatIsCycle(dep: int -> int, task: int, i: nat, j: nat)
    requires i < j && Chain(dep, task, i) == Chain(dep, task, j) != 0
    ensures !Acyclic(dep)
  {
    ChainSplit(dep, task, i, j - i);
    assert Chain(dep, Chain(dep, task, i), j - i) == Chain(dep, task, i);
  }

  /** The first `n` tasks of a chain. */
  function Visited(dep: int -> int, task: int, n: nat): set<int> {
    set m | 0 <= m < n :: Chain(dep, task, m)
  }

  /** Without a cycle and without an end they are different. */
  lemma {:induction false} VisitedCount(dep: int -> int, task: int, n: nat)
    requires Acyclic(dep) && forall m: nat | m < n :: Chain(dep, task, m) != 0
    ensures |Visited(dep, task, n)| == n
  {
    if n == 0 {
      assert Visited(dep, task, 0) == {};
    } else {
      VisitedCount(dep, task, n - 1);
      var last := Chain(dep, task, n - 1);
      assert Visited(dep, task, n) == Visited(dep, task, n - 1) + {last};
      if last in Visited(dep, task, n - 1) {
        var m: nat :| m < n - 1 && Chain(dep, task, m) == last;
        RepeatIsCycle(dep, task, m, n - 1);
        assert false;
      }
    }
  }

  lemma SubsetSize(a: set<int>, b: set<int>)
    requires a <= b
    ensures |a| <= |b|
  {
    assert b == a + (b - a);
  }

  lemma ChainNext(dep: int -> int, task: int, m: nat)
    ensures Chain(dep, task, m + 1) == dep(Chain(dep, task, m))
  {
    ChainSplit(dep, task, m, 1);
    assert Chain(dep, Chain(dep, task, m), 1) == dep(Chain(dep, task, m));
  }

  /** In an acyclic table every chain ends, for it cannot visit more tasks than there are. */
  lemma AcyclicEnds(rows: Rows, task: int)
    requires Acyclic(Dep(rows))
    ensures exists k: nat :: Chain(Dep(rows), task, k) == 0
  {
    var dep, n := Dep(rows), |rows.Keys| + 1;
    if k: nat :| k <= n && Chain(dep, task, k) == 0 {
    } else {
      forall m: nat | m < n ensures Chain(dep, task, m) in rows.Keys {
        ChainNext(dep, task, m);
        assert Chain(dep, task, m + 1) != 0;
      }
      assert Visited(dep, task, n) <= rows.Keys;
      VisitedCount(dep, task, n);
      SubsetSize(Visited(dep, task, n), rows.Keys);
      assert false;
    }
  }

  /** With local runs only, every task can be admitted in some run of the system exactly when the
      dependency table is acyclic. */
  lemma AllRunnableIff(u: Setup, rows: Rows)
    requires u.dep == Dep(rows) && u.remote == {} && 0 !in rows
    ensures (forall task | task != 0 :: Runnable(u, START, task)) <==> Acyclic(Dep(rows))
  {
    if Acyclic(Dep(rows)) {
      forall task | task != 0 ensures Runnable(u, START, task) {
        AcyclicEnds(rows, task);
        RunnableIff(u, task);
      }
    } else {
      var task, k :| task != 0 && 0 < k && Chain(Dep(rows), task, k) == task;
      forall m: nat ensures Chain(u.dep, task, m) != 0 {
        AroundTheCycle(u.dep, task, k, m);
      }
      RunnableIff(u, task);
      assert !Runnable(u, START, task);
    }
  }
}
