/** One run of a task (task/handler.go, task/taskRunning.go): gate, attempts with retry and back-off,
    and the closing of its log row.  A process launch is reduced to what the code can observe of it. */
module JobRun {
  import opened TaskStore
  import opened DependencyGate

  newtype int8 = x: int | -128 <= x < 128

  /** Two's-complement truncation to 8 and to 64 bits. */
  function Wrap8(x: int): int8 {
    ((x + 128) % 256 - 128) as int8
  }

  function Wrap64(x: int): int {
    (x + 0x8000_0000_0000_0000) % 0x1_0000_0000_0000_0000 - 0x8000_0000_0000_0000
  }

  /** What the operating system and the assertion script answer. */
  datatype Attempt =
    | StartFails
    | WaitFails(timedOut: bool)
    | Exits(output: string, verdict: bool)

  datatype ExecStat = ExecStat(started: bool, startFailed: bool, waited: bool, waitFailed: bool,
                               output: string, assertResult: bool, taskResult: bool)

  const NEW_STAT := ExecStat(false, false, false, false, "", false, false)

  /** An attempt succeeds when the process starts, exits cleanly and passes the assertion, if any. */
  predicate Succeeds(a: Attempt, asserted: bool) {
    a.Exits? && (asserted ==> a.verdict)
  }

  /** The record one attempt leaves behind. */
  function StatOf(a: Attempt, asserted: bool): ExecStat {
    match a
    case StartFails => ExecStat(true, true, false, false, "", false, false)
    case WaitFails(_) => ExecStat(true, false, true, true, "", false, false)
    case Exits(output, verdict) =>
      ExecStat(true, false, true, false, output, Succeeds(a, asserted), Succeeds(a, asserted))
  }

  function Stats(script: nat -> Attempt, asserted: bool, n: nat): (r: seq<ExecStat>)
    ensures |r| == n
  {
    seq(n, j requires 0 <= j => StatOf(script(j), asserted))
  }

  // ---------------------------------------------------------------- what a run pushes

  /** The `exec_output` of a push: nothing, the fixed text of a manual run, or the generated log. */
  datatype Output = Empty | Called | LogOf(attempts: seq<ExecStat>)

  /** The part of `subscription.TaskLogInfo` that a run determines. */
  datatype Info = Info(log: int, task: int, status: bool, output: Output)

  /** `SendNewTaskLogFormOrm` and `SendTaskLogInfoFormOrm`. */
  datatype Push = NewTaskLog(info: Info) | TaskLogInfo(info: Info)

  /** One attempt pushes twice once its process runs, with the attempts so far. */
  function AttemptPushes(log: int, task: int, before: seq<ExecStat>, a: Attempt): seq<Push> {
    if a.StartFails? then []
    else
      var push := TaskLogInfo(Info(log, task, true, LogOf(before + [NEW_STAT.(started := true)])));
      [push, push]
  }

  /** What the first `n` attempts push, in order. */
  function Pushes(log: int, task: int, script: nat -> Attempt, asserted: bool, n: nat): seq<Push> {
    if n == 0 then []
    else
      Pushes(log, task, script, asserted, n - 1) +
      AttemptPushes(log, task, Stats(script, asserted, n - 1), script(n - 1))
  }

  /** The last push of a run. */
  function Final(log: int, task: int, attempts: seq<ExecStat>): Push {
    TaskLogInfo(Info(log, task, false, LogOf(attempts)))
  }

  class RunningInstance {
    const taskInfo: Task
    var logRow: nat
    var logInfo: TaskLog
    var execResultList: seq<ExecStat>
    /** Everything this run has handed to the WebSocket manager. */
    var pushed: seq<Push>

    constructor (taskInfo: Task)
      ensures this.taskInfo == taskInfo && execResultList == [] && pushed == []
    {
      this.taskInfo := taskInfo;
      logRow, logInfo, execResultList, pushed := 0, TaskLog(0, false, false, 0), [], [];
    }

    /** What a push says: the log row as it is, its id being its position plus one. */
    function InfoWith(output: Output): Info
      reads this`logRow, this`logInfo
    {
      Info(logRow + 1, logInfo.taskId, logInfo.status, output)
    }

    /** Overwrites the record of the current attempt, which the list already holds. */
    method Record(stat: ExecStat)
      requires execResultList != []
      modifies this`execResultList
      ensures execResultList == old(execResultList)[..|old(execResultList)| - 1] + [stat]
    {
      execResultList := execResultList[..|execResultList| - 1] + [stat];
    }

    /** `run`: one attempt. */
    method Run(a: Attempt) returns (failed: bool)
      modifies this`execResultList, this`logInfo, this`pushed
      ensures execResultList == old(execResultList) + [StatOf(a, taskInfo.assertion != "")]
      ensures pushed == old(pushed) + AttemptPushes(logRow + 1, logInfo.taskId, old(execResultList), a)
      ensures logInfo == if a.StartFails? then old(logInfo) else old(logInfo).(status := true)
      ensures failed <==> !(a.Exits? && (taskInfo.assertion == "" || a.verdict))
    {
      var stat := NEW_STAT;
      execResultList := execResultList + [stat];
      stat := stat.(started := true);
      Record(stat);
      if a.StartFails? {
        Record(stat.(startFailed := true));
        return true;
      }
      logInfo := logInfo.(status := true);
      pushed := pushed + [TaskLogInfo(InfoWith(LogOf(execResultList)))];
      pushed := pushed + [TaskLogInfo(InfoWith(LogOf(execResultList)))];
      stat := stat.(waited := true);
      Record(stat);
      if a.WaitFails? {
        Record(stat.(waitFailed := true));
        return true;
      }
      stat := stat.(output := a.output);
      Record(stat);
      if 0 < |taskInfo.assertion| {
        if !a.verdict {
          return true;
        }
      }
      stat := stat.(assertResult := true);
      stat := stat.(taskResult := true);
      Record(stat);
      return false;
    }

    /** `beforeRun`: open a running row, or record the skipped run. */
    method BeforeRun(db: Database) returns (verdict: Verdict)
      modifies this`logRow, this`logInfo, db`logs
      ensures verdict == Validate(taskInfo.id, taskInfo.dependsOn, db.rows.Keys, old(db.logs))
      ensures db.logs == old(db.logs) + [Opening(verdict, taskInfo.id)]
      ensures logRow == |old(db.logs)| && logInfo == Opening(verdict, taskInfo.id)
    {
      verdict := Validate(taskInfo.id, taskInfo.dependsOn, db.rows.Keys, db.logs);
      logRow := |db.logs|;
      if verdict != Admit {
        logInfo := TaskLog(taskInfo.id, false, false, 0);
      } else {
        logInfo := TaskLog(taskInfo.id, true, false, 0);
      }
      db.logs := db.logs + [logInfo];
    }

    /** `afterRun`: the last attempt decides; the whole row is saved and pushed. */
    method AfterRun(db: Database)
      requires logRow < |db.logs|
      modifies this`logInfo, this`pushed, db`logs
      ensures var n := |execResultList|;
              logInfo == if n == 0 then old(logInfo).(status := false)
                         else Closing(old(logInfo), execResultList[n - 1].taskResult, Wrap8(n - 1) as int)
      ensures db.logs == old(db.logs)[logRow := logInfo]
      ensures pushed == old(pushed) + [Final(logRow + 1, logInfo.taskId, execResultList)]
    {
      logInfo := logInfo.(status := false);
      var resultLen := |execResultList|;
      if resultLen > 0 {
        var lastResult := execResultList[resultLen - 1];
        logInfo := logInfo.(execResult := lastResult.taskResult);
        logInfo := logInfo.(retryTimes := Wrap8(resultLen - 1) as int);
      }
      db.logs := db.logs[logRow := logInfo];
      pushed := pushed + [TaskLogInfo(InfoWith(LogOf(execResultList)))];
    }

    /** `getLastExecOutput`. */
    method GetLastExecOutput() returns (output: string)
      ensures output == if execResultList == [] then "" else execResultList[|execResultList| - 1].output
    {
      var resultLen := |execResultList|;
      if resultLen > 0 {
        return execResultList[resultLen - 1].output;
      }
      return "";
    }
  }

  // ---------------------------------------------------------------- retry and back-off

  /** The number of attempts allowed, computed in 8-bit arithmetic. */
  function ExecTimes(retryTimes: int8): int8 {
    if 0 < retryTimes then Wrap8(1 + retryTimes as int) else 1
  }

  /** How many attempts a script gets: at least one, none after a success, none above the limit; a
      limit that has wrapped to a negative number allows none. */
  ghost predicate Attempts(script: nat -> Attempt, asserted: bool, limit: int8, n: nat) {
    if limit <= 0 then n == 0
    else
      && 1 <= n <= limit as int
      && (forall j: nat | j < n - 1 :: !Succeeds(script(j), asserted))
      && (n < limit as int ==> Succeeds(script(n - 1), asserted))
  }

  /** `time.Sleep` of a 64-bit count of nanoseconds; a negative count returns at once. */
  function Sleep(nanoseconds: int): nat {
    if Wrap64(nanoseconds) < 0 then 0 else Wrap64(nanoseconds)
  }


  const SECOND := 1_000_000_000
  const MINUTE := 60 * SECOND

  /** The pause after the `i`-th failure. */
  function Pause(retryInterval: int, i: int): nat {
    if 0 < retryInterval then Sleep(retryInterval * SECOND) else Sleep(i * MINUTE)
  }

  /** All pauses after `k` failures. */
  function Backoff(retryInterval: int, k: nat): nat {
    if k == 0 then 0 else Backoff(retryInterval, k - 1) + Pause(retryInterval, k)
  }

  predicate Fits8(x: int) {
    -128 <= x < 128
  }

  ghost predicate SomeSuccess(script: nat -> Attempt, asserted: bool, n: nat) {
    exists j: nat | j < n :: Succeeds(script(j), asserted)
  }

  /** How often a script that got `n` attempts failed. */
  function Failures(script: nat -> Attempt, asserted: bool, n: nat): nat {
    if n != 0 && Succeeds(script(n - 1), asserted) then n - 1 else n
  }

  ghost predicate AllFail(script: nat -> Attempt, asserted: bool, n: nat) {
    forall j: nat | j < n :: !Succeeds(script(j), asserted)
  }

  /** What `n` attempts leave behind: records, pushes and time slept.  `before` was pushed earlier. */
  ghost predicate Ran(log: int, task: Task, script: nat -> Attempt, n: nat, failures: nat,
                      before: seq<Push>, results: seq<ExecStat>, pushed: seq<Push>, slept: nat)
  {
    && results == Stats(script, task.assertion != "", n)
    && pushed == before + Pushes(log, task.id, script, task.assertion != "", n)
    && slept == Backoff(task.retryInterval, failures)
  }

  /** One more attempt, and the pause if it fails. */
  lemma OneMoreAttempt(log: int, task: Task, script: nat -> Attempt, n: nat,
                       before: seq<Push>, results: seq<ExecStat>, pushed: seq<Push>, slept: nat)
    requires Ran(log, task, script, n, n, before, results, pushed, slept)
    ensures var asserted := task.assertion != "";
            var results' := results + [StatOf(script(n), asserted)];
            var pushed' := pushed + AttemptPushes(log, task.id, results, script(n));
            && Ran(log, task, script, n + 1, n, before, results', pushed', slept)
            && Ran(log, task, script, n + 1, n + 1, before, results', pushed', slept + Pause(task.retryInterval, n + 1))
  {
    var asserted := task.assertion != "";
    var done, more := Pushes(log, task.id, script, asserted, n), AttemptPushes(log, task.id, results, script(n));
    assert Pushes(log, task.id, script, asserted, n + 1) == done + more;
    assert (before + done) + more == before + (done + more);
  }

  /** The two ways out of the loop. */
  lemma LoopEnds(script: nat -> Attempt, asserted: bool, limit: int8, i: nat)
    requires AllFail(script, asserted, i) && i <= 127
    ensures i < limit as int && Succeeds(script(i), asserted) ==>
              Attempts(script, asserted, limit, i + 1) && Failures(script, asserted, i + 1) == i
    ensures (i == limit as int || (i == 0 && limit <= 0)) ==>
              Attempts(script, asserted, limit, i) && Failures(script, asserted, i) == i
  {
  }

  /** One round of the loop: attempt `i`, counted from 0, and the pause if it fails. */
  method Round(run: RunningInstance, task: Task, script: nat -> Attempt, i: nat, sleptBefore: nat,
               ghost before: seq<Push>)
    returns (failed: bool, slept: nat)
    requires run.taskInfo == task && run.logInfo.taskId == task.id
    requires Ran(run.logRow + 1, task, script, i, i, before, run.execResultList, run.pushed, sleptBefore)
    modifies run`execResultList, run`pushed, run`logInfo
    ensures failed <==> !Succeeds(script(i), task.assertion != "")
    ensures Ran(run.logRow + 1, task, script, i + 1, if failed then i + 1 else i,
                before, run.execResultList, run.pushed, slept)
    ensures run.logInfo.(status := true) == old(run.logInfo).(status := true)
  {
    OneMoreAttempt(run.logRow + 1, task, script, i, before, run.execResultList, run.pushed, sleptBefore);
    slept := sleptBefore;
    failed := run.Run(script(i));
    if failed {
      if task.retryInterval > 0 {
        slept := slept + Sleep(task.retryInterval * SECOND);
      } else {
        slept := slept + Sleep((i + 1) * MINUTE);
      }
    }
  }

  /** The loop of `ExecJobWrapper.Run`. */
  method TryUpTo(run: RunningInstance, task: Task, script: nat -> Attempt, execTimes: int8) returns (slept: nat)
    requires run.taskInfo == task && run.logInfo.taskId == task.id && run.execResultList == []
    modifies run`execResultList, run`pushed, run`logInfo
    ensures var n, asserted := |run.execResultList|, task.assertion != "";
            && Attempts(script, asserted, execTimes, n)
            && Ran(run.logRow + 1, task, script, n, Failures(script, asserted, n),
                   old(run.pushed), run.execResultList, run.pushed, slept)
    ensures run.logInfo.(status := true) == old(run.logInfo).(status := true)
  {
    slept := 0;
    ghost var asserted, log, before := task.assertion != "", run.logRow + 1, run.pushed;
    var i: int8 := 0;
    while i < execTimes
      invariant 0 <= i && (i <= execTimes || i == 0)
      invariant AllFail(script, asserted, i as int)
      invariant Ran(log, task, script, i as int, i as int, before, run.execResultList, run.pushed, slept)
      invariant run.logInfo.(status := true) == old(run.logInfo).(status := true)
    {
      LoopEnds(script, asserted, execTimes, i as int);
      var failed;
      failed, slept := Round(run, task, script, i as int, slept, before);
      if !failed {
        return;
      }
      i := i + 1;
    }
    LoopEnds(script, asserted, execTimes, i as int);
  }

  /** The number of attempts, and the loop. */
  method RetryLoop(run: RunningInstance, task: Task, script: nat -> Attempt) returns (slept: nat)
    requires Fits8(task.retryTimes) && run.taskInfo == task && run.logInfo.taskId == task.id
    requires run.execResultList == []
    modifies run`execResultList, run`pushed, run`logInfo
    ensures var n, asserted := |run.execResultList|, task.assertion != "";
            && Attempts(script, asserted, ExecTimes(task.retryTimes as int8), n)
            && Ran(run.logRow + 1, task, script, n, Failures(script, asserted, n),
                   old(run.pushed), run.execResultList, run.pushed, slept)
    ensures run.logInfo.(status := true) == old(run.logInfo).(status := true)
  {
    var execTimes: int8 := 1;
    if task.retryTimes > 0 {
      execTimes := Wrap8(execTimes as int + task.retryTimes);
    }
    slept := TryUpTo(run, task, script, execTimes);
  }

  /** Everything an admitted cron run of `n` attempts pushes. */
  function CronPushes(log: int, task: int, script: nat -> Attempt, asserted: bool, n: nat): seq<Push> {
    [NewTaskLog(Info(log, task, true, Empty))] + Pushes(log, task, script, asserted, n) +
    [Final(log, task, Stats(script, asserted, n))]
  }

  /** A finished run: some number of attempts as the retry budget allows, their records, everything
      pushed, the closed row, and the time slept. */
  ghost predicate Finished(log: int, task: Task, script: nat -> Attempt,
                           results: seq<ExecStat>, pushed: seq<Push>, row: TaskLog, slept: nat)
  {
    var n, asserted := |results|, task.assertion != "";
    && Fits8(task.retryTimes) && Attempts(script, asserted, ExecTimes(task.retryTimes as int8), n)
    && results == Stats(script, asserted, n)
    && pushed == CronPushes(log, task.id, script, asserted, n)
    && row == TaskLog(task.id, false, SomeSuccess(script, asserted, n), if n == 0 then 0 else n - 1)
    && slept == Backoff(task.retryInterval, Failures(script, asserted, n))
  }

  /** The row `n` attempts leave, the last of them a success or not. */
  lemma ClosedRow(open: TaskLog, row: TaskLog, task: int, n: nat, success: bool)
    requires n <= 127 && open.(status := true) == TaskLog(task, true, false, 0) && (n == 0 ==> !success)
    requires row == if n == 0 then open.(status := false) else Closing(open, success, Wrap8(n - 1) as int)
    ensures row == TaskLog(task, false, success, if n == 0 then 0 else n - 1)
  {
  }

  /** The last attempt succeeded exactly when some attempt did. */
  lemma LastDecides(script: nat -> Attempt, asserted: bool, limit: int8, n: nat)
    requires Attempts(script, asserted, limit, n)
    ensures SomeSuccess(script, asserted, n) <==>
            0 < n && Stats(script, asserted, n)[n - 1].taskResult
  {
    if 0 < n && Succeeds(script(n - 1), asserted) {
      assert Stats(script, asserted, n)[n - 1].taskResult;
    }
  }

  /** The same of the records themselves. */
  lemma LastResult(script: nat -> Attempt, asserted: bool, limit: int8, results: seq<ExecStat>) returns (success: bool)
    requires Attempts(script, asserted, limit, |results|) && results == Stats(script, asserted, |results|)
    ensures success == SomeSuccess(script, asserted, |results|)
    ensures if results == [] then !success else results[|results| - 1].taskResult == success
  {
    LastDecides(script, asserted, limit, |results|);
    success := results != [] && results[|results| - 1].taskResult;
  }

  /** Everything pushed, the final push included. */
  lemma AllPushed(log: int, task: int, script: nat -> Attempt, asserted: bool, n: nat,
                  results: seq<ExecStat>, pushed: seq<Push>)
    requires results == Stats(script, asserted, n)
    requires pushed == [NewTaskLog(Info(log, task, true, Empty))] + Pushes(log, task, script, asserted, n)
    ensures pushed + [Final(log, task, results)] == CronPushes(log, task, script, asserted, n)
  {
  }

  /** Between zero and 126 retries the loop makes one to `retries + 1` attempts; at 127 the sum wraps
      and the task is never attempted, though it is admitted and its row closed as failed. */
  lemma RetryBudget(retryTimes: int8, script: nat -> Attempt, asserted: bool, n: nat)
    requires Attempts(script, asserted, ExecTimes(retryTimes), n)
    ensures n == 0 <==> retryTimes == 127
    ensures 0 <= retryTimes < 127 ==> n <= retryTimes as int + 1
    ensures retryTimes < 0 ==> n == 1
    ensures n <= 127
  {
  }

  lemma Closed(log: int, task: Task, script: nat -> Attempt, results: seq<ExecStat>, pushed: seq<Push>,
               open: TaskLog, row: TaskLog, slept: nat)
    requires Fits8(task.retryTimes)
    requires Attempts(script, task.assertion != "", ExecTimes(task.retryTimes as int8), |results|)
    requires Ran(log, task, script, |results|, Failures(script, task.assertion != "", |results|),
                 [NewTaskLog(Info(log, task.id, true, Empty))], results, pushed, slept)
    requires open.(status := true) == TaskLog(task.id, true, false, 0)
    requires row == if results == [] then open.(status := false)
                    else Closing(open, results[|results| - 1].taskResult, Wrap8(|results| - 1) as int)
    ensures Finished(log, task, script, results, pushed + [Final(log, task.id, results)], row, slept)
  {
    var n, asserted, limit := |results|, task.assertion != "", ExecTimes(task.retryTimes as int8);
    RetryBudget(task.retryTimes as int8, script, asserted, n);
    var success := LastResult(script, asserted, limit, results);
    ClosedRow(open, row, task.id, n, success);
    AllPushed(log, task.id, script, asserted, n, results, pushed);
  }

  /** The deferred closing of a run whose attempts are over. */
  method CloseRun(run: RunningInstance, db: Database, task: Task, script: nat -> Attempt, ghost slept: nat)
    requires Fits8(task.retryTimes) && run.taskInfo == task && run.logRow < |db.logs|
    requires run.logInfo.(status := true) == TaskLog(task.id, true, false, 0)
    requires var n, asserted := |run.execResultList|, task.assertion != "";
             && Attempts(script, asserted, ExecTimes(task.retryTimes as int8), n)
             && Ran(run.logRow + 1, task, script, n, Failures(script, asserted, n),
                    [NewTaskLog(Info(run.logRow + 1, task.id, true, Empty))], run.execResultList, run.pushed, slept)
    modifies run`pushed, run`logInfo, db`logs
    ensures db.logs == old(db.logs)[run.logRow := run.logInfo]
    ensures Finished(run.logRow + 1, task, script, run.execResultList, run.pushed, run.logInfo, slept)
  {
    ghost var open, pushed := run.logInfo, run.pushed;
    run.AfterRun(db);
    Closed(run.logRow + 1, task, script, run.execResultList, pushed, open, run.logInfo, slept);
  }

  /** The admitted part of `ExecJobWrapper.Run`: announcement, attempts, and the deferred closing. */
  method RunAdmitted(run: RunningInstance, db: Database, task: Task, script: nat -> Attempt) returns (slept: nat)
    requires Fits8(task.retryTimes) && run.taskInfo == task && run.execResultList == [] && run.pushed == []
    requires run.logRow < |db.logs| && run.logInfo == TaskLog(task.id, true, false, 0)
    modifies run`execResultList, run`pushed, run`logInfo, db`logs
    ensures db.logs == old(db.logs)[run.logRow := run.logInfo]
    ensures Finished(run.logRow + 1, task, script, run.execResultList, run.pushed, run.logInfo, slept)
  {
    run.pushed := run.pushed + [NewTaskLog(run.InfoWith(Empty))];
    slept := RetryLoop(run, task, script);
    CloseRun(run, db, task, script, slept);
  }

  /** `ExecJobWrapper.Run`, when nothing else writes this run's row meanwhile. */
  method ExecJob(db: Database, task: Task, script: nat -> Attempt)
    returns (run: RunningInstance, verdict: Verdict, slept: nat)
    requires Fits8(task.retryTimes)
    modifies db`logs
    ensures fresh(run) && verdict == Validate(task.id, task.dependsOn, db.rows.Keys, old(db.logs))
    ensures db.logs == old(db.logs) + [run.logInfo]
    ensures verdict != Admit ==>
              && run.logInfo == TaskLog(task.id, false, false, 0) && run.execResultList == []
              && run.pushed == [] && slept == 0
    ensures verdict == Admit ==>
              Finished(|old(db.logs)| + 1, task, script, run.execResultList, run.pushed, run.logInfo, slept)
  {
    run := new RunningInstance(task);
    slept := 0;
    verdict := run.BeforeRun(db);
    if verdict == Admit {
      slept := RunAdmitted(run, db, task, script);
    }
    assert db.logs == old(db.logs) + [run.logInfo];
  }

  /** What an admitted manual run pushes: a fixed text, its attempt, and the final state; no
      announcement. */
  function ManualPushes(log: int, task: int, a: Attempt, asserted: bool): seq<Push> {
    [TaskLogInfo(Info(log, task, true, Called))] + AttemptPushes(log, task, [], a) +
    [Final(log, task, [StatOf(a, asserted)])]
  }

  /** The admitted part of `StartOnceTask`: one attempt, no retry. */
  method RunOnce(run: RunningInstance, db: Database, a: Attempt) returns (failed: bool, output: string)
    requires run.execResultList == [] && run.pushed == []
    requires run.logRow < |db.logs| && run.logInfo == TaskLog(run.taskInfo.id, true, false, 0)
    modifies run`execResultList, run`pushed, run`logInfo, db`logs
    ensures var task, asserted := run.taskInfo, run.taskInfo.assertion != "";
            && db.logs == old(db.logs)[run.logRow := TaskLog(task.id, false, !failed, 0)]
            && (failed <==> !(a.Exits? && (asserted ==> a.verdict)))
            && output == (if a.Exits? then a.output else "")
            && run.pushed == ManualPushes(run.logRow + 1, task.id, a, asserted)
  {
    run.pushed := run.pushed + [TaskLogInfo(run.InfoWith(Called))];
    failed := run.Run(a);
    assert run.execResultList == [StatOf(a, run.taskInfo.assertion != "")];
    output := run.GetLastExecOutput();
    run.AfterRun(db);
  }

  /** `StartOnceTask`. */
  method StartOnce(db: Database, taskId: int, a: Attempt)
    returns (found: bool, verdict: Verdict, failed: bool, output: string, ghost pushed: seq<Push>)
    modifies db`logs
    ensures found <==> taskId in db.rows
    ensures !found ==> db.logs == old(db.logs) && pushed == [] && failed && output == ""
    ensures found ==>
      var task, log := db.rows[taskId], |old(db.logs)| + 1;
      && verdict == Validate(task.id, task.dependsOn, db.rows.Keys, old(db.logs))
      && db.logs == old(db.logs) + [TaskLog(task.id, false, !failed, 0)]
      && (!failed <==> verdict == Admit && a.Exits? && (task.assertion == "" || a.verdict))
      && output == (if verdict == Admit && a.Exits? then a.output else "")
      && pushed == if verdict == Admit then ManualPushes(log, task.id, a, task.assertion != "") else []
  {
    verdict, failed, output, pushed := Admit, true, "", [];
    found := taskId in db.rows;
    if found {
      var run := new RunningInstance(db.rows[taskId]);
      verdict := run.BeforeRun(db);
      if verdict == Admit {
        failed, output := RunOnce(run, db, a);
        pushed := run.pushed;
      }
    }
  }

  // ---------------------------------------------------------------- what that amounts to

  lemma Fits64(x: int)
    ensures Wrap64(x) == x <==> -0x8000_0000_0000_0000 <= x < 0x8000_0000_0000_0000
    ensures -0x8000_0000_0000_0000 <= Wrap64(x) < 0x8000_0000_0000_0000
  {
  }

  function Triangle(k: nat): nat {
    if k == 0 then 0 else Triangle(k - 1) + k
  }

  lemma {:induction false} TriangleIs(k: nat)
    ensures 2 * Triangle(k) == k * (k + 1)
  {
    if 0 < k {
      TriangleIs(k - 1);
    }
  }

  lemma Distribute(a: int, b: int, c: int)
    ensures (a + b) * c == a * c + b * c
  {
  }

  lemma PauseIs(retryInterval: int, k: nat)
    requires retryInterval <= 0 && k <= 127
    ensures Pause(retryInterval, k) == k * MINUTE
  {
    Fits64(k * MINUTE);
  }

  lemma {:induction false} BackoffIsTriangle(retryInterval: int, k: nat)
    requires retryInterval <= 0 && k <= 127
    ensures Backoff(retryInterval, k) == Triangle(k) * MINUTE
  {
    if 0 < k {
      BackoffIsTriangle(retryInterval, k - 1);
      PauseIs(retryInterval, k);
      Distribute(Triangle(k - 1), k, MINUTE);
    }
  }

  /** Without an interval, `k` failures cost `k(k+1)/2` minutes, the pause after the last one
      included. */
  lemma DefaultBackoff(retryInterval: int, k: nat)
    requires retryInterval <= 0 && k <= 127
    ensures Backoff(retryInterval, k) == (k * (k + 1) / 2) * MINUTE
  {
    BackoffIsTriangle(retryInterval, k);
    TriangleIs(k);
  }

  lemma MulStrict(k: nat, x: int, y: int)
    requires 0 < k && x < y
    ensures k * x < k * y
  {
  }

  lemma {:induction false} EqualPauses(retryInterval: int, k: nat)
    requires 0 < retryInterval
    ensures Backoff(retryInterval, k) == k * Pause(retryInterval, 1)
  {
    if 0 < k {
      EqualPauses(retryInterval, k - 1);
      assert Pause(retryInterval, k) == Pause(retryInterval, 1);
      assert k * Pause(retryInterval, 1) == (k - 1) * Pause(retryInterval, 1) + Pause(retryInterval, 1);
    }
  }

  /** With an interval, `k` failures cost exactly `k` intervals, as long as one interval fits the
      64-bit nanosecond count; above that the product wraps and they never do. */
  lemma {:induction false} IntervalBackoff(retryInterval: int, k: nat)
    requires 0 < retryInterval && 0 < k
    ensures Backoff(retryInterval, k) == k * (retryInterval * SECOND) <==> retryInterval <= 9_223_372_036
  {
    EqualPauses(retryInterval, k);
    Fits64(retryInterval * SECOND);
    var pause, whole := Pause(retryInterval, 1), retryInterval * SECOND;
    assert Pause(retryInterval, k) == pause;
    if pause != whole {
      assert k * pause != k * whole by {
        if pause < whole { MulStrict(k, pause, whole); } else { MulStrict(k, whole, pause); }
      }
    }
  }

  /** A finished run in plain terms.  An attempt is won when its process exits cleanly and there is no
      assertion or it holds; every attempt but the last was lost; the run stops early only after a won
      one; and its row says whether there was one, and how often it was retried. */
  lemma RunMeans(log: int, task: Task, script: nat -> Attempt, results: seq<ExecStat>, pushed: seq<Push>,
                 row: TaskLog, slept: nat)
    requires Finished(log, task, script, results, pushed, row, slept)
    ensures row.taskId == task.id && !row.status && row.retryTimes == if results == [] then 0 else |results| - 1
    ensures row.execResult <==>
            exists j: nat | j < |results| :: script(j).Exits? && (task.assertion == "" || script(j).verdict)
    ensures forall j: nat | j < |results| - 1 :: !(script(j).Exits? && (task.assertion == "" || script(j).verdict))
    ensures 0 <= task.retryTimes < 127 ==>
              1 <= |results| <= task.retryTimes + 1 && (|results| <= task.retryTimes ==> row.execResult)
    ensures task.retryTimes == 127 ==> results == []
    ensures task.retryTimes < 0 ==> |results| == 1
  {
    var asserted := task.assertion != "";
    RetryBudget(task.retryTimes as int8, script, asserted, |results|);
    if j: nat :| j < |results| && script(j).Exits? && (task.assertion == "" || script(j).verdict) {
      assert Succeeds(script(j), asserted);
    }
  }

  /** Its records: what happened in each attempt. */
  lemma RecordsMean(log: int, task: Task, script: nat -> Attempt, results: seq<ExecStat>, pushed: seq<Push>,
                    row: TaskLog, slept: nat, j: nat)
    requires Finished(log, task, script, results, pushed, row, slept) && j < |results|
    ensures var a, r := script(j), results[j];
            && r.started && (r.startFailed <==> a.StartFails?) && (r.waited <==> !a.StartFails?)
            && (r.waitFailed <==> a.WaitFails?) && r.output == (if a.Exits? then a.output else "")
            && (r.taskResult <==> a.Exits? && (task.assertion == "" || a.verdict)) && r.assertResult == r.taskResult
  {
  }

  /** The back-off of `k` lost attempts, in nanoseconds. */
  lemma BackoffMeans(retryInterval: int, k: nat)
    requires k <= 127
    ensures retryInterval <= 0 ==> Backoff(retryInterval, k) == (k * (k + 1) / 2) * 60_000_000_000
    ensures 0 < retryInterval <= 9_223_372_036 ==> Backoff(retryInterval, k) == k * (retryInterval * 1_000_000_000)
  {
    if retryInterval <= 0 {
      DefaultBackoff(retryInterval, k);
    } else if 0 < k {
      IntervalBackoff(retryInterval, k);
    }
  }

  lemma LostMeans(script: nat -> Attempt, asserted: bool, limit: int8, n: nat)
    requires Attempts(script, asserted, limit, n)
    ensures Failures(script, asserted, n) == if SomeSuccess(script, asserted, n) then n - 1 else n
  {
    if 0 < n && Succeeds(script(n - 1), asserted) {
      assert SomeSuccess(script, asserted, n);
    }
  }

  /** The time it slept, in nanoseconds, after every lost attempt, the last one included. */
  lemma SleptMeans(log: int, task: Task, script: nat -> Attempt, results: seq<ExecStat>, pushed: seq<Push>,
                   row: TaskLog, slept: nat)
    requires Finished(log, task, script, results, pushed, row, slept)
    ensures var lost := if row.execResult then |results| - 1 else |results|;
            && (task.retryInterval <= 0 ==> slept == (lost * (lost + 1) / 2) * 60_000_000_000)
            && (0 < task.retryInterval <= 9_223_372_036 ==> slept == lost * (task.retryInterval * 1_000_000_000))
  {
    var asserted, limit := task.assertion != "", ExecTimes(task.retryTimes as int8);
    RetryBudget(task.retryTimes as int8, script, asserted, |results|);
    LostMeans(script, asserted, limit, |results|);
    var lost := Failures(script, asserted, |results|);
    assert lost == (if row.execResult then |results| - 1 else |results|) && slept == Backoff(task.retryInterval, lost);
    BackoffMeans(task.retryInterval, lost);
  }

  /** A manual run pushes a fixed text, its attempt twice if the process started, and the end. */
  lemma ManualMeans(log: int, task: int, a: Attempt, asserted: bool)
    ensures var pushes := ManualPushes(log, task, a, asserted);
            && |pushes| == (if a.StartFails? then 2 else 4)
            && pushes[0] == TaskLogInfo(Info(log, task, true, Called))
            && pushes[|pushes| - 1] == TaskLogInfo(Info(log, task, false, LogOf([StatOf(a, asserted)])))
            && var running := ExecStat(true, false, false, false, "", false, false);
               forall i | 1 <= i < |pushes| - 1 ::
                 pushes[i] == TaskLogInfo(Info(log, task, true, LogOf([running])))
  {
    var running := ExecStat(true, false, false, false, "", false, false);
    assert [] + [running] == [running];
  }

  /** The attempts whose process started. */
  function Started(script: nat -> Attempt, n: nat): set<nat> {
    set j: nat | j < n && !script(j).StartFails?
  }

  lemma {:induction false} PushCount(log: int, task: int, script: nat -> Attempt, asserted: bool, n: nat)
    ensures |Pushes(log, task, script, asserted, n)| == 2 * |Started(script, n)|
  {
    if n == 0 {
      assert Started(script, 0) == {};
    } else {
      PushCount(log, task, script, asserted, n - 1);
      assert Started(script, n) == Started(script, n - 1) + if script(n - 1).StartFails? then {} else {n - 1};
    }
  }

  /** Every push of an attempt says that the run is on, with the records of the attempts before and the
      present one just started. */
  lemma {:induction false} PushesMean(log: int, task: int, script: nat -> Attempt, asserted: bool, n: nat, i: nat)
    returns (k: nat)
    requires i < |Pushes(log, task, script, asserted, n)|
    ensures k < n && !script(k).StartFails?
    ensures Pushes(log, task, script, asserted, n)[i] ==
            var running := ExecStat(true, false, false, false, "", false, false);
            TaskLogInfo(Info(log, task, true, LogOf(Stats(script, asserted, k) + [running])))
  {
    if i < |Pushes(log, task, script, asserted, n - 1)| {
      k := PushesMean(log, task, script, asserted, n - 1, i);
    } else {
      k := n - 1;
    }
  }
}
