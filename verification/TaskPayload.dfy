/** The check every task mutation goes through (web/controller/task.go, `validateTaskMutationPayload`). */
module TaskPayload {
  import opened TaskStore

  datatype Payload = Payload(
    name: string, description: string, execType: string, command: string, schedule: string,
    isDisable: bool, priority: int, tags: string, execStrategy: int, retryTimes: int, retryInterval: int,
    timeout: int, dependsOn: int, assertion: string, resultHandler: string, nodeId: int)

  /** The cron parser and the script compiler, as the answers they give. */
  datatype Parsers = Parsers(schedule: string -> bool, script: string -> bool)

  datatype Problem =
    | NameRequired | NameTooLong | CommandRequired | BadExecType | BadPriority | BadRetryTimes
    | BadRetryInterval | BadTimeout | NegativeDependency | SelfDependency | UnknownDependency
    | BadSchedule | BadAssertion | BadResultHandler

  /** Lengths are byte lengths: one `char` stands for one byte. */
  function Validate(parsers: Parsers, live: set<int>, taskId: int, p: Payload): Option<Problem> {
    if |p.name| == 0 then Some(NameRequired)
    else if 255 < |p.name| then Some(NameTooLong)
    else if |p.command| == 0 then Some(CommandRequired)
    else if p.execType != "cmd" && p.execType != "http" && p.execType != "file" then Some(BadExecType)
    else if p.priority < 0 || 3 < p.priority then Some(BadPriority)
    else if p.retryTimes < 0 then Some(BadRetryTimes)
    else if p.retryInterval < 0 then Some(BadRetryInterval)
    else if p.timeout < 0 then Some(BadTimeout)
    else if p.dependsOn < 0 then Some(NegativeDependency)
    else if 0 < p.dependsOn && 0 < taskId && p.dependsOn == taskId then Some(SelfDependency)
    else if 0 < p.dependsOn && p.dependsOn !in live then Some(UnknownDependency)
    else if !parsers.schedule(p.schedule) then Some(BadSchedule)
    else if 0 < |p.assertion| && !parsers.script(p.assertion) then Some(BadAssertion)
    else if 0 < |p.resultHandler| && !parsers.script(p.resultHandler) then Some(BadResultHandler)
    else None
  }

  /** Everything but the dependency is in order. */
  predicate WellFormed(parsers: Parsers, p: Payload) {
    && 1 <= |p.name| <= 255 && p.command != ""
    && p.execType in {"cmd", "http", "file"}
    && 0 <= p.priority <= 3 && 0 <= p.retryTimes && 0 <= p.retryInterval && 0 <= p.timeout
    && parsers.schedule(p.schedule)
    && (p.assertion != "" ==> parsers.script(p.assertion))
    && (p.resultHandler != "" ==> parsers.script(p.resultHandler))
  }

  /** A payload is accepted exactly when it is well formed and depends on nothing or on a live task
      other than the one being edited. */
  lemma AcceptedIff(parsers: Parsers, live: set<int>, taskId: int, p: Payload)
    ensures Validate(parsers, live, taskId, p).None? <==>
            WellFormed(parsers, p) &&
            (p.dependsOn == 0 || (0 < p.dependsOn && p.dependsOn in live && (0 < taskId ==> p.dependsOn != taskId)))
  {
  }

  /** Which that is, field by field. */
  lemma WellFormedMeans(parsers: Parsers, p: Payload)
    ensures WellFormed(parsers, p) <==>
            && 0 < |p.name| && |p.name| <= 255 && 0 < |p.command|
            && (p.execType == "cmd" || p.execType == "http" || p.execType == "file")
            && p.priority >= 0 && p.priority <= 3
            && !(p.retryTimes < 0) && !(p.retryInterval < 0) && !(p.timeout < 0)
            && parsers.schedule(p.schedule)
            && (|p.assertion| == 0 || parsers.script(p.assertion))
            && (|p.resultHandler| == 0 || parsers.script(p.resultHandler))
  {
  }

  /** What each answer says about the dependency. */
  lemma DependencyProblems(parsers: Parsers, live: set<int>, taskId: int, p: Payload)
    requires WellFormed(parsers, p)
    ensures Validate(parsers, live, taskId, p) ==
            if p.dependsOn < 0 then Some(NegativeDependency)
            else if p.dependsOn == 0 then None
            else if p.dependsOn == taskId then Some(SelfDependency)
            else if p.dependsOn in live then None
            else Some(UnknownDependency)
  {
  }

  /** So two live tasks can be edited to depend on each other: only cycles of length one are refused. */
  lemma LongerCyclesAccepted(parsers: Parsers, live: set<int>, a: int, b: int, p: Payload, q: Payload)
    requires 0 < a && 0 < b && a != b && a in live && b in live
    requires WellFormed(parsers, p) && WellFormed(parsers, q)
    ensures Validate(parsers, live, a, p.(dependsOn := b)).None? && Validate(parsers, live, b, q.(dependsOn := a)).None?
  {
    AcceptedIff(parsers, live, a, p.(dependsOn := b));
    AcceptedIff(parsers, live, b, q.(dependsOn := a));
  }

  // ---------------------------------------------------------------- when an edit closes a cycle

  /** `after` is the dependency column with the entry of `id` set to `d`. */
  ghost predicate Edited(dep: int -> int, id: int, d: int, after: int -> int) {
    forall task :: after(task) == if task == id then d else dep(task)
  }

  /** No chain from `d` reaches `id`: what an edit would have to check. */
  ghost predicate Unreachable(dep: int -> int, d: int, id: int) {
    forall k: nat :: Chain(dep, d, k) != id
  }

  /** Until a chain reaches the edited task, the edit makes no difference to it. */
  lemma {:induction false} SameChain(dep: int -> int, id: int, d: int, after: int -> int, task: int, k: nat)
    requires Edited(dep, id, d, after) && forall j: nat | j < k :: Chain(dep, task, j) != id
    ensures Chain(after, task, k) == Chain(dep, task, k)
    decreases k
  {
    if 0 < k {
      assert Chain(dep, task, 0) != id;
      forall j: nat | j < k - 1 ensures Chain(dep, dep(task), j) != id {
        assert Chain(dep, task, j + 1) == Chain(dep, dep(task), j);
      }
      SameChain(dep, id, d, after, dep(task), k - 1);
    }
  }

  /** The first time a chain reaches `id`. */
  lemma {:induction false} FirstReach(dep: int -> int, task: int, id: int, k: nat) returns (first: nat)
    requires Chain(dep, task, k) == id
    ensures first <= k && Chain(dep, task, first) == id && forall j: nat | j < first :: Chain(dep, task, j) != id
    decreases k
  {
    if j: nat :| j < k && Chain(dep, task, j) == id {
      first := FirstReach(dep, task, id, j);
    } else {
      first := k;
    }
  }

  /** A chain that comes back to where it started does so again wherever it is entered. */
  lemma Rotate(dep: int -> int, task: int, k: nat, j: nat)
    requires Chain(dep, task, k) == task
    ensures Chain(dep, Chain(dep, task, j), k) == Chain(dep, task, j)
  {
    ChainSplit(dep, task, j, k);
    ChainSplit(dep, task, k, j);
  }

  /** A cycle that an edit closes goes through the edited task, so its new dependency reaches it. */
  lemma EditedCycle(dep: int -> int, id: int, d: int, after: int -> int, task: int, k: nat)
    requires Edited(dep, id, d, after) && Acyclic(dep) && task != 0 && 0 < k && Chain(after, task, k) == task
    ensures !Unreachable(dep, d, id)
  {
    if j: nat :| Chain(dep, task, j) == id {
      var first := FirstReach(dep, task, id, j);
      SameChain(dep, id, d, after, task, first);
      Rotate(after, task, k, first);
      assert Chain(after, d, k - 1) == id;
      if Unreachable(dep, d, id) {
        SameChain(dep, id, d, after, d, k - 1);
      }
    } else {
      SameChain(dep, id, d, after, task, k);
    }
  }

  /** The exact condition the check would need: editing a task of an acyclic table to depend on `d`
      leaves it acyclic if and only if no chain from `d` reaches that task. */
  lemma EditAcyclicIff(dep: int -> int, id: int, d: int, after: int -> int)
    requires Edited(dep, id, d, after) && Acyclic(dep) && id != 0
    ensures Acyclic(after) <==> Unreachable(dep, d, id)
  {
    if k: nat :| Chain(dep, d, k) == id {
      var first := FirstReach(dep, d, id, k);
      SameChain(dep, id, d, after, d, first);
      assert Chain(after, id, first + 1) == id;
    }
    if task, k: nat :| task != 0 && 0 < k && Chain(after, task, k) == task {
      EditedCycle(dep, id, d, after, task, k);
    }
  }

  /** A new task closes no cycle: nothing depends on its id yet. */
  lemma {:induction false} NewIdUnreachable(rows: Rows, id: int, d: int, k: nat)
    requires 0 < id && Backward(rows, id) && d < id
    ensures Chain(Dep(rows), d, k) < id
    decreases k
  {
    if 0 < k {
      NewIdUnreachable(rows, id, Dep(rows)(d), k - 1);
    }
  }
}
