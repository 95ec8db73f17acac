/** The tables the scheduler reads (model/task.go, model/task_log.go, model/node.go).

    `rows` are the rows a query can see: a soft delete removes the row from it, and ids are never given
    out twice. */
module TaskStore {

  datatype Option<+T> = None | Some(value: T)

  datatype Task = Task(
    id: int, name: string, description: string, command: string, schedule: string, execType: string,
    isDisable: bool, priority: int, tags: string, execStrategy: int, retryTimes: int, retryInterval: int,
    timeout: int, dependsOn: int, assertion: string, resultHandler: string, nodeId: int)

  /** A log row; its id is its position in the table plus one.  `status` is true while the run is on. */
  datatype TaskLog = TaskLog(taskId: int, status: bool, execResult: bool, retryTimes: int)

  type Rows = map<int, Task>

  ghost predicate ValidRows(rows: Rows, nextId: int) {
    0 < nextId && forall id <- rows :: 0 < id < nextId && rows[id].id == id
  }

  /** No row depends on an id that has not been given out. */
  predicate Backward(rows: Rows, nextId: int) {
    forall id <- rows :: rows[id].dependsOn < nextId
  }

  class Database {
    var rows: Rows
    var nextId: int
    var logs: seq<TaskLog>
    /** Edge nodes by id; the value says whether the node is the master. */
    const nodes: map<int, bool>

    ghost predicate Valid()
      reads this
    {
      ValidRows(rows, nextId)
    }

    constructor (nodes: map<int, bool>)
      ensures Valid() && Backward(rows, nextId) && rows == map[] && logs == [] && this.nodes == nodes
    {
      rows, nextId, logs := map[], 1, [];
      this.nodes := nodes;
    }
  }

  // ---------------------------------------------------------------- dependency edges

  /** Follows dependencies `k` times; 0 means there is none. */
  function Chain(dep: int -> int, task: int, k: nat): int
    decreases k
  {
    if k == 0 then task else Chain(dep, dep(task), k - 1)
  }

  lemma {:induction false} ChainSplit(dep: int -> int, task: int, j: nat, k: nat)
    ensures Chain(dep, Chain(dep, task, j), k) == Chain(dep, task, j + k)
    decreases j
  {
    if j > 0 {
      ChainSplit(dep, dep(task), j - 1, k);
    }
  }

  lemma {:induction false} ZeroChain(dep: int -> int, k: nat)
    requires dep(0) == 0
    ensures Chain(dep, 0, k) == 0
  {
    if 0 < k {
      ZeroChain(dep, k - 1);
    }
  }

  /** The dependency column as a function; a missing row depends on nothing. */
  function Dep(rows: Rows): int -> int {
    id => if id in rows then rows[id].dependsOn else 0
  }

  /** No task reaches itself through its dependencies. */
  ghost predicate Acyclic(dep: int -> int) {
    forall task, k | task != 0 && 0 < k :: Chain(dep, task, k) != task
  }
}
