/** The in-memory scheduler (task/task.go, task/taskIns.go) and the controllers that keep it in step
    with the task table (web/controller/task.go, web/controller/agent.go). */
module Scheduler {
  import opened Collections
  import opened TaskStore
  import TaskPayload
  import TaskTransfer
  import TransferGraph

  /** A scheduled task: a snapshot of its row, its cron entry, and the runs it counts as running. */
  datatype TaskInstance = TaskInstance(taskId: int, info: Task, entryId: int, running: set<int>)

  type TaskList = map<int, TaskInstance>

  /** The cron library, reduced to its entries: the task each entry runs. */
  class Cron {
    var entries: map<int, int>
    var lastId: int
    const accepts: string -> bool

    constructor (accepts: string -> bool)
      ensures entries == map[] && lastId == 0 && this.accepts == accepts
    {
      entries, lastId := map[], 0;
      this.accepts := accepts;
    }

    method AddJob(schedule: string, task: int) returns (id: int, ok: bool)
      modifies this
      ensures ok <==> accepts(schedule)
      ensures !ok ==> entries == old(entries) && lastId == old(lastId)
      ensures ok ==> id == lastId == old(lastId) + 1 && entries == old(entries)[id := task]
    {
      ok, id := accepts(schedule), 0;
      if ok {
        lastId := lastId + 1;
        id := lastId;
        entries := entries[id := task];
      }
    }

    method Remove(id: int)
      modifies this
      ensures entries == old(entries) - {id} && lastId == old(lastId)
    {
      entries := entries - {id};
    }
  }

  /** `isLocalTask`: no node, an unknown node, or the master. */
  predicate Local(task: Task, nodes: map<int, bool>) {
    task.nodeId == 0 || (task.nodeId in nodes ==> nodes[task.nodeId])
  }

  /** The tasks that ought to be scheduled here. */
  function Schedulable(rows: Rows, nodes: map<int, bool>): set<int> {
    set id | id in rows && !rows[id].isDisable && Local(rows[id], nodes)
  }

  /** A task is kept off this scheduler by being disabled, or by a node that is known and not the
      master. */
  lemma SchedulableMeans(rows: Rows, nodes: map<int, bool>, id: int)
    ensures id in Schedulable(rows, nodes) <==>
            && id in rows && !rows[id].isDisable
            && !(rows[id].nodeId != 0 && rows[id].nodeId in nodes && !nodes[rows[id].nodeId])
  {
  }

  /** Task ids and cron entries are in bijection, and every key is its own task's id. */
  ghost predicate Indexed(list: TaskList, entries: map<int, int>, lastId: int) {
    && (forall id <- list ::
          list[id].taskId == id && list[id].info.id == id &&
          list[id].entryId in entries && entries[list[id].entryId] == id)
    && (forall e <- entries :: e <= lastId && entries[e] in list && list[entries[e]].entryId == e)
  }

  /** Exactly the live, enabled, local tasks are scheduled, each with the row now stored. */
  ghost predicate Agrees(list: TaskList, rows: Rows, nodes: map<int, bool>) {
    list.Keys == Schedulable(rows, nodes) && forall id <- list :: id in rows && list[id].info == rows[id]
  }

  function Counted(list: TaskList, taskId: int, logId: int): TaskList {
    if taskId in list then list[taskId := list[taskId].(running := list[taskId].running + {logId})] else list
  }

  function Uncounted(list: TaskList, taskId: int, logId: int): TaskList {
    if taskId in list then list[taskId := list[taskId].(running := list[taskId].running - {logId})] else list
  }

  /** What agreement says of one task. */
  lemma AgreesMeans(list: TaskList, rows: Rows, nodes: map<int, bool>, id: int)
    requires Agrees(list, rows, nodes)
    ensures id in list <==>
            && id in rows && !rows[id].isDisable
            && !(rows[id].nodeId != 0 && rows[id].nodeId in nodes && !nodes[rows[id].nodeId])
    ensures id in list ==> list[id].info == rows[id]
  {
    SchedulableMeans(rows, nodes, id);
  }

  class Manager {
    const cron: Cron
    var taskList: TaskList

    ghost predicate Valid()
      reads this, cron
    {
      Indexed(taskList, cron.entries, cron.lastId)
    }

    constructor (cron: Cron)
      requires cron.entries == map[]
      ensures this.cron == cron && taskList == map[] && Valid()
    {
      this.cron := cron;
      taskList := map[];
    }

    /** `AddTask` and `taskInstance.start`. */
    method AddTask(db: Database, taskId: int) returns (ok: bool)
      requires Valid() && db.Valid()
      modifies this, cron
      ensures Valid()
      ensures ok <==> taskId !in old(taskList) && taskId in db.rows &&
                      (taskId in Schedulable(db.rows, db.nodes) ==> cron.accepts(db.rows[taskId].schedule))
      ensures if ok && taskId in Schedulable(db.rows, db.nodes)
              then && cron.lastId == old(cron.lastId) + 1
                   && cron.entries == old(cron.entries)[cron.lastId := taskId]
                   && taskList == old(taskList)[taskId := TaskInstance(taskId, db.rows[taskId], cron.lastId, {})]
              else taskList == old(taskList) && cron.entries == old(cron.entries) && cron.lastId == old(cron.lastId)
      ensures taskId in taskList && taskId !in old(taskList) ==>
                taskId in db.rows &&
                var task := db.rows[taskId];
                !task.isDisable && !(task.nodeId != 0 && task.nodeId in db.nodes && !db.nodes[task.nodeId])
    {
      if taskId in taskList {
        return false;
      }
      if taskId !in db.rows {
        return false;
      }
      var task := db.rows[taskId];
      if task.isDisable {
        return true;
      }
      if !Local(task, db.nodes) {
        return true;
      }
      var entryId;
      entryId, ok := cron.AddJob(task.schedule, taskId);
      if ok {
        taskList := taskList[task.id := TaskInstance(taskId, task, entryId, {})];
      }
    }

    /** `taskInstance.stop`, the killing of processes aside. */
    method StopInstance(taskId: int)
      requires Valid() && taskId in taskList
      modifies this, cron
      ensures Valid() && taskList == old(taskList) - {taskId}
      ensures cron.entries == old(cron.entries) - {old(taskList)[taskId].entryId} && cron.lastId == old(cron.lastId)
    {
      cron.Remove(taskList[taskId].entryId);
      taskList := taskList - {taskList[taskId].info.id};
    }

    method DeleteTask(taskId: int)
      requires Valid()
      modifies this, cron
      ensures Valid() && taskList == old(taskList) - {taskId}
      ensures cron.entries == old(cron.entries) -
                              if taskId in old(taskList) then {old(taskList)[taskId].entryId} else {}
      ensures taskId !in cron.entries.Values
    {
      if taskId in taskList {
        StopInstance(taskId);
        taskList := taskList - {taskId};
      }
      assert forall e <- cron.entries :: cron.entries[e] in taskList;
    }

    method UpdateTask(db: Database, taskId: int) returns (ok: bool)
      requires Valid() && db.Valid()
      modifies this, cron
      ensures Valid()
      ensures ok <==> taskId in db.rows &&
                      (taskId in Schedulable(db.rows, db.nodes) ==> cron.accepts(db.rows[taskId].schedule))
      ensures taskList.Keys == old(taskList.Keys) - {taskId} +
                               if taskId in Schedulable(db.rows, db.nodes) && cron.accepts(db.rows[taskId].schedule)
                               then {taskId} else {}
      ensures forall id <- taskList ::
                if id == taskId then taskList[id].info == db.rows[id] && taskList[id].running == {}
                else taskList[id] == old(taskList)[id]
    {
      DeleteTask(taskId);
      ok := AddTask(db, taskId);
    }

    /** `Start`: every enabled row goes through `AddTask`; failures are skipped. */
    method Start(db: Database)
      requires Valid() && db.Valid() && taskList == map[]
      modifies this, cron
      ensures Valid()
      ensures taskList.Keys == set id | id in Schedulable(db.rows, db.nodes) && cron.accepts(db.rows[id].schedule)
      ensures (forall id <- db.rows :: cron.accepts(db.rows[id].schedule)) ==> Agrees(taskList, db.rows, db.nodes)
    {
      var todo := set id | id in db.rows && !db.rows[id].isDisable;
      ghost var all := todo;
      while todo != {}
        invariant Valid() && todo <= all
        decreases todo
        invariant taskList.Keys == set id | id in all - todo && id in Schedulable(db.rows, db.nodes) &&
                  cron.accepts(db.rows[id].schedule)
        invariant forall id <- taskList :: id in db.rows && taskList[id].info == db.rows[id]
      {
        NonEmpty(todo);
        var id :| id in todo;
        var ok := AddTask(db, id);
        todo := todo - {id};
      }
      if forall id <- db.rows :: cron.accepts(db.rows[id].schedule) {
        forall id ensures id in taskList <==> id in Schedulable(db.rows, db.nodes) {
          assert id in Schedulable(db.rows, db.nodes) ==> id in all && cron.accepts(db.rows[id].schedule);
        }
        assert taskList.Keys == Schedulable(db.rows, db.nodes);
      }
    }

    /** `Stop`: deletes while iterating; an entry deleted before it is reached is not visited. */
    method Stop()
      requires Valid()
      modifies this, cron
      ensures taskList == map[] && cron.entries == map[]
    {
      var unvisited := taskList.Keys;
      while unvisited != {}
        invariant Valid() && taskList.Keys <= unvisited
        decreases unvisited
      {
        NonEmpty(unvisited);
        var id :| id in unvisited;
        unvisited := unvisited - {id};
        if id in taskList {
          StopInstance(id);
        }
      }
      assert forall e <- cron.entries :: cron.entries[e] in taskList;
    }

    /** `addTaskRunningIns`. */
    method AddTaskRunningIns(taskId: int, logId: int)
      requires Valid()
      modifies `taskList
      ensures Valid() && taskList == Counted(old(taskList), taskId, logId)
    {
      if taskId in taskList {
        taskList := taskList[taskId := taskList[taskId].(running := taskList[taskId].running + {logId})];
      }
    }

    /** The deferred cleanup of a cron run; it dereferences nil when the task is no longer listed. */
    method CleanUp(taskId: int, logId: int) returns (panicked: bool)
      requires Valid()
      modifies `taskList
      ensures Valid() && taskList == Uncounted(old(taskList), taskId, logId)
      ensures panicked <==> taskId !in old(taskList)
    {
      panicked := taskId !in taskList;
      if !panicked {
        taskList := taskList[taskId := taskList[taskId].(running := taskList[taskId].running - {logId})];
      }
    }
  }

  // ---------------------------------------------------------------- requests

  datatype Response = Done | Refused | PartlyDone

  /** A request, with what the database answers to its write. */
  datatype Request =
    | Add(payload: TaskPayload.Payload, writeFails: bool)
    | Edit(id: int, payload: TaskPayload.Payload, writeFails: bool)
    | Enable(id: int, writeFails: bool)
    | Disable(id: int, writeFails: bool)
    | Delete(id: int, writeFails: bool)
    | Import(items: seq<TaskTransfer.Item>, faults: TaskTransfer.Faults)

  function RowOf(id: int, p: TaskPayload.Payload): Task {
    Task(id, p.name, p.description, p.command, p.schedule, p.execType, p.isDisable, p.priority, p.tags,
         p.execStrategy, p.retryTimes, p.retryInterval, p.timeout, p.dependsOn, p.assertion,
         p.resultHandler, p.nodeId)
  }

  /** A stored row has the fields of its payload. */
  lemma RowMeans(id: int, p: TaskPayload.Payload)
    ensures var t := RowOf(id, p);
            && t.id == id && t.name == p.name && t.description == p.description && t.command == p.command
            && t.schedule == p.schedule && t.execType == p.execType && t.isDisable == p.isDisable
            && t.priority == p.priority && t.tags == p.tags && t.execStrategy == p.execStrategy
            && t.retryTimes == p.retryTimes && t.retryInterval == p.retryInterval && t.timeout == p.timeout
            && t.dependsOn == p.dependsOn && t.assertion == p.assertion && t.resultHandler == p.resultHandler
            && t.nodeId == p.nodeId
  {
  }

  // ---------------------------------------------------------------- how the schedulable set moves

  /** The list but for the new task is the old list. */
  lemma AddedOnly(before: TaskList, id: int, after: TaskList)
    requires id !in before && before.Keys <= after.Keys <= before.Keys + {id}
    requires forall k <- before :: after[k] == before[k]
    ensures after - {id} == before
  {
    assert forall k <- before :: k in after && after[k] == before[k];
  }

  lemma AddedRow(rows: Rows, id: int, task: Task, nodes: map<int, bool>)
    requires id !in rows
    ensures Schedulable(rows[id := task], nodes) ==
            Schedulable(rows, nodes) + if !task.isDisable && Local(task, nodes) then {id} else {}
  {
  }

  /** A new row: agreement is kept if it is scheduled exactly when it should be, which only an unknown
      node prevents. */
  lemma AddedAgrees(rows: Rows, before: TaskList, id: int, task: Task, after: TaskList, nodes: map<int, bool>)
    requires id !in rows && id !in before && after - {id} == before
    requires id in after <==> id in Schedulable(rows[id := task], nodes) && (task.nodeId == 0 || task.nodeId in nodes)
    requires id in after ==> after[id].info == task
    ensures Agrees(before, rows, nodes) ==>
              (Agrees(after, rows[id := task], nodes) <==> task.isDisable || task.nodeId == 0 || task.nodeId in nodes)
  {
    var rows' := rows[id := task];
    AddedRow(rows, id, task, nodes);
    if Agrees(before, rows, nodes) {
      assert before.Keys == after.Keys - {id};
      assert forall k <- after | k != id :: k in before && after[k] == before[k];
    }
  }

  lemma ChangedRow(rows: Rows, id: int, task: Task, nodes: map<int, bool>)
    ensures Schedulable(rows[id := task], nodes) ==
            (Schedulable(rows, nodes) - {id}) + if !task.isDisable && Local(task, nodes) then {id} else {}
  {
  }

  /** A changed row: agreement is kept if it is scheduled exactly when it should be, as it now is. */
  lemma ChangedAgrees(rows: Rows, before: TaskList, id: int, task: Task, after: TaskList, nodes: map<int, bool>)
    requires id in rows && after - {id} == before - {id}
    requires id in after <==> id in Schedulable(rows[id := task], nodes)
    requires id in after ==> after[id].info == task
    ensures Agrees(before, rows, nodes) ==> Agrees(after, rows[id := task], nodes)
  {
    ChangedRow(rows, id, task, nodes);
    if Agrees(before, rows, nodes) {
      assert (after - {id}).Keys == after.Keys - {id} && (before - {id}).Keys == before.Keys - {id};
      forall k <- after | k != id ensures k in before && after[k] == before[k] {
        assert k in after - {id} && (after - {id})[k] == (before - {id})[k];
      }
    }
  }

  /** An enabled row whose task is scheduled now, unless it was already listed. */
  lemma EnabledAgrees(rows: Rows, before: TaskList, id: int, task: Task, after: TaskList, nodes: map<int, bool>)
    requires id in rows && task == rows[id].(isDisable := false) && after - {id} == before - {id}
    requires id in before ==> after == before
    requires id !in before ==> (id in after <==> id in Schedulable(rows[id := task], nodes))
    requires id !in before && id in after ==> after[id].info == task
    ensures Agrees(before, rows, nodes) ==> Agrees(after, rows[id := task], nodes)
  {
    if Agrees(before, rows, nodes) {
      if id in before {
        assert task == rows[id] && rows[id := task] == rows;
      } else {
        ChangedAgrees(rows, before, id, task, after, nodes);
      }
    }
  }

  lemma EditedAcyclic(rows: Rows, id: int, task: Task)
    requires id != 0
    ensures Acyclic(Dep(rows)) ==>
              (Acyclic(Dep(rows[id := task])) <==> TaskPayload.Unreachable(Dep(rows), task.dependsOn, id))
  {
    if Acyclic(Dep(rows)) {
      TaskPayload.EditAcyclicIff(Dep(rows), id, task.dependsOn, Dep(rows[id := task]));
    }
  }

  lemma AddedAcyclic(rows: Rows, id: int, task: Task)
    requires ValidRows(rows, id) && Backward(rows, id) && task.dependsOn < id
    ensures Acyclic(Dep(rows)) ==> Acyclic(Dep(rows[id := task]))
  {
    EditedAcyclic(rows, id, task);
    forall k: nat ensures Chain(Dep(rows), task.dependsOn, k) != id {
      TaskPayload.NewIdUnreachable(rows, id, task.dependsOn, k);
    }
  }

  /** A row after an import: an old one, or a disabled one whose schedule was checked. */
  lemma ImportedRow(parsers: TaskPayload.Parsers, rows: Rows, base: int, items: seq<TaskTransfer.Item>,
                    faults: TaskTransfer.Faults, after: Rows, id: int)
    requires ValidRows(rows, base) && TaskTransfer.Importable(parsers, rows.Keys, base, items, faults)
    requires after == TaskTransfer.WithRows(rows, base, TaskTransfer.Copies(base, items))
    ensures id in after <==> id in rows || base <= id < base + |items|
    ensures id in rows ==> after[id] == rows[id]
    ensures id in after && id !in rows ==> after[id].isDisable && parsers.schedule(after[id].schedule)
  {
    TaskTransfer.WithRowsLookup(rows, base, TaskTransfer.Copies(base, items));
    if base <= id < base + |items| {
      assert TaskTransfer.Creatable(parsers, faults, items, id - base);
    }
  }

  /** Imported rows are disabled, so nothing becomes schedulable, and their schedules were checked. */
  lemma ImportedRows(parsers: TaskPayload.Parsers, rows: Rows, base: int, items: seq<TaskTransfer.Item>,
                     faults: TaskTransfer.Faults, nodes: map<int, bool>)
    requires ValidRows(rows, base) && TaskTransfer.Importable(parsers, rows.Keys, base, items, faults)
    requires forall id <- rows :: parsers.schedule(rows[id].schedule)
    ensures var after := TaskTransfer.WithRows(rows, base, TaskTransfer.Copies(base, items));
            && Schedulable(after, nodes) == Schedulable(rows, nodes)
            && (forall id <- rows :: id in after && after[id] == rows[id])
            && (forall id <- after :: parsers.schedule(after[id].schedule))
  {
    var after := TaskTransfer.WithRows(rows, base, TaskTransfer.Copies(base, items));
    forall id
      ensures id in rows ==> id in after && after[id] == rows[id]
      ensures id in after && id !in rows ==> after[id].isDisable && parsers.schedule(after[id].schedule)
    {
      ImportedRow(parsers, rows, base, items, faults, after, id);
    }
  }

  // ---------------------------------------------------------------- the controllers

  class Server {
    const db: Database
    const manager: Manager
    const parsers: TaskPayload.Parsers

    /** The cron library accepts what the payload check accepts, and only such rows are stored; no row
        depends on an id still to be given out. */
    ghost predicate Valid()
      reads this, db, manager, manager.cron
    {
      && db.Valid() && manager.Valid()
      && manager.cron.accepts == parsers.schedule
      && (forall id <- db.rows :: parsers.schedule(db.rows[id].schedule))
      && (forall id <- manager.taskList :: id < db.nextId)
      && Backward(db.rows, db.nextId)
    }

    ghost predicate Agree()
      reads this, db, manager
    {
      Agrees(manager.taskList, db.rows, db.nodes)
    }

    constructor (db: Database, manager: Manager, parsers: TaskPayload.Parsers)
      requires db.Valid() && manager.Valid() && manager.cron.accepts == parsers.schedule
      requires forall id <- db.rows :: parsers.schedule(db.rows[id].schedule)
      requires forall id <- manager.taskList :: id < db.nextId
      requires Backward(db.rows, db.nextId)
      ensures this.db == db && this.manager == manager && this.parsers == parsers && Valid()
    {
      this.db, this.manager, this.parsers := db, manager, parsers;
    }

    /** `SyncTaskToNode`. */
    method SyncTaskToNode(taskId: int) returns (ok: bool)
      requires Valid()
      modifies manager, manager.cron
      ensures Valid()
      ensures ok <==>
              taskId in db.rows &&
              var nodeId := db.rows[taskId].nodeId;
              if nodeId == 0 || (nodeId in db.nodes && db.nodes[nodeId]) then taskId !in old(manager.taskList)
              else nodeId in db.nodes
      ensures manager.taskList.Keys == old(manager.taskList.Keys) +
                if ok && taskId in Schedulable(db.rows, db.nodes) then {taskId} else {}
      ensures forall id <- manager.taskList ::
                if id in old(manager.taskList) then manager.taskList[id] == old(manager.taskList)[id]
                else manager.taskList[id].info == db.rows[id] && manager.taskList[id].running == {}
      ensures taskId in db.rows && db.rows[taskId].nodeId != 0 && db.rows[taskId].nodeId in db.nodes
              && !db.nodes[db.rows[taskId].nodeId] ==>
                ok && manager.taskList == old(manager.taskList)
    {
      if taskId !in db.rows {
        return false;
      }
      var nodeId := db.rows[taskId].nodeId;
      if nodeId == 0 {
        ok := manager.AddTask(db, taskId);
        return;
      }
      if nodeId !in db.nodes {
        return false;
      }
      if db.nodes[nodeId] {
        ok := manager.AddTask(db, taskId);
        return;
      }
      return true;
    }

    method AddTask(payload: TaskPayload.Payload, writeFails: bool) returns (response: Response)
      requires Valid()
      modifies db`rows, db`nextId, manager, manager.cron
      ensures Valid()
      ensures response == Refused <==> writeFails || TaskPayload.Validate(parsers, old(db.rows.Keys), 0, payload).Some?
      ensures response == PartlyDone <==> response != Refused && payload.nodeId != 0 && payload.nodeId !in db.nodes
      ensures if response == Refused then db.rows == old(db.rows) && db.nextId == old(db.nextId)
              else && db.rows == old(db.rows)[old(db.nextId) := RowOf(old(db.nextId), payload)]
                   && db.nextId == old(db.nextId) + 1
      ensures manager.taskList - {old(db.nextId)} == old(manager.taskList)
      ensures old(Agree()) ==>
                (Agree() <==>
                   response == Refused || payload.isDisable || payload.nodeId == 0 || payload.nodeId in db.nodes)
      ensures old(Acyclic(Dep(db.rows))) ==> Acyclic(Dep(db.rows))
    {
      TaskPayload.AcceptedIff(parsers, db.rows.Keys, 0, payload);
      var problem := TaskPayload.Validate(parsers, db.rows.Keys, 0, payload);
      if problem.Some? || writeFails {
        return Refused;
      }
      var id := db.nextId;
      ghost var rows, list := db.rows, manager.taskList;
      db.rows, db.nextId := db.rows[id := RowOf(id, payload)], id + 1;
      assert id !in list;
      var ok := SyncTaskToNode(id);
      response := if ok then Done else PartlyDone;
      AddedOnly(list, id, manager.taskList);
      AddedAgrees(rows, list, id, RowOf(id, payload), manager.taskList, db.nodes);
      AddedAcyclic(rows, id, RowOf(id, payload));
    }

    /** The second half of `EditTask`: unschedule the task, and schedule it again as its row now is. */
    method Reschedule(id: int) returns (response: Response)
      requires Valid() && id in db.rows
      modifies manager, manager.cron
      ensures Valid() && response == Done
      ensures manager.taskList - {id} == old(manager.taskList) - {id}
      ensures id in manager.taskList <==> id in Schedulable(db.rows, db.nodes)
      ensures id in manager.taskList ==>
                manager.taskList[id].info == db.rows[id] && manager.taskList[id].running == {}
    {
      manager.DeleteTask(id);
      response := Done;
      if Local(db.rows[id], db.nodes) && !db.rows[id].isDisable {
        var ok := manager.AddTask(db, id);
        response := if ok then Done else PartlyDone;
      }
    }

    method EditTask(id: int, payload: TaskPayload.Payload, writeFails: bool) returns (response: Response)
      requires Valid()
      modifies db`rows, manager, manager.cron
      ensures Valid()
      ensures response == Refused <==>
              id !in old(db.rows) || writeFails || TaskPayload.Validate(parsers, old(db.rows.Keys), id, payload).Some?
      ensures response != PartlyDone
      ensures db.rows == if response == Refused then old(db.rows) else old(db.rows)[id := RowOf(id, payload)]
      ensures if response == Refused then manager.taskList == old(manager.taskList)
              else && manager.taskList - {id} == old(manager.taskList) - {id}
                   && (id in manager.taskList <==> id in Schedulable(db.rows, db.nodes))
                   && (id in manager.taskList ==>
                         manager.taskList[id].info == db.rows[id] && manager.taskList[id].running == {})
      ensures old(Agree()) ==> Agree()
      ensures response != Refused && old(Acyclic(Dep(db.rows))) ==>
                (Acyclic(Dep(db.rows)) <==> TaskPayload.Unreachable(old(Dep(db.rows)), payload.dependsOn, id))
    {
      if id !in db.rows {
        return Refused;
      }
      TaskPayload.AcceptedIff(parsers, db.rows.Keys, id, payload);
      var problem := TaskPayload.Validate(parsers, db.rows.Keys, id, payload);
      if problem.Some? || writeFails {
        return Refused;
      }
      ghost var rows, list, task := db.rows, manager.taskList, RowOf(id, payload);
      db.rows := db.rows[id := RowOf(id, payload)];
      response := Reschedule(id);
      ChangedAgrees(rows, list, id, task, manager.taskList, db.nodes);
      EditedAcyclic(rows, id, task);
    }

    method StartTask(id: int, writeFails: bool) returns (response: Response)
      requires Valid()
      modifies db`rows, manager, manager.cron
      ensures Valid()
      ensures response == Refused <==> id !in old(db.rows) || writeFails
      ensures db.rows == if response == Refused then old(db.rows)
                         else old(db.rows)[id := old(db.rows)[id].(isDisable := false)]
      ensures response == PartlyDone <==> response != Refused && id in old(manager.taskList)
      ensures manager.taskList - {id} == old(manager.taskList) - {id}
      ensures response == Done ==>
                if Local(db.rows[id], db.nodes) then id in manager.taskList && manager.taskList[id].info == db.rows[id]
                else id !in manager.taskList
      ensures response != Done ==> manager.taskList == old(manager.taskList)
      ensures old(Agree()) ==> Agree()
    {
      if id !in db.rows || writeFails {
        return Refused;
      }
      ghost var rows, list := db.rows, manager.taskList;
      db.rows := db.rows[id := db.rows[id].(isDisable := false)];
      var ok := manager.AddTask(db, id);
      response := if ok then Done else PartlyDone;
      EnabledAgrees(rows, list, id, db.rows[id], manager.taskList, db.nodes);
    }

    /** A failed write is only printed here, after the task has been unscheduled. */
    method StopTask(id: int, writeFails: bool) returns (response: Response)
      requires Valid()
      modifies db`rows, manager, manager.cron
      ensures Valid()
      ensures response == Refused <==> id !in old(db.rows)
      ensures db.rows == if response == Refused || writeFails then old(db.rows)
                         else old(db.rows)[id := old(db.rows)[id].(isDisable := true)]
      ensures response != PartlyDone
      ensures manager.taskList == old(manager.taskList) - if response == Refused then {} else {id}
      ensures old(Agree()) ==> (Agree() <==> response == Refused || !writeFails || id !in old(manager.taskList))
    {
      if id !in db.rows {
        return Refused;
      }
      ghost var rows, list := db.rows, manager.taskList;
      manager.DeleteTask(id);
      if !writeFails {
        db.rows := db.rows[id := db.rows[id].(isDisable := true)];
        ChangedAgrees(rows, list, id, db.rows[id], manager.taskList, db.nodes);
      }
      response := Done;
    }

    /** Deleting a task leaves it scheduled, with the row it had. */
    method DeleteTask(id: int, writeFails: bool) returns (response: Response)
      requires Valid()
      modifies db`rows
      ensures Valid() && manager.taskList == old(manager.taskList)
      ensures response != PartlyDone
      ensures response == Refused <==> id !in old(db.rows) || writeFails
      ensures db.rows == if response == Refused then old(db.rows) else old(db.rows) - {id}
      ensures old(Agree()) ==> (Agree() <==> response == Refused || id !in manager.taskList)
    {
      if id !in db.rows || writeFails {
        return Refused;
      }
      db.rows := db.rows - {id};
      response := Done;
      assert Schedulable(db.rows, db.nodes) == Schedulable(old(db.rows), db.nodes) - {id};
    }

    method ImportTasks(items: seq<TaskTransfer.Item>, faults: TaskTransfer.Faults) returns (response: Response)
      requires Valid()
      modifies db`rows, db`nextId
      ensures Valid()
      ensures response == Refused <==>
              items == [] || !TaskTransfer.Importable(parsers, old(db.rows.Keys), old(db.nextId), items, faults)
      ensures response != PartlyDone
      ensures response == Refused ==> db.rows == old(db.rows)
      ensures response != Refused ==>
                var base := old(db.nextId);
                db.rows == TaskTransfer.WithRows(old(db.rows), base, TaskTransfer.Copies(base, items))
      ensures response != Refused ==>
                (Acyclic(Dep(db.rows)) <==>
                   old(Acyclic(Dep(db.rows))) && Acyclic(TransferGraph.NewDep(old(db.nextId), items)))
      ensures old(Agree()) ==> Agree()
    {
      if |items| == 0 {
        return Refused;
      }
      ghost var rows, base := db.rows, db.nextId;
      var result := TaskTransfer.ImportTaskItems(db, parsers, items, faults);
      if result.Err? {
        return Refused;
      }
      response := Done;
      ImportedRows(parsers, rows, base, items, faults, db.nodes);
      TransferGraph.StaysBackward(parsers, rows, base, items, faults);
      TransferGraph.AcyclicIff(rows, base, items);
    }
  }

  /** A request that cannot pull scheduler and table apart: no deletion, no enabled task for an unknown
      node, and a stop whose write succeeds. */
  predicate Safe(request: Request, nodes: map<int, bool>) {
    match request
    case Add(payload, _) => payload.isDisable || payload.nodeId == 0 || payload.nodeId in nodes
    case Disable(_, writeFails) => !writeFails
    case Delete(_, _) => false
    case _ => true
  }

  /** The only requests that are not safe. */
  lemma SafeMeans(request: Request, nodes: map<int, bool>)
    ensures !Safe(request, nodes) <==>
            || request.Delete?
            || (request.Disable? && request.writeFails)
            || (request.Add? && !request.payload.isDisable
                && request.payload.nodeId != 0 && request.payload.nodeId !in nodes)
  {
  }

  /** One request; a safe one keeps the scheduler in agreement with the table. */
  method ServeOne(server: Server, request: Request) returns (response: Response)
    requires server.Valid()
    modifies server.db, server.manager, server.manager.cron
    ensures server.Valid()
    ensures old(server.Agree()) && Safe(request, server.db.nodes) ==> server.Agree()
  {
    match request {
      case Add(payload, writeFails) => response := server.AddTask(payload, writeFails);
      case Edit(id, payload, writeFails) => response := server.EditTask(id, payload, writeFails);
      case Enable(id, writeFails) => response := server.StartTask(id, writeFails);
      case Disable(id, writeFails) => response := server.StopTask(id, writeFails);
      case Delete(id, writeFails) => response := server.DeleteTask(id, writeFails);
      case Import(items, faults) => response := server.ImportTasks(items, faults);
    }
  }

  /** Any sequence of requests, from a fresh start over any table: ids and entries stay in bijection
      throughout, and safe requests keep the scheduler in agreement with the table. */
  method Serve(server: Server, requests: seq<Request>)
    requires server.Valid() && server.manager.taskList == map[]
    modifies server.db, server.manager, server.manager.cron
    ensures server.Valid()
    ensures (forall j | 0 <= j < |requests| :: Safe(requests[j], server.db.nodes)) ==>
              forall id ::
                id in server.manager.taskList <==>
                && id in server.db.rows && !server.db.rows[id].isDisable
                && !(server.db.rows[id].nodeId != 0 && server.db.rows[id].nodeId in server.db.nodes
                     && !server.db.nodes[server.db.rows[id].nodeId])
    ensures (forall j | 0 <= j < |requests| :: Safe(requests[j], server.db.nodes)) ==> server.Agree()
  {
    server.manager.Start(server.db);
    for i := 0 to |requests|
      invariant server.Valid()
      invariant (forall j | 0 <= j < i :: Safe(requests[j], server.db.nodes)) ==> server.Agree()
    {
      var response := ServeOne(server, requests[i]);
    }
  }
}
