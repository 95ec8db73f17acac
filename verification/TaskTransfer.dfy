/** Task import and export (web/controller/task_transfer.go): a two-pass copy of a dependency graph in
    one transaction, with the ids renamed. */
module TaskTransfer {
  import opened TaskStore
  import TaskPayload

  datatype Item = Item(
    id: int, name: string, description: string, command: string, schedule: string, execType: string,
    isDisable: bool, priority: int, tags: string, execStrategy: int, retryTimes: int, retryInterval: int,
    timeout: int, dependsOn: int, assertion: string, resultHandler: string, nodeId: int)

  datatype Error = DatabaseError | InvalidItem(problem: TaskPayload.Problem) | BadDependency | SelfReference

  datatype Result = Ok(tasks: seq<Task>) | Err(error: Error)

  /** Which database calls fail: begin, the n-th create, the n-th save, commit. */
  datatype Faults = Faults(begin: bool, create: set<nat>, save: set<nat>, commit: bool)

  // ---------------------------------------------------------------- what an import means

  /** The last item that carries a positive `id`. */
  function LastWith(items: seq<Item>, id: int): (r: Option<nat>)
    ensures r.Some? ==> r.value < |items| && items[r.value].id == id && 0 < id
    ensures r.Some? ==> forall j | r.value < j < |items| :: items[j].id != id
    ensures r.None? && 0 < id ==> forall j | 0 <= j < |items| :: items[j].id != id
  {
    if items == [] || id <= 0 then None
    else if items[|items| - 1].id == id then Some(|items| - 1)
    else LastWith(items[..|items| - 1], id)
  }

  /** Where a dependency of the batch points after the import: 0 stays, an id of the batch becomes the
      new id of the last item carrying it, any other id is kept. */
  function Target(base: int, items: seq<Item>, d: int): int {
    match LastWith(items, d)
    case Some(j) => base + j
    case None => d
  }

  /** The row of an item between the two passes: disabled, and its dependency still 0. */
  function Draft(x: Item, id: int): Task {
    Task(id, x.name, x.description, x.command, x.schedule, x.execType,
         true, x.priority, x.tags, x.execStrategy, x.retryTimes, x.retryInterval,
         x.timeout, 0, x.assertion, x.resultHandler, x.nodeId)
  }

  function Drafts(base: int, items: seq<Item>): (r: seq<Task>)
    ensures |r| == |items|
  {
    seq(|items|, i requires 0 <= i < |items| => Draft(items[i], base + i))
  }

  /** The row the `i`-th item becomes when the first free id is `base`. */
  function Copy(base: int, items: seq<Item>, i: nat): Task
    requires i < |items|
  {
    Draft(items[i], base + i).(dependsOn := Target(base, items, items[i].dependsOn))
  }

  function Copies(base: int, items: seq<Item>): (r: seq<Task>)
    ensures |r| == |items|
  {
    seq(|items|, i requires 0 <= i < |items| => Copy(base, items, i))
  }

  /** The table with `tasks` stored under consecutive ids from `base`. */
  function WithRows(rows: Rows, base: int, tasks: seq<Task>): Rows {
    if tasks == [] then rows
    else WithRows(rows, base, tasks[..|tasks| - 1])[base + |tasks| - 1 := tasks[|tasks| - 1]]
  }

  /** Old rows stay as they were; the new ones are found under their ids. */
  lemma {:induction false} WithRowsLookup(rows: Rows, base: int, tasks: seq<Task>)
    ensures forall id :: id in WithRows(rows, base, tasks) <==> id in rows || base <= id < base + |tasks|
    ensures forall id <- WithRows(rows, base, tasks) ::
              WithRows(rows, base, tasks)[id] == if base <= id < base + |tasks| then tasks[id - base] else rows[id]
  {
    if tasks != [] {
      WithRowsLookup(rows, base, tasks[..|tasks| - 1]);
    }
  }

  lemma WithRowsKeys(rows: Rows, base: int, tasks: seq<Task>)
    ensures forall id :: id in WithRows(rows, base, tasks) <==> id in rows || base <= id < base + |tasks|
  {
    WithRowsLookup(rows, base, tasks);
  }

  lemma {:induction false} WithRowsSnoc(rows: Rows, base: int, tasks: seq<Task>, t: Task)
    ensures WithRows(rows, base, tasks + [t]) == WithRows(rows, base, tasks)[base + |tasks| := t]
  {
    assert (tasks + [t])[..|tasks|] == tasks;
  }

  /** Storing again under one of the new ids. */
  lemma {:induction false} WithRowsUpdate(rows: Rows, base: int, tasks: seq<Task>, n: nat, t: Task)
    requires n < |tasks|
    ensures WithRows(rows, base, tasks)[base + n := t] == WithRows(rows, base, tasks[n := t])
  {
    var last := |tasks| - 1;
    if n == last {
      assert tasks[n := t][..last] == tasks[..last];
    } else {
      WithRowsUpdate(rows, base, tasks[..last], n, t);
      assert tasks[n := t][..last] == tasks[..last][n := t];
      var m := WithRows(rows, base, tasks[..last]);
      assert m[base + last := tasks[last]][base + n := t] == m[base + n := t][base + last := tasks[last]];
    }
  }

  function PayloadOf(x: Item): TaskPayload.Payload {
    TaskPayload.Payload(x.name, x.description, x.execType, x.command, x.schedule, true, x.priority, x.tags,
                        x.execStrategy, x.retryTimes, x.retryInterval, x.timeout, 0, x.assertion,
                        x.resultHandler, x.nodeId)
  }

  /** What an imported item is checked for: its own fields, as a disabled task without dependency. */
  lemma PayloadMeans(x: Item)
    ensures var p := PayloadOf(x);
            && p.name == x.name && p.description == x.description && p.execType == x.execType
            && p.command == x.command && p.schedule == x.schedule && p.priority == x.priority && p.tags == x.tags
            && p.execStrategy == x.execStrategy && p.retryTimes == x.retryTimes
            && p.retryInterval == x.retryInterval && p.timeout == x.timeout && p.assertion == x.assertion
            && p.resultHandler == x.resultHandler && p.nodeId == x.nodeId && p.isDisable && p.dependsOn == 0
  {
  }

  /** The first pass creates item `i`. */
  predicate Creatable(parsers: TaskPayload.Parsers, faults: Faults, items: seq<Item>, i: nat)
    requires i < |items|
  {
    TaskPayload.WellFormed(parsers, PayloadOf(items[i])) && i !in faults.create
  }

  /** The first pass creates the first `n` items. */
  predicate AllCreatable(parsers: TaskPayload.Parsers, faults: Faults, items: seq<Item>, n: nat)
    requires n <= |items|
  {
    n == 0 || (AllCreatable(parsers, faults, items, n - 1) && Creatable(parsers, faults, items, n - 1))
  }

  lemma {:induction false} AllCreatableIff(parsers: TaskPayload.Parsers, faults: Faults, items: seq<Item>, n: nat)
    requires n <= |items|
    ensures AllCreatable(parsers, faults, items, n) <==> forall i: nat | i < n :: Creatable(parsers, faults, items, i)
  {
    if 0 < n {
      AllCreatableIff(parsers, faults, items, n - 1);
    }
  }

  lemma {:induction false} NotAllCreatable(parsers: TaskPayload.Parsers, faults: Faults, items: seq<Item>, i: nat,
                                           n: nat)
    requires i < n <= |items| && !Creatable(parsers, faults, items, i)
    ensures !AllCreatable(parsers, faults, items, n)
  {
    if i < n - 1 {
      NotAllCreatable(parsers, faults, items, i, n - 1);
    }
  }

  /** The dependency of item `i` can be resolved and is not the item's own new row. */
  predicate Resolves(live: set<int>, base: int, items: seq<Item>, i: nat)
    requires i < |items|
  {
    var d := items[i].dependsOn;
    d == 0 ||
    (&& (LastWith(items, d).Some? || d in live || base <= d < base + |items|)
     && Target(base, items, d) != base + i)
  }

  /** The second pass links item `i`: its dependency is 0, or resolves and is saved. */
  predicate Linkable(live: set<int>, faults: Faults, base: int, items: seq<Item>, i: nat)
    requires i < |items|
  {
    items[i].dependsOn != 0 ==> Resolves(live, base, items, i) && i !in faults.save
  }

  /** The import goes through exactly when every item is well formed, every dependency resolves, and no
      database call it makes fails. */
  ghost predicate Importable(parsers: TaskPayload.Parsers, live: set<int>, base: int, items: seq<Item>,
                             faults: Faults) {
    && !faults.begin && !faults.commit
    && (forall i: nat | i < |items| :: Creatable(parsers, faults, items, i))
    && (forall i: nat | i < |items| :: Linkable(live, faults, base, items, i))
  }

  // ---------------------------------------------------------------- the program

  function ExportItem(t: Task): Item {
    Item(t.id, t.name, t.description, t.command, t.schedule, t.execType, t.isDisable, t.priority, t.tags,
         t.execStrategy, t.retryTimes, t.retryInterval, t.timeout, t.dependsOn, t.assertion,
         t.resultHandler, t.nodeId)
  }

  /** An exported item is the task, field by field. */
  lemma ExportMeans(t: Task)
    ensures var x := ExportItem(t);
            && x.id == t.id && x.name == t.name && x.description == t.description && x.command == t.command
            && x.schedule == t.schedule && x.execType == t.execType && x.isDisable == t.isDisable
            && x.priority == t.priority && x.tags == t.tags && x.execStrategy == t.execStrategy
            && x.retryTimes == t.retryTimes && x.retryInterval == t.retryInterval && x.timeout == t.timeout
            && x.dependsOn == t.dependsOn && x.assertion == t.assertion && x.resultHandler == t.resultHandler
            && x.nodeId == t.nodeId
  {
  }

  function Exported(tasks: seq<Task>): (r: seq<Item>)
    ensures |r| == |tasks|
  {
    seq(|tasks|, i requires 0 <= i < |tasks| => ExportItem(tasks[i]))
  }

  method ExportTaskItems(tasks: seq<Task>) returns (items: seq<Item>)
    ensures items == Exported(tasks)
  {
    items := [];
    for i := 0 to |tasks|
      invariant items == Exported(tasks)[..i]
    {
      items := items + [ExportItem(tasks[i])];
    }
  }

  /** `oldToNew` after the first `n` items: each positive id of those items, mapped to the new id of
      the last of them that carries it. */
  ghost predicate Renames(oldToNew: map<int, int>, base: int, items: seq<Item>) {
    forall id :: if LastWith(items, id).Some?
                 then id in oldToNew && oldToNew[id] == base + LastWith(items, id).value
                 else id !in oldToNew
  }

  lemma RenamesSnoc(oldToNew: map<int, int>, base: int, items: seq<Item>, n: nat)
    requires n < |items| && Renames(oldToNew, base, items[..n])
    ensures Renames(if 0 < items[n].id then oldToNew[items[n].id := base + n] else oldToNew, base, items[..n + 1])
  {
    assert items[..n + 1][..n] == items[..n];
    forall id ensures LastWith(items[..n + 1], id) ==
                      if 0 < id && items[n].id == id then Some(n) else LastWith(items[..n], id)
    {
    }
  }

  /** The first pass on one item: check the payload and create the row. */
  method CreateOne(db: Database, parsers: TaskPayload.Parsers, ghost items: seq<Item>, item: Item, n: nat,
                   faults: Faults)
    returns (failed: Option<Error>, taskModel: Task)
    requires n < |items| && item == items[n]
    modifies db`rows, db`nextId
    ensures failed.None? <==> Creatable(parsers, faults, items, n)
    ensures failed.Some? ==> db.rows == old(db.rows) && db.nextId == old(db.nextId)
    ensures failed.None? ==>
              taskModel == Draft(item, old(db.nextId)) &&
              db.rows == old(db.rows)[old(db.nextId) := taskModel] && db.nextId == old(db.nextId) + 1
  {
    var payload := TaskPayload.Payload(
      item.name, item.description, item.execType, item.command, item.schedule, true, item.priority, item.tags,
      item.execStrategy, item.retryTimes, item.retryInterval, item.timeout, 0, item.assertion,
      item.resultHandler, item.nodeId);
    taskModel := Task(
      db.nextId, payload.name, payload.description, payload.command, payload.schedule, payload.execType, true,
      payload.priority, payload.tags, payload.execStrategy, payload.retryTimes, payload.retryInterval,
      payload.timeout, 0, payload.assertion, payload.resultHandler, payload.nodeId);
    failed := None;
    TaskPayload.AcceptedIff(parsers, db.rows.Keys, 0, payload);
    var problem := TaskPayload.Validate(parsers, db.rows.Keys, 0, payload);
    if problem.Some? {
      failed := Some(InvalidItem(problem.value));
    } else if n in faults.create {
      failed := Some(DatabaseError);
    } else {
      db.rows := db.rows[taskModel.id := taskModel];
      db.nextId := db.nextId + 1;
    }
  }

  /** Where the first pass is after `n` items. */
  ghost predicate Drafted(before: Rows, base: int, items: seq<Item>, n: nat,
                          oldToNew: map<int, int>, created: seq<Task>, rows: Rows)
  {
    && n <= |items|
    && created == Drafts(base, items)[..n]
    && Renames(oldToNew, base, items[..n])
    && rows == WithRows(before, base, created)
  }

  lemma DraftedOneMore(before: Rows, base: int, items: seq<Item>, n: nat,
                       oldToNew: map<int, int>, created: seq<Task>, rows: Rows)
    requires Drafted(before, base, items, n, oldToNew, created, rows) && n < |items|
    ensures var draft := Draft(items[n], base + n);
            Drafted(before, base, items, n + 1,
                    if 0 < items[n].id then oldToNew[items[n].id := base + n] else oldToNew,
                    created + [draft], rows[base + n := draft])
  {
    RenamesSnoc(oldToNew, base, items, n);
    WithRowsSnoc(before, base, created, Draft(items[n], base + n));
    assert created + [Draft(items[n], base + n)] == Drafts(base, items)[..n + 1];
  }

  /** First pass: create every row, disabled and without dependency. */
  method CreateAll(db: Database, parsers: TaskPayload.Parsers, items: seq<Item>, faults: Faults)
    returns (failed: Option<Error>, oldToNew: map<int, int>, created: seq<Task>)
    modifies db`rows, db`nextId
    ensures old(db.nextId) <= db.nextId
    ensures failed.None? <==> AllCreatable(parsers, faults, items, |items|)
    ensures failed.None? ==>
      && db.nextId == old(db.nextId) + |items|
      && Renames(oldToNew, old(db.nextId), items)
      && created == Drafts(old(db.nextId), items)
      && db.rows == WithRows(old(db.rows), old(db.nextId), created)
  {
    failed, oldToNew, created := None, map[], [];
    ghost var before, base := db.rows, db.nextId;
    for n := 0 to |items|
      invariant failed.None? && db.nextId == base + n
      invariant AllCreatable(parsers, faults, items, n)
      invariant Drafted(before, base, items, n, oldToNew, created, db.rows)
    {
      var item := items[n];
      ghost var rows := db.rows;
      var taskModel;
      failed, taskModel := CreateOne(db, parsers, items, item, n, faults);
      if failed.Some? {
        NotAllCreatable(parsers, faults, items, n, |items|);
        return;
      }
      DraftedOneMore(before, base, items, n, oldToNew, created, rows);
      if item.id > 0 {
        oldToNew := oldToNew[item.id := taskModel.id];
      }
      created := created + [taskModel];
    }
    assert items[..|items|] == items;
  }

  /** The second pass on one item: look the dependency up, first in the batch, then in the table. */
  method Resolve(db: Database, items: seq<Item>, oldToNew: map<int, int>, n: nat, newId: int,
                 ghost live: set<int>, ghost base: int)
    returns (failed: Option<Error>, dependencyId: int)
    requires n < |items| && items[n].dependsOn != 0 && newId == base + n && Renames(oldToNew, base, items)
    requires forall id :: id in db.rows <==> id in live || base <= id < base + |items|
    ensures failed.None? <==> Resolves(live, base, items, n)
    ensures dependencyId == Target(base, items, items[n].dependsOn)
  {
    failed := None;
    dependencyId := items[n].dependsOn;
    assert LastWith(items, items[n].dependsOn).Some? <==> items[n].dependsOn in oldToNew;
    if items[n].dependsOn in oldToNew {
      dependencyId := oldToNew[items[n].dependsOn];
    } else if dependencyId !in db.rows {
      return Some(BadDependency), dependencyId;
    }
    if dependencyId == newId {
      failed := Some(SelfReference);
    }
  }

  /** The second pass on one item: resolve its dependency, set it in the created task, save the row. */
  method LinkOne(db: Database, items: seq<Item>, oldToNew: map<int, int>, created: seq<Task>, n: nat, faults: Faults,
                 ghost rows: Rows, ghost base: int)
    returns (failed: Option<Error>, linked: Task)
    requires n < |items| == |created| && Renames(oldToNew, base, items)
    requires created[n] == Draft(items[n], base + n)
    requires db.rows == WithRows(rows, base, created)
    modifies db`rows
    ensures failed.None? <==> Linkable(rows.Keys, faults, base, items, n)
    ensures failed.None? ==> linked == Copy(base, items, n) && db.rows == WithRows(rows, base, created[n := linked])
  {
    failed, linked := None, created[n];
    if items[n].dependsOn != 0 {
      WithRowsKeys(rows, base, created);
      var dependencyId;
      failed, dependencyId := Resolve(db, items, oldToNew, n, linked.id, rows.Keys, base);
      if failed.Some? {
        return;
      }
      linked := linked.(dependsOn := dependencyId);
      if n in faults.save {
        return Some(DatabaseError), linked;
      }
      assert linked == Copy(base, items, n);
      WithRowsUpdate(rows, base, created, n, linked);
      db.rows := db.rows[linked.id := linked];
    } else {
      assert created[n := linked] == created;
    }
  }

  /** Second pass: write the dependencies, renamed. */
  method LinkAll(db: Database, items: seq<Item>, oldToNew: map<int, int>, drafts: seq<Task>, faults: Faults,
                 ghost rows: Rows, ghost base: int)
    returns (failed: Option<Error>, created: seq<Task>)
    requires Renames(oldToNew, base, items) && drafts == Drafts(base, items)
    requires db.rows == WithRows(rows, base, drafts)
    modifies db`rows
    ensures failed.None? <==> forall i: nat | i < |items| :: Linkable(rows.Keys, faults, base, items, i)
    ensures failed.None? ==> created == Copies(base, items) && db.rows == WithRows(rows, base, created)
  {
    failed, created := None, drafts;
    for n := 0 to |items|
      invariant failed.None? && |created| == |items|
      invariant forall i: nat | i < n :: Linkable(rows.Keys, faults, base, items, i)
      invariant forall i | 0 <= i < n :: created[i] == Copy(base, items, i)
      invariant created[n..] == drafts[n..]
      invariant db.rows == WithRows(rows, base, created)
    {
      assert created[n] == created[n..][0] == drafts[n];
      var linked;
      failed, linked := LinkOne(db, items, oldToNew, created, n, faults, rows, base);
      if failed.Some? {
        assert !Linkable(rows.Keys, faults, base, items, n);
        return;
      }
      assert created[n..][1..] == created[n + 1..] && drafts[n..][1..] == drafts[n + 1..];
      created := created[n := linked];
    }
    assert created == Copies(base, items);
  }

  /** `importTaskItems`.  A rollback restores the rows; the ids it consumed stay consumed. */
  method ImportTaskItems(db: Database, parsers: TaskPayload.Parsers, items: seq<Item>, faults: Faults)
    returns (result: Result)
    requires db.Valid()
    modifies db`rows, db`nextId
    ensures db.Valid() && old(db.nextId) <= db.nextId
    ensures result.Ok? <==> Importable(parsers, old(db.rows.Keys), old(db.nextId), items, faults)
    ensures result.Err? ==> db.rows == old(db.rows)
    ensures result.Ok? ==>
              && result.tasks == Copies(old(db.nextId), items)
              && db.rows == WithRows(old(db.rows), old(db.nextId), result.tasks)
              && db.nextId == old(db.nextId) + |items|
  {
    var snapshot := db.rows;
    if faults.begin {
      return Err(DatabaseError);
    }
    AllCreatableIff(parsers, faults, items, |items|);
    var failed, oldToNew, drafts := CreateAll(db, parsers, items, faults);
    if failed.Some? {
      db.rows := snapshot;
      return Err(failed.value);
    }
    var tasks;
    failed, tasks := LinkAll(db, items, oldToNew, drafts, faults, snapshot, old(db.nextId));
    if failed.Some? {
      db.rows := snapshot;
      return Err(failed.value);
    }
    if faults.commit {
      db.rows := snapshot;
      return Err(DatabaseError);
    }
    WithRowsLookup(snapshot, old(db.nextId), tasks);
    return Ok(tasks);
  }
}
