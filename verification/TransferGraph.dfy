/** What the import does to the dependency graph. */
module TransferGraph {
  import opened TaskStore
  import opened TaskTransfer
  import TaskPayload

  ghost predicate DistinctIds(items: seq<Item>) {
    (forall i | 0 <= i < |items| :: 0 < items[i].id) &&
    (forall i, j | 0 <= i < j < |items| :: items[i].id != items[j].id)
  }

  lemma LastWithItself(items: seq<Item>, i: nat)
    requires DistinctIds(items) && i < |items|
    ensures LastWith(items, items[i].id) == Some(i)
  {
    var last := LastWith(items, items[i].id);
    assert last.Some?;
  }

  // ---------------------------------------------------------------- edges

  /** The copy of `i` depends on the copy of `j`. */
  predicate CopiedEdge(base: int, items: seq<Item>, i: nat, j: nat)
    requires i < |items| && j < |items|
  {
    Copies(base, items)[i].dependsOn == Copies(base, items)[j].id
  }

  predicate BatchEdge(items: seq<Item>, i: nat, j: nat)
    requires i < |items| && j < |items|
  {
    items[i].dependsOn == items[j].id
  }

  /** The dependency of item `i`, if on a task outside the batch, does not happen to name an id this
      import gives out. */
  predicate KeptAt(base: int, items: seq<Item>, i: nat)
    requires i < |items|
  {
    LastWith(items, items[i].dependsOn).None? ==> !(base <= items[i].dependsOn < base + |items|)
  }

  ghost predicate OutsideKept(base: int, items: seq<Item>) {
    forall i: nat | i < |items| :: KeptAt(base, items, i)
  }

  /** With distinct positive ids the copies form the same graph as the items, exactly when no outside
      dependency names one of the new ids. */
  lemma IsomorphismIff(base: int, items: seq<Item>)
    requires DistinctIds(items)
    ensures (forall i: nat, j: nat | i < |items| && j < |items| ::
               CopiedEdge(base, items, i, j) <==> BatchEdge(items, i, j))
       <==> OutsideKept(base, items)
  {
    if OutsideKept(base, items) {
      forall i: nat, j: nat | i < |items| && j < |items|
        ensures CopiedEdge(base, items, i, j) <==> BatchEdge(items, i, j)
      {
        assert KeptAt(base, items, i);
        LastWithItself(items, j);
      }
    } else {
      var i: nat :| i < |items| && !KeptAt(base, items, i);
      var j: nat := items[i].dependsOn - base;
      assert CopiedEdge(base, items, i, j) && !BatchEdge(items, i, j);
    }
  }

  /** With repeated ids the edge goes to the last item that carries the id; a dependency on an id
      outside the batch is kept; and no row of a successful import depends on itself. */
  lemma EdgesOfAnImport(parsers: TaskPayload.Parsers, live: set<int>, base: int, items: seq<Item>, faults: Faults,
                        i: nat)
    requires Importable(parsers, live, base, items, faults) && 0 < base && i < |items|
    ensures var d, d' := items[i].dependsOn, Copies(base, items)[i].dependsOn;
            && d' != Copies(base, items)[i].id
            && (d == 0 <==> d' == 0)
            && (forall j: nat | j < |items| && items[j].id == d && 0 < d &&
                                (forall m | j < m < |items| :: items[m].id != d) ::
                  d' == Copies(base, items)[j].id)
            && ((forall j | 0 <= j < |items| :: items[j].id != d) ==> d' == d)
  {
    assert Linkable(live, faults, base, items, i);
    var d := items[i].dependsOn;
    assert LastWith(items, 0).None?;
  }

  // ---------------------------------------------------------------- which imports succeed

  /** The database never fails. */
  const NO_FAULTS := Faults(false, {}, {}, false)

  /** In the table after the import, the copy of item `i` depends on nothing or on another row there is. */
  predicate Lands(rows: Rows, base: int, items: seq<Item>, i: nat)
    requires i < |items|
  {
    var d := Copies(base, items)[i].dependsOn;
    d == 0 || (d in WithRows(rows, base, Copies(base, items)) && d != base + i)
  }

  lemma LandsIff(rows: Rows, base: int, items: seq<Item>, i: nat)
    requires ValidRows(rows, base) && i < |items|
    ensures Lands(rows, base, items, i) <==> Linkable(rows.Keys, NO_FAULTS, base, items, i)
  {
    var d := items[i].dependsOn;
    WithRowsKeys(rows, base, Copies(base, items));
    assert Copies(base, items)[i].dependsOn == Target(base, items, d);
    assert d == 0 ==> LastWith(items, d).None?;
  }

  /** With well-formed items and no database failure, an import succeeds exactly when every copy ends up
      depending on nothing or on another row that exists afterwards. */
  lemma ImportableIff(parsers: TaskPayload.Parsers, rows: Rows, base: int, items: seq<Item>)
    requires ValidRows(rows, base)
    requires forall x <- items :: TaskPayload.WellFormed(parsers, PayloadOf(x))
    ensures Importable(parsers, rows.Keys, base, items, Faults(false, {}, {}, false)) <==>
            forall i | 0 <= i < |items| ::
              var d := Copies(base, items)[i].dependsOn;
              d == 0 || (d in WithRows(rows, base, Copies(base, items)) && d != base + i)
  {
    var all := WithRows(rows, base, Copies(base, items));
    forall i: nat | i < |items|
      ensures Linkable(rows.Keys, NO_FAULTS, base, items, i) <==>
              Copies(base, items)[i].dependsOn == 0 ||
              (Copies(base, items)[i].dependsOn in all && Copies(base, items)[i].dependsOn != base + i)
      ensures Creatable(parsers, NO_FAULTS, items, i)
    {
      LandsIff(rows, base, items, i);
      assert items[i] in items;
    }
  }

  /** Database failures only ever make it fail: the one that opens or commits the transaction, a create
      of any item, a save of an item that has a dependency. */
  lemma FaultsOnlyRefuse(parsers: TaskPayload.Parsers, live: set<int>, base: int, items: seq<Item>, faults: Faults)
    ensures Importable(parsers, live, base, items, faults) <==>
            && Importable(parsers, live, base, items, Faults(false, {}, {}, false))
            && !faults.begin && !faults.commit
            && (forall i: nat | i < |items| :: i !in faults.create && (i in faults.save ==> items[i].dependsOn == 0))
  {
    forall i: nat | i < |items|
      ensures Creatable(parsers, faults, items, i) <==> Creatable(parsers, NO_FAULTS, items, i) && i !in faults.create
      ensures Linkable(live, faults, base, items, i) <==>
              Linkable(live, NO_FAULTS, base, items, i) && (i in faults.save ==> items[i].dependsOn == 0)
    {
    }
    if Importable(parsers, live, base, items, faults) {
      forall i: nat | i < |items|
        ensures i !in faults.create && (i in faults.save ==> items[i].dependsOn == 0)
      {
        assert Creatable(parsers, faults, items, i) && Linkable(live, faults, base, items, i);
      }
    }
  }

  /** No import stores a dependency on a row that does not exist, or on the row itself, whatever fails. */
  lemma ImportedDependenciesExist(parsers: TaskPayload.Parsers, rows: Rows, base: int, items: seq<Item>, faults: Faults,
                                  i: nat)
    requires ValidRows(rows, base) && i < |items| && Importable(parsers, rows.Keys, base, items, faults)
    ensures var d := Copies(base, items)[i].dependsOn;
            d == 0 || (d in WithRows(rows, base, Copies(base, items)) && d != base + i)
    ensures TaskPayload.WellFormed(parsers, PayloadOf(items[i]))
  {
    assert Creatable(parsers, faults, items, i) && Linkable(rows.Keys, faults, base, items, i);
    LandsIff(rows, base, items, i);
  }

  // ---------------------------------------------------------------- cycles

  /** The dependency column of the batch, by item id. */
  function BatchDep(items: seq<Item>): int -> int {
    id => match LastWith(items, id)
      case Some(j) => items[j].dependsOn
      case None => 0
  }

  /** The rows the import creates. */
  predicate New(base: int, items: seq<Item>, id: int) {
    base <= id < base + |items|
  }

  function Inside(base: int, items: seq<Item>, d: int): int {
    var target := Target(base, items, d);
    if New(base, items, target) then target else 0
  }

  /** The dependencies among the rows about to be created, as far as the batch and the next free id
      tell: where an item's dependency will point if that is a new row, otherwise nothing. */
  function NewDep(base: int, items: seq<Item>): int -> int {
    id => if New(base, items, id) then Inside(base, items, items[id - base].dependsOn) else 0
  }

  function After(rows: Rows, base: int, items: seq<Item>): int -> int {
    Dep(WithRows(rows, base, Copies(base, items)))
  }

  lemma DepOfRows(rows: Rows, base: int, tasks: seq<Task>, id: int)
    ensures Dep(WithRows(rows, base, tasks))(id) ==
            if base <= id < base + |tasks| then tasks[id - base].dependsOn else Dep(rows)(id)
  {
    WithRowsLookup(rows, base, tasks);
  }

  lemma AfterAt(rows: Rows, base: int, items: seq<Item>, id: int)
    ensures After(rows, base, items)(id) ==
            if New(base, items, id) then Target(base, items, items[id - base].dependsOn) else Dep(rows)(id)
  {
    DepOfRows(rows, base, Copies(base, items), id);
  }

  /** A chain that starts outside the new rows never enters them. */
  lemma {:induction false} OldChain(rows: Rows, base: int, items: seq<Item>, task: int, k: nat)
    requires 0 < base && Backward(rows, base) && !New(base, items, task)
    ensures Chain(After(rows, base, items), task, k) == Chain(Dep(rows), task, k)
    ensures !New(base, items, Chain(Dep(rows), task, k))
    decreases k
  {
    if 0 < k {
      AfterAt(rows, base, items, task);
      OldChain(rows, base, items, Dep(rows)(task), k - 1);
    }
  }

  /** A chain that starts in the new rows follows `NewDep` until it leaves them for good. */
  lemma {:induction false} NewChain(rows: Rows, base: int, items: seq<Item>, task: int, k: nat)
    requires 0 < base && Backward(rows, base) && New(base, items, task)
    ensures var reached := Chain(After(rows, base, items), task, k);
            Chain(NewDep(base, items), task, k) == if New(base, items, reached) then reached else 0
    decreases k
  {
    if 0 < k {
      var next := After(rows, base, items)(task);
      AfterAt(rows, base, items, task);
      if New(base, items, next) {
        NewChain(rows, base, items, next, k - 1);
      } else {
        OldChain(rows, base, items, next, k - 1);
        ZeroChain(NewDep(base, items), k - 1);
      }
    }
  }

  /** Whether a task is on a cycle afterwards is decided by the old table for old rows and by `NewDep`
      for new ones. */
  lemma CycleAfterIff(rows: Rows, base: int, items: seq<Item>, task: int, k: nat)
    requires ValidRows(rows, base) && Backward(rows, base) && task != 0 && 0 < k
    ensures Chain(After(rows, base, items), task, k) == task <==>
            Chain(Dep(rows), task, k) == task || Chain(NewDep(base, items), task, k) == task
  {
    if New(base, items, task) {
      NewChain(rows, base, items, task, k);
      assert Dep(rows)(task) == 0;
      ZeroChain(Dep(rows), k - 1);
    } else {
      OldChain(rows, base, items, task, k);
      ZeroChain(NewDep(base, items), k - 1);
    }
  }

  /** Whatever the batch, with repeated ids and with dependencies on anything: the whole table is
      acyclic after the import exactly when it was before and the new rows are among themselves. */
  lemma AcyclicIff(rows: Rows, base: int, items: seq<Item>)
    requires ValidRows(rows, base) && Backward(rows, base)
    ensures Acyclic(After(rows, base, items)) <==> Acyclic(Dep(rows)) && Acyclic(NewDep(base, items))
  {
    forall task, k: nat | task != 0 && 0 < k
      ensures Chain(After(rows, base, items), task, k) == task <==>
              Chain(Dep(rows), task, k) == task || Chain(NewDep(base, items), task, k) == task
    {
      CycleAfterIff(rows, base, items, task, k);
    }
  }

  /** After an import, too, no row depends on an id that has not been given out. */
  lemma StaysBackward(parsers: TaskPayload.Parsers, rows: Rows, base: int, items: seq<Item>, faults: Faults)
    requires ValidRows(rows, base) && Backward(rows, base) && Importable(parsers, rows.Keys, base, items, faults)
    ensures Backward(WithRows(rows, base, Copies(base, items)), base + |items|)
  {
    forall i: nat | i < |items| ensures Target(base, items, items[i].dependsOn) < base + |items| {
      assert Linkable(rows.Keys, faults, base, items, i);
    }
    WithRowsLookup(rows, base, Copies(base, items));
  }

  /** The new id of the last item with this id; 0 if there is none. */
  function Renamed(base: int, items: seq<Item>, id: int): int {
    match LastWith(items, id)
    case Some(j) => base + j
    case None => 0
  }

  /** One step in the new rows is one step in the items, if no outside dependency names a new id. */
  lemma RenamedStep(base: int, items: seq<Item>, i: nat)
    requires OutsideKept(base, items) && i < |items|
    ensures NewDep(base, items)(base + i) == Renamed(base, items, items[i].dependsOn)
  {
    assert KeptAt(base, items, i);
    assert Inside(base, items, items[i].dependsOn) == Renamed(base, items, items[i].dependsOn);
  }

  /** So chains of new rows are chains of items, the last item with an id standing for it. */
  lemma {:induction false} RenamedChain(base: int, items: seq<Item>, id: int, k: nat)
    requires 0 < base && OutsideKept(base, items)
    ensures Chain(NewDep(base, items), Renamed(base, items, id), k) ==
            Renamed(base, items, Chain(BatchDep(items), id, k))
    decreases k
  {
    if 0 < k {
      match LastWith(items, id) {
        case Some(m) => RenamedStep(base, items, m);
        case None =>
      }
      RenamedChain(base, items, BatchDep(items)(id), k - 1);
    }
  }

  /** A cycle of new rows is a cycle of items. */
  lemma NewCycle(base: int, items: seq<Item>, i: nat, k: nat)
    requires 0 < base && OutsideKept(base, items) && i < |items| && 0 < k
    requires Chain(NewDep(base, items), base + i, k) == base + i
    ensures 0 < items[i].id && Chain(BatchDep(items), items[i].id, k) == items[i].id
  {
    var d := items[i].dependsOn;
    RenamedStep(base, items, i);
    RenamedChain(base, items, d, k - 1);
    var id := Chain(BatchDep(items), d, k - 1);
    assert LastWith(items, id) == Some(i);
  }

  /** A cycle of items is a cycle of new rows. */
  lemma ItemCycle(base: int, items: seq<Item>, id: int, k: nat)
    requires 0 < base && OutsideKept(base, items) && id != 0 && 0 < k
    requires Chain(BatchDep(items), id, k) == id
    ensures var task := Renamed(base, items, id); task != 0 && Chain(NewDep(base, items), task, k) == task
  {
    RenamedChain(base, items, id, k);
    if LastWith(items, id).None? {
      ZeroChain(BatchDep(items), k - 1);
    }
  }

  lemma RenamedAcyclicIff(base: int, items: seq<Item>)
    requires 0 < base && OutsideKept(base, items)
    ensures Acyclic(NewDep(base, items)) <==> Acyclic(BatchDep(items))
  {
    if task, k: nat :| task != 0 && 0 < k && Chain(NewDep(base, items), task, k) == task {
      if !New(base, items, task) {
        ZeroChain(NewDep(base, items), k - 1);
      }
      NewCycle(base, items, task - base, k);
    }
    if id, k: nat :| id != 0 && 0 < k && Chain(BatchDep(items), id, k) == id {
      ItemCycle(base, items, id, k);
    }
  }

  /** If outside dependencies name no new id, the condition is that the table and the batch itself are
      acyclic, where an id carried by several items means the last of them. */
  lemma AcyclicBatchIff(rows: Rows, base: int, items: seq<Item>)
    requires ValidRows(rows, base) && Backward(rows, base) && OutsideKept(base, items)
    ensures Acyclic(After(rows, base, items)) <==> Acyclic(Dep(rows)) && Acyclic(BatchDep(items))
  {
    AcyclicIff(rows, base, items);
    RenamedAcyclicIff(base, items);
  }

  /** Two items: the first depends on the id the second is about to get, the second on the first. */
  ghost predicate Crossed(base: int, a: Item, b: Item) {
    2 < base && a.id == 1 && a.dependsOn == base + 1 && b.id == 2 && b.dependsOn == 1
  }

  lemma CrossedIds(base: int, a: Item, b: Item)
    requires Crossed(base, a, b)
    ensures forall id :: LastWith([a, b], id) == if id == 1 then Some(0) else if id == 2 then Some(1) else None
  {
    assert [a, b][..1] == [a];
  }

  lemma CrossedBatchAcyclic(base: int, a: Item, b: Item, id: int, k: nat)
    requires Crossed(base, a, b) && id != 0 && 0 < k
    ensures Chain(BatchDep([a, b]), id, k) != id
  {
    CrossedIds(base, a, b);
    var dep := BatchDep([a, b]);
    assert dep(1) == base + 1 && dep(2) == 1 && forall id | id != 1 && id != 2 :: dep(id) == 0;
    if id == 2 && 1 < k {
      assert Chain(dep, 2, k) == Chain(dep, 1, k - 1) == Chain(dep, base + 1, k - 2);
    }
    if 1 < k { ZeroChain(dep, k - 2); }
    if 2 < k { ZeroChain(dep, k - 3); }
    ZeroChain(dep, k - 1);
  }

  /** Why outside dependencies matter: one that names an id about to be given out is accepted, and
      closes a cycle the batch does not have. */
  lemma OutsideDependencyCanCloseACycle(parsers: TaskPayload.Parsers, base: int, a: Item, b: Item)
    requires Crossed(base, a, b)
    requires TaskPayload.WellFormed(parsers, PayloadOf(a)) && TaskPayload.WellFormed(parsers, PayloadOf(b))
    ensures Importable(parsers, {}, base, [a, b], Faults(false, {}, {}, false))
    ensures DistinctIds([a, b]) && Acyclic(BatchDep([a, b])) && !Acyclic(NewDep(base, [a, b]))
    ensures !Acyclic(After(map[], base, [a, b]))
  {
    var items := [a, b];
    CrossedIds(base, a, b);
    assert forall i: nat | i < 2 :: Linkable({}, Faults(false, {}, {}, false), base, items, i);
    forall id, k: nat | id != 0 && 0 < k ensures Chain(BatchDep(items), id, k) != id {
      CrossedBatchAcyclic(base, a, b, id, k);
    }
    var dep := NewDep(base, items);
    assert dep(base) == base + 1 && dep(base + 1) == base;
    assert Chain(dep, base, 2) == Chain(dep, base + 1, 1) == Chain(dep, base, 0) == base;
    AcyclicIff(map[], base, items);
  }

  // ---------------------------------------------------------------- frame and round trips

  lemma OneRowMore(rows: Rows, id: int, task: Task)
    requires id !in rows
    ensures |rows[id := task]| == |rows| + 1
  {
    assert rows[id := task].Keys == rows.Keys + {id};
  }

  lemma {:induction false} RowCount(rows: Rows, base: int, tasks: seq<Task>)
    requires ValidRows(rows, base)
    ensures |WithRows(rows, base, tasks)| == |rows| + |tasks|
  {
    if tasks != [] {
      var fewer := tasks[..|tasks| - 1];
      RowCount(rows, base, fewer);
      WithRowsLookup(rows, base, fewer);
      OneRowMore(WithRows(rows, base, fewer), base + |fewer|, tasks[|fewer|]);
    }
  }

  /** An import leaves every old row alone, and its rows are new, disabled and under fresh ids. */
  lemma ImportFrame(rows: Rows, base: int, items: seq<Item>)
    requires ValidRows(rows, base)
    ensures var after := WithRows(rows, base, Copies(base, items));
            && (forall id <- rows :: id in after && after[id] == rows[id])
            && (forall id <- after | id !in rows ::
                  base <= id < base + |items| && after[id].isDisable && after[id].id == id)
            && |after| == |rows| + |items|
  {
    WithRowsLookup(rows, base, Copies(base, items));
    RowCount(rows, base, Copies(base, items));
  }

  /** Exporting what an import created gives the items back, ids and batch dependencies renamed and
      everything disabled. */
  lemma ExportAfterImport(base: int, items: seq<Item>)
    ensures forall i | 0 <= i < |items| ::
              Exported(Copies(base, items))[i] ==
              items[i].(id := base + i, isDisable := true, dependsOn := Target(base, items, items[i].dependsOn))
  {
  }

  /** Importing an export copies every task, renamed and disabled. */
  lemma ImportAfterExport(base: int, tasks: seq<Task>)
    ensures forall i | 0 <= i < |tasks| ::
              Copies(base, Exported(tasks))[i] ==
              tasks[i].(id := base + i, isDisable := true,
                        dependsOn := Target(base, Exported(tasks), tasks[i].dependsOn))
  {
  }

  lemma LastById(items: seq<Item>, base: int, j: nat)
    requires j < |items| && 0 < base && forall m | 0 <= m < |items| :: items[m].id == base + m
    ensures LastWith(items, base + j) == Some(j)
  {
    assert items[j].id == base + j;
  }

  lemma ExportOfCopies(base: int, items: seq<Item>, j: nat)
    requires j < |items| && 0 < base
    ensures LastWith(Exported(Copies(base, items)), base + j) == Some(j)
  {
    LastById(Exported(Copies(base, items)), base, j);
  }

  lemma SecondTarget(first: int, second: int, items: seq<Item>, d: int)
    requires 0 < first && (LastWith(items, d).None? ==> !(first <= d < first + |items|))
    ensures Target(second, Exported(Copies(first, items)), Target(first, items, d)) == Target(second, items, d)
  {
    var again := Exported(Copies(first, items));
    match LastWith(items, d) {
      case Some(j) => ExportOfCopies(first, items, j);
      case None => assert forall m | 0 <= m < |items| :: again[m].id == first + m;
    }
  }

  /** Export and import again: the second copy of a batch is the first with its ids shifted, as long as
      no outside dependency named an id of the first import. */
  lemma SecondCopy(first: int, second: int, items: seq<Item>, i: nat)
    requires 0 < first && OutsideKept(first, items) && i < |items|
    ensures Copies(second, Exported(Copies(first, items)))[i] == Copies(second, items)[i]
  {
    assert KeptAt(first, items, i);
    ExportAfterImport(first, items);
    SecondTarget(first, second, items, items[i].dependsOn);
  }
}
