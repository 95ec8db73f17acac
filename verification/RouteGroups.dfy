/** Nested route groups (web/routes/router.go).

    A group is a value: its path and a Go slice of middlewares.  Nesting a group and registering a
    route both `append` to that slice, which writes into the spare cells of a backing array that
    sibling groups share whenever the capacity allows.  The backing arrays are real heap arrays here,
    so the aliasing is the one the program has. */
module RouteGroups {

  /** A handler slot handed to the engine; `Unset` is the zero value `make` leaves behind. */
  datatype Handler = Unset | Middleware(id: int) | Action(id: int)

  /** A Go slice that starts at cell 0: a backing array (its length is the capacity) and a length. */
  datatype Slice = Slice(backing: array<int>, len: nat) {
    predicate Ok() {
      len <= backing.Length
    }

    function Elems(): seq<int>
      requires Ok()
      reads backing
    {
      backing[..len]
    }
  }

  /** The cells of a backing array after `xs` was appended to its first `len` cells. */
  function CellsAfter(cells: seq<int>, len: nat, xs: seq<int>): seq<int>
    requires len <= |cells|
  {
    if len + |xs| <= |cells| then cells[..len] + xs + cells[len + |xs|..] else cells
  }

  /** Writes `xs` from cell `at` on. */
  method Overwrite(cells: array<int>, at: nat, xs: seq<int>)
    requires at + |xs| <= cells.Length
    modifies cells
    ensures cells[..] == CellsAfter(old(cells[..]), at, xs)
  {
    for k := 0 to |xs|
      invariant forall c | 0 <= c < cells.Length ::
                  cells[c] == if at <= c < at + k then xs[c - at] else old(cells[c])
    {
      cells[at + k] := xs[k];
    }
  }

  /** The first cells after a write behind them. */
  lemma FrontAfter(cells: seq<int>, at: nat, xs: seq<int>)
    requires at + |xs| <= |cells|
    ensures CellsAfter(cells, at, xs)[..at] == cells[..at]
    ensures CellsAfter(cells, at, xs)[..at + |xs|] == cells[..at] + xs
  {
  }

  /** Go's `append`: in place when the capacity suffices, otherwise into a fresh, larger array. */
  method Append(s: Slice, xs: seq<int>) returns (r: Slice)
    requires s.Ok()
    modifies s.backing
    ensures r.Ok() && r.Elems() == old(s.Elems()) + xs
    ensures s.Elems() == old(s.Elems())
    ensures if s.len + |xs| <= s.backing.Length then r.backing == s.backing else fresh(r.backing)
    ensures s.backing[..] == CellsAfter(old(s.backing[..]), s.len, xs)
  {
    if s.len + |xs| <= s.backing.Length {
      ghost var was := s.backing[..];
      Overwrite(s.backing, s.len, xs);
      r := Slice(s.backing, s.len + |xs|);
      FrontAfter(was, s.len, xs);
      assert s.Elems() == s.backing[..][..s.len] && r.Elems() == s.backing[..][..r.len];
    } else {
      var capacity :| s.len + |xs| <= capacity;
      var all := s.backing[..s.len] + xs;
      var grown := new int[capacity](i => if 0 <= i < |all| then all[i] else 0);
      r := Slice(grown, |all|);
      assert r.Elems() == all;
    }
  }

  datatype Group = Group(path: string, middlewares: Slice)

  /** What a group's callback does, in order: open nested groups and register routes on the group it
      was given. */
  datatype Node =
    | Nested(path: string, middlewares: seq<int>, body: seq<Node>)
    | Route(verb: int, url: string, middlewares: seq<int>, action: int)

  datatype Entry = Entry(verb: int, url: string, chain: seq<Handler>)

  /** The five verbs the switch knows; any other value registers nothing. */
  const GET := 0
  const ANY := 4

  predicate KnownVerb(verb: int) {
    GET <= verb <= ANY
  }

  class Engine {
    var routes: seq<Entry>

    constructor ()
      ensures routes == []
    {
      routes := [];
    }
  }

  // ---------------------------------------------------------------- reference definition

  function Wrap(middlewares: seq<int>): (r: seq<Handler>)
    ensures |r| == |middlewares|
  {
    seq(|middlewares|, i requires 0 <= i < |middlewares| => Middleware(middlewares[i]))
  }

  /** The middlewares of the enclosing groups, outermost first. */
  function Enclosing(ancestors: seq<Node>): seq<int>
    requires forall a <- ancestors :: a.Nested?
  {
    if ancestors == [] then [] else ancestors[0].middlewares + Enclosing(ancestors[1..])
  }

  function EnclosingPath(ancestors: seq<Node>): string
    requires forall a <- ancestors :: a.Nested?
  {
    if ancestors == [] then "" else ancestors[0].path + EnclosingPath(ancestors[1..])
  }

  /** The entry one route must produce, from its own place in the tree and nothing else. */
  function Expected(rootPath: string, root: seq<int>, ancestors: seq<Node>, route: Node): Entry
    requires route.Route? && forall a <- ancestors :: a.Nested?
  {
    Entry(route.verb,
          rootPath + EnclosingPath(ancestors) + route.url,
          Wrap(root + Enclosing(ancestors) + route.middlewares) + [Action(route.action)])
  }

  /** Every route of a body, in program order. */
  function Entries(rootPath: string, root: seq<int>, ancestors: seq<Node>, body: seq<Node>): seq<Entry>
    requires forall a <- ancestors :: a.Nested?
    decreases body
  {
    if body == [] then []
    else
      NodeEntries(rootPath, root, ancestors, body[0]) + Entries(rootPath, root, ancestors, body[1..])
  }

  function NodeEntries(rootPath: string, root: seq<int>, ancestors: seq<Node>, node: Node): seq<Entry>
    requires forall a <- ancestors :: a.Nested?
    decreases node
  {
    match node
    case Nested(_, _, inner) => Entries(rootPath, root, ancestors + [node], inner)
    case Route(verb, _, _, _) => if KnownVerb(verb) then [Expected(rootPath, root, ancestors, node)] else []
  }

  lemma Regroup<T>(a: seq<T>, b: seq<T>, c: seq<T>)
    ensures (a + b) + c == a + (b + c)
  {
  }

  lemma {:induction false} EnclosingSnoc(ancestors: seq<Node>, g: Node)
    requires g.Nested? && forall a <- ancestors :: a.Nested?
    ensures Enclosing(ancestors + [g]) == Enclosing(ancestors) + g.middlewares
    ensures EnclosingPath(ancestors + [g]) == EnclosingPath(ancestors) + g.path
  {
    if ancestors == [] {
      assert [g][1..] == [];
    } else {
      var first, tail, longer := ancestors[0], ancestors[1..], ancestors + [g];
      assert longer[0] == first && longer[1..] == tail + [g];
      EnclosingSnoc(tail, g);
      Regroup(first.middlewares, Enclosing(tail), g.middlewares);
      Regroup(first.path, EnclosingPath(tail), g.path);
    }
  }

  // ---------------------------------------------------------------- the program

  lemma Chain(handlers: seq<Handler>, middlewares: seq<int>, action: int)
    requires |handlers| == |middlewares| + 1 && handlers[|middlewares|] == Action(action)
    requires forall i | 0 <= i < |middlewares| :: handlers[i] == Middleware(middlewares[i])
    ensures handlers == Wrap(middlewares) + [Action(action)]
  {
  }

  /** The loop of `group.Registered`, and the action in the last slot. */
  method Fill(handlers: array<Handler>, all: Slice, action: int)
    requires all.Ok() && handlers.Length == all.len + 1
    modifies handlers
    ensures handlers[..] == Wrap(all.Elems()) + [Action(action)]
  {
    for key := 0 to all.len
      invariant forall i :: 0 <= i < key ==> handlers[i] == Middleware(all.backing[i])
    {
      handlers[key] := Middleware(all.backing[key]);
    }
    handlers[all.len] := Action(action);
    Chain(handlers[..], all.Elems(), action);
  }

  /** `group.Registered`. */
  method Registered(engine: Engine, g: Group, verb: int, url: string, middlewares: seq<int>, action: int)
    requires g.middlewares.Ok()
    modifies engine, g.middlewares.backing
    ensures g.middlewares.Elems() == old(g.middlewares.Elems())
    ensures g.middlewares.backing[..] == CellsAfter(old(g.middlewares.backing[..]), g.middlewares.len, middlewares)
    ensures engine.routes == old(engine.routes) +
                             if 0 <= verb <= 4
                             then [Entry(verb, g.path + url,
                                         Wrap(old(g.middlewares.Elems()) + middlewares) + [Action(action)])]
                             else []
  {
    var handlers := new Handler[g.middlewares.len + |middlewares| + 1](_ => Unset);
    var all := Append(g.middlewares, middlewares);
    Fill(handlers, all, action);
    if KnownVerb(verb) {
      engine.routes := engine.routes + [Entry(verb, g.path + url, handlers[..])];
    }
  }

  /** What it means for a group value to stand at `ancestors` below the root. */
  ghost predicate StandsAt(g: Group, rootPath: string, root: seq<int>, ancestors: seq<Node>)
    reads g.middlewares.backing
  {
    && g.middlewares.Ok()
    && (forall a <- ancestors :: a.Nested?)
    && g.path == rootPath + EnclosingPath(ancestors)
    && g.middlewares.Elems() == root + Enclosing(ancestors)
  }

  /** What a group standing there registers for a route is what the route must produce. */
  lemma RouteEntries(path: string, middlewares: seq<int>, rootPath: string, root: seq<int>, ancestors: seq<Node>,
                     route: Node)
    requires route.Route? && forall a <- ancestors :: a.Nested?
    requires path == rootPath + EnclosingPath(ancestors) && middlewares == root + Enclosing(ancestors)
    ensures NodeEntries(rootPath, root, ancestors, route) ==
            if KnownVerb(route.verb)
            then [Entry(route.verb, path + route.url, Wrap(middlewares + route.middlewares) + [Action(route.action)])]
            else []
  {
  }

  lemma EntriesCons(before: seq<Entry>, after: seq<Entry>, end: seq<Entry>,
                    rootPath: string, root: seq<int>, ancestors: seq<Node>, body: seq<Node>)
    requires body != [] && forall a <- ancestors :: a.Nested?
    requires after == before + NodeEntries(rootPath, root, ancestors, body[0])
    requires end == after + Entries(rootPath, root, ancestors, body[1..])
    ensures end == before + Entries(rootPath, root, ancestors, body)
  {
  }

  /** `group.Group`: the nested group's callback runs on a copy of the group with an extended slice. */
  method RunNested(engine: Engine, g: Group, node: Node,
                   ghost rootPath: string, ghost root: seq<int>, ghost ancestors: seq<Node>)
    requires node.Nested? && StandsAt(g, rootPath, root, ancestors)
    modifies engine, g.middlewares.backing
    ensures g.middlewares.Elems() == old(g.middlewares.Elems())
    ensures engine.routes == old(engine.routes) + NodeEntries(rootPath, root, ancestors, node)
    decreases node
  {
    var extended := Append(g.middlewares, node.middlewares);
    var nested := Group(g.path + node.path, extended);
    assert StandsAt(nested, rootPath, root, ancestors + [node]) by {
      EnclosingSnoc(ancestors, node);
      assert extended.Elems() == root + Enclosing(ancestors + [node]);
      assert nested.path == rootPath + EnclosingPath(ancestors + [node]);
    }
    RunBody(engine, nested, node.body, rootPath, root, ancestors + [node]);
    assert extended.backing == g.middlewares.backing ==>
        g.middlewares.Elems() == extended.Elems()[..g.middlewares.len];
  }

  /** Runs a group callback on the group value it is given.  `root` and `ancestors` only say where in
      the tree that group sits. */
  method RunBody(engine: Engine, g: Group, body: seq<Node>,
                 ghost rootPath: string, ghost root: seq<int>, ghost ancestors: seq<Node>)
    requires StandsAt(g, rootPath, root, ancestors)
    modifies engine, g.middlewares.backing
    ensures g.middlewares.Elems() == old(g.middlewares.Elems())
    ensures engine.routes == old(engine.routes) + Entries(rootPath, root, ancestors, body)
    decreases body
  {
    if body != [] {
      var first := body[0];
      ghost var before, was := engine.routes, g.middlewares.Elems();
      match first {
        case Nested(_, _, _) =>
          RunNested(engine, g, first, rootPath, root, ancestors);
        case Route(verb, url, middlewares, action) =>
          RouteEntries(g.path, was, rootPath, root, ancestors, first);
          Registered(engine, g, verb, url, middlewares, action);
      }
      ghost var after := engine.routes;
      assert after == before + NodeEntries(rootPath, root, ancestors, first);
      RunBody(engine, g, body[1..], rootPath, root, ancestors);
      EntriesCons(before, after, engine.routes, rootPath, root, ancestors, body);
    }
  }

  /** `router.Group`: the root group takes over the caller's variadic slice as it is, spare cells
      included. */
  method RunRouter(engine: Engine, path: string, middlewares: Slice, body: seq<Node>)
    requires middlewares.Ok()
    modifies engine, middlewares.backing
    ensures middlewares.Elems() == old(middlewares.Elems())
    ensures engine.routes == old(engine.routes) + Entries(path, old(middlewares.Elems()), [], body)
  {
    RunBody(engine, Group(path, middlewares), body, path, middlewares.Elems(), []);
  }

  // ---------------------------------------------------------------- what the entries are like

  /** The route at position `n` of the tree's routes, with the groups around it. */
  datatype Located = Located(ancestors: seq<Node>, route: Node)

  ghost predicate Inside(l: Located, ancestors: seq<Node>, body: seq<Node>)
    decreases body
  {
    body != [] &&
    (Inside(l, ancestors, body[1..]) ||
     (match body[0]
      case Nested(_, _, inner) => Inside(l, ancestors + [body[0]], inner)
      case Route(_, _, _, _) => l == Located(ancestors, body[0])))
  }

  /** Nothing is registered that is not a route of the tree carrying exactly its own chain, every slot
      of which is set; and every route with a known verb is registered. */
  lemma {:induction false} EntriesAreTheRoutes(rootPath: string, root: seq<int>, ancestors: seq<Node>, body: seq<Node>)
    requires forall a <- ancestors :: a.Nested?
    ensures forall e <- Entries(rootPath, root, ancestors, body) ::
              Unset !in e.chain &&
              exists l: Located ::
                Inside(l, ancestors, body) && l.route.Route? && (forall a <- l.ancestors :: a.Nested?)
                                   && e == Expected(rootPath, root, l.ancestors, l.route)
    ensures forall l: Located | Inside(l, ancestors, body) ::
              l.route.Route? && (forall a <- l.ancestors :: a.Nested?) &&
              (0 <= l.route.verb <= 4 ==>
                 Expected(rootPath, root, l.ancestors, l.route) in Entries(rootPath, root, ancestors, body))
    decreases body
  {
    if body != [] {
      EntriesAreTheRoutes(rootPath, root, ancestors, body[1..]);
      match body[0] {
        case Nested(_, _, inner) =>
          EntriesAreTheRoutes(rootPath, root, ancestors + [body[0]], inner);
        case Route(verb, _, _, _) =>
          assert Inside(Located(ancestors, body[0]), ancestors, body);
      }
    }
  }

  /** What an expected entry says, group by group: each enclosing group adds its path and its middlewares
      in front of what it encloses; inside, the route has its own url and middlewares, and its action
      last. */
  lemma ExpectedMeans(rootPath: string, root: seq<int>, g: Node, inner: seq<Node>, route: Node)
    requires g.Nested? && route.Route? && forall a <- inner :: a.Nested?
    ensures Expected(rootPath, root, [g] + inner, route) ==
            Expected(rootPath + g.path, root + g.middlewares, inner, route)
    ensures var e, n := Expected(rootPath, root, [], route), |root| + |route.middlewares|;
            && e.verb == route.verb && e.url == rootPath + route.url
            && |e.chain| == n + 1 && e.chain[n] == Action(route.action)
            && (forall i | 0 <= i < |root| :: e.chain[i] == Middleware(root[i]))
            && (forall i | 0 <= i < |route.middlewares| :: e.chain[|root| + i] == Middleware(route.middlewares[i]))
  {
    var all := [g] + inner;
    assert all[0] == g && all[1..] == inner;
    Regroup(rootPath, g.path, EnclosingPath(inner));
    Regroup(root, g.middlewares, Enclosing(inner));
  }

  // ---------------------------------------------------------------- where the guarantee stops

  lemma PrefixIff(a: seq<int>, b: seq<int>)
    ensures a <= b || b <= a <==> forall i | 0 <= i < |a| && i < |b| :: a[i] == b[i]
  {
  }

  /** Two lists written over each other from the same cell: the first is intact exactly when the second
      does not fit or they agree where they overlap. */
  lemma OverwrittenIff(cells: seq<int>, n: nat, mine: seq<int>, theirs: seq<int>)
    requires n + |mine| <= |cells| && cells[n..n + |mine|] == mine
    ensures CellsAfter(cells, n, theirs)[..n + |mine|] == cells[..n] + mine <==>
            |cells| < n + |theirs| || mine <= theirs || theirs <= mine
  {
    var after, whole := CellsAfter(cells, n, theirs)[..n + |mine|], cells[..n] + mine;
    assert whole == cells[..n + |mine|];
    if n + |theirs| <= |cells| {
      PrefixIff(mine, theirs);
      forall c | 0 <= c < |whole| ensures after[c] == if n <= c < n + |theirs| then theirs[c - n] else whole[c] {
      }
      forall i | 0 <= i < |mine| ensures whole[n + i] == mine[i] {
      }
      if after == whole {
        forall i | 0 <= i < |mine| && i < |theirs| ensures mine[i] == theirs[i] {
          assert after[n + i] == whole[n + i];
        }
      }
    }
  }

  /** A callback that registers on the group *around* the one it was given writes into cells its own
      group may still need.  The inner group keeps its chain exactly when one of the two appends had
      to move to a new array, or the two middleware lists agree where they overlap. */
  method OuterRegistrationMayClobber(engine: Engine, outer: Group, mine: seq<int>, theirs: seq<int>, action: int)
    returns (inner: Group)
    requires outer.middlewares.Ok()
    modifies engine, outer.middlewares.backing
    ensures inner.middlewares.Ok()
    ensures inner.middlewares.Elems() == old(outer.middlewares.Elems()) + mine <==>
            var spare := outer.middlewares.backing.Length - outer.middlewares.len;
            spare < |mine| || spare < |theirs| || mine <= theirs || theirs <= mine
  {
    var extended := Append(outer.middlewares, mine);
    inner := Group(outer.path, extended);
    ghost var n, cells := outer.middlewares.len, outer.middlewares.backing[..];
    Registered(engine, outer, GET, "", theirs, action);
    if extended.backing == outer.middlewares.backing {
      assert cells[n..n + |mine|] == mine;
      OverwrittenIff(cells, n, mine, theirs);
      assert inner.middlewares.Elems() == CellsAfter(cells, n, theirs)[..n + |mine|];
    }
  }

  // ---------------------------------------------------------------- any use of any group

  /** What a callback can do with the groups in its scope, named by position: open a nested group, which
      joins the scope, or register a route. */
  datatype Op =
    | Open(on: nat, path: string, middlewares: seq<int>)
    | Register(on: nat, verb: int, url: string, middlewares: seq<int>, action: int)

  predicate ValidOps(ops: seq<Op>, n: nat)
    decreases |ops|
  {
    ops == [] || (ops[0].on < n && ValidOps(ops[1..], if ops[0].Open? then n + 1 else n))
  }

  /** Any operations on groups there are can be asked for. */
  lemma {:induction false} AnyOpsValid(ops: seq<Op>, n: nat)
    requires forall i | 0 <= i < |ops| :: ops[i].on < n
    ensures ValidOps(ops, n)
    decreases |ops|
  {
    if ops != [] {
      AnyOpsValid(ops[1..], if ops[0].Open? then n + 1 else n);
    }
  }

  /** Whether a group's slice lies in the array in question, and how long it is. */
  datatype Slot = Here(len: nat) | Elsewhere

  ghost function SlotOf(g: Group, cells: array<int>): Slot {
    if g.middlewares.backing == cells then Here(g.middlewares.len) else Elsewhere
  }

  ghost function SlotsOf(scope: seq<Group>, cells: array<int>): (r: seq<Slot>)
    ensures |r| == |scope|
  {
    seq(|scope|, k requires 0 <= k < |scope| => SlotOf(scope[k], cells))
  }

  datatype Write = Write(at: nat, xs: seq<int>)

  predicate Fits(slot: Slot, xs: seq<int>, capacity: nat) {
    slot.Here? && slot.len + |xs| <= capacity
  }

  /** The scope after an operation. */
  function NextSlots(slots: seq<Slot>, op: Op, capacity: nat): (r: seq<Slot>)
    requires op.on < |slots|
    ensures |r| == |slots| + if op.Open? then 1 else 0
  {
    var slot := slots[op.on];
    if !op.Open? then slots
    else slots + [if Fits(slot, op.middlewares, capacity) then Here(slot.len + |op.middlewares|) else Elsewhere]
  }

  /** What the operations write into an array of this capacity: every append that fits, and nothing once
      a slice has moved away. */
  function Writes(capacity: nat, slots: seq<Slot>, ops: seq<Op>): seq<Write>
    requires ValidOps(ops, |slots|)
    decreases |ops|
  {
    if ops == [] then []
    else
      var slot, xs := slots[ops[0].on], ops[0].middlewares;
      var later := Writes(capacity, NextSlots(slots, ops[0], capacity), ops[1..]);
      if Fits(slot, xs, capacity) then [Write(slot.len, xs)] + later else later
  }

  /** The value of cell `c` after the writes, `value` being what it was. */
  function LastWritten(writes: seq<Write>, c: nat, value: int): int
    decreases |writes|
  {
    if writes == [] then value
    else
      var w := writes[0];
      LastWritten(writes[1..], c, if w.at <= c < w.at + |w.xs| then w.xs[c - w.at] else value)
  }

  /** The operations leave the first `len` cells as they are. */
  ghost predicate Harmless(cells: seq<int>, writes: seq<Write>, len: nat)
    requires len <= |cells|
  {
    forall c: nat | c < len :: LastWritten(writes, c, cells[c]) == cells[c]
  }

  ghost predicate CellsAs(was: seq<int>, writes: seq<Write>, now: seq<int>) {
    |now| == |was| && forall c: nat | c < |was| :: now[c] == LastWritten(writes, c, was[c])
  }

  lemma OneWriteFirst(was: seq<int>, w: Write, later: seq<Write>, mid: seq<int>, now: seq<int>)
    requires w.at + |w.xs| <= |was| && mid == CellsAfter(was, w.at, w.xs) && CellsAs(mid, later, now)
    ensures CellsAs(was, [w] + later, now)
  {
    assert ([w] + later)[1..] == later;
    forall c: nat | c < |was| ensures now[c] == LastWritten([w] + later, c, was[c]) {
      assert mid[c] == if w.at <= c < w.at + |w.xs| then w.xs[c - w.at] else was[c];
    }
  }

  /** The cells of an array after an append to a slice in `slot`, or elsewhere. */
  function Appended(cells: seq<int>, slot: Slot, xs: seq<int>): seq<int> {
    if Fits(slot, xs, |cells|) then CellsAfter(cells, slot.len, xs) else cells
  }

  /** What one append writes, and then others. */
  function WriteThen(capacity: nat, slot: Slot, xs: seq<int>, later: seq<Write>): seq<Write> {
    if Fits(slot, xs, capacity) then [Write(slot.len, xs)] + later else later
  }

  lemma WritesUnfold(capacity: nat, slots: seq<Slot>, ops: seq<Op>)
    requires ops != [] && ValidOps(ops, |slots|)
    ensures Writes(capacity, slots, ops) ==
            WriteThen(capacity, slots[ops[0].on], ops[0].middlewares,
                      Writes(capacity, NextSlots(slots, ops[0], capacity), ops[1..]))
  {
  }

  /** One append, then the others. */
  lemma CellsThen(was: seq<int>, slot: Slot, xs: seq<int>, later: seq<Write>, mid: seq<int>, now: seq<int>)
    requires mid == Appended(was, slot, xs) && CellsAs(mid, later, now)
    ensures CellsAs(was, WriteThen(|was|, slot, xs, later), now)
  {
    if Fits(slot, xs, |was|) {
      OneWriteFirst(was, Write(slot.len, xs), later, mid, now);
    }
  }

  /** `group.Group` up to its callback, as far as the array `cells` is concerned. */
  method OpenOn(g: Group, path: string, middlewares: seq<int>, ghost cells: array<int>) returns (nested: Group)
    requires g.middlewares.Ok()
    modifies g.middlewares.backing
    ensures nested.middlewares.Ok()
    ensures nested.middlewares.backing == g.middlewares.backing || fresh(nested.middlewares.backing)
    ensures cells[..] == Appended(old(cells[..]), SlotOf(g, cells), middlewares)
    ensures SlotOf(nested, cells) ==
            if Fits(SlotOf(g, cells), middlewares, cells.Length) then Here(g.middlewares.len + |middlewares|)
            else Elsewhere
  {
    var extended := Append(g.middlewares, middlewares);
    nested := Group(g.path + path, extended);
  }

  method RegisterOn(engine: Engine, g: Group, op: Op, ghost cells: array<int>)
    requires g.middlewares.Ok() && op.Register?
    modifies engine, g.middlewares.backing
    ensures cells[..] == Appended(old(cells[..]), SlotOf(g, cells), op.middlewares)
  {
    Registered(engine, g, op.verb, op.url, op.middlewares, op.action);
  }

  lemma SlotsSnoc(scope: seq<Group>, g: Group, cells: array<int>)
    ensures SlotsOf(scope + [g], cells) == SlotsOf(scope, cells) + [SlotOf(g, cells)]
  {
  }

  /** One operation, and the scope after it. */
  method RunOp(engine: Engine, scope: seq<Group>, op: Op, ghost cells: array<int>) returns (scope': seq<Group>)
    requires op.on < |scope| && forall g <- scope :: g.middlewares.Ok()
    modifies engine, scope[op.on].middlewares.backing
    ensures !op.Open? ==> scope' == scope
    ensures op.Open? ==>
              && |scope'| == |scope| + 1 && scope'[..|scope|] == scope && scope'[|scope|].middlewares.Ok()
              && (scope'[|scope|].middlewares.backing == scope[op.on].middlewares.backing ||
                  fresh(scope'[|scope|].middlewares.backing))
    ensures cells[..] == Appended(old(cells[..]), SlotOf(scope[op.on], cells), op.middlewares)
    ensures SlotsOf(scope', cells) == NextSlots(SlotsOf(scope, cells), op, cells.Length)
  {
    match op {
      case Open(on, path, middlewares) =>
        var nested := OpenOn(scope[on], path, middlewares, cells);
        SlotsSnoc(scope, nested, cells);
        scope' := scope + [nested];
      case Register(on, _, _, _, _) =>
        RegisterOn(engine, scope[on], op, cells);
        scope' := scope;
    }
  }

  /** Any sequence of operations on any groups, whoever opened them: what becomes of every cell. */
  method RunOps(engine: Engine, scope: seq<Group>, ops: seq<Op>, ghost cells: array<int>)
    requires ValidOps(ops, |scope|) && forall g <- scope :: g.middlewares.Ok()
    modifies engine, set g | g in scope :: g.middlewares.backing
    ensures CellsAs(old(cells[..]), Writes(cells.Length, SlotsOf(scope, cells), ops), cells[..])
    decreases |ops|
  {
    if ops != [] {
      ghost var slots, was, op := SlotsOf(scope, cells), cells[..], ops[0];
      var scope' := RunOp(engine, scope, ops[0], cells);
      ghost var mid := cells[..];
      assert forall g <- scope' :: g in scope || g == scope'[|scope|];
      RunOps(engine, scope', ops[1..], cells);
      WritesUnfold(cells.Length, slots, ops);
      CellsThen(was, slots[op.on], op.middlewares,
                Writes(cells.Length, NextSlots(slots, op, cells.Length), ops[1..]), mid, cells[..]);
    }
  }

  lemma IntactIff(was: seq<int>, writes: seq<Write>, now: seq<int>, len: nat)
    requires CellsAs(was, writes, now) && len <= |was|
    ensures now[..len] == was[..len] <==> Harmless(was, writes, len)
  {
    assert now[..len] == was[..len] ==> forall c: nat | c < len :: now[..len][c] == was[..len][c];
  }

  /** So a group keeps its middlewares through any use of itself, of the groups around it and of the
      groups beside it, exactly when the last value written into each of its cells is the one that was
      there. */
  method UseGroups(engine: Engine, scope: seq<Group>, ops: seq<Op>, g: Group)
    requires ValidOps(ops, |scope|) && g in scope && forall h <- scope :: h.middlewares.Ok()
    modifies engine, set h | h in scope :: h.middlewares.backing
    ensures var cells := g.middlewares.backing;
            g.middlewares.Elems() == old(g.middlewares.Elems()) <==>
            Harmless(old(cells[..]), Writes(cells.Length, SlotsOf(scope, cells), ops), g.middlewares.len)
  {
    ghost var cells := g.middlewares.backing;
    ghost var was := cells[..];
    RunOps(engine, scope, ops, cells);
    IntactIff(was, Writes(cells.Length, SlotsOf(scope, cells), ops), cells[..], g.middlewares.len);
    assert was[..g.middlewares.len] == old(g.middlewares.Elems());
    assert cells[..][..g.middlewares.len] == g.middlewares.Elems();
  }

  /** Every operation is on a group whose slice, if in the array, has at least `len` elements. */
  predicate AtOrBelow(slots: seq<Slot>, ops: seq<Op>, capacity: nat, len: nat)
    requires ValidOps(ops, |slots|)
    decreases |ops|
  {
    ops == [] ||
    ((slots[ops[0].on].Here? ==> len <= slots[ops[0].on].len) &&
     AtOrBelow(NextSlots(slots, ops[0], capacity), ops[1..], capacity, len))
  }

  predicate AllAtLeast(slots: seq<Slot>, len: nat) {
    forall k | 0 <= k < |slots| :: slots[k].Here? ==> len <= slots[k].len
  }

  /** Groups opened below such groups are such groups. */
  lemma {:induction false} StaysBelow(slots: seq<Slot>, ops: seq<Op>, capacity: nat, len: nat)
    requires ValidOps(ops, |slots|) && AllAtLeast(slots, len)
    ensures AtOrBelow(slots, ops, capacity, len)
    decreases |ops|
  {
    if ops != [] {
      StaysBelow(NextSlots(slots, ops[0], capacity), ops[1..], capacity, len);
    }
  }

  /** Operations on such groups write into none of the first `len` cells. */
  lemma {:induction false} BelowIsHarmless(slots: seq<Slot>, ops: seq<Op>, capacity: nat, len: nat, c: nat, value: int)
    requires ValidOps(ops, |slots|) && AtOrBelow(slots, ops, capacity, len) && c < len
    ensures LastWritten(Writes(capacity, slots, ops), c, value) == value
    decreases |ops|
  {
    if ops != [] {
      var slot, xs, slots' := slots[ops[0].on], ops[0].middlewares, NextSlots(slots, ops[0], capacity);
      var later := Writes(capacity, slots', ops[1..]);
      BelowIsHarmless(slots', ops[1..], capacity, len, c, value);
      WritesUnfold(capacity, slots, ops);
      if Fits(slot, xs, capacity) {
        assert ([Write(slot.len, xs)] + later)[1..] == later;
      }
    }
  }

  /** Why a callback that uses only the group it is given, and groups opened below it, does no harm. */
  lemma OwnUseIsHarmless(cells: seq<int>, len: nat, ops: seq<Op>)
    requires len <= |cells| && ValidOps(ops, 1)
    ensures Harmless(cells, Writes(|cells|, [Here(len)], ops), len)
  {
    StaysBelow([Here(len)], ops, |cells|, len);
    forall c: nat | c < len
      ensures LastWritten(Writes(|cells|, [Here(len)], ops), c, cells[c]) == cells[c]
    {
      BelowIsHarmless([Here(len)], ops, |cells|, len, c, cells[c]);
    }
  }

  /** So whatever the callback opens and registers below its own group, the group keeps its
      middlewares. */
  method UseOwnGroup(engine: Engine, g: Group, ops: seq<Op>)
    requires ValidOps(ops, 1) && g.middlewares.Ok()
    modifies engine, g.middlewares.backing
    ensures g.middlewares.Elems() == old(g.middlewares.Elems())
  {
    ghost var cells := g.middlewares.backing;
    OwnUseIsHarmless(cells[..], g.middlewares.len, ops);
    assert SlotsOf([g], cells) == [Here(g.middlewares.len)];
    UseGroups(engine, [g], ops, g);
  }
}
