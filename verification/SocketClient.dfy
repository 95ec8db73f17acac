/** The browser side (web/client/src/common/socket/Socket.js, Websocket.js): an outbox that survives
    reconnects, a registry of handlers that is never pruned, and resubscription when a connection
    opens; together with the server of `SubscriptionServer` an end-to-end protocol. */
module SocketClient {
  import opened SubscriptionServer

  datatype Message = Subscribe(key: Key) | Unsubscribe(key: Key) | Ping

  /** Handlers by key.  A key stays when its last handler goes. */
  type Registry = map<Key, set<nat>>

  function HandlersOf(registry: Registry, key: Key): set<nat> {
    if key in registry then registry[key] else {}
  }

  function Added(registry: Registry, key: Key, handler: nat): Registry {
    registry[key := HandlersOf(registry, key) + {handler}]
  }

  function Removed(registry: Registry, key: Key, handler: nat): Registry {
    registry[key := HandlersOf(registry, key) - {handler}]
  }

  function Resubscriptions(order: seq<Key>): (r: seq<Message>)
    ensures |r| == |order|
  {
    seq(|order|, i requires 0 <= i < |order| => Subscribe(order[i]))
  }

  // ---------------------------------------------------------------- the program

  class Socket {
    var messageQueue: seq<Message>
    var isOpen: bool
    /** Frames written to the present connection. */
    var written: seq<Message>

    constructor ()
      ensures messageQueue == [] && !isOpen && written == []
    {
      messageQueue, isOpen, written := [], false, [];
    }

    method Send(m: Message)
      modifies `messageQueue
      ensures messageQueue == old(messageQueue) + [m]
    {
      messageQueue := messageQueue + [m];
    }

    /** `fireSend` up to the point where it sets a timer or gives up. */
    method FireSend()
      modifies `messageQueue, `written
      ensures isOpen ==> messageQueue == [] && written == old(written) + old(messageQueue)
      ensures !isOpen ==> messageQueue == old(messageQueue) && written == old(written)
      decreases |messageQueue|
    {
      if |messageQueue| > 0 {
        if !isOpen {
          return;
        }
        var data := messageQueue[0];
        assert messageQueue == [data] + messageQueue[1..];
        messageQueue := messageQueue[1..];
        written := written + [data];
        FireSend();
      }
    }
  }

  ghost predicate Enumerates(order: seq<Key>, keys: set<Key>) {
    (forall i, j | 0 <= i < j < |order| :: order[i] != order[j]) && forall key :: key in order <==> key in keys
  }

  class Page {
    const socket: Socket
    var subscribed: Registry

    constructor ()
      ensures fresh(socket) && socket.messageQueue == [] && !socket.isOpen && subscribed == map[]
    {
      socket := new Socket();
      subscribed := map[];
    }

    /** The effect of `useSubscribe`. */
    method Mount(key: Key, handler: nat)
      modifies this, socket`messageQueue
      ensures subscribed == Added(old(subscribed), key, handler)
      ensures socket.messageQueue == old(socket.messageQueue) + [Subscribe(key)]
    {
      socket.Send(Subscribe(key));
      if key !in subscribed {
        subscribed := subscribed[key := {}];
      }
      subscribed := subscribed[key := subscribed[key] + {handler}];
    }

    /** Its cleanup. */
    method Unmount(key: Key, handler: nat)
      requires key in subscribed
      modifies this, socket`messageQueue
      ensures subscribed == Removed(old(subscribed), key, handler)
      ensures socket.messageQueue == old(socket.messageQueue) + [Unsubscribe(key)]
    {
      socket.Send(Unsubscribe(key));
      subscribed := subscribed[key := subscribed[key] - {handler}];
    }

    /** `openCb` runs through every registered key in some order; its emptiness test compares an array
        with 0 and never holds, so keys without handlers are sent as well. */
    method OnOpen() returns (ghost order: seq<Key>)
      modifies socket`messageQueue
      ensures Enumerates(order, subscribed.Keys)
      ensures socket.messageQueue == old(socket.messageQueue) + Resubscriptions(order)
    {
      order := [];
      var unvisited := subscribed.Keys;
      while unvisited != {}
        invariant unvisited <= subscribed.Keys && Enumerates(order, subscribed.Keys - unvisited)
        invariant socket.messageQueue == old(socket.messageQueue) + Resubscriptions(order)
        decreases unvisited
      {
        var key :| key in unvisited;
        socket.Send(Subscribe(key));
        assert Resubscriptions(order + [key]) == Resubscriptions(order) + [Subscribe(key)];
        order, unvisited := order + [key], unvisited - {key};
      }
    }

    /** `messageCb` on an update: the handlers called. */
    method Dispatch(key: Key) returns (called: set<nat>)
      ensures called == HandlersOf(subscribed, key)
    {
      called := {};
      if key in subscribed {
        called := subscribed[key];
      }
    }
  }

  // ---------------------------------------------------------------- the protocol

  /** A frame that has reached the page, and the handlers called for it. */
  datatype Call = Call(frame: Frame, handlers: set<nat>)

  /** One page and its connections, numbered in the order they open.  `wire` holds the frames of
      connection `conn` the server has not read, `log` what the server has handled.  After a close the
      server may still read some of the wire; the rest is lost when the next connection opens.

      `calls` are the frames of connection `conn` that have reached the page, each with the handlers
      called for it.

      The last four fields are bookkeeping: the keys the page last asked for on this connection, the
      keys the server may have added by itself, every `send` call, every frame written. */
  datatype World = World(
    registry: Registry, queue: seq<Message>, isOpen: bool, conn: nat, wire: seq<Message>, log: seq<Event>,
    calls: seq<Call>, wanted: set<Key>, auto: set<Key>, accepted: seq<Message>, sent: seq<Message>)

  datatype Step =
    | Mount(key: Key, handler: nat)
    | Unmount(key: Key, handler: nat)
    | Heartbeat
    | Open(order: seq<Key>)
    | Fire
    | Close
    | Read
    | Serve(event: Event)
    | Deliver

  const START := World(map[], [], false, 0, [], [], [], {}, {}, [], [])

  /** Every connection of a page carries the same client id. */
  function OneId(c: nat): int {
    1
  }

  /** What the server has queued for connection `conn`, in the order its writer sends it. */
  function Queue(log: seq<Event>, conn: nat): seq<Frame> {
    Frames(OneId, log, conn)
  }

  /** `messageCb`: the handlers a frame calls. */
  function Called(registry: Registry, frame: Frame): set<nat> {
    match frame
    case Update(key, _) => HandlersOf(registry, key)
    case Pong => {}
  }

  /** Events of the server that are not readings of the present connection: its own registration and
      everything about other connections, broadcasts and new logs. */
  predicate External(event: Event, conn: nat) {
    match event
    case Registered(d) => d <= conn
    case Unregistered(d) => d <= conn
    case Toggled(d, _, _) => d < conn
    case Pinged(d) => d < conn
    case Broadcast(_, _) => true
    case NewLog(_, _) => true
  }

  ghost predicate Enabled(w: World, step: Step) {
    match step
    case Mount(key, handler) => handler !in HandlersOf(w.registry, key)
    case Unmount(key, handler) => handler in HandlersOf(w.registry, key)
    case Heartbeat => true
    case Open(order) => !w.isOpen && Enumerates(order, w.registry.Keys)
    case Fire => true
    case Close => w.isOpen
    case Read => w.wire != []
    case Serve(event) => External(event, w.conn)
    case Deliver => w.isOpen && |w.calls| < |Queue(w.log, w.conn)|
  }

  /** What the server makes of a message.  The page's heartbeat carries an object where the server
      expects a string, so it cannot be parsed and is skipped: it is never answered. */
  function Handled(conn: nat, m: Message): seq<Event> {
    match m
    case Subscribe(key) => [Toggled(conn, key, true)]
    case Unsubscribe(key) => [Toggled(conn, key, false)]
    case Ping => []
  }

  function Enqueue(w: World, messages: seq<Message>): World {
    w.(queue := w.queue + messages, accepted := w.accepted + messages)
  }

  ghost function Next(w: World, step: Step): World
    requires Enabled(w, step)
  {
    match step
    case Mount(key, handler) =>
      Enqueue(w, [Subscribe(key)]).(registry := Added(w.registry, key, handler), wanted := w.wanted + {key})
    case Unmount(key, handler) =>
      Enqueue(w, [Unsubscribe(key)]).(registry := Removed(w.registry, key, handler), wanted := w.wanted - {key})
    case Heartbeat => Enqueue(w, [Ping])
    case Open(order) =>
      Enqueue(w, Resubscriptions(order)).(
        isOpen := true, conn := w.conn + 1, wire := [], calls := [], wanted := w.registry.Keys, auto := {})
    case Fire =>
      if w.isOpen then w.(queue := [], wire := w.wire + w.queue, sent := w.sent + w.queue) else w
    case Close => w.(isOpen := false)
    case Read => w.(wire := w.wire[1..], log := w.log + Handled(w.conn, w.wire[0]))
    case Serve(event) =>
      w.(log := w.log + [event], auto := if event.NewLog? then w.auto + {Key(TASK_LOG, event.log)} else w.auto)
    case Deliver =>
      var frame := Queue(w.log, w.conn)[|w.calls|];
      w.(calls := w.calls + [Call(frame, Called(w.registry, frame))])
  }

  ghost predicate Legal(w: World, steps: seq<Step>)
    decreases |steps|
  {
    steps == [] || (Enabled(w, steps[0]) && Legal(Next(w, steps[0]), steps[1..]))
  }

  ghost function End(w: World, steps: seq<Step>): World
    requires Legal(w, steps)
    decreases |steps|
  {
    if steps == [] then w else End(Next(w, steps[0]), steps[1..])
  }

  predicate ServerFollows(log: seq<Event>, conn: nat, key: Key) {
    Follows(OneId, log, conn, key)
  }

  // ---------------------------------------------------------------- the invariant

  /** Whether the server will follow `key` once it has read `pending`. */
  predicate Eventually(log: seq<Event>, conn: nat, pending: seq<Message>, key: Key) {
    if pending == [] then ServerFollows(log, conn, key)
    else
      match pending[|pending| - 1]
      case Subscribe(k) => k == key || Eventually(log, conn, pending[..|pending| - 1], key)
      case Unsubscribe(k) => k != key && Eventually(log, conn, pending[..|pending| - 1], key)
      case Ping => Eventually(log, conn, pending[..|pending| - 1], key)
  }

  ghost predicate Inv(w: World) {
    && (forall m <- w.queue :: m.Subscribe? ==> m.key in w.registry)
    && w.wanted <= w.registry.Keys
    && (forall d: nat, key | w.conn < d :: !ServerFollows(w.log, d, key))
    && (w.isOpen ==> forall key ::
          (key in w.wanted ==> Eventually(w.log, w.conn, w.wire + w.queue, key)) &&
          (Eventually(w.log, w.conn, w.wire + w.queue, key) ==> key in w.wanted || key in w.auto))
    && w.sent + w.queue == w.accepted
  }

  lemma EventuallySnoc(log: seq<Event>, conn: nat, pending: seq<Message>, m: Message)
    ensures forall key :: Eventually(log, conn, pending + [m], key) <==>
              match m
              case Subscribe(k) => k == key || Eventually(log, conn, pending, key)
              case Unsubscribe(k) => k != key && Eventually(log, conn, pending, key)
              case Ping => Eventually(log, conn, pending, key)
  {
    assert (pending + [m])[..|pending|] == pending;
  }

  /** Reading the first pending message changes nothing about the outcome. */
  lemma {:induction false} EventuallyRead(log: seq<Event>, conn: nat, m: Message, rest: seq<Message>, key: Key)
    ensures Eventually(log, conn, [m] + rest, key) <==> Eventually(log + Handled(conn, m), conn, rest, key)
    decreases |rest|
  {
    if m.Ping? {
      assert log + Handled(conn, m) == log;
    } else {
      Unfold(OneId, log, Handled(conn, m)[0]);
    }
    if rest == [] {
      assert [m] + rest == [m] && [m][..0] == [];
    } else {
      var before, last := rest[..|rest| - 1], rest[|rest| - 1];
      EventuallyRead(log, conn, m, before, key);
      assert ([m] + rest)[..|rest|] == [m] + before;
    }
  }

  /** An external event leaves the outcome as it is, except that a new log may add its own key. */
  lemma {:induction false} EventuallyServe(log: seq<Event>, conn: nat, event: Event, pending: seq<Message>, key: Key)
    requires External(event, conn)
    ensures Eventually(log, conn, pending, key) ==> Eventually(log + [event], conn, pending, key)
    ensures Eventually(log + [event], conn, pending, key) ==>
              Eventually(log, conn, pending, key) || (event.NewLog? && key == Key(TASK_LOG, event.log))
    decreases |pending|
  {
    Unfold(OneId, log, event);
    if pending != [] {
      EventuallyServe(log, conn, event, pending[..|pending| - 1], key);
    }
  }

  /** After a burst of subscriptions exactly their keys are added. */
  lemma {:induction false} EventuallyResubscribed(log: seq<Event>, conn: nat, pending: seq<Message>,
                                                  order: seq<Key>, key: Key)
    ensures Eventually(log, conn, pending + Resubscriptions(order), key) <==>
            key in order || Eventually(log, conn, pending, key)
    decreases |order|
  {
    if order == [] {
      assert pending + Resubscriptions(order) == pending;
    } else {
      var before, last := order[..|order| - 1], order[|order| - 1];
      EventuallyResubscribed(log, conn, pending, before, key);
      assert pending + Resubscriptions(order) == (pending + Resubscriptions(before)) + [Subscribe(last)];
      EventuallySnoc(log, conn, pending + Resubscriptions(before), Subscribe(last));
    }
  }

  lemma {:induction false} EventuallyNeedsSubscribe(log: seq<Event>, conn: nat, pending: seq<Message>, key: Key)
    requires Eventually(log, conn, pending, key)
    ensures ServerFollows(log, conn, key) || Subscribe(key) in pending
    decreases |pending|
  {
    if pending != [] && pending[|pending| - 1] != Subscribe(key) {
      EventuallyNeedsSubscribe(log, conn, pending[..|pending| - 1], key);
    }
  }

  lemma EnqueueKeepsInv(w: World, step: Step)
    requires Inv(w) && Enabled(w, step) && (step.Mount? || step.Unmount? || step.Heartbeat?)
    ensures Inv(Next(w, step))
  {
    var m := match step
      case Mount(key, _) => Subscribe(key)
      case Unmount(key, _) => Unsubscribe(key)
      case _ => Ping;
    EventuallySnoc(w.log, w.conn, w.wire + w.queue, m);
    assert w.wire + (w.queue + [m]) == (w.wire + w.queue) + [m];
    assert w.sent + (w.queue + [m]) == (w.sent + w.queue) + [m];
  }

  /** On a connection the server has not heard from, the old outbox and then a subscription to every
      key in `order` leave exactly those keys followed, if the outbox only subscribes to them. */
  lemma OpenOutcome(log: seq<Event>, conn: nat, queue: seq<Message>, order: seq<Key>)
    requires forall key :: !ServerFollows(log, conn, key)
    requires forall m <- queue :: m.Subscribe? ==> m.key in order
    ensures forall key :: Eventually(log, conn, queue + Resubscriptions(order), key) <==> key in order
  {
    forall key ensures Eventually(log, conn, queue + Resubscriptions(order), key) <==> key in order {
      EventuallyResubscribed(log, conn, queue, order, key);
      if Eventually(log, conn, queue, key) {
        EventuallyNeedsSubscribe(log, conn, queue, key);
      }
    }
  }

  lemma StillConserved(sent: seq<Message>, queue: seq<Message>, more: seq<Message>, accepted: seq<Message>)
    requires sent + queue == accepted
    ensures sent + (queue + more) == accepted + more
  {
  }

  lemma ResubscriptionsIn(queue: seq<Message>, order: seq<Key>, keys: set<Key>)
    requires (forall m <- queue :: m.Subscribe? ==> m.key in keys) && forall key <- order :: key in keys
    ensures forall m <- queue + Resubscriptions(order) :: m.Subscribe? ==> m.key in keys
  {
    forall m <- queue + Resubscriptions(order) ensures m.Subscribe? ==> m.key in keys {
      assert m in queue || m in Resubscriptions(order);
    }
  }

  lemma OpenKeepsInv(w: World, order: seq<Key>)
    requires Inv(w) && Enabled(w, Open(order))
    ensures Inv(Next(w, Open(order)))
  {
    var w' := Next(w, Open(order));
    var pending := w.queue + Resubscriptions(order);
    assert w'.queue == pending && w'.wire + pending == pending;
    ResubscriptionsIn(w.queue, order, w.registry.Keys);
    OpenOutcome(w.log, w'.conn, w.queue, order);
    StillConserved(w.sent, w.queue, Resubscriptions(order), w.accepted);
  }

  /** What the server handles never reaches a connection that is not open yet. */
  lemma FutureUntouched(log: seq<Event>, event: Event, conn: nat)
    requires External(event, conn) || event.Toggled? || event.Pinged?
    requires event.Toggled? || event.Pinged? ==> event.conn <= conn
    requires forall d: nat, key | conn < d :: !ServerFollows(log, d, key)
    ensures forall d: nat, key | conn < d :: !ServerFollows(log + [event], d, key)
  {
    Unfold(OneId, log, event);
    forall d: nat, key | conn < d ensures !ServerFollows(log + [event], d, key) {
      assert !ServerFollows(log, d, key);
      if event.NewLog? {
        assert !ServerFollows(log, d, Key(TASK_LOG_ADD, event.task));
      }
    }
  }

  lemma ReadKeepsInv(w: World)
    requires Inv(w) && Enabled(w, Read)
    ensures Inv(Next(w, Read))
  {
    var w' := Next(w, Read);
    if w.wire[0].Ping? {
      assert w'.log == w.log;
    } else {
      FutureUntouched(w.log, Handled(w.conn, w.wire[0])[0], w.conn);
    }
    assert w.wire + w.queue == [w.wire[0]] + (w'.wire + w.queue);
    forall key
      ensures Eventually(w.log, w.conn, w.wire + w.queue, key) <==>
              Eventually(w'.log, w'.conn, w'.wire + w'.queue, key)
    {
      EventuallyRead(w.log, w.conn, w.wire[0], w'.wire + w.queue, key);
    }
  }

  lemma ServeKeepsInv(w: World, event: Event)
    requires Inv(w) && External(event, w.conn)
    ensures Inv(Next(w, Serve(event)))
  {
    var w' := Next(w, Serve(event));
    FutureUntouched(w.log, event, w.conn);
    forall key
      ensures Eventually(w.log, w.conn, w.wire + w.queue, key) ==> Eventually(w'.log, w'.conn, w'.wire + w'.queue, key)
      ensures Eventually(w'.log, w'.conn, w'.wire + w'.queue, key) ==>
                Eventually(w.log, w.conn, w.wire + w.queue, key) || (event.NewLog? && key == Key(TASK_LOG, event.log))
    {
      EventuallyServe(w.log, w.conn, event, w.wire + w.queue, key);
    }
  }

  lemma StepKeepsInv(w: World, step: Step)
    requires Inv(w) && Enabled(w, step)
    ensures Inv(Next(w, step))
  {
    match step {
      case Mount(_, _) => EnqueueKeepsInv(w, step);
      case Unmount(_, _) => EnqueueKeepsInv(w, step);
      case Heartbeat => EnqueueKeepsInv(w, step);
      case Open(order) => OpenKeepsInv(w, order);
      case Fire => assert w.wire + w.queue + [] == w.wire + w.queue;
      case Close =>
      case Read => ReadKeepsInv(w);
      case Serve(event) => ServeKeepsInv(w, event);
      case Deliver =>
    }
  }

  lemma {:induction false} RunsKeepInv(w: World, steps: seq<Step>)
    requires Inv(w) && Legal(w, steps)
    ensures Inv(End(w, steps))
    decreases |steps|
  {
    if steps != [] {
      StepKeepsInv(w, steps[0]);
      RunsKeepInv(Next(w, steps[0]), steps[1..]);
    }
  }

  // ---------------------------------------------------------------- results

  /** Nothing handed to `send` is lost, duplicated or reordered by the outbox, over any number of
      connections and of interleaved sending loops. */
  lemma OutboxConserves(steps: seq<Step>)
    requires Legal(START, steps)
    ensures var w := End(START, steps); w.sent + w.queue == w.accepted
  {
    RunsKeepInv(START, steps);
  }

  /** Connected, and everything sent has been read. */
  predicate Quiet(w: World) {
    w.isOpen && w.queue == [] && w.wire == []
  }

  /** When a connected page falls quiet, the server follows exactly what the page last asked for on
      this connection, and perhaps logs it subscribed the page to by itself. */
  lemma QuietServer(steps: seq<Step>, key: Key)
    requires Legal(START, steps) && Quiet(End(START, steps))
    ensures var w := End(START, steps);
            && (key in w.wanted ==> ServerFollows(w.log, w.conn, key))
            && (ServerFollows(w.log, w.conn, key) ==> key in w.wanted || key in w.auto)
  {
    RunsKeepInv(START, steps);
    var w := End(START, steps);
    assert w.wire + w.queue == [];
    assert key in w.wanted ==> Eventually(w.log, w.conn, w.wire + w.queue, key);
  }

  /** Every key with a handler is wanted. */
  ghost predicate LiveKeysWanted(w: World) {
    w.isOpen ==> forall key <- w.registry | w.registry[key] != {} :: key in w.wanted
  }

  /** The one step that can stop that: removing one of several handlers of a key. */
  lemma LiveKeysWantedIff(w: World, step: Step)
    requires Inv(w) && Enabled(w, step) && LiveKeysWanted(w)
    ensures LiveKeysWanted(Next(w, step)) <==>
            !(step.Unmount? && w.isOpen && w.registry[step.key] != {step.handler})
  {
    if step.Unmount? {
      var left := w.registry[step.key] - {step.handler};
      if left == {} {
        assert w.registry[step.key] == {step.handler};
      }
      assert step.key in Next(w, step).registry;
    }
  }

  /** At most one live handler per key, throughout the run. */
  ghost predicate SingleHandlers(w: World, steps: seq<Step>)
    requires Legal(w, steps)
    decreases |steps|
  {
    (forall key <- w.registry :: |w.registry[key]| <= 1) &&
    (steps == [] || SingleHandlers(Next(w, steps[0]), steps[1..]))
  }

  lemma OnlyOne(handlers: set<nat>, handler: nat)
    requires handler in handlers && |handlers| <= 1
    ensures handlers == {handler}
  {
    assert |handlers - {handler}| == 0;
    assert handlers == (handlers - {handler}) + {handler};
  }

  lemma {:induction false} LiveKeysStayWanted(w: World, steps: seq<Step>)
    requires Inv(w) && LiveKeysWanted(w) && Legal(w, steps) && SingleHandlers(w, steps)
    ensures LiveKeysWanted(End(w, steps))
    decreases |steps|
  {
    if steps != [] {
      var step := steps[0];
      if step.Unmount? {
        OnlyOne(w.registry[step.key], step.handler);
      }
      LiveKeysWantedIff(w, step);
      StepKeepsInv(w, step);
      LiveKeysStayWanted(Next(w, step), steps[1..]);
    }
  }

  /** Nothing but these conditions restricts what can happen next. */
  lemma AnythingMayHappen(w: World, key: Key, handler: nat, data: string, task: int, log: int, d: nat)
    ensures Enabled(w, Heartbeat) && Enabled(w, Fire)
    ensures w.isOpen ==> Enabled(w, Close)
    ensures w.wire != [] ==> Enabled(w, Read)
    ensures !(key in w.registry && handler in w.registry[key]) ==> Enabled(w, Mount(key, handler))
    ensures key in w.registry && handler in w.registry[key] ==> Enabled(w, Unmount(key, handler))
    ensures Enabled(w, Serve(Broadcast(key, data))) && Enabled(w, Serve(NewLog(task, log)))
    ensures d <= w.conn ==> Enabled(w, Serve(Registered(d))) && Enabled(w, Serve(Unregistered(d)))
    ensures d < w.conn ==> Enabled(w, Serve(Toggled(d, key, true))) && Enabled(w, Serve(Toggled(d, key, false)))
  {
  }

  // ---------------------------------------------------------------- such runs exist

  /** One more step. */
  lemma {:induction false} Then(w: World, steps: seq<Step>, step: Step)
    requires Legal(w, steps) && SingleHandlers(w, steps) && Enabled(End(w, steps), step)
    requires forall key <- Next(End(w, steps), step).registry :: |Next(End(w, steps), step).registry[key]| <= 1
    ensures Legal(w, steps + [step]) && SingleHandlers(w, steps + [step])
    ensures End(w, steps + [step]) == Next(End(w, steps), step)
    decreases |steps|
  {
    var all := steps + [step];
    if steps == [] {
      assert all[0] == step && all[1..] == [];
    } else {
      Then(Next(w, steps[0]), steps[1..], step);
      assert all[0] == steps[0] && all[1..] == steps[1..] + [step];
    }
  }

  /** A page with one handler whose first connection opens. */
  lemma MountedAndOpen(key: Key, handler: nat) returns (steps: seq<Step>)
    ensures Legal(START, steps) && SingleHandlers(START, steps)
    ensures var sub := Subscribe(key);
            End(START, steps) == World(map[key := {handler}], [sub, sub], true, 1, [], [], [], {key}, {},
                                       [sub, sub], [])
  {
    var sub := Subscribe(key);
    Then(START, [], Mount(key, handler));
    steps := [] + [Mount(key, handler)];
    assert End(START, steps) == World(map[key := {handler}], [sub], false, 0, [], [], [], {key}, {}, [sub], []);
    Then(START, steps, Open([key]));
    steps := steps + [Open([key])];
    assert Resubscriptions([key]) == [sub] && [sub] + [sub] == [sub, sub];
  }

  /** It writes, and loses the connection with everything on the wire. */
  lemma FirstConnectionLost(key: Key, handler: nat) returns (steps: seq<Step>)
    ensures Legal(START, steps) && SingleHandlers(START, steps)
    ensures var sub := Subscribe(key);
            End(START, steps) == World(map[key := {handler}], [], false, 1, [sub, sub], [], [], {key}, {},
                                       [sub, sub], [sub, sub])
  {
    steps := MountedAndOpen(key, handler);
    Then(START, steps, Fire);
    steps := steps + [Fire];
    Then(START, steps, Close);
    steps := steps + [Close];
  }

  /** The second connection opens, and the page writes again. */
  lemma Reopened(key: Key, handler: nat) returns (steps: seq<Step>)
    ensures Legal(START, steps) && SingleHandlers(START, steps)
    ensures var w := End(START, steps);
            && w.registry == map[key := {handler}] && w.queue == [] && w.wire == [Subscribe(key)]
            && w.isOpen && w.conn == 2 && w.log == []
  {
    steps := FirstConnectionLost(key, handler);
    Then(START, steps, Open([key]));
    steps := steps + [Open([key])];
    assert Resubscriptions([key]) == [Subscribe(key)];
    Then(START, steps, Fire);
    steps := steps + [Fire];
  }

  /** It is read, registered, and falls quiet: the situation the results below start from does occur
      after losses. */
  lemma QuietAfterLoss(key: Key, handler: nat) returns (steps: seq<Step>)
    ensures Legal(START, steps) && SingleHandlers(START, steps) && Quiet(End(START, steps))
    ensures var w := End(START, steps);
            w.conn == 2 && handler in HandlersOf(w.registry, key) && Listed(OneId, w.log, w.conn)
  {
    steps := Reopened(key, handler);
    Then(START, steps, Read);
    steps := steps + [Read];
    var w := End(START, steps);
    Then(START, steps, Serve(Registered(2)));
    UnfoldListed(OneId, w.log, Registered(2), 2);
    steps := steps + [Serve(Registered(2))];
  }

  // ---------------------------------------------------------------- delivery

  /** The frames that have reached the page are the first ones the server queued for this connection. */
  ghost predicate InOrder(w: World) {
    |w.calls| <= |Queue(w.log, w.conn)| && forall i | 0 <= i < |w.calls| :: w.calls[i].frame == Queue(w.log, w.conn)[i]
  }

  /** Within a connection the server's queue only grows. */
  lemma QueueGrows(w: World, step: Step)
    requires Enabled(w, step) && !step.Open?
    ensures Queue(w.log, w.conn) <= Queue(Next(w, step).log, w.conn)
  {
    match step {
      case Read =>
        if w.wire[0].Ping? {
          assert w.log + Handled(w.conn, w.wire[0]) == w.log;
        } else {
          Unfold(OneId, w.log, Handled(w.conn, w.wire[0])[0]);
        }
      case Serve(event) => Unfold(OneId, w.log, event);
      case _ =>
    }
  }

  lemma {:induction false} DeliveredInOrder(w: World, steps: seq<Step>)
    requires InOrder(w) && Legal(w, steps)
    ensures InOrder(End(w, steps))
    decreases |steps|
  {
    if steps != [] {
      if !steps[0].Open? {
        QueueGrows(w, steps[0]);
      }
      DeliveredInOrder(Next(w, steps[0]), steps[1..]);
    }
  }

  /** Frame `n` of this connection is an update for `key`, and if it has arrived it has called exactly
      `handler`, which is still there. */
  ghost predicate Awaited(w: World, conn: nat, n: nat, key: Key, data: string, handler: nat) {
    && w.conn == conn && InOrder(w)
    && n < |Queue(w.log, conn)| && Queue(w.log, conn)[n] == Update(key, data)
    && handler in HandlersOf(w.registry, key)
    && (n < |w.calls| ==> w.calls[n] == Call(Update(key, data), {handler}))
  }

  lemma {:induction false} AwaitedUntil(w: World, steps: seq<Step>, conn: nat, n: nat, key: Key, data: string,
                                        handler: nat)
    requires Awaited(w, conn, n, key, data, handler) && Legal(w, steps) && SingleHandlers(w, steps)
    requires forall i | 0 <= i < |steps| :: !steps[i].Open? && steps[i] != Unmount(key, handler)
    ensures Awaited(End(w, steps), conn, n, key, data, handler)
    decreases |steps|
  {
    if steps != [] {
      var step, w' := steps[0], Next(w, steps[0]);
      QueueGrows(w, step);
      OnlyOne(w.registry[key], handler);
      assert handler in HandlersOf(w'.registry, key);
      AwaitedUntil(w', steps[1..], conn, n, key, data, handler);
    }
  }

  /** When a connected page is quiet and its connection is the listed one, a broadcast on a key with a
      live handler is queued for it, as its next frame. */
  lemma BroadcastIsQueued(steps: seq<Step>, key: Key, handler: nat, data: string)
    requires Legal(START, steps) && SingleHandlers(START, steps) && Quiet(End(START, steps))
    requires var w := End(START, steps); handler in HandlersOf(w.registry, key) && Listed(OneId, w.log, w.conn)
    ensures var w := End(START, steps);
            InOrder(w) && Queue(w.log + [Broadcast(key, data)], w.conn) == Queue(w.log, w.conn) + [Update(key, data)]
  {
    var w := End(START, steps);
    LiveKeysStayWanted(START, steps);
    QuietServer(steps, key);
    Unfold(OneId, w.log, Broadcast(key, data));
    DeliveredInOrder(START, steps);
  }

  /** End to end: with one handler per key, over any disconnections and losses, let a connected page be
      quiet and its connection the listed one when a message on a key with a live handler is broadcast.
      Whatever happens then on this connection while the handler stays, the message is one frame of the
      page's connection; it can be delivered as long as the page is connected; and its delivery calls
      that handler and no other. */
  lemma BroadcastReachesHandler(steps: seq<Step>, key: Key, handler: nat, data: string, rest: seq<Step>)
    requires Legal(START, steps) && SingleHandlers(START, steps) && Quiet(End(START, steps))
    requires var w := End(START, steps); handler in HandlersOf(w.registry, key) && Listed(OneId, w.log, w.conn)
    requires var w := Next(End(START, steps), Serve(Broadcast(key, data))); Legal(w, rest) && SingleHandlers(w, rest)
    requires forall i | 0 <= i < |rest| :: !rest[i].Open? && rest[i] != Unmount(key, handler)
    ensures var w := End(START, steps);
            var n, end := |Queue(w.log, w.conn)|, End(Next(w, Serve(Broadcast(key, data))), rest);
            && |w.calls| <= n < |Queue(end.log, end.conn)| && Queue(end.log, end.conn)[n] == Update(key, data)
            && (end.isOpen && |end.calls| <= n ==> Enabled(end, Deliver))
            && (n < |end.calls| ==> end.calls[n] == Call(Update(key, data), {handler}))
  {
    var w := End(START, steps);
    BroadcastIsQueued(steps, key, handler, data);
    AwaitedUntil(Next(w, Serve(Broadcast(key, data))), rest, w.conn, |Queue(w.log, w.conn)|, key, data, handler);
  }

  lemma {:induction false} WantedStays(w: World, steps: seq<Step>, key: Key)
    requires Legal(w, steps) && key in w.wanted && w.wanted <= w.registry.Keys
    requires forall i | 0 <= i < |steps| :: !(steps[i].Unmount? && steps[i].key == key)
    ensures key in End(w, steps).wanted
    decreases |steps|
  {
    if steps != [] {
      var w' := Next(w, steps[0]);
      assert key in w'.wanted && w'.wanted <= w'.registry.Keys;
      WantedStays(w', steps[1..], key);
    }
  }

  /** Only a superset of the live keys is followed: any key ever registered, even one whose handlers are
      all gone, is subscribed again by the next connection, until the page unsubscribes it anew. */
  lemma DeadKeysComeBack(w: World, order: seq<Key>, steps: seq<Step>, key: Key)
    requires Inv(w) && Enabled(w, Open(order)) && Legal(Next(w, Open(order)), steps)
    requires key in w.registry && forall i | 0 <= i < |steps| :: !(steps[i].Unmount? && steps[i].key == key)
    requires Quiet(End(Next(w, Open(order)), steps))
    ensures var end := End(Next(w, Open(order)), steps); ServerFollows(end.log, end.conn, key)
  {
    var v := Next(w, Open(order));
    StepKeepsInv(w, Open(order));
    WantedStays(v, steps, key);
    RunsKeepInv(v, steps);
    var end := End(v, steps);
    assert end.wire + end.queue == [];
    assert Eventually(end.log, end.conn, end.wire + end.queue, key);
  }
}
