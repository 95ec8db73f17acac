/** The WebSocket server (web/ws/client.go, web/ws/ws.go, web/ws/subscription/log.go): per-connection
    subscription maps, the manager that fans broadcasts out, and the automatic subscription to the log
    of a run that has just begun. */
module SubscriptionServer {
  import opened Collections

  datatype Key = Key(kind: string, id: int)

  /** What is queued for a connection. */
  datatype Frame = Update(key: Key, data: string) | Pong



  const TASK := "TASK"
  const TASK_LOG := "TASK_LOG"
  const TASK_LOG_ADD := "TASK_LOG_ADD"

  class Client {
    const id: int
    var queue: seq<Frame>
    var subscribed: map<string, map<int, bool>>

    /** The nested map stands for a set of keys. */
    predicate Has(key: Key)
      reads this`subscribed
    {
      key.kind in subscribed && key.id in subscribed[key.kind]
    }

    /** Unsubscribing removes the entry, so every stored flag is true. */
    ghost predicate Valid()
      reads this`subscribed
    {
      forall kind <- subscribed, id <- subscribed[kind] :: subscribed[kind][id]
    }

    constructor (id: int)
      ensures this.id == id && Valid() && queue == [] && forall key :: !Has(key)
    {
      this.id := id;
      queue := [];
      subscribed := map[TASK := map[], TASK_LOG := map[], TASK_LOG_ADD := map[]];
    }

    method ToggleSubscribe(key: Key, on: bool)
      requires Valid()
      modifies this`subscribed
      ensures Valid() && forall k :: Has(k) <==> if k == key then on else old(Has(k))
    {
      if key.kind !in subscribed {
        subscribed := subscribed[key.kind := map[]];
      }
      if !on {
        subscribed := subscribed[key.kind := subscribed[key.kind] - {key.id}];
        return;
      }
      subscribed := subscribed[key.kind := subscribed[key.kind][key.id := on]];
    }

    method IsSubscribed(key: Key) returns (r: bool)
      ensures r <==> Has(key)
    {
      if key.kind !in subscribed {
        return false;
      }
      if key.id !in subscribed[key.kind] {
        return false;
      }
      return true;
    }

    method SendSubscribedInfo(key: Key, data: string)
      requires Valid()
      modifies this`queue
      ensures queue == old(queue) + if Has(key) then [Update(key, data)] else []
    {
      var isOpen, ok := false, false;
      if key.kind in subscribed && key.id in subscribed[key.kind] {
        isOpen, ok := subscribed[key.kind][key.id], true;
      }
      if !ok || !isOpen {
        return;
      }
      queue := queue + [Update(key, data)];
    }

    method AnswerPing()
      modifies this`queue
      ensures queue == old(queue) + [Pong]
    {
      queue := queue + [Pong];
    }
  }

  class Manager {
    var clientList: map<int, Client>

    ghost predicate Valid()
      reads this, clientList.Values
    {
      forall id <- clientList :: clientList[id].id == id && clientList[id].Valid()
    }

    constructor ()
      ensures Valid() && clientList == map[]
    {
      clientList := map[];
    }

    method Register(client: Client)
      requires Valid() && client.Valid()
      modifies this
      ensures Valid() && clientList == old(clientList)[client.id := client]
    {
      clientList := clientList[client.id := client];
    }

    /** Deletion is by id, whichever connection asks. */
    method Unregister(client: Client)
      requires Valid()
      modifies this
      ensures Valid() && clientList == old(clientList) - {client.id}
    {
      clientList := clientList - {client.id};
    }

    /** One broadcast, to the clients in any order. */
    method FanOut(key: Key, data: string)
      requires Valid()
      modifies set id | id in clientList :: clientList[id]`queue
      ensures Valid()
      ensures forall id <- clientList ::
                clientList[id].queue == old(clientList[id].queue) +
                    if clientList[id].Has(key) then [Update(key, data)] else []
    {
      var unvisited := clientList.Keys;
      while unvisited != {}
        invariant Valid() && unvisited <= clientList.Keys
        invariant forall id <- clientList ::
                    clientList[id].queue ==
                    old(clientList[id].queue) +
                    if id !in unvisited && clientList[id].Has(key) then [Update(key, data)] else []
        decreases unvisited
      {
        NonEmpty(unvisited);
        var id :| id in unvisited;
        clientList[id].SendSubscribedInfo(key, data);
        unvisited := unvisited - {id};
      }
    }

    /** `SendNewTaskLogFormOrm` up to its own broadcast: whoever follows the task's new logs is
        subscribed to this one. */
    method SubscribeToNewLog(task: int, log: int)
      requires Valid()
      modifies set id | id in clientList :: clientList[id]`subscribed
      ensures Valid()
      ensures forall id <- clientList, k ::
                clientList[id].Has(k) <==>
                old(clientList[id].Has(k)) ||
                (k == Key(TASK_LOG, log) && old(clientList[id].Has(Key(TASK_LOG_ADD, task))))
    {
      var unvisited := clientList.Keys;
      while unvisited != {}
        invariant Valid() && unvisited <= clientList.Keys
        invariant forall id <- clientList, k ::
                    clientList[id].Has(k) <==>
                    old(clientList[id].Has(k)) ||
                    (id !in unvisited && k == Key(TASK_LOG, log) && old(clientList[id].Has(Key(TASK_LOG_ADD, task))))
        decreases unvisited
      {
        NonEmpty(unvisited);
        var id :| id in unvisited;
        var follows := clientList[id].IsSubscribed(Key(TASK_LOG_ADD, task));
        if follows {
          clientList[id].ToggleSubscribe(Key(TASK_LOG, log), true);
        }
        unvisited := unvisited - {id};
      }
    }
  }

  // ---------------------------------------------------------------- histories

  /** What the server does, one event at a time; a connection is named by its number. */
  datatype Event =
    | Registered(conn: nat)
    | Unregistered(conn: nat)
    | Toggled(conn: nat, key: Key, on: bool)
    | Pinged(conn: nat)
    | Broadcast(key: Key, data: string)
    | NewLog(task: int, log: int)

  /** The client id each connection gave. */
  type Ids = nat -> int

  /** Connection `c` is the one listed under its client id. */
  predicate Listed(ids: Ids, events: seq<Event>, c: nat) {
    if events == [] then false
    else
      var before, last := events[..|events| - 1], events[|events| - 1];
      match last
      case Registered(d) => if ids(d) == ids(c) then d == c else Listed(ids, before, c)
      case Unregistered(d) => ids(d) != ids(c) && Listed(ids, before, c)
      case _ => Listed(ids, before, c)
  }

  /** The last event about connection `c` and `key` was a subscription. */
  predicate Follows(ids: Ids, events: seq<Event>, c: nat, key: Key) {
    if events == [] then false
    else
      var before, last := events[..|events| - 1], events[|events| - 1];
      match last
      case Toggled(d, k, on) => if d == c && k == key then on else Follows(ids, before, c, key)
      case NewLog(task, log) =>
        Follows(ids, before, c, key) ||
        (key == Key(TASK_LOG, log) && Listed(ids, before, c) && Follows(ids, before, c, Key(TASK_LOG_ADD, task)))
      case _ => Follows(ids, before, c, key)
  }

  /** What an event queues for connection `c`, given what happened before it. */
  function Queued(ids: Ids, before: seq<Event>, event: Event, c: nat): seq<Frame> {
    match event
    case Pinged(d) => if d == c then [Pong] else []
    case Broadcast(key, data) =>
      if Listed(ids, before, c) && Follows(ids, before, c, key) then [Update(key, data)] else []
    case _ => []
  }

  /** The frames of connection `c`: for each event, in order, what that event queues. */
  function Frames(ids: Ids, events: seq<Event>, c: nat): seq<Frame> {
    if events == [] then []
    else
      var before, last := events[..|events| - 1], events[|events| - 1];
      Frames(ids, before, c) + Queued(ids, before, last, c)
  }

  ghost predicate Mirrors(manager: Manager, conns: seq<Client>, ids: Ids, events: seq<Event>)
    reads manager, conns
  {
    && (forall c: nat | c < |conns| :: conns[c].Valid() && conns[c].queue == Frames(ids, events, c))
    && (forall c: nat, key | c < |conns| :: conns[c].Has(key) <==> Follows(ids, events, c, key))
    && (forall id <- manager.clientList :: manager.clientList[id] in conns && manager.clientList[id].id == id)
    && (forall c: nat | c < |conns| ::
          Listed(ids, events, c) <==> ids(c) in manager.clientList && manager.clientList[ids(c)] == conns[c])
  }

  ghost predicate Distinct(conns: seq<Client>, ids: Ids) {
    && (forall c: nat, d: nat | c < d < |conns| :: conns[c] != conns[d])
    && (forall c: nat | c < |conns| :: conns[c].id == ids(c))
  }

  predicate InRange(event: Event, n: nat) {
    match event
    case Registered(c) => c < n
    case Unregistered(c) => c < n
    case Toggled(c, _, _) => c < n
    case Pinged(c) => c < n
    case _ => true
  }

  /** One more event, for one connection. */
  lemma UnfoldListed(ids: Ids, events: seq<Event>, event: Event, c: nat)
    ensures Listed(ids, events + [event], c) <==>
            match event
            case Registered(d) => if ids(d) == ids(c) then d == c else Listed(ids, events, c)
            case Unregistered(d) => ids(d) != ids(c) && Listed(ids, events, c)
            case _ => Listed(ids, events, c)
  {
    var after := events + [event];
    assert after[..|after| - 1] == events;
  }

  lemma UnfoldFrames(ids: Ids, events: seq<Event>, event: Event, c: nat)
    ensures Frames(ids, events + [event], c) == Frames(ids, events, c) + Queued(ids, events, event, c)
  {
    var after := events + [event];
    assert after[..|after| - 1] == events;
  }

  /** One more event, for all of them. */
  lemma Unfold(ids: Ids, events: seq<Event>, event: Event)
    ensures forall c :: Listed(ids, events + [event], c) <==>
                        match event
                        case Registered(d) => if ids(d) == ids(c) then d == c else Listed(ids, events, c)
                        case Unregistered(d) => ids(d) != ids(c) && Listed(ids, events, c)
                        case _ => Listed(ids, events, c)
    ensures forall c, key :: Follows(ids, events + [event], c, key) <==>
                        match event
                        case Toggled(d, k, on) => if d == c && k == key then on else Follows(ids, events, c, key)
                        case NewLog(task, log) =>
                          Follows(ids, events, c, key) ||
                          (&& key == Key(TASK_LOG, log) && Listed(ids, events, c)
                           && Follows(ids, events, c, Key(TASK_LOG_ADD, task)))
                        case _ => Follows(ids, events, c, key)
    ensures forall c :: Frames(ids, events + [event], c) == Frames(ids, events, c) + Queued(ids, events, event, c)
  {
    var after := events + [event];
    assert after[..|after| - 1] == events;
  }

  method ApplyRegistered(manager: Manager, conns: seq<Client>, ids: Ids, ghost events: seq<Event>, c: nat)
    requires Distinct(conns, ids) && Mirrors(manager, conns, ids, events) && c < |conns|
    modifies manager
    ensures Mirrors(manager, conns, ids, events + [Registered(c)])
  {
    manager.Register(conns[c]);
    Unfold(ids, events, Registered(c));
  }

  method ApplyUnregistered(manager: Manager, conns: seq<Client>, ids: Ids, ghost events: seq<Event>, c: nat)
    requires Distinct(conns, ids) && Mirrors(manager, conns, ids, events) && c < |conns|
    modifies manager
    ensures Mirrors(manager, conns, ids, events + [Unregistered(c)])
  {
    manager.Unregister(conns[c]);
    Unfold(ids, events, Unregistered(c));
  }

  method ApplyToggled(manager: Manager, conns: seq<Client>, ids: Ids, ghost events: seq<Event>,
                      c: nat, key: Key, on: bool)
    requires Distinct(conns, ids) && Mirrors(manager, conns, ids, events) && c < |conns|
    modifies conns[c]
    ensures Mirrors(manager, conns, ids, events + [Toggled(c, key, on)])
  {
    Unfold(ids, events, Toggled(c, key, on));
    conns[c].ToggleSubscribe(key, on);
  }

  method ApplyPinged(manager: Manager, conns: seq<Client>, ids: Ids, ghost events: seq<Event>, c: nat)
    requires Distinct(conns, ids) && Mirrors(manager, conns, ids, events) && c < |conns|
    modifies conns[c]
    ensures Mirrors(manager, conns, ids, events + [Pinged(c)])
  {
    Unfold(ids, events, Pinged(c));
    conns[c].AnswerPing();
  }

  method ApplyBroadcast(manager: Manager, conns: seq<Client>, ids: Ids, ghost events: seq<Event>, key: Key,
                        data: string)
    requires Distinct(conns, ids) && Mirrors(manager, conns, ids, events)
    modifies conns
    ensures Mirrors(manager, conns, ids, events + [Broadcast(key, data)])
  {
    manager.FanOut(key, data);
    Unfold(ids, events, Broadcast(key, data));
    forall c: nat | c < |conns|
      ensures conns[c].queue == Frames(ids, events + [Broadcast(key, data)], c)
    {
      if Listed(ids, events, c) {
        assert manager.clientList[ids(c)] == conns[c];
      } else {
        assert forall id <- manager.clientList :: manager.clientList[id] != conns[c];
      }
    }
  }

  method ApplyNewLog(manager: Manager, conns: seq<Client>, ids: Ids, ghost events: seq<Event>, task: int, log: int)
    requires Distinct(conns, ids) && Mirrors(manager, conns, ids, events)
    modifies conns
    ensures Mirrors(manager, conns, ids, events + [NewLog(task, log)])
  {
    Unfold(ids, events, NewLog(task, log));
    manager.SubscribeToNewLog(task, log);
    forall c: nat, key | c < |conns|
      ensures conns[c].Has(key) <==> Follows(ids, events + [NewLog(task, log)], c, key)
    {
      if Listed(ids, events, c) {
        assert manager.clientList[ids(c)] == conns[c];
      } else {
        assert forall id <- manager.clientList :: manager.clientList[id] != conns[c];
      }
    }
  }

  /** One event on the real objects. */
  method Apply(manager: Manager, conns: seq<Client>, ids: Ids, ghost events: seq<Event>, event: Event)
    requires Distinct(conns, ids) && Mirrors(manager, conns, ids, events) && InRange(event, |conns|)
    modifies manager, conns
    ensures Mirrors(manager, conns, ids, events + [event])
  {
    match event {
      case Registered(c) => ApplyRegistered(manager, conns, ids, events, c);
      case Unregistered(c) => ApplyUnregistered(manager, conns, ids, events, c);
      case Toggled(c, key, on) => ApplyToggled(manager, conns, ids, events, c, key, on);
      case Pinged(c) => ApplyPinged(manager, conns, ids, events, c);
      case Broadcast(key, data) => ApplyBroadcast(manager, conns, ids, events, key, data);
      case NewLog(task, log) => ApplyNewLog(manager, conns, ids, events, task, log);
    }
  }

  /** Fan-out is exact: after any history, from fresh objects, each connection's queue holds exactly the
      frames its history says, in order and without duplicates. */
  method Replay(manager: Manager, conns: seq<Client>, ids: Ids, events: seq<Event>)
    requires Distinct(conns, ids) && Mirrors(manager, conns, ids, [])
    requires forall e <- events :: InRange(e, |conns|)
    modifies manager, conns
    ensures forall c: nat | c < |conns| :: conns[c].queue == Frames(ids, events, c)
  {
    for i := 0 to |events|
      invariant Mirrors(manager, conns, ids, events[..i])
    {
      assert events[i] in events;
      assert events[..i + 1] == events[..i] + [events[i]];
      Apply(manager, conns, ids, events[..i], events[i]);
    }
    assert events[..|events|] == events;
  }

  // ---------------------------------------------------------------- consequences

  /** The event registers or unregisters a connection with this client id. */
  predicate Touches(ids: Ids, event: Event, id: int) {
    (event.Registered? || event.Unregistered?) && ids(event.conn) == id
  }

  /** `c` was registered by event `j`, and nothing has touched its client id since. */
  predicate ListedSince(ids: Ids, events: seq<Event>, c: nat, j: nat) {
    j < |events| && events[j] == Registered(c) && forall l | j < l < |events| :: !Touches(ids, events[l], ids(c))
  }

  /** A connection is listed exactly when, after some registration of its own, no registration or
      unregistration under its client id has been handled, by whatever connection. */
  lemma {:induction false} ListedIff(ids: Ids, events: seq<Event>, c: nat)
    ensures Listed(ids, events, c) <==> exists j: nat :: ListedSince(ids, events, c, j)
    decreases |events|
  {
    if events != [] {
      var n := |events| - 1;
      var before, last := events[..n], events[n];
      assert forall l | 0 <= l < n :: before[l] == events[l];
      ListedIff(ids, before, c);
      if Touches(ids, last, ids(c)) {
        if last == Registered(c) {
          assert ListedSince(ids, events, c, n);
        }
      } else {
        if j: nat :| ListedSince(ids, events, c, j) {
          assert ListedSince(ids, before, c, j);
        }
        if j: nat :| ListedSince(ids, before, c, j) {
          assert ListedSince(ids, events, c, j);
        }
      }
    }
  }

  /** Event `j` subscribed `c` to `key`: by its own message, or, for the key of a new log, because `c` was
      then listed and followed the task's new logs. */
  ghost predicate SubscribedBy(ids: Ids, events: seq<Event>, c: nat, key: Key, j: nat) {
    && j < |events|
    && (events[j] == Toggled(c, key, true) ||
        (events[j].NewLog? && key == Key("TASK_LOG", events[j].log)
         && (exists i: nat :: ListedSince(ids, events[..j], c, i))
         && Follows(ids, events[..j], c, Key("TASK_LOG_ADD", events[j].task))))
  }

  /** And it has not unsubscribed since. */
  ghost predicate SubscribedSince(ids: Ids, events: seq<Event>, c: nat, key: Key, j: nat) {
    SubscribedBy(ids, events, c, key, j) && forall l | j < l < |events| :: events[l] != Toggled(c, key, false)
  }

  lemma SubscribedEarlier(ids: Ids, events: seq<Event>, c: nat, key: Key, j: nat)
    requires events != [] && j < |events| - 1
    ensures SubscribedSince(ids, events, c, key, j) <==>
            SubscribedSince(ids, events[..|events| - 1], c, key, j) && events[|events| - 1] != Toggled(c, key, false)
  {
    var before := events[..|events| - 1];
    assert before[..j] == events[..j] && before[j] == events[j];
    assert forall l | 0 <= l < |before| :: before[l] == events[l];
  }

  /** Whether the last event of a history subscribes. */
  lemma SubscribedLast(ids: Ids, events: seq<Event>, c: nat, key: Key)
    requires events != []
    ensures var n := |events| - 1;
            SubscribedSince(ids, events, c, key, n) <==>
            || events[n] == Toggled(c, key, true)
            || (events[n].NewLog? && key == Key("TASK_LOG", events[n].log) && Listed(ids, events[..n], c)
                && Follows(ids, events[..n], c, Key("TASK_LOG_ADD", events[n].task)))
  {
    ListedIff(ids, events[..|events| - 1], c);
  }

  /** A connection follows a key exactly when some event subscribed it and it has not unsubscribed
      since. */
  lemma {:induction false} FollowsIff(ids: Ids, events: seq<Event>, c: nat, key: Key)
    ensures Follows(ids, events, c, key) <==> exists j: nat :: SubscribedSince(ids, events, c, key, j)
    decreases |events|
  {
    if events != [] {
      var n := |events| - 1;
      FollowsIff(ids, events[..n], c, key);
      SubscribedLast(ids, events, c, key);
      forall j: nat | j < n
        ensures SubscribedSince(ids, events, c, key, j) <==>
                SubscribedSince(ids, events[..n], c, key, j) && events[n] != Toggled(c, key, false)
      {
        SubscribedEarlier(ids, events, c, key, j);
      }
      if Follows(ids, events, c, key) && !SubscribedSince(ids, events, c, key, n) {
        var j: nat :| SubscribedSince(ids, events[..n], c, key, j);
        assert SubscribedSince(ids, events, c, key, j);
      }
      if j: nat :| SubscribedSince(ids, events, c, key, j) && j != n {
        assert SubscribedSince(ids, events[..n], c, key, j);
      }
    }
  }

  /** One broadcast, in terms of the history alone: it queues one frame exactly for the connections that
      are listed and subscribed, and nothing for the others. */
  lemma BroadcastIff(ids: Ids, events: seq<Event>, c: nat, key: Key, data: string)
    ensures Frames(ids, events + [Broadcast(key, data)], c) ==
            Frames(ids, events, c) +
            if (exists j: nat :: ListedSince(ids, events, c, j)) &&
               (exists j: nat :: SubscribedSince(ids, events, c, key, j))
            then [Update(key, data)] else []
  {
    UnfoldFrames(ids, events, Broadcast(key, data), c);
    ListedIff(ids, events, c);
    FollowsIff(ids, events, c, key);
  }

  /** Nothing else queues an update, and only its own ping queues anything else. */
  lemma OtherEventsQueue(ids: Ids, events: seq<Event>, e: Event, c: nat)
    requires !e.Broadcast?
    ensures Frames(ids, events + [e], c) == Frames(ids, events, c) + if e == Pinged(c) then [Pong] else []
  {
    UnfoldFrames(ids, events, e, c);
  }

  /** The update frames whose key is wanted. */
  function Only(frames: seq<Frame>, want: Key -> bool): seq<Frame> {
    if frames == [] then []
    else
      var last := frames[|frames| - 1];
      Only(frames[..|frames| - 1], want) + if last.Update? && want(last.key) then [last] else []
  }

  lemma Regroup<T>(a: seq<T>, b: seq<T>, c: seq<T>)
    ensures (a + b) + c == a + (b + c)
  {
  }

  lemma {:induction false} OnlyConcat(a: seq<Frame>, b: seq<Frame>, want: Key -> bool)
    ensures Only(a + b, want) == Only(a, want) + Only(b, want)
    decreases |b|
  {
    if b == [] {
      assert a + b == a;
    } else {
      var shorter, last, all := b[..|b| - 1], b[|b| - 1], a + b;
      var front := a + shorter;
      assert all[..|all| - 1] == front && all[|all| - 1] == last;
      OnlyConcat(a, shorter, want);
      Regroup(Only(a, want), Only(shorter, want), if last.Update? && want(last.key) then [last] else []);
    }
  }

  /** Frame by frame: updates on wanted keys stay, everything else goes. */
  lemma OnlyMeans(frames: seq<Frame>, frame: Frame, want: Key -> bool)
    ensures Only([], want) == []
    ensures Only(frames + [frame], want) ==
            Only(frames, want) + (if frame.Update? && want(frame.key) then [frame] else [])
  {
    var all := frames + [frame];
    assert all[..|all| - 1] == frames;
  }

  /** The broadcasts on wanted keys, as the frames they make. */
  function Broadcasts(events: seq<Event>, want: Key -> bool): seq<Frame> {
    if events == [] then []
    else
      var last := events[|events| - 1];
      Broadcasts(events[..|events| - 1], want) +
      if last.Broadcast? && want(last.key) then [Update(last.key, last.data)] else []
  }

  lemma BroadcastsMean(events: seq<Event>, e: Event, want: Key -> bool)
    ensures Broadcasts([], want) == []
    ensures Broadcasts(events + [e], want) ==
            Broadcasts(events, want) + (if e.Broadcast? && want(e.key) then [Update(e.key, e.data)] else [])
  {
    var all := events + [e];
    assert all[..|all| - 1] == events;
  }

  /** Nothing in `rest` lists or delists the client id, or unsubscribes the connection from a wanted
      key. */
  predicate Undisturbed(ids: Ids, rest: seq<Event>, c: nat, want: Key -> bool) {
    forall i | 0 <= i < |rest| ::
      !Touches(ids, rest[i], ids(c)) && !(rest[i].Toggled? && rest[i].conn == c && want(rest[i].key) && !rest[i].on)
  }

  ghost predicate Streams(ids: Ids, events: seq<Event>, c: nat, want: Key -> bool) {
    Listed(ids, events, c) && forall key | want(key) :: Follows(ids, events, c, key)
  }

  lemma OneMore(ids: Ids, events: seq<Event>, event: Event, c: nat, want: Key -> bool)
    requires Streams(ids, events, c, want) && Undisturbed(ids, [event], c, want)
    ensures Streams(ids, events + [event], c, want)
    ensures Only(Frames(ids, events + [event], c), want) ==
            Only(Frames(ids, events, c), want) + Broadcasts([event], want)
  {
    assert [event][0] == event && [event][..0] == [];
    Unfold(ids, events, event);
    var queued := Queued(ids, events, event, c);
    OnlyConcat(Frames(ids, events, c), queued, want);
    assert queued == [] || queued[..|queued| - 1] == [];
  }

  lemma BroadcastsSnoc(before: seq<Event>, last: Event, want: Key -> bool)
    ensures Broadcasts(before + [last], want) == Broadcasts(before, want) + Broadcasts([last], want)
  {
    assert (before + [last])[..|before|] == before && [last][..0] == [];
  }

  /** A listed connection that follows the wanted keys and is left alone receives every broadcast on
      them, in order and once. */
  lemma {:induction false} StreamComplete(ids: Ids, events: seq<Event>, rest: seq<Event>, c: nat, want: Key -> bool)
    requires Streams(ids, events, c, want) && Undisturbed(ids, rest, c, want)
    ensures Streams(ids, events + rest, c, want)
    ensures Only(Frames(ids, events + rest, c), want) == Only(Frames(ids, events, c), want) + Broadcasts(rest, want)
    decreases |rest|
  {
    if rest == [] {
      assert events + rest == events;
    } else {
      var before, last := rest[..|rest| - 1], rest[|rest| - 1];
      var sofar := events + before;
      assert rest == before + [last];
      BroadcastsSnoc(before, last, want);
      assert events + rest == sofar + [last];
      assert Undisturbed(ids, before, c, want) && Undisturbed(ids, [last], c, want);
      StreamComplete(ids, events, before, c, want);
      OneMore(ids, sofar, last, c, want);
      Regroup(Only(Frames(ids, events, c), want), Broadcasts(before, want), Broadcasts([last], want));
    }
  }

  /** The keys of one run: the task's new logs, and the log of this run. */
  function RunKeys(task: int, log: int): Key -> bool {
    key => key == Key(TASK_LOG_ADD, task) || key == Key(TASK_LOG, log)
  }

  /** Any key at all. */
  function Anything(key: Key): bool {
    true
  }

  lemma NoUpdates(queued: seq<Frame>)
    requires queued == [] || queued == [Pong]
    ensures Only(queued, Anything) == []
  {
    assert queued != [] ==> queued[..0] == [];
  }

  /** A connection that is not listed and does not register now stays unlisted and gets no update. */
  lemma StillSilent(ids: Ids, events: seq<Event>, e: Event, c: nat)
    requires !Listed(ids, events, c) && e != Registered(c)
    ensures !Listed(ids, events + [e], c)
    ensures Only(Frames(ids, events + [e], c), Anything) == Only(Frames(ids, events, c), Anything)
  {
    UnfoldListed(ids, events, e, c);
    UnfoldFrames(ids, events, e, c);
    var queued := Queued(ids, events, e, c);
    OnlyConcat(Frames(ids, events, c), queued, Anything);
    NoUpdates(queued);
  }

  lemma {:induction false} SilentWhileUnlisted(ids: Ids, events: seq<Event>, rest: seq<Event>, c: nat)
    requires !Listed(ids, events, c) && forall i | 0 <= i < |rest| :: rest[i] != Registered(c)
    ensures !Listed(ids, events + rest, c)
    ensures Only(Frames(ids, events + rest, c), Anything) == Only(Frames(ids, events, c), Anything)
    decreases |rest|
  {
    if rest == [] {
      assert events + rest == events;
    } else {
      var before, last := rest[..|rest| - 1], rest[|rest| - 1];
      var sofar := events + before;
      assert events + rest == sofar + [last];
      SilentWhileUnlisted(ids, events, before, c);
      StillSilent(ids, sofar, last, c);
    }
  }

  /** If the old connection's unregistration is handled after the new one's registration, the new
      connection, which has the same client id, receives no update until it registers again. */
  lemma LateUnregisterSilences(ids: Ids, events: seq<Event>, old': nat, new': nat, rest: seq<Event>)
    requires ids(old') == ids(new') && forall i | 0 <= i < |rest| :: rest[i] != Registered(new')
    ensures var all := events + [Unregistered(old')] + rest;
            !Listed(ids, all, new') &&
            Only(Frames(ids, all, new'), Anything) == Only(Frames(ids, events, new'), Anything)
  {
    var after := events + [Unregistered(old')];
    UnfoldListed(ids, events, Unregistered(old'), new');
    UnfoldFrames(ids, events, Unregistered(old'), new');
    assert Frames(ids, after, new') == Frames(ids, events, new');
    SilentWhileUnlisted(ids, after, rest, new');
  }
}
