/** The Redis lease lock (web/component/lock/lock.go): SETNX with an expiry, a watchdog that renews the
    key after nine tenths of the lease, and a compare-and-delete release.

    Every access to the store is one atomic step; lock objects, their watchdogs and the clock interleave
    freely.  Times are whole milliseconds, as the watchdog's own arithmetic is. */
module LeaseLock {

  // ---------------------------------------------------------------- the store

  datatype Entry = Entry(owner: nat, expiresAt: int)

  type Store = map<string, Entry>

  predicate Live(store: Store, key: string, now: int) {
    key in store && now < store[key].expiresAt
  }

  function SetNX(store: Store, key: string, owner: nat, lease: nat, now: int): (bool, Store) {
    if Live(store, key, now) then (false, store)
    else (true, store[key := Entry(owner, now + lease)])
  }

  function Expire(store: Store, key: string, lease: nat, now: int): (bool, Store) {
    if Live(store, key, now) then (true, store[key := store[key].(expiresAt := now + lease)])
    else (false, store)
  }

  /** The release script: delete only if the stored id is the caller's. */
  function CompareAndDelete(store: Store, key: string, owner: nat, now: int): (bool, Store) {
    if Live(store, key, now) && store[key].owner == owner then (true, store - {key})
    else (false, store)
  }

  // ---------------------------------------------------------------- one lock object

  /** Key and lease of a lock object; the object's name stands for its request id.  `renewal` is the time
      to live that EXPIRE sets: the program passes the lease, but what arrives is up to the client
      library, which may send whole seconds. */
  datatype Params = Params(key: string, lease: nat, renewal: nat) {
    /** The watchdog's timer: the lease less a tenth, in whole milliseconds. */
    function Period(): nat {
      lease - lease / 10
    }

    /** What is left of the lease, and of a renewal, when the timer fires on time. */
    function Slack(): nat {
      if renewal < Period() then 0
      else if renewal - Period() < lease / 10 then renewal - Period()
      else lease / 10
    }
  }

  /** What EXPIRE sets if only whole seconds are sent, and at least one. */
  function WholeSeconds(lease: nat): nat {
    if lease < 1000 then 1000 else lease - lease % 1000
  }

  /** The slack of a lock whose renewals are exact, and of one renewed in whole seconds: the part of a
      second that is cut off comes out of the tenth. */
  lemma SlackOf(key: string, lease: nat)
    ensures Params(key, lease, lease).Slack() == lease / 10
    ensures Params(key, lease, WholeSeconds(lease)).Slack() ==
            if lease < 1000 then lease / 10
            else if lease / 10 < lease % 1000 then 0
            else lease / 10 - lease % 1000
  {
  }

  /** The watchdog goroutine: spawned or just renewed; selecting on its timer and the cancel channel,
      having started the timer `lag` after the SETNX or renewal; past the timer, waiting for the mutex;
      past Exists with Expire still to come. */
  datatype Watchdog =
    | Off
    | Launched(since: int)
    | Sleeping(lag: int, fireAt: int)
    | Fired(lag: int, fireAt: int)
    | Checked(lag: int, fireAt: int)

  /** `Deleted`: a release has deleted the key and holds the object's mutex.  `Sending`: it has read
      `checkCancel` and is sending on that channel. */
  datatype Phase = Idle | Held | Deleted | Sending(to: nat)

  /** `channel` numbers the channels put in `checkCancel`; 0 is the nil it starts with. */
  datatype LockState = LockState(phase: Phase, dog: Watchdog, channel: nat)

  const FRESH := LockState(Idle, Off, 0)

  predicate Unused(l: LockState) {
    l.phase == Idle && l.dog == Off
  }

  predicate InRelease(l: LockState) {
    l.phase.Deleted? || l.phase.Sending?
  }

  /** How far the watchdog is behind its own schedule since the last SETNX or renewal. */
  function Lag(dog: Watchdog, now: int): int {
    match dog
    case Off => 0
    case Launched(since) => now - since
    case _ => dog.lag + if now <= dog.fireAt then 0 else now - dog.fireAt
  }

  /** One step of one lock object: the atomic pieces of Get/Block, the watchdog loop and Release. */
  datatype Action = Acquire | Arm | Fire | Wake | Renew | Release | Send | Cancel

  predicate CanAct(l: LockState, action: Action, now: int) {
    match action
    case Acquire => l.phase == Held || Unused(l)
    case Arm => l.dog.Launched?
    case Fire => l.dog.Sleeping? && l.dog.fireAt <= now
    case Wake => l.dog.Fired? && !InRelease(l)               // the mutex is free
    case Renew => l.dog.Checked?
    case Release => !InRelease(l) && !l.dog.Checked?         // the mutex is free
    case Send => l.phase.Deleted?
    case Cancel => l.phase.Sending? && l.dog.Sleeping? && l.phase.to == l.channel
  }

  function Act(p: Params, id: nat, l: LockState, store: Store, now: int, action: Action): (LockState, Store)
    requires CanAct(l, action, now)
  {
    match action
    case Acquire =>
      var (ok, store') := SetNX(store, p.key, id, p.lease, now);
      (if ok then LockState(Held, Launched(now), l.channel) else l, store')
    case Arm =>
      (LockState(l.phase, Sleeping(now - l.dog.since, now + p.Period()), l.channel + 1), store)
    case Fire =>
      (l.(dog := Fired(l.dog.lag, l.dog.fireAt)), store)
    case Wake =>
      (l.(dog := if Live(store, p.key, now) then Checked(l.dog.lag, l.dog.fireAt) else Off), store)
    case Renew =>
      var (ok, store') := Expire(store, p.key, p.renewal, now);
      (l.(dog := if ok then Launched(now) else Off), store')
    case Release =>
      var (ok, store') := CompareAndDelete(store, p.key, id, now);
      (l.(phase := if ok then Deleted else Idle), store')
    case Send =>
      (l.(phase := Sending(l.channel)), store)
    case Cancel =>
      (LockState(Idle, Off, l.channel), store)
  }

  // ---------------------------------------------------------------- the program's objects

  class Redis {
    var now: int
    var entries: Store

    constructor ()
      ensures now == 0 && entries == map[]
    {
      now, entries := 0, map[];
    }

    method SetNx(key: string, owner: nat, lease: nat) returns (ok: bool)
      modifies `entries
      ensures (ok, entries) == SetNX(old(entries), key, owner, lease, now)
    {
      ok := !(key in entries && now < entries[key].expiresAt);
      if ok {
        entries := entries[key := Entry(owner, now + lease)];
      }
    }

    method Exists(key: string) returns (n: int)
      ensures n == if Live(entries, key, now) then 1 else 0
    {
      n := if key in entries && now < entries[key].expiresAt then 1 else 0;
    }

    method SetExpire(key: string, lease: nat) returns (ok: bool)
      modifies `entries
      ensures (ok, entries) == Expire(old(entries), key, lease, now)
    {
      ok := key in entries && now < entries[key].expiresAt;
      if ok {
        entries := entries[key := Entry(entries[key].owner, now + lease)];
      }
    }

    method RunReleaseScript(key: string, owner: nat) returns (deleted: int)
      modifies `entries
      ensures (deleted != 0, entries) == CompareAndDelete(old(entries), key, owner, now)
    {
      deleted := 0;
      if key in entries && now < entries[key].expiresAt && entries[key].owner == owner {
        entries := entries - {key};
        deleted := 1;
      }
    }
  }

  class Lock {
    const params: Params
    const requestId: nat
    var state: LockState

    constructor (params: Params, requestId: nat)
      ensures this.params == params && this.requestId == requestId && state == FRESH
    {
      this.params, this.requestId := params, requestId;
      state := FRESH;
    }

    /** `Get`, and one round of `Block`: on success the watchdog is spawned. */
    method Get(server: Redis) returns (ok: bool)
      requires CanAct(state, Acquire, server.now)
      modifies this, server`entries
      ensures (state, server.entries) == Act(params, requestId, old(state), old(server.entries), server.now, Acquire)
      ensures ok <==> !Live(old(server.entries), params.key, server.now)
      ensures ok ==> state.phase == Held
    {
      ok := server.SetNx(params.key, requestId, params.lease);
      if ok {
        state := LockState(Held, Launched(server.now), state.channel);
      }
    }

    /** What may happen while `Block` sleeps 200 ms: anything, to the clock and to the store. */
    method Pause(server: Redis)
      modifies server
      ensures old(server.now) + 200 <= server.now
    {
      var later :| server.now + 200 <= later;
      server.now := later;
      server.entries := *;
    }

    /** `Block` polls until it acquires the key or more than `expiration` has passed. */
    method Block(server: Redis, expiration: int) returns (ok: bool)
      requires Unused(state)
      modifies this, server
      ensures ok ==>
                && state == LockState(Held, Launched(server.now), old(state.channel)) && params.key in server.entries
                && server.entries[params.key] == Entry(requestId, server.now + params.lease)
      ensures !ok ==> state == old(state) && expiration < server.now - old(server.now)
    {
      var t := server.now;
      while true
        invariant state == old(state) && t <= server.now &&
                  server.now - t <= if expiration < 0 then 0 else expiration
        decreases expiration - (server.now - t)
      {
        ok := Get(server);
        if ok {
          return true;
        }
        Pause(server);
        if expiration < server.now - t {
          return false;
        }
      }
    }

    /** The head of the watchdog loop: start the timer and put a new channel in `checkCancel`. */
    method StartTimer(server: Redis)
      requires CanAct(state, Arm, server.now)
      modifies this
      ensures (state, server.entries) == Act(params, requestId, old(state), server.entries, server.now, Arm)
    {
      var timer := Sleeping(server.now - state.dog.since, server.now + (params.lease - params.lease / 10));
      state := LockState(state.phase, timer, state.channel + 1);
    }

    /** The select takes the timer; `done` now waits for the mutex. */
    method TimerFired(server: Redis)
      requires CanAct(state, Fire, server.now)
      modifies this
      ensures (state, server.entries) == Act(params, requestId, old(state), server.entries, server.now, Fire)
    {
      state := state.(dog := Fired(state.dog.lag, state.dog.fireAt));
    }

    /** First half of `done`: the mutex is taken, Exists is asked. */
    method Check(server: Redis) returns (go: bool)
      requires CanAct(state, Wake, server.now)
      modifies this
      ensures (state, server.entries) == Act(params, requestId, old(state), server.entries, server.now, Wake)
      ensures go <==> state.dog.Checked?
    {
      var res := server.Exists(params.key);
      go := res == 1;
      state := state.(dog := if go then Checked(state.dog.lag, state.dog.fireAt) else Off);
    }

    /** Second half of `done`: Expire, and back to the head of the loop. */
    method Prolong(server: Redis) returns (isContinue: bool)
      requires CanAct(state, Renew, server.now)
      modifies this, server`entries
      ensures (state, server.entries) == Act(params, requestId, old(state), old(server.entries), server.now, Renew)
      ensures isContinue <==> state.dog != Off
    {
      isContinue := server.SetExpire(params.key, params.renewal);
      state := state.(dog := if isContinue then Launched(server.now) else Off);
    }

    /** `Release`: the script. */
    method Unlock(server: Redis)
      requires CanAct(state, Action.Release, server.now)
      modifies this, server`entries
      ensures (state, server.entries) ==
              Act(params, requestId, old(state), old(server.entries), server.now, Action.Release)
    {
      var res := server.RunReleaseScript(params.key, requestId);
      state := state.(phase := if res != 0 then Deleted else Idle);
    }

    /** `Release`, and `ForceRelease`: read `checkCancel` and begin to send on it. */
    method SendCancel(server: Redis)
      requires CanAct(state, Send, server.now)
      modifies this
      ensures (state, server.entries) == Act(params, requestId, old(state), server.entries, server.now, Send)
    {
      state := state.(phase := Sending(state.channel));
    }

    /** The watchdog receives the cancel signal; `Release` returns. */
    method Cancelled(server: Redis)
      requires CanAct(state, Cancel, server.now)
      modifies this
      ensures (state, server.entries) == Act(params, requestId, old(state), server.entries, server.now, Cancel)
    {
      state := LockState(Idle, Off, state.channel);
    }
  }

  // ---------------------------------------------------------------- all of them together

  type Config = map<nat, Params>

  datatype World = World(now: int, store: Store, locks: map<nat, LockState>)

  datatype Step = Tick(d: nat) | Do(id: nat, action: Action)

  function Start(cfg: Config): World {
    World(0, map[], map id <- cfg :: FRESH)
  }

  ghost predicate Enabled(cfg: Config, w: World, step: Step) {
    match step
    case Tick(_) => true
    case Do(id, action) => id in cfg && id in w.locks && CanAct(w.locks[id], action, w.now)
  }

  ghost function Next(cfg: Config, w: World, step: Step): World
    requires Enabled(cfg, w, step)
  {
    match step
    case Tick(d) => w.(now := w.now + d)
    case Do(id, action) =>
      var (l, store) := Act(cfg[id], id, w.locks[id], w.store, w.now, action);
      World(w.now, store, w.locks[id := l])
  }

  /** Every watchdog of a held lock stays less than `bound` milliseconds behind: the time from SETNX or
      the last renewal to the timer's start, plus the time from its firing to the renewal. */
  ghost predicate Timely(w: World, bound: nat) {
    forall id <- w.locks :: w.locks[id].phase == Held ==> Lag(w.locks[id].dog, w.now) < bound
  }

  /** `run` can happen from `w`, and every world on the way is timely. */
  ghost predicate Legal(cfg: Config, bound: nat, w: World, run: seq<Step>)
    decreases |run|
  {
    Timely(w, bound) &&
    (run == [] || (Enabled(cfg, w, run[0]) && Legal(cfg, bound, Next(cfg, w, run[0]), run[1..])))
  }

  ghost function End(cfg: Config, bound: nat, w: World, run: seq<Step>): World
    requires Legal(cfg, bound, w, run)
    decreases |run|
  {
    if run == [] then w else End(cfg, bound, Next(cfg, w, run[0]), run[1..])
  }

  /** Each held lock's key is live and maps to its own id. */
  ghost predicate HoldersOwn(cfg: Config, w: World) {
    forall id <- w.locks | id in cfg && w.locks[id].phase == Held ::
      Live(w.store, cfg[id].key, w.now) && w.store[cfg[id].key].owner == id
  }

  // ---------------------------------------------------------------- safety

  /** The moment the key was last set or renewed, as the watchdog's state remembers it. */
  function RefreshedAt(p: Params, dog: Watchdog): int
    requires dog != Off
  {
    match dog
    case Launched(since) => since
    case Sleeping(lag, fireAt) => fireAt - p.Period() - lag
    case Fired(lag, fireAt) => fireAt - p.Period() - lag
    case Checked(lag, fireAt) => fireAt - p.Period() - lag
  }

  ghost predicate LockInv(p: Params, id: nat, l: LockState, store: Store, now: int) {
    match l.phase
    case Idle => l.dog == Off
    case Deleted => !l.dog.Off? && !l.dog.Checked?
    case Sending(to) => !l.dog.Off? && !l.dog.Checked? && to <= l.channel
    case Held =>
      && l.dog != Off && 0 <= Lag(l.dog, now)
      && p.key in store && store[p.key].owner == id
      && store[p.key].expiresAt - RefreshedAt(p, l.dog) in {p.lease, p.renewal}
  }

  /** Whatever is stored was stored by a lock that is still held. */
  ghost predicate Inv(cfg: Config, w: World) {
    && w.locks.Keys == cfg.Keys
    && (forall id <- cfg :: LockInv(cfg[id], id, w.locks[id], w.store, w.now))
    && (forall key <- w.store ::
          var owner := w.store[key].owner;
          owner in cfg && cfg[owner].key == key && w.locks[owner].phase == Held)
  }

  lemma TimelyHoldersOwn(cfg: Config, bound: nat, w: World)
    requires Inv(cfg, w) && Timely(w, bound)
    requires forall id <- cfg :: bound <= cfg[id].Slack()
    ensures HoldersOwn(cfg, w)
  {
    forall id <- w.locks | id in cfg && w.locks[id].phase == Held
      ensures Live(w.store, cfg[id].key, w.now) && w.store[cfg[id].key].owner == id
    {
      assert LockInv(cfg[id], id, w.locks[id], w.store, w.now);
      assert Lag(w.locks[id].dog, w.now) < cfg[id].Slack();
    }
  }

  /** A lock that is held owns a live entry, and the entry it owns is there because it is held. */
  ghost predicate Consistent(p: Params, id: nat, l: LockState, store: Store, now: int) {
    && LockInv(p, id, l, store, now)
    && (l.phase == Held ==> Live(store, p.key, now) && store[p.key].owner == id)
    && (p.key in store && store[p.key].owner == id ==> l.phase == Held)
  }

  /** The acting lock keeps its part of the invariant, touches no key but its own, and there leaves an
      entry of its own only if it is held. */
  lemma ActKeepsOwn(p: Params, id: nat, l: LockState, store: Store, now: int, action: Action)
    requires CanAct(l, action, now) && Consistent(p, id, l, store, now)
    ensures var (l', store') := Act(p, id, l, store, now, action);
            && LockInv(p, id, l', store', now)
            && (forall key | key != p.key :: key in store' <==> key in store)
            && (forall key <- store | key != p.key :: store'[key] == store[key])
            && (p.key in store' ==>
                  if store'[p.key].owner == id then l'.phase == Held
                  else p.key in store && store'[p.key] == store[p.key])
  {
  }

  /** No other lock is affected. */
  lemma ActKeepsOthers(p: Params, id: nat, l: LockState, store: Store, now: int, action: Action,
                       q: Params, other: nat, m: LockState)
    requires CanAct(l, action, now) && other != id
    requires Consistent(p, id, l, store, now) && Consistent(q, other, m, store, now)
    ensures LockInv(q, other, m, Act(p, id, l, store, now, action).1, now)
  {
  }

  lemma AllConsistent(cfg: Config, w: World)
    requires Inv(cfg, w) && HoldersOwn(cfg, w)
    ensures forall id <- cfg :: Consistent(cfg[id], id, w.locks[id], w.store, w.now)
  {
    forall id <- cfg ensures Consistent(cfg[id], id, w.locks[id], w.store, w.now) {
      assert LockInv(cfg[id], id, w.locks[id], w.store, w.now);
    }
  }

  lemma TickKeepsInv(cfg: Config, w: World, d: nat)
    requires Inv(cfg, w)
    ensures Inv(cfg, Next(cfg, w, Tick(d)))
  {
    forall id <- cfg ensures LockInv(cfg[id], id, w.locks[id], w.store, w.now + d) {
      assert LockInv(cfg[id], id, w.locks[id], w.store, w.now);
    }
  }

  /** The acting lock and all others. */
  lemma DoKeepsLocks(cfg: Config, w: World, actor: nat, action: Action)
    requires Inv(cfg, w) && HoldersOwn(cfg, w) && Enabled(cfg, w, Do(actor, action))
    ensures var w' := Next(cfg, w, Do(actor, action));
            forall id <- cfg :: LockInv(cfg[id], id, w'.locks[id], w'.store, w'.now)
  {
    var w', l, p := Next(cfg, w, Do(actor, action)), w.locks[actor], cfg[actor];
    AllConsistent(cfg, w);
    forall id <- cfg ensures LockInv(cfg[id], id, w'.locks[id], w'.store, w'.now) {
      if id == actor {
        ActKeepsOwn(p, actor, l, w.store, w.now, action);
      } else {
        ActKeepsOthers(p, actor, l, w.store, w.now, action, cfg[id], id, w.locks[id]);
      }
    }
  }

  /** What is stored afterwards was stored by a lock that is held afterwards. */
  lemma DoKeepsStore(cfg: Config, w: World, actor: nat, action: Action, key: string)
    requires Inv(cfg, w) && HoldersOwn(cfg, w) && Enabled(cfg, w, Do(actor, action))
    requires key in Next(cfg, w, Do(actor, action)).store
    ensures var w' := Next(cfg, w, Do(actor, action));
            var owner := w'.store[key].owner;
            owner in cfg && cfg[owner].key == key && w'.locks[owner].phase == Held
  {
    AllConsistent(cfg, w);
    ActKeepsOwn(cfg[actor], actor, w.locks[actor], w.store, w.now, action);
    if key in w.store {
      var owner := w.store[key].owner;
      assert owner in cfg && cfg[owner].key == key && w.locks[owner].phase == Held;
    }
  }

  lemma StepKeepsInv(cfg: Config, w: World, step: Step)
    requires Inv(cfg, w) && HoldersOwn(cfg, w) && Enabled(cfg, w, step)
    ensures Inv(cfg, Next(cfg, w, step))
  {
    match step {
      case Tick(d) => TickKeepsInv(cfg, w, d);
      case Do(actor, action) =>
        DoKeepsLocks(cfg, w, actor, action);
        forall key <- Next(cfg, w, step).store
          ensures var owner := Next(cfg, w, step).store[key].owner;
                  owner in cfg && cfg[owner].key == key && Next(cfg, w, step).locks[owner].phase == Held
        {
          DoKeepsStore(cfg, w, actor, action, key);
        }
    }
  }

  lemma {:induction false} RunsKeepInv(cfg: Config, bound: nat, w: World, run: seq<Step>)
    requires forall id <- cfg :: bound <= cfg[id].Slack()
    requires Inv(cfg, w) && Legal(cfg, bound, w, run)
    ensures var end := End(cfg, bound, w, run); Inv(cfg, end) && HoldersOwn(cfg, end)
    decreases |run|
  {
    TimelyHoldersOwn(cfg, bound, w);
    if run != [] {
      StepKeepsInv(cfg, w, run[0]);
      RunsKeepInv(cfg, bound, Next(cfg, w, run[0]), run[1..]);
    }
  }

  /** From a successful acquisition until that object's own Release, no two locks on one key are held
      and no acquisition of the key succeeds, in any interleaving that keeps the watchdogs less than a
      tenth of the lease behind. */
  lemma MutualExclusion(cfg: Config, bound: nat, run: seq<Step>)
    requires forall id <- cfg :: bound <= cfg[id].Slack()
    requires Legal(cfg, bound, Start(cfg), run)
    ensures var w := End(cfg, bound, Start(cfg), run);
            forall a, b | a in cfg && b in cfg && a in w.locks && b in w.locks && cfg[a].key == cfg[b].key ::
              w.locks[a].phase == Held ==>
                (w.locks[b].phase == Held ==> a == b) && !SetNX(w.store, cfg[b].key, b, cfg[b].lease, w.now).0
  {
    RunsKeepInv(cfg, bound, Start(cfg), run);
  }

  // ---------------------------------------------------------------- the bound is exact

  /** One lock alone: held, its key about to expire at `expiry`. */
  function Alone(cfg: Config, id: nat, expiry: int, dog: Watchdog, channel: nat, now: int): World
    requires id in cfg
  {
    World(now, map[cfg[id].key := Entry(id, expiry)], Start(cfg).locks[id := LockState(Held, dog, channel)])
  }

  lemma AloneTimely(cfg: Config, bound: nat, id: nat, expiry: int, dog: Watchdog, channel: nat, now: int)
    requires id in cfg && Lag(dog, now) < bound
    ensures Timely(Alone(cfg, id, expiry, dog, channel, now), bound)
  {
  }

  lemma AloneAcquires(cfg: Config, id: nat)
    requires id in cfg
    ensures Enabled(cfg, Start(cfg), Do(id, Acquire))
    ensures Next(cfg, Start(cfg), Do(id, Acquire)) == Alone(cfg, id, cfg[id].lease, Launched(0), 0, 0)
  {
  }

  /** Whatever run goes on from `w`, some run from `v` ends where it does. */
  ghost predicate Leads(cfg: Config, bound: nat, v: World, w: World) {
    forall rest | Legal(cfg, bound, w, rest) ::
      exists run :: Legal(cfg, bound, v, run) && End(cfg, bound, v, run) == End(cfg, bound, w, rest)
  }

  lemma StepLeads(cfg: Config, bound: nat, v: World, step: Step, w: World)
    requires Timely(v, bound) && Enabled(cfg, v, step) && Next(cfg, v, step) == w
    ensures Leads(cfg, bound, v, w)
  {
    forall rest | Legal(cfg, bound, w, rest)
      ensures exists run :: Legal(cfg, bound, v, run) && End(cfg, bound, v, run) == End(cfg, bound, w, rest)
    {
      var run := [step] + rest;
      assert run[1..] == rest;
      assert Legal(cfg, bound, v, run);
    }
  }

  lemma LeadsOn(cfg: Config, bound: nat, u: World, v: World, w: World)
    requires Leads(cfg, bound, u, v) && Leads(cfg, bound, v, w)
    ensures Leads(cfg, bound, u, w)
  {
  }

  /** A held lock whose watchdog sleeps on time while its key expires: after the lease, if that leaves
      too little time for the renewal, otherwise after the first renewal. */
  function LateWorld(cfg: Config, bound: nat, id: nat): World
    requires id in cfg
  {
    var p := cfg[id];
    var t := p.Period();
    if p.lease / 10 < bound then Alone(cfg, id, p.lease, Sleeping(0, t), 1, p.lease)
    else Alone(cfg, id, t + p.renewal, Sleeping(0, t + t), 2, t + p.renewal)
  }

  /** A step of the lone lock that leaves it held. */
  lemma AloneLeads(cfg: Config, bound: nat, id: nat, expiry: int, dog: Watchdog, channel: nat, now: int, action: Action,
                   expiry': int, dog': Watchdog, channel': nat)
    requires id in cfg && CanAct(LockState(Held, dog, channel), action, now) && Lag(dog, now) < bound
    requires Act(cfg[id], id, LockState(Held, dog, channel), map[cfg[id].key := Entry(id, expiry)], now, action) ==
             (LockState(Held, dog', channel'), map[cfg[id].key := Entry(id, expiry')])
    ensures Leads(cfg, bound, Alone(cfg, id, expiry, dog, channel, now), Alone(cfg, id, expiry', dog', channel', now))
  {
    var v, w := Alone(cfg, id, expiry, dog, channel, now), Alone(cfg, id, expiry', dog', channel', now);
    AloneTimely(cfg, bound, id, expiry, dog, channel, now);
    assert v.locks[id := LockState(Held, dog', channel')] == w.locks;
    assert Next(cfg, v, Do(id, action)) == w;
    StepLeads(cfg, bound, v, Do(id, action), w);
  }

  lemma ArmLeads(cfg: Config, bound: nat, id: nat, expiry: int, channel: nat, now: int)
    requires id in cfg && 0 < bound
    ensures Leads(cfg, bound, Alone(cfg, id, expiry, Launched(now), channel, now),
                  Alone(cfg, id, expiry, Sleeping(0, now + cfg[id].Period()), channel + 1, now))
  {
    AloneLeads(cfg, bound, id, expiry, Launched(now), channel, now, Arm,
               expiry, Sleeping(0, now + cfg[id].Period()), channel + 1);
  }

  lemma FireLeads(cfg: Config, bound: nat, id: nat, expiry: int, channel: nat, now: int)
    requires id in cfg && 0 < bound
    ensures Leads(cfg, bound, Alone(cfg, id, expiry, Sleeping(0, now), channel, now),
                  Alone(cfg, id, expiry, Fired(0, now), channel, now))
  {
    AloneLeads(cfg, bound, id, expiry, Sleeping(0, now), channel, now, Fire, expiry, Fired(0, now), channel);
  }

  lemma WakeLeads(cfg: Config, bound: nat, id: nat, expiry: int, channel: nat, now: int)
    requires id in cfg && 0 < bound && now < expiry
    ensures Leads(cfg, bound, Alone(cfg, id, expiry, Fired(0, now), channel, now),
                  Alone(cfg, id, expiry, Checked(0, now), channel, now))
  {
    AloneLeads(cfg, bound, id, expiry, Fired(0, now), channel, now, Wake, expiry, Checked(0, now), channel);
  }

  lemma ExpireLeads(cfg: Config, bound: nat, id: nat, expiry: int, channel: nat, now: int)
    requires id in cfg && 0 < bound && now < expiry
    ensures Leads(cfg, bound, Alone(cfg, id, expiry, Checked(0, now), channel, now),
                  Alone(cfg, id, now + cfg[id].renewal, Launched(now), channel, now))
  {
    var key, store, renewed := cfg[id].key, map[cfg[id].key := Entry(id, expiry)], Entry(id, now + cfg[id].renewal);
    assert store[key := renewed] == map[key := renewed];
    AloneLeads(cfg, bound, id, expiry, Checked(0, now), channel, now, Renew,
               now + cfg[id].renewal, Launched(now), channel);
  }

  lemma SleepLeads(cfg: Config, bound: nat, id: nat, expiry: int, fireAt: int, channel: nat, now: int, d: nat)
    requires id in cfg && Lag(Sleeping(0, fireAt), now) < bound
    ensures Leads(cfg, bound, Alone(cfg, id, expiry, Sleeping(0, fireAt), channel, now),
                  Alone(cfg, id, expiry, Sleeping(0, fireAt), channel, now + d))
  {
    var w := Alone(cfg, id, expiry, Sleeping(0, fireAt), channel, now);
    AloneTimely(cfg, bound, id, expiry, Sleeping(0, fireAt), channel, now);
    StepLeads(cfg, bound, w, Tick(d), Alone(cfg, id, expiry, Sleeping(0, fireAt), channel, now + d));
  }

  /** The acquisition and the start of the timer. */
  lemma StartLeads(cfg: Config, bound: nat, id: nat)
    requires id in cfg && 0 < bound
    ensures Leads(cfg, bound, Start(cfg), Alone(cfg, id, cfg[id].lease, Sleeping(0, cfg[id].Period()), 1, 0))
  {
    var acquired := Alone(cfg, id, cfg[id].lease, Launched(0), 0, 0);
    AloneAcquires(cfg, id);
    StepLeads(cfg, bound, Start(cfg), Do(id, Acquire), acquired);
    ArmLeads(cfg, bound, id, cfg[id].lease, 0, 0);
    LeadsOn(cfg, bound, Start(cfg), acquired, Alone(cfg, id, cfg[id].lease, Sleeping(0, cfg[id].Period()), 1, 0));
  }

  /** A renewal begun when the timer fires at `t`: first the check, ... */
  lemma CheckLeads(cfg: Config, bound: nat, id: nat, expiry: int, channel: nat, t: int)
    requires id in cfg && 0 < bound && t < expiry
    ensures Leads(cfg, bound, Alone(cfg, id, expiry, Sleeping(0, t), channel, t),
                  Alone(cfg, id, expiry, Checked(0, t), channel, t))
  {
    var start := Alone(cfg, id, expiry, Sleeping(0, t), channel, t);
    var fired := Alone(cfg, id, expiry, Fired(0, t), channel, t);
    FireLeads(cfg, bound, id, expiry, channel, t);
    WakeLeads(cfg, bound, id, expiry, channel, t);
    LeadsOn(cfg, bound, start, fired, Alone(cfg, id, expiry, Checked(0, t), channel, t));
  }

  /** ... then the renewal and the next timer. */
  lemma ProlongLeads(cfg: Config, bound: nat, id: nat, expiry: int, channel: nat, t: int)
    requires id in cfg && 0 < bound && t < expiry
    ensures Leads(cfg, bound, Alone(cfg, id, expiry, Checked(0, t), channel, t),
                  Alone(cfg, id, t + cfg[id].renewal, Sleeping(0, t + cfg[id].Period()), channel + 1, t))
  {
    var renewal := t + cfg[id].renewal;
    ExpireLeads(cfg, bound, id, expiry, channel, t);
    ArmLeads(cfg, bound, id, renewal, channel, t);
    LeadsOn(cfg, bound, Alone(cfg, id, expiry, Checked(0, t), channel, t),
            Alone(cfg, id, renewal, Launched(t), channel, t),
            Alone(cfg, id, renewal, Sleeping(0, t + cfg[id].Period()), channel + 1, t));
  }

  lemma RenewLeads(cfg: Config, bound: nat, id: nat, expiry: int, channel: nat, t: int)
    requires id in cfg && 0 < bound && t < expiry
    ensures Leads(cfg, bound, Alone(cfg, id, expiry, Sleeping(0, t), channel, t),
                  Alone(cfg, id, t + cfg[id].renewal, Sleeping(0, t + cfg[id].Period()), channel + 1, t))
  {
    CheckLeads(cfg, bound, id, expiry, channel, t);
    ProlongLeads(cfg, bound, id, expiry, channel, t);
    LeadsOn(cfg, bound, Alone(cfg, id, expiry, Sleeping(0, t), channel, t),
            Alone(cfg, id, expiry, Checked(0, t), channel, t),
            Alone(cfg, id, t + cfg[id].renewal, Sleeping(0, t + cfg[id].Period()), channel + 1, t));
  }

  /** From the start of the timer until it fires, and past the renewal. */
  lemma RenewedLeads(cfg: Config, bound: nat, id: nat)
    requires id in cfg && 0 < bound && cfg[id].Period() < cfg[id].lease
    ensures var t := cfg[id].Period();
            Leads(cfg, bound, Alone(cfg, id, cfg[id].lease, Sleeping(0, t), 1, 0),
                  Alone(cfg, id, t + cfg[id].renewal, Sleeping(0, t + t), 2, t))
  {
    var p, t := cfg[id], cfg[id].Period();
    SleepLeads(cfg, bound, id, p.lease, t, 1, 0, t);
    RenewLeads(cfg, bound, id, p.lease, 1, t);
    LeadsOn(cfg, bound, Alone(cfg, id, p.lease, Sleeping(0, t), 1, 0), Alone(cfg, id, p.lease, Sleeping(0, t), 1, t),
            Alone(cfg, id, t + p.renewal, Sleeping(0, t + t), 2, t));
  }

  /** From the start of the timer to the lost key. */
  lemma AsleepTooLong(cfg: Config, bound: nat, id: nat)
    requires id in cfg && cfg[id].Slack() < bound
    ensures Leads(cfg, bound, Alone(cfg, id, cfg[id].lease, Sleeping(0, cfg[id].Period()), 1, 0),
                  LateWorld(cfg, bound, id))
  {
    var p, t := cfg[id], cfg[id].Period();
    if p.lease / 10 < bound {
      SleepLeads(cfg, bound, id, p.lease, t, 1, 0, p.lease);
    } else {
      RenewedLeads(cfg, bound, id);
      SleepLeads(cfg, bound, id, t + p.renewal, t + t, 2, t, p.renewal);
      LeadsOn(cfg, bound, Alone(cfg, id, p.lease, Sleeping(0, t), 1, 0),
              Alone(cfg, id, t + p.renewal, Sleeping(0, t + t), 2, t), LateWorld(cfg, bound, id));
    }
  }

  /** A lock whose slack is below the bound can be held while its key is gone. */
  lemma LateRenewalLosesKey(cfg: Config, bound: nat, id: nat)
    requires id in cfg && cfg[id].Slack() < bound
    ensures Leads(cfg, bound, Start(cfg), LateWorld(cfg, bound, id))
  {
    StartLeads(cfg, bound, id);
    AsleepTooLong(cfg, bound, id);
    LeadsOn(cfg, bound, Start(cfg), Alone(cfg, id, cfg[id].lease, Sleeping(0, cfg[id].Period()), 1, 0),
            LateWorld(cfg, bound, id));
  }

  lemma LateKeyIsGone(cfg: Config, bound: nat, id: nat)
    requires id in cfg
    ensures var w := LateWorld(cfg, bound, id); !Live(w.store, cfg[id].key, w.now) && w.locks[id].phase == Held
  {
  }

  lemma LateTimely(cfg: Config, bound: nat, id: nat)
    requires id in cfg && cfg[id].Slack() < bound
    ensures Timely(LateWorld(cfg, bound, id), bound)
  {
  }

  /** Such a run exists for every lock whose slack is below the bound. */
  lemma SomeRunLosesKey(cfg: Config, bound: nat, id: nat)
    requires id in cfg && cfg[id].Slack() < bound
    ensures exists run :: Legal(cfg, bound, Start(cfg), run) && !HoldersOwn(cfg, End(cfg, bound, Start(cfg), run))
  {
    var w := LateWorld(cfg, bound, id);
    LateTimely(cfg, bound, id);
    LateRenewalLosesKey(cfg, bound, id);
    LateKeyIsGone(cfg, bound, id);
    assert id in w.locks && !HoldersOwn(cfg, w);
    assert Legal(cfg, bound, w, []) && End(cfg, bound, w, []) == w;
  }

  /** Holders keep their keys in every run with watchdogs less than `bound` behind exactly when `bound`
      is at most what the timer leaves of every lease, a tenth, and of every renewal.  A lease under ten
      milliseconds therefore has no slack at all. */
  lemma ExclusiveIff(cfg: Config, bound: nat)
    ensures (forall run | Legal(cfg, bound, Start(cfg), run) :: HoldersOwn(cfg, End(cfg, bound, Start(cfg), run)))
       <==> (forall id <- cfg ::
               bound <= cfg[id].lease / 10 && (bound == 0 || bound <= cfg[id].renewal - cfg[id].Period()))
  {
    assert forall id <- cfg ::
        bound <= cfg[id].Slack() <==>
        bound <= cfg[id].lease / 10 && (bound == 0 || bound <= cfg[id].renewal - cfg[id].Period());
    if forall id <- cfg :: bound <= cfg[id].Slack() {
      forall run | Legal(cfg, bound, Start(cfg), run)
        ensures HoldersOwn(cfg, End(cfg, bound, Start(cfg), run))
      {
        RunsKeepInv(cfg, bound, Start(cfg), run);
      }
    } else {
      var id :| id in cfg && !(bound <= cfg[id].Slack());
      SomeRunLosesKey(cfg, bound, id);
    }
  }

  /** An unused lock acquires any key that is not live. */
  lemma TakeOver(cfg: Config, bound: nat, w: World, b: nat)
    requires b in cfg && b in w.locks && Unused(w.locks[b]) && !Live(w.store, cfg[b].key, w.now)
    requires Timely(w, bound) && 0 < bound
    ensures Legal(cfg, bound, w, [Do(b, Acquire)])
    ensures End(cfg, bound, w, [Do(b, Acquire)]).locks ==
            w.locks[b := LockState(Held, Launched(w.now), w.locks[b].channel)]
  {
    var w', l := Next(cfg, w, Do(b, Acquire)), LockState(Held, Launched(w.now), w.locks[b].channel);
    assert w'.locks == w.locks[b := l] && w'.now == w.now;
    assert Timely(w', bound) by {
      forall id <- w'.locks | w'.locks[id].phase == Held ensures Lag(w'.locks[id].dog, w'.now) < bound {
        if id != b {
          assert id in w.locks && w'.locks[id] == w.locks[id];
        }
      }
    }
    assert [Do(b, Acquire)][1..] == [];
  }

  /** A key lost that way can be taken, and then two locks hold it. */
  lemma LostKeyIsTaken(cfg: Config, bound: nat, a: nat, b: nat) returns (run: seq<Step>)
    requires a in cfg && b in cfg && a != b && cfg[a].key == cfg[b].key
    requires cfg[a].Slack() < bound
    ensures Legal(cfg, bound, Start(cfg), run)
    ensures var w := End(cfg, bound, Start(cfg), run);
            w.locks.Keys == cfg.Keys && w.locks[a].phase == Held == w.locks[b].phase
  {
    var w, take := LateWorld(cfg, bound, a), [Do(b, Acquire)];
    LateTimely(cfg, bound, a);
    LateKeyIsGone(cfg, bound, a);
    TakeOver(cfg, bound, w, b);
    LateRenewalLosesKey(cfg, bound, a);
    run :| Legal(cfg, bound, Start(cfg), run) && End(cfg, bound, Start(cfg), run) == End(cfg, bound, w, take);
  }

  // ---------------------------------------------------------------- who can change the owner

  /** No step of another object changes or removes a live entry's owner: a renewal, even by a watchdog
      that outlived its lock, only moves the expiry, and a release by a non-owner does nothing. */
  lemma OnlyTheOwnerReleases(cfg: Config, w: World, step: Step, key: string)
    requires Enabled(cfg, w, step) && Live(w.store, key, w.now)
    ensures key in Next(cfg, w, step).store ==> Next(cfg, w, step).store[key].owner == w.store[key].owner
    ensures key !in Next(cfg, w, step).store ==> step == Do(w.store[key].owner, Action.Release)
  {
  }

  // ---------------------------------------------------------------- when a watchdog ends

  /** A watchdog that finds its key gone, before or at the renewal, ends. */
  lemma LostKeyEndsWatchdog(p: Params, id: nat, l: LockState, store: Store, now: int, action: Action)
    requires CanAct(l, action, now) && (action == Wake || action == Renew)
    ensures Act(p, id, l, store, now, action).0.dog == Off <==>
            !(p.key in store && now < store[p.key].expiresAt)
  {
  }

  /** An object without a watchdog gets one only by acquiring the key. */
  lemma {:induction false} NoWatchdogLasts(cfg: Config, bound: nat, w: World, b: nat, run: seq<Step>)
    requires b in w.locks && w.locks[b].dog == Off && Legal(cfg, bound, w, run)
    requires forall i | 0 <= i < |run| :: run[i] != Do(b, Acquire)
    ensures var end := End(cfg, bound, w, run); b in end.locks && end.locks[b].dog == Off
    decreases |run|
  {
    if run != [] {
      NoWatchdogLasts(cfg, bound, Next(cfg, w, run[0]), b, run[1..]);
    }
  }

  // ---------------------------------------------------------------- forced release

  /** `ForceRelease` by object `id`, up to its send: the key is deleted whoever owns it, and the caller
      holds its mutex. */
  function ForceRelease(cfg: Config, w: World, id: nat): World
    requires id in cfg && id in w.locks
  {
    World(w.now, w.store - {cfg[id].key}, w.locks[id := w.locks[id].(phase := Deleted)])
  }

  /** Holders still own their keys after a forced release exactly when no other object held that key. */
  lemma ForceReleaseKeepsExclusionIff(cfg: Config, w: World, b: nat)
    requires Inv(cfg, w) && HoldersOwn(cfg, w) && b in cfg
    ensures HoldersOwn(cfg, ForceRelease(cfg, w, b)) <==>
            forall a <- cfg | a != b && cfg[a].key == cfg[b].key :: w.locks[a].phase != Held
  {
    var w' := ForceRelease(cfg, w, b);
    forall a <- cfg | a != b
      ensures w'.locks[a].phase == Held ==>
                (Live(w'.store, cfg[a].key, w'.now) && w'.store[cfg[a].key].owner == a <==> cfg[a].key != cfg[b].key)
    {
      assert w'.locks[a] == w.locks[a];
    }
  }

  /** If another object did hold it, a third one gets in. */
  lemma ForceReleaseBreaksExclusion(cfg: Config, w: World, a: nat, b: nat, c: nat)
    requires a in cfg && b in cfg && c in cfg && a != b && a != c && b != c && cfg[a].key == cfg[b].key == cfg[c].key
    requires a in w.locks && b in w.locks && c in w.locks
    requires w.locks[a].phase == Held && Unused(w.locks[c])
    ensures var w' := Next(cfg, ForceRelease(cfg, w, b), Do(c, Acquire));
            w'.locks[a].phase == Held && w'.locks[c].phase == Held
  {
  }

  // ---------------------------------------------------------------- when a release returns

  /** A release holds the mutex, and the channel it sends on was in `checkCancel` once. */
  predicate HoldsMutex(l: LockState) {
    InRelease(l) && !l.dog.Checked? && (l.phase.Sending? ==> l.phase.to <= l.channel)
  }

  /** The watchdog can still come to receive on the channel the release sends on: it is in its select
      with that channel, or will be before the release reads it. */
  predicate CanReturn(l: LockState) {
    match l.phase
    case Deleted => l.dog.Launched? || l.dog.Sleeping?
    case Sending(to) => l.dog.Sleeping? && to == l.channel
    case _ => false
  }

  predicate Returned(w: World, b: nat) {
    b in w.locks && w.locks[b].phase == Idle
  }

  /** Some run brings the object's release to its end. */
  ghost predicate MayReturn(cfg: Config, bound: nat, w: World, b: nat) {
    exists run :: Legal(cfg, bound, w, run) && Returned(End(cfg, bound, w, run), b)
  }

  lemma MayReturnEarlier(cfg: Config, bound: nat, w: World, step: Step, b: nat)
    requires Timely(w, bound) && Enabled(cfg, w, step) && MayReturn(cfg, bound, Next(cfg, w, step), b)
    ensures MayReturn(cfg, bound, w, b)
  {
    StepLeads(cfg, bound, w, step, Next(cfg, w, step));
    var rest :| Legal(cfg, bound, Next(cfg, w, step), rest) && Returned(End(cfg, bound, Next(cfg, w, step), rest), b);
    var run :| Legal(cfg, bound, w, run) &&
               End(cfg, bound, w, run) == End(cfg, bound, Next(cfg, w, step), rest);
  }

  /** A step of a releasing object makes nobody late. */
  lemma ReleasingStepTimely(cfg: Config, bound: nat, w: World, b: nat, action: Action)
    requires Timely(w, bound) && Enabled(cfg, w, Do(b, action)) && InRelease(w.locks[b])
    ensures Timely(Next(cfg, w, Do(b, action)), bound)
  {
    var w' := Next(cfg, w, Do(b, action));
    forall id <- w'.locks | w'.locks[id].phase == Held ensures Lag(w'.locks[id].dog, w'.now) < bound {
      assert id != b && w'.locks[id] == w.locks[id];
    }
  }

  lemma CancelReturns(cfg: Config, bound: nat, w: World, b: nat)
    requires Timely(w, bound) && Enabled(cfg, w, Do(b, Cancel))
    ensures MayReturn(cfg, bound, w, b)
  {
    var w' := Next(cfg, w, Do(b, Cancel));
    ReleasingStepTimely(cfg, bound, w, b, Cancel);
    assert Legal(cfg, bound, w', []) && Returned(End(cfg, bound, w', []), b);
    MayReturnEarlier(cfg, bound, w, Do(b, Cancel), b);
  }

  lemma SendReturns(cfg: Config, bound: nat, w: World, b: nat)
    requires Timely(w, bound) && Enabled(cfg, w, Do(b, Send)) && w.locks[b].dog.Sleeping?
    ensures MayReturn(cfg, bound, w, b)
  {
    ReleasingStepTimely(cfg, bound, w, b, Send);
    CancelReturns(cfg, bound, Next(cfg, w, Do(b, Send)), b);
    MayReturnEarlier(cfg, bound, w, Do(b, Send), b);
  }

  lemma ArmReturns(cfg: Config, bound: nat, w: World, b: nat)
    requires Timely(w, bound) && Enabled(cfg, w, Do(b, Arm)) && w.locks[b].phase == Deleted
    ensures MayReturn(cfg, bound, w, b)
  {
    ReleasingStepTimely(cfg, bound, w, b, Arm);
    SendReturns(cfg, bound, Next(cfg, w, Do(b, Arm)), b);
    MayReturnEarlier(cfg, bound, w, Do(b, Arm), b);
  }

  /** Once nobody can come to receive, nobody ever does. */
  lemma {:induction false} StuckForGood(cfg: Config, bound: nat, w: World, b: nat, run: seq<Step>)
    requires b in cfg && b in w.locks && HoldsMutex(w.locks[b]) && !CanReturn(w.locks[b]) && Legal(cfg, bound, w, run)
    ensures !Returned(End(cfg, bound, w, run), b)
    decreases |run|
  {
    if run != [] {
      StuckForGood(cfg, bound, Next(cfg, w, run[0]), b, run[1..]);
    }
  }

  /** A release, forced or not, that holds the mutex can still return exactly when its watchdog is in
      its select with the channel being sent on, or no channel has been read yet and the watchdog is
      on its way into the select.  If the watchdog has taken its timer and waits for the mutex, or
      never was, both are stuck. */
  lemma ReturnsIff(cfg: Config, bound: nat, w: World, b: nat)
    requires b in cfg && b in w.locks && HoldsMutex(w.locks[b]) && Timely(w, bound)
    ensures MayReturn(cfg, bound, w, b) <==> CanReturn(w.locks[b])
  {
    var l := w.locks[b];
    if CanReturn(l) {
      if l.phase.Sending? {
        CancelReturns(cfg, bound, w, b);
      } else if l.dog.Sleeping? {
        SendReturns(cfg, bound, w, b);
      } else {
        ArmReturns(cfg, bound, w, b);
      }
    } else {
      forall run | Legal(cfg, bound, w, run) ensures !Returned(End(cfg, bound, w, run), b) {
        StuckForGood(cfg, bound, w, b, run);
      }
    }
  }

  /** A release that read the channel before its watchdog, just spawned or renewed, has put a new one
      there, sends where nobody listens. */
  lemma SentTooEarly(cfg: Config, bound: nat, w: World, b: nat)
    requires b in cfg && b in w.locks && HoldsMutex(w.locks[b]) && Timely(w, bound)
    requires w.locks[b].phase.Sending? && (w.locks[b].dog.Launched? || w.locks[b].phase.to != w.locks[b].channel)
    ensures !MayReturn(cfg, bound, w, b)
  {
    ReturnsIff(cfg, bound, w, b);
  }

  /** So a forced release can return exactly when the caller's own watchdog is spawned or asleep. */
  lemma ForceReleaseReturnsIff(cfg: Config, bound: nat, w: World, b: nat)
    requires b in cfg && b in w.locks && CanAct(w.locks[b], Action.Release, w.now) && Timely(w, bound)
    ensures MayReturn(cfg, bound, ForceRelease(cfg, w, b), b) <==>
            w.locks[b].dog.Launched? || w.locks[b].dog.Sleeping?
  {
    ReturnsIff(cfg, bound, ForceRelease(cfg, w, b), b);
  }

  /** And a release by the owner likewise. */
  lemma ReleaseReturnsIff(cfg: Config, bound: nat, w: World, b: nat)
    requires Enabled(cfg, w, Do(b, Action.Release)) && Timely(w, bound)
    requires Live(w.store, cfg[b].key, w.now) && w.store[cfg[b].key].owner == b
    ensures MayReturn(cfg, bound, Next(cfg, w, Do(b, Action.Release)), b) <==>
            w.locks[b].dog.Launched? || w.locks[b].dog.Sleeping?
  {
    ReturnsIff(cfg, bound, Next(cfg, w, Do(b, Action.Release)), b);
  }
}
