/** The per-key rate limiter cache (web/component/limiter/limiter.go): a shared table of token buckets
    and a background pass that drops buckets idle for more than sixty whole seconds. */
module LimiterCache {

  /** Refill rate in tokens per second, and bucket size. */
  datatype Config = Config(rate: real, burst: nat) {
    predicate Ok() {
      0.0 <= rate
    }
  }

  /** A token bucket that starts full. */
  datatype Bucket = Bucket(tokens: real, last: real)

  function Min(x: real, y: real): real {
    if x <= y then x else y
  }

  /** Tokens available at time `t`. */
  function Level(c: Config, b: Bucket, t: real): real {
    Min(c.burst as real, b.tokens + (t - b.last) * c.rate)
  }

  /** Taking one token at time `t`: the answer and the bucket afterwards. */
  function Take(c: Config, b: Bucket, t: real): (r: (bool, Bucket)) {
    if 1.0 <= Level(c, b, t) then (true, Bucket(Level(c, b, t) - 1.0, t)) else (false, b)
  }

  function Full(c: Config, t: real): Bucket {
    Bucket(c.burst as real, t)
  }

  // ---------------------------------------------------------------- the table as a value

  /** One cached limiter as a value: its bucket and the time of its last `Allow`. */
  datatype Cached = Cached(bucket: Bucket, lastGet: real)

  type Table = map<string, Cached>

  /** `NewLimiter(r, b, key).Allow()` at time `t`. */
  function Ask(c: Config, table: Table, key: string, t: real): (bool, Table) {
    var found := if key in table then table[key].bucket else Full(c, t);
    var (ok, bucket) := Take(c, found, t);
    (ok, table[key := Cached(bucket, t)])
  }

  /** The eviction test, on whole seconds. */
  predicate Idle(lastGet: real, t: real) {
    t.Floor - lastGet.Floor > 60
  }

  function Inspect(table: Table, key: string, t: real): Table {
    if key in table && Idle(table[key].lastGet, t) then table - {key} else table
  }

  function IdleKeys(table: Table, clock: string -> real): set<string> {
    set k | k in table && Idle(table[k].lastGet, clock(k))
  }

  // ---------------------------------------------------------------- the program

  class Limiter {
    const config: Config
    const key: string
    var bucket: Bucket
    var lastGet: real

    constructor (config: Config, key: string, now: real)
      ensures this.config == config && this.key == key
      ensures bucket == Full(config, now) && lastGet == now
    {
      this.config, this.key := config, key;
      this.bucket, this.lastGet := Full(config, now), now;
    }

    method Allow(now: real) returns (ok: bool)
      modifies this
      ensures lastGet == now && (ok, bucket) == Take(config, old(bucket), now)
    {
      lastGet := now;
      var (allowed, after) := Take(config, bucket, now);
      ok, bucket := allowed, after;
    }
  }

  class Limiters {
    var limiters: map<string, Limiter>

    /** Each limiter is stored under its own key, so no two keys share a limiter. */
    ghost predicate Valid()
      reads this, limiters.Values
    {
      forall k <- limiters :: limiters[k].key == k
    }

    ghost function Contents(): Table
      reads this, limiters.Values
    {
      map k <- limiters :: Cached(limiters[k].bucket, limiters[k].lastGet)
    }

    constructor ()
      ensures Valid() && Contents() == map[]
    {
      limiters := map[];
    }

    method GetLimiter(config: Config, key: string, now: real) returns (l: Limiter)
      requires Valid()
      modifies this
      ensures Valid() && key in limiters && limiters[key] == l
      ensures key in old(limiters) ==> limiters == old(limiters)
      ensures key !in old(limiters) ==>
                fresh(l) && l.config == config && limiters == old(limiters)[key := l]
                && l.bucket == Full(config, now) && l.lastGet == now
    {
      if key in limiters {
        return limiters[key];
      }
      l := new Limiter(config, key, now);
      limiters := limiters[key := l];
    }

    /** The rate and size that answer for `key`: those it was first created with. */
    function ConfigFor(config: Config, key: string): Config
      reads this
    {
      if key in limiters then limiters[key].config else config
    }

    /** One `NewLimiter(r, b, key).Allow()`. */
    method AskOnce(config: Config, key: string, now: real) returns (ok: bool)
      requires Valid()
      modifies this, limiters.Values
      ensures Valid() && fresh(limiters.Values - old(limiters.Values))
      ensures (ok, Contents()) == Ask(old(ConfigFor(config, key)), old(Contents()), key, now)
      ensures limiters.Keys == old(limiters.Keys) + {key} && limiters[key].config == old(ConfigFor(config, key))
      ensures forall k <- old(limiters) :: limiters[k] == old(limiters)[k]
    {
      ghost var table := Contents();
      var l := GetLimiter(config, key, now);
      assert forall k <- limiters | k != key :: limiters[k] != l;
      assert key in table ==> table[key] == Cached(l.bucket, l.lastGet);
      ok := l.Allow(now);
      assert Contents() == table[key := Cached(l.bucket, l.lastGet)];
    }

    /** The body of the `Range` callback. */
    method InspectOne(key: string, now: real)
      requires Valid()
      modifies this
      ensures Valid() && Contents() == Inspect(old(Contents()), key, now)
      ensures limiters.Keys <= old(limiters.Keys)
      ensures forall k <- limiters :: limiters[k] == old(limiters)[k]
    {
      if key in limiters && now.Floor - limiters[key].lastGet.Floor > 60 {
        limiters := limiters - {key};
      }
      assert Contents() == Inspect(old(Contents()), key, now);
    }

    /** One `Range` of the background pass, each key looked at at its own time. */
    method ClearPass(clock: string -> real)
      requires Valid()
      modifies this
      ensures Valid()
      ensures Contents() == old(Contents()) - IdleKeys(old(Contents()), clock)
    {
      var unvisited := limiters.Keys;
      ghost var table, gone: set<string> := Contents(), {};
      while unvisited != {}
        invariant Valid() && unvisited <= table.Keys
        invariant Contents() == table - gone && gone == IdleKeys(table, clock) - unvisited
        decreases unvisited
      {
        var key :| key in unvisited;
        InspectOne(key, clock(key));
        gone := gone + if Idle(table[key].lastGet, clock(key)) then {key} else {};
        unvisited := unvisited - {key};
      }
    }
  }

  // ---------------------------------------------------------------- whole runs

  /** What can happen to the table: a caller asks for a key, or the eviction pass looks at one. */
  datatype Event = Call(key: string, at: real) | Sweep(key: string, at: real)

  predicate Timed(events: seq<Event>, now: real) {
    events == [] || (now <= events[0].at && Timed(events[1..], events[0].at))
  }

  /** The answers given by the table that evicts. */
  function Answers(cfg: string -> Config, table: Table, events: seq<Event>): seq<bool>
    decreases |events|
  {
    if events == [] then []
    else match events[0]
      case Call(key, at) =>
        var (ok, table') := Ask(cfg(key), table, key, at);
        [ok] + Answers(cfg, table', events[1..])
      case Sweep(key, at) => Answers(cfg, Inspect(table, key, at), events[1..])
  }

  /** The answers of a table that keeps every limiter for ever. */
  function KeepingAnswers(cfg: string -> Config, table: Table, events: seq<Event>): seq<bool>
    decreases |events|
  {
    if events == [] then []
    else match events[0]
      case Call(key, at) =>
        var (ok, table') := Ask(cfg(key), table, key, at);
        [ok] + KeepingAnswers(cfg, table', events[1..])
      case Sweep(_, _) => KeepingAnswers(cfg, table, events[1..])
  }

  lemma CallThen(cfg: string -> Config, table: Table, key: string, t: real, rest: seq<Event>)
    ensures var (ok, table') := Ask(cfg(key), table, key, t);
            Answers(cfg, table, [Call(key, t)] + rest) == [ok] + Answers(cfg, table', rest) &&
            KeepingAnswers(cfg, table, [Call(key, t)] + rest) == [ok] + KeepingAnswers(cfg, table', rest)
  {
    var events := [Call(key, t)] + rest;
    assert events[0] == Call(key, t) && events[1..] == rest;
  }

  lemma SweepThen(cfg: string -> Config, table: Table, key: string, t: real, rest: seq<Event>)
    ensures Answers(cfg, table, [Sweep(key, t)] + rest) == Answers(cfg, Inspect(table, key, t), rest)
    ensures KeepingAnswers(cfg, table, [Sweep(key, t)] + rest) == KeepingAnswers(cfg, table, rest)
  {
    var events := [Sweep(key, t)] + rest;
    assert events[0] == Sweep(key, t) && events[1..] == rest;
  }

  /** The class on one event. */
  method ServeOne(cache: Limiters, cfg: string -> Config, event: Event, ghost rest: seq<Event>)
    returns (answer: seq<bool>)
    requires cache.Valid() && forall k <- cache.limiters :: cache.limiters[k].config == cfg(k)
    modifies cache, cache.limiters.Values
    ensures cache.Valid() && forall k <- cache.limiters :: cache.limiters[k].config == cfg(k)
    ensures fresh(cache.limiters.Values - old(cache.limiters.Values))
    ensures answer + Answers(cfg, cache.Contents(), rest) == Answers(cfg, old(cache.Contents()), [event] + rest)
  {
    ghost var table := cache.Contents();
    match event {
      case Call(key, at) =>
        CallThen(cfg, table, key, at, rest);
        var ok := cache.AskOnce(cfg(key), key, at);
        answer := [ok];
      case Sweep(key, at) =>
        SweepThen(cfg, table, key, at, rest);
        cache.InspectOne(key, at);
        answer := [];
    }
  }

  /** The class runs exactly those events. */
  method Serve(cache: Limiters, cfg: string -> Config, events: seq<Event>) returns (answers: seq<bool>)
    requires cache.Valid() && forall k <- cache.limiters :: cache.limiters[k].config == cfg(k)
    modifies cache, cache.limiters.Values
    ensures answers == Answers(cfg, old(cache.Contents()), events)
  {
    answers := [];
    ghost var start := cache.Contents();
    assert events[0..] == events;
    for i := 0 to |events|
      invariant cache.Valid() && forall k <- cache.limiters :: cache.limiters[k].config == cfg(k)
      invariant fresh(cache.limiters.Values - old(cache.limiters.Values))
      invariant answers + Answers(cfg, cache.Contents(), events[i..]) == Answers(cfg, start, events)
    {
      assert events[i..] == [events[i]] + events[i + 1..];
      var answer := ServeOne(cache, cfg, events[i], events[i + 1..]);
      answers := answers + answer;
    }
  }

  // ---------------------------------------------------------------- eviction is invisible

  /** The level a table offers for a key: a missing key means a full bucket. */
  function LevelOf(c: Config, table: Table, key: string, t: real): real {
    if key in table then Level(c, table[key].bucket, t) else c.burst as real
  }

  /** Every bucket was last touched no later than `lastGet`, itself no later than `now`. */
  ghost predicate Sane(table: Table, now: real) {
    forall k <- table :: 0.0 <= table[k].bucket.tokens && table[k].bucket.last <= table[k].lastGet <= now
  }

  ghost predicate SameLevels(cfg: string -> Config, a: Table, b: Table, t: real) {
    forall k :: LevelOf(cfg(k), a, k, t) == LevelOf(cfg(k), b, k, t)
  }

  lemma MulMonotone(x: real, y: real, r: real)
    requires x <= y && 0.0 <= r
    ensures x * r <= y * r
  {
  }

  /** A bucket that has just been touched. */
  lemma LevelNow(c: Config, tokens: real, t: real)
    ensures Level(c, Bucket(tokens, t), t) == Min(c.burst as real, tokens)
  {
    assert (t - t) * c.rate == 0.0 * c.rate == 0.0;
  }

  /** The level at a later time depends only on the level now. */
  lemma LevelLater(c: Config, b: Bucket, t: real, u: real)
    requires c.Ok() && t <= u
    ensures Level(c, b, u) == Min(c.burst as real, Level(c, b, t) + (u - t) * c.rate)
  {
    assert (u - b.last) * c.rate == (t - b.last) * c.rate + (u - t) * c.rate;
    MulMonotone(0.0, u - t, c.rate);
  }

  /** So does the future level a table offers; a missing key stays full. */
  lemma LevelOfLater(c: Config, table: Table, key: string, t: real, u: real)
    requires c.Ok() && t <= u
    ensures LevelOf(c, table, key, u) == Min(c.burst as real, LevelOf(c, table, key, t) + (u - t) * c.rate)
  {
    if key in table {
      LevelLater(c, table[key].bucket, t, u);
    } else {
      MulMonotone(0.0, u - t, c.rate);
      assert 0.0 * c.rate == 0.0;
    }
  }

  lemma SameLevelsLater(cfg: string -> Config, a: Table, b: Table, t: real, u: real)
    requires (forall k :: cfg(k).Ok()) && SameLevels(cfg, a, b, t) && t <= u
    ensures SameLevels(cfg, a, b, u)
  {
    forall k ensures LevelOf(cfg(k), a, k, u) == LevelOf(cfg(k), b, k, u) {
      LevelOfLater(cfg(k), a, k, t, u);
      LevelOfLater(cfg(k), b, k, t, u);
    }
  }

  /** Asking both tables gives one answer and keeps them level. */
  lemma AskAgrees(cfg: string -> Config, a: Table, b: Table, key: string, t: real)
    requires cfg(key).Ok() && SameLevels(cfg, a, b, t) && Sane(a, t) && Sane(b, t)
    ensures Ask(cfg(key), a, key, t).0 == Ask(cfg(key), b, key, t).0
    ensures SameLevels(cfg, Ask(cfg(key), a, key, t).1, Ask(cfg(key), b, key, t).1, t)
    ensures Sane(Ask(cfg(key), a, key, t).1, t) && Sane(Ask(cfg(key), b, key, t).1, t)
  {
    var c := cfg(key);
    var a', b' := Ask(c, a, key, t).1, Ask(c, b, key, t).1;
    assert LevelOf(c, a, key, t) == LevelOf(c, b, key, t);
    LevelNow(c, c.burst as real, t);
    forall k ensures LevelOf(cfg(k), a', k, t) == LevelOf(cfg(k), b', k, t) {
      assert LevelOf(cfg(k), a, k, t) == LevelOf(cfg(k), b, k, t);
    }
  }

  /** An idle bucket that the rate refills within sixty seconds is full, so dropping it changes no
      level. */
  lemma InspectKeepsLevels(cfg: string -> Config, table: Table, key: string, t: real)
    requires cfg(key).Ok() && cfg(key).burst as real <= 60.0 * cfg(key).rate && Sane(table, t)
    ensures SameLevels(cfg, table, Inspect(table, key, t), t) && Sane(Inspect(table, key, t), t)
  {
    if key in table && Idle(table[key].lastGet, t) {
      var c, b := cfg(key), table[key].bucket;
      assert 60.0 <= t - b.last;
      var idle := t - b.last;
      MulMonotone(60.0, idle, c.rate);
      assert 0.0 <= b.tokens;
      assert c.burst as real <= b.tokens + idle * c.rate;
      assert LevelOf(c, table, key, t) == c.burst as real;
    }
  }

  /** One call in plain terms: it is allowed exactly if a whole token is there, takes that token, costs
      nothing when refused, and notes the time in either case. */
  lemma AskMeans(c: Config, table: Table, key: string, t: real, u: real)
    requires c.Ok() && t <= u
    ensures var (ok, after) := Ask(c, table, key, t);
            && (ok <==> 1.0 <= LevelOf(c, table, key, t))
            && (ok ==> LevelOf(c, after, key, t) == LevelOf(c, table, key, t) - 1.0)
            && (!ok ==> LevelOf(c, after, key, u) == LevelOf(c, table, key, u))
            && key in after && after[key].lastGet == t
            && after - {key} == table - {key}
  {
    var (ok, after) := Ask(c, table, key, t);
    LevelNow(c, LevelOf(c, table, key, t) - 1.0, t);
    if !ok && key !in table {
      LevelNow(c, c.burst as real, t);
      LevelOfLater(c, after, key, t, u);
      MulMonotone(0.0, u - t, c.rate);
      assert 0.0 * c.rate == 0.0;
    }
  }

  lemma {:induction false} EvictionInvisible(cfg: string -> Config, a: Table, b: Table, events: seq<Event>, now: real)
    requires forall k :: cfg(k).Ok()
    requires SameLevels(cfg, a, b, now) && Sane(a, now) && Sane(b, now) && Timed(events, now)
    requires forall e <- events :: e.Sweep? ==> cfg(e.key).burst as real <= 60.0 * cfg(e.key).rate
    ensures Answers(cfg, a, events) == KeepingAnswers(cfg, b, events)
    decreases |events|
  {
    if events != [] {
      var t := events[0].at;
      SameLevelsLater(cfg, a, b, now, t);
      match events[0] {
        case Call(key, at) =>
          AskAgrees(cfg, a, b, key, at);
          EvictionInvisible(cfg, Ask(cfg(key), a, key, at).1, Ask(cfg(key), b, key, at).1, events[1..], at);
        case Sweep(key, at) =>
          InspectKeepsLevels(cfg, a, key, at);
          var a' := Inspect(a, key, at);
          assert SameLevels(cfg, a', b, at) by {
            forall k ensures LevelOf(cfg(k), a', k, at) == LevelOf(cfg(k), b, k, at) {
              assert LevelOf(cfg(k), a, k, at) == LevelOf(cfg(k), a', k, at);
            }
          }
          EvictionInvisible(cfg, a', b, events[1..], at);
      }
    }
  }

  // ---------------------------------------------------------------- and only then

  /** `n` calls for one key at one instant. */
  function Burst(key: string, t: real, n: nat): (r: seq<Event>)
    ensures |r| == n
  {
    seq(n, _ => Call(key, t))
  }

  /** Calls at one instant are all allowed exactly when the level covers them. */
  lemma {:induction false} BurstAllowed(cfg: string -> Config, table: Table, key: string, t: real, n: nat)
    requires cfg(key).Ok() && n > 0
    ensures (false !in KeepingAnswers(cfg, table, Burst(key, t, n))) <==> n as real <= LevelOf(cfg(key), table, key, t)
    decreases n
  {
    var c := cfg(key);
    var events := Burst(key, t, n);
    var (ok, table') := Ask(c, table, key, t);
    LevelNow(c, c.burst as real, t);
    LevelNow(c, LevelOf(c, table, key, t) - 1.0, t);
    assert events[0] == Call(key, t) && events[1..] == Burst(key, t, n - 1);
    assert KeepingAnswers(cfg, table, events) == [ok] + KeepingAnswers(cfg, table', events[1..]);
    if n == 1 {
      assert KeepingAnswers(cfg, table', events[1..]) == [];
    } else {
      BurstAllowed(cfg, table', key, t, n - 1);
      assert ok ==> LevelOf(c, table', key, t) == LevelOf(c, table, key, t) - 1.0;
    }
  }

  function After(cfg: string -> Config, table: Table, key: string, t: real, n: nat): Table
    decreases n
  {
    if n == 0 then table else After(cfg, Ask(cfg(key), table, key, t).1, key, t, n - 1)
  }

  lemma Grouped<T>(a: seq<T>, b: seq<T>, c: seq<T>)
    ensures (a + b) + c == a + (b + c)
  {
  }

  /** Both tables answer a burst alike and are left as `After` says. */
  lemma {:induction false} BurstThen(cfg: string -> Config, table: Table, key: string, t: real, n: nat,
                                     rest: seq<Event>)
    ensures var a := KeepingAnswers(cfg, table, Burst(key, t, n));
            Answers(cfg, table, Burst(key, t, n) + rest) == a + Answers(cfg, After(cfg, table, key, t, n), rest) &&
            KeepingAnswers(cfg, table, Burst(key, t, n) + rest) ==
                a + KeepingAnswers(cfg, After(cfg, table, key, t, n), rest)
    decreases n
  {
    if n == 0 {
      assert Burst(key, t, n) + rest == rest;
    } else {
      var fewer := Burst(key, t, n - 1);
      var (ok, table') := Ask(cfg(key), table, key, t);
      assert Burst(key, t, n) == [Call(key, t)] + fewer;
      BurstThen(cfg, table', key, t, n - 1, rest);
      var a := KeepingAnswers(cfg, table', fewer);
      Grouped([Call(key, t)], fewer, rest);
      Grouped([ok], a, Answers(cfg, After(cfg, table, key, t, n), rest));
      Grouped([ok], a, KeepingAnswers(cfg, After(cfg, table, key, t, n), rest));
      CallThen(cfg, table, key, t, fewer);
      CallThen(cfg, table, key, t, fewer + rest);
    }
  }

  /** After `n` allowed calls on an untouched key the bucket holds what is left. */
  lemma {:induction false} AfterBurst(cfg: string -> Config, table: Table, key: string, t: real, n: nat)
    requires cfg(key).Ok() && n > 0 && n as real <= LevelOf(cfg(key), table, key, t)
    ensures key in After(cfg, table, key, t, n)
    ensures After(cfg, table, key, t, n)[key] == Cached(Bucket(LevelOf(cfg(key), table, key, t) - n as real, t), t)
    decreases n
  {
    var c := cfg(key);
    LevelNow(c, c.burst as real, t);
    LevelNow(c, LevelOf(c, table, key, t) - 1.0, t);
    var table' := Ask(c, table, key, t).1;
    if n == 1 {
      assert After(cfg, table', key, t, 0) == table';
    } else {
      assert LevelOf(c, table', key, t) == LevelOf(c, table, key, t) - 1.0;
      AfterBurst(cfg, table', key, t, n - 1);
    }
  }

  lemma {:induction false} BurstTimed(key: string, t: real, n: nat, rest: seq<Event>, now: real)
    requires now <= t && Timed(rest, t)
    ensures Timed(Burst(key, t, n) + rest, now)
    decreases n
  {
    var events := Burst(key, t, n) + rest;
    if n == 0 {
      assert events == rest;
    } else {
      BurstTimed(key, t, n - 1, rest, t);
      assert events[1..] == Burst(key, t, n - 1) + rest;
    }
  }

  /** How late in the first second to ask, so that the refill until second 61 stays below the burst. */
  lemma LateEnough(c: Config) returns (early: real)
    requires c.Ok() && 60.0 * c.rate < c.burst as real
    ensures 0.0 <= early < 1.0 && (61.0 - early) * c.rate < c.burst as real
  {
    if c.rate == 0.0 {
      early := 0.5;
    } else {
      var room := (c.burst as real - 60.0 * c.rate) / (2.0 * c.rate);
      assert 0.0 < room;
      early := if room <= 0.5 then 1.0 - room else 0.5;
      assert room * c.rate == (c.burst as real - 60.0 * c.rate) / 2.0;
      MulMonotone(1.0 - early, room, c.rate);
      assert (61.0 - early) * c.rate == 60.0 * c.rate + (1.0 - early) * c.rate;
    }
  }

  /** The run that tells the tables apart when the bucket is larger than a minute's refill: empty the
      bucket late in a second, let the pass run 60 whole seconds after the next one, ask again. */
  function Telltale(key: string, n: nat, early: real): seq<Event> {
    Burst(key, early, n) + ([Sweep(key, 61.0)] + Burst(key, 61.0, n))
  }

  lemma TelltaleTimed(key: string, n: nat, early: real)
    requires 0.0 <= early < 1.0
    ensures Timed(Telltale(key, n, early), 0.0)
  {
    var last := Burst(key, 61.0, n);
    BurstTimed(key, 61.0, n, [], 61.0);
    assert last + [] == last;
    var middle := [Sweep(key, 61.0)] + last;
    assert middle[1..] == last;
    BurstTimed(key, early, n, middle, 0.0);
  }

  /** A bucket that can fill up later has room for at least one token. */
  lemma HasRoom(c: Config, gap: real)
    requires c.Ok() && 0.0 <= gap && gap * c.rate < c.burst as real
    ensures 0 < c.burst && 0.0 <= gap * c.rate
  {
    MulMonotone(0.0, gap, c.rate);
    assert 0.0 <= gap * c.rate;
    assert 0.0 < c.burst as real;
  }

  /** An emptied bucket after `gap` seconds. */
  lemma RefilledLevel(c: Config, early: real, t: real)
    requires c.Ok() && early <= t && (t - early) * c.rate < c.burst as real
    ensures Level(c, Bucket(0.0, early), t) < c.burst as real
  {
    assert 0.0 + (t - early) * c.rate == (t - early) * c.rate;
  }

  /** The drained bucket is dropped at second 61; the one that is kept has refilled less than a
      burst. */
  lemma Drained(cfg: string -> Config, key: string, early: real)
    requires cfg(key).Ok() && 0.0 <= early < 1.0 && (61.0 - early) * cfg(key).rate < cfg(key).burst as real
    ensures var drained := After(cfg, map[], key, early, cfg(key).burst);
            key !in Inspect(drained, key, 61.0) && LevelOf(cfg(key), drained, key, 61.0) < cfg(key).burst as real
  {
    var c := cfg(key);
    HasRoom(c, 61.0 - early);
    AfterBurst(cfg, map[], key, early, c.burst);
    var drained := After(cfg, map[], key, early, c.burst);
    assert drained[key] == Cached(Bucket(0.0, early), early);
    RefilledLevel(c, early, 61.0);
  }

  /** A burst at one instant gets the same answers from both kinds of table. */
  lemma BurstSame(cfg: string -> Config, table: Table, key: string, t: real, n: nat)
    ensures Answers(cfg, table, Burst(key, t, n)) == KeepingAnswers(cfg, table, Burst(key, t, n))
  {
    BurstThen(cfg, table, key, t, n, []);
    assert Burst(key, t, n) + [] == Burst(key, t, n);
  }

  lemma TelltaleDiffers(cfg: string -> Config, key: string) returns (events: seq<Event>)
    requires cfg(key).Ok() && 60.0 * cfg(key).rate < cfg(key).burst as real
    ensures Timed(events, 0.0) && Answers(cfg, map[], events) != KeepingAnswers(cfg, map[], events)
  {
    var n := cfg(key).burst;
    var early := LateEnough(cfg(key));
    events := Telltale(key, n, early);
    TelltaleTimed(key, n, early);
    Drained(cfg, key, early);
    var drained := After(cfg, map[], key, early, n);
    var dropped := Inspect(drained, key, 61.0);
    var last := Burst(key, 61.0, n);
    BurstThen(cfg, map[], key, early, n, [Sweep(key, 61.0)] + last);
    SweepThen(cfg, drained, key, 61.0, last);
    BurstSame(cfg, dropped, key, 61.0, n);
    assert n > 0 by { assert 0.0 <= cfg(key).rate; }
    BurstAllowed(cfg, dropped, key, 61.0, n);
    BurstAllowed(cfg, drained, key, 61.0, n);
    var start := KeepingAnswers(cfg, map[], Burst(key, early, n));
    var evicting, keeping := KeepingAnswers(cfg, dropped, last), KeepingAnswers(cfg, drained, last);
    assert (start + evicting)[|start|..] == evicting != keeping == (start + keeping)[|start|..];
  }

  /** Eviction can never be noticed by a caller exactly when every bucket refills within sixty
      seconds. */
  lemma EvictionInvisibleIff(cfg: string -> Config)
    requires forall k :: cfg(k).Ok()
    ensures (forall events | Timed(events, 0.0) :: Answers(cfg, map[], events) == KeepingAnswers(cfg, map[], events))
       <==> (forall k :: cfg(k).burst as real <= 60.0 * cfg(k).rate)
  {
    if forall k :: cfg(k).burst as real <= 60.0 * cfg(k).rate {
      forall events | Timed(events, 0.0)
        ensures Answers(cfg, map[], events) == KeepingAnswers(cfg, map[], events)
      {
        EvictionInvisible(cfg, map[], map[], events, 0.0);
      }
    } else {
      var k :| !(cfg(k).burst as real <= 60.0 * cfg(k).rate);
      var events := TelltaleDiffers(cfg, k);
    }
  }
}
