/** The reconnect budget of the socket (web/client/src/common/socket/Socket.js): `onOpen`, `onClose`,
    `onReconnect` and its timer. */
module Reconnect {

  datatype Link = Connecting | Open | Down

  /** `left` is `options.reconnectCount`, -1 meaning no limit; `created` counts connections made. */
  datatype State = State(link: Link, left: int, timer: bool, created: nat)

  /** The count every successful open, and every exhausted budget, resets `left` to. */
  const RESET := 10

  datatype Event = Opened | Closed | TimerFired

  predicate Possible(s: State, e: Event) {
    match e
    case Opened => s.link == Connecting
    case Closed => s.link != Down
    case TimerFired => s.timer
  }

  function After(s: State, e: Event): State
    requires Possible(s, e)
  {
    match e
    case Opened => State(Open, RESET, false, s.created)
    case Closed =>
      if s.left > 0 || s.left == -1 then s.(link := Down, timer := true)
      else State(Down, RESET, false, s.created)
    case TimerFired => State(Connecting, if s.left == -1 then -1 else s.left - 1, false, s.created + 1)
  }

  class Socket {
    var link: Link
    var reconnectCount: int
    var timer: bool
    var created: nat

    function View(): State
      reads this
    {
      State(link, reconnectCount, timer, created)
    }

    constructor (reconnectCount: int)
      ensures View() == State(Connecting, reconnectCount, false, 1)
    {
      link, this.reconnectCount, timer, created := Connecting, reconnectCount, false, 1;
    }

    method OnOpen()
      requires Possible(View(), Opened)
      modifies this
      ensures View() == After(old(View()), Opened)
    {
      link := Open;
      timer := false;
      reconnectCount := RESET;
    }

    method OnClose()
      requires Possible(View(), Closed)
      modifies this
      ensures View() == After(old(View()), Closed)
    {
      link := Down;
      if reconnectCount > 0 || reconnectCount == -1 {
        timer := true;
      } else {
        timer := false;
        reconnectCount := RESET;
      }
    }

    method OnTimer()
      requires Possible(View(), TimerFired)
      modifies this
      ensures View() == After(old(View()), TimerFired)
    {
      timer := false;
      link, created := Connecting, created + 1;
      if reconnectCount != -1 {
        reconnectCount := reconnectCount - 1;
      }
    }
  }

  predicate Legal(s: State, events: seq<Event>)
    decreases |events|
  {
    events == [] || (Possible(s, events[0]) && Legal(After(s, events[0]), events[1..]))
  }

  function End(s: State, events: seq<Event>): State
    requires Legal(s, events)
    decreases |events|
  {
    if events == [] then s else End(After(s, events[0]), events[1..])
  }

  /** How many connections can still be made before one opens. */
  function Budget(s: State): int {
    if s.link == Down && !s.timer then 0 else s.left
  }

  ghost predicate Inv(s: State) {
    && (s.timer ==> s.link == Down && s.left > 0)
    && 0 <= Budget(s)
  }

  /** Without a successful open, connections made and budget left add up to no more than they did. */
  lemma {:induction false} BudgetShrinks(s: State, events: seq<Event>)
    requires Inv(s) && Legal(s, events) && Opened !in events
    ensures Inv(End(s, events)) && End(s, events).created + Budget(End(s, events)) <= s.created + Budget(s)
    decreases |events|
  {
    if events != [] {
      assert events[0] != Opened;
      BudgetShrinks(After(s, events[0]), events[1..]);
    }
  }

  /** From a connection attempt with `n` reconnects left, no run without a successful open makes more
      than `n` further connections, and failing every time makes exactly `n`. */
  lemma AtMostTheCount(n: nat, created: nat, events: seq<Event>)
    requires var s := State(Connecting, n, false, created); Legal(s, events) && Opened !in events
    ensures End(State(Connecting, n, false, created), events).created <= created + n
  {
    BudgetShrinks(State(Connecting, n, false, created), events);
  }

  function Failing(n: nat): seq<Event> {
    if n == 0 then [Closed] else [Closed, TimerFired] + Failing(n - 1)
  }

  lemma {:induction false} FailingUsesTheCount(n: nat, created: nat)
    ensures var s := State(Connecting, n, false, created);
            Legal(s, Failing(n)) && End(s, Failing(n)) == State(Down, 10, false, created + n)
    decreases n
  {
    var s := State(Connecting, n, false, created);
    if n == 0 {
      assert [Closed][1..] == [];
    } else {
      FailingUsesTheCount(n - 1, created + 1);
      var events := Failing(n);
      assert events[1..] == [TimerFired] + Failing(n - 1);
      assert events[1..][1..] == Failing(n - 1);
      assert After(After(s, Closed), TimerFired) == State(Connecting, n - 1, false, created + 1);
    }
  }

  // ---------------------------------------------------------------- "no limit"

  /** Without limit, and with the next connection on its way. */
  predicate Unlimited(s: State) {
    s.left == -1 && s.link != Open && (s.link == Down <==> s.timer)
  }

  /** Nothing but a successful open ends that. */
  lemma {:induction false} StaysUnlimited(s: State, events: seq<Event>)
    requires Unlimited(s) && Legal(s, events) && Opened !in events
    ensures Unlimited(End(s, events))
    decreases |events|
  {
    if events != [] {
      assert events[0] != Opened;
      StaysUnlimited(After(s, events[0]), events[1..]);
    }
  }

  /** `k` further connections, each failing. */
  function Retries(s: State, k: nat): seq<Event>
    decreases k
  {
    if k == 0 then []
    else (if s.timer then [TimerFired] else [Closed, TimerFired]) +
         Retries(State(Connecting, s.left, false, s.created + 1), k - 1)
  }

  lemma {:induction false} RetriesGoOn(s: State, k: nat)
    requires Unlimited(s)
    ensures Opened !in Retries(s, k) && Legal(s, Retries(s, k)) && End(s, Retries(s, k)).created == s.created + k
    decreases k
  {
    if k != 0 {
      var next := State(Connecting, -1, false, s.created + 1);
      var rest := Retries(next, k - 1);
      RetriesGoOn(next, k - 1);
      if s.timer {
        assert Retries(s, k) == [TimerFired] + rest;
        assert Retries(s, k)[1..] == rest;
      } else {
        assert Retries(s, k) == [Closed] + ([TimerFired] + rest);
        assert Retries(s, k)[1..] == [TimerFired] + rest && ([TimerFired] + rest)[1..] == rest;
      }
    }
  }

  /** After a successful open the budget is a number, whatever was configured, and stays one. */
  lemma {:induction false} StaysLimited(s: State, events: seq<Event>)
    requires (Inv(s) || Opened in events) && Legal(s, events)
    ensures Inv(End(s, events))
    decreases |events|
  {
    if events != [] {
      StaysLimited(After(s, events[0]), events[1..]);
    }
  }

  /** Some run from `s` without a successful open makes at least `k` further connections. */
  ghost predicate CanRetry(s: State, k: nat) {
    exists more: seq<Event> :: Legal(s, more) && Opened !in more && s.created + k <= End(s, more).created
  }

  ghost predicate NeverGivesUp(s: State) {
    forall k: nat :: CanRetry(s, k)
  }

  /** The documented "-1: no limit" holds exactly until the first successful open. */
  lemma NoLimitIff(created: nat, events: seq<Event>)
    requires Legal(State(Connecting, -1, false, created), events)
    ensures NeverGivesUp(End(State(Connecting, -1, false, created), events)) <==> Opened !in events
  {
    var start := State(Connecting, -1, false, created);
    var s := End(start, events);
    if Opened !in events {
      StaysUnlimited(start, events);
      forall k: nat ensures CanRetry(s, k) {
        RetriesGoOn(s, k);
      }
    } else {
      StaysLimited(start, events);
      forall more: seq<Event> | Legal(s, more) && Opened !in more
        ensures End(s, more).created <= s.created + Budget(s)
      {
        BudgetShrinks(s, more);
      }
      assert !CanRetry(s, Budget(s) + 1);
    }
  }

  /** From the first successful open on the count is ten, whatever was configured. */
  lemma TenAfterOpen(s: State, events: seq<Event>)
    requires s.link == Connecting && Legal(s, [Opened, Closed] + events) && Opened !in events
    ensures End(s, [Opened, Closed] + events).created <= s.created + 10
  {
    var linked := After(s, Opened);
    assert ([Opened, Closed] + events)[1..] == [Closed] + events;
    assert ([Closed] + events)[1..] == events;
    BudgetShrinks(After(linked, Closed), events);
  }

  /** From an open connection with `n` reconnects to come. */
  lemma RetriesFromOpen(s: State, n: nat)
    requires s.link == Open && s.left == n && 0 < n
    ensures Legal(s, Failing(n)) && End(s, Failing(n)).created == s.created + n
  {
    var closed := After(s, Closed);
    var next, rest := After(closed, TimerFired), Failing(n - 1);
    FailingUsesTheCount(n - 1, next.created);
    var failing, later := Failing(n), [TimerFired] + rest;
    assert failing == [Closed] + later && failing[1..] == later && later[1..] == rest;
  }

  lemma OpenFirst(s: State, events: seq<Event>)
    requires s.link == Connecting && Legal(After(s, Opened), events)
    ensures Legal(s, [Opened] + events) && End(s, [Opened] + events) == End(After(s, Opened), events)
  {
    assert ([Opened] + events)[1..] == events;
  }

  /** And a page whose connections all fail from then on does make ten. */
  lemma TenRetriesAfterOpen(s: State, n: nat)
    requires s.link == Connecting && n == 10
    ensures Legal(s, [Opened] + Failing(n)) && End(s, [Opened] + Failing(n)).created == s.created + 10
  {
    RetriesFromOpen(After(s, Opened), n);
    OpenFirst(s, Failing(n));
  }

  /** When a connection closes, the page tries again exactly if it has reconnects left or no limit. */
  lemma RetriesIff(s: State)
    requires s.link != Down
    ensures Possible(After(s, Closed), TimerFired) <==> s.left > 0 || s.left == -1
  {
  }
}
