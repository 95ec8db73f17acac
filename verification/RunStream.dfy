/** What a browser sees of a run (task/handler.go, task/taskRunning.go, web/ws/subscription/log.go): the
    pushes of `JobRun` as events of the WebSocket server, among whatever else the server does. */
module RunStream {
  import opened TaskStore
  import opened DependencyGate
  import opened JobRun
  import opened SubscriptionServer

  /** What a push contains besides what the run determines, and its encoding. */
  type Encoder = Info -> string

  /** The server events of one push. */
  function EventsOf(encode: Encoder, push: Push): seq<Event> {
    match push
    case NewTaskLog(info) =>
      [NewLog(info.task, info.log), Broadcast(Key(TASK_LOG_ADD, info.task), encode(info))]
    case TaskLogInfo(info) =>
      [Broadcast(Key(TASK_LOG, info.log), encode(info))]
  }

  function AllEventsOf(encode: Encoder, pushes: seq<Push>): seq<Event> {
    if pushes == [] then [] else EventsOf(encode, pushes[0]) + AllEventsOf(encode, pushes[1..])
  }

  /** The frames a follower of a log is to get for pushes about it. */
  function FramesFor(encode: Encoder, log: int, pushes: seq<Push>): (r: seq<Frame>)
    ensures |r| == |pushes|
  {
    seq(|pushes|, i requires 0 <= i < |pushes| => Update(Key(TASK_LOG, log), encode(pushes[i].info)))
  }

  predicate AllOn(log: int, pushes: seq<Push>) {
    forall i | 0 <= i < |pushes| :: pushes[i].TaskLogInfo? && pushes[i].info.log == log
  }

  function OnLog(log: int): Key -> bool {
    key => key == Key(TASK_LOG, log)
  }

  // ---------------------------------------------------------------- interleavings

  /** `all` is made of `mine` and `others`, each in its own order. */
  ghost predicate Interleaving(mine: seq<Event>, others: seq<Event>, all: seq<Event>)
    decreases |all|
  {
    if all == [] then mine == [] && others == []
    else
      || (mine != [] && mine[0] == all[0] && Interleaving(mine[1..], others, all[1..]))
      || (others != [] && others[0] == all[0] && Interleaving(mine, others[1..], all[1..]))
  }

  /** If nothing else happens, `mine` is the whole history. */
  lemma {:induction false} NothingElse(mine: seq<Event>)
    ensures Interleaving(mine, [], mine)
    decreases |mine|
  {
    if mine != [] {
      NothingElse(mine[1..]);
    }
  }

  /** Whatever comes next may come from either side. */
  lemma MoreInterleaves(mine: seq<Event>, others: seq<Event>, all: seq<Event>, e: Event)
    requires Interleaving(mine, others, all)
    ensures Interleaving([e] + mine, others, [e] + all) && Interleaving(mine, [e] + others, [e] + all)
  {
    assert ([e] + mine)[1..] == mine && ([e] + others)[1..] == others && ([e] + all)[1..] == all;
  }

  /** Up to the first of `mine` only `others` have happened. */
  lemma {:induction false} UpToFirst(m: Event, ms: seq<Event>, others: seq<Event>, all: seq<Event>) returns (i: nat)
    requires Interleaving([m] + ms, others, all)
    ensures i <= |others| && i < |all| && all[..i] == others[..i] && all[i] == m
    ensures Interleaving(ms, others[i..], all[i + 1..])
    decreases |all|
  {
    var mine := [m] + ms;
    assert mine[1..] == ms;
    if mine[0] == all[0] && Interleaving(ms, others, all[1..]) {
      i := 0;
      assert others[0..] == others;
    } else {
      var before := UpToFirst(m, ms, others[1..], all[1..]);
      i := before + 1;
      assert all[1..][..before] == others[1..][..before];
      assert all[..i] == [all[0]] + all[1..][..before] && others[..i] == [others[0]] + others[1..][..before];
      assert others[1..][before..] == others[i..] && all[1..][before + 1..] == all[i + 1..];
    }
  }

  lemma {:induction false} FromEither(mine: seq<Event>, others: seq<Event>, all: seq<Event>)
    requires Interleaving(mine, others, all)
    ensures forall e <- all :: e in mine || e in others
    decreases |all|
  {
    if all != [] {
      if mine != [] && mine[0] == all[0] && Interleaving(mine[1..], others, all[1..]) {
        FromEither(mine[1..], others, all[1..]);
      } else {
        FromEither(mine, others[1..], all[1..]);
      }
      assert all == [all[0]] + all[1..];
    }
  }

  predicate Silent(events: seq<Event>, want: Key -> bool) {
    forall i | 0 <= i < |events| :: !(events[i].Broadcast? && want(events[i].key))
  }

  lemma {:induction false} BroadcastsCons(e: Event, rest: seq<Event>, want: Key -> bool)
    ensures Broadcasts([e] + rest, want) == Broadcasts([e], want) + Broadcasts(rest, want)
    decreases |rest|
  {
    if rest == [] {
      assert [e] + rest == [e];
    } else {
      var before, last := rest[..|rest| - 1], rest[|rest| - 1];
      var sofar := [e] + before;
      assert [e] + rest == sofar + [last] && rest == before + [last];
      BroadcastsCons(e, before, want);
      BroadcastsSnoc(sofar, last, want);
      BroadcastsSnoc(before, last, want);
    }
  }

  /** If the others are silent on the wanted keys, the broadcasts are mine, in order. */
  lemma {:induction false} OnlyMine(mine: seq<Event>, others: seq<Event>, all: seq<Event>, want: Key -> bool)
    requires Interleaving(mine, others, all) && Silent(others, want)
    ensures Broadcasts(all, want) == Broadcasts(mine, want)
    decreases |all|
  {
    if all != [] {
      assert all == [all[0]] + all[1..];
      BroadcastsCons(all[0], all[1..], want);
      if mine != [] && mine[0] == all[0] && Interleaving(mine[1..], others, all[1..]) {
        OnlyMine(mine[1..], others, all[1..], want);
        assert mine == [mine[0]] + mine[1..];
        BroadcastsCons(mine[0], mine[1..], want);
      } else {
        OnlyMine(mine, others[1..], all[1..], want);
        assert [all[0]][..0] == [];
      }
    }
  }

  /** A silent event queues nothing on the wanted keys. */
  lemma OneSilent(ids: Ids, events: seq<Event>, e: Event, c: nat, want: Key -> bool)
    requires Silent([e], want)
    ensures Only(Frames(ids, events + [e], c), want) == Only(Frames(ids, events, c), want)
  {
    assert [e][0] == e;
    Unfold(ids, events, e);
    var queued := Queued(ids, events, e, c);
    OnlyConcat(Frames(ids, events, c), queued, want);
    assert queued == [] || queued[..|queued| - 1] == [];
    assert Only(queued, want) == [];
  }

  lemma {:induction false} NothingQueued(ids: Ids, events: seq<Event>, silent: seq<Event>, c: nat, want: Key -> bool)
    requires Silent(silent, want)
    ensures Only(Frames(ids, events + silent, c), want) == Only(Frames(ids, events, c), want)
    decreases |silent|
  {
    if silent == [] {
      assert events + silent == events;
    } else {
      var before, last := silent[..|silent| - 1], silent[|silent| - 1];
      var sofar := events + before;
      assert events + silent == sofar + [last];
      assert Silent(before, want) && Silent([last], want);
      NothingQueued(ids, events, before, c, want);
      OneSilent(ids, sofar, last, c, want);
    }
  }

  // ---------------------------------------------------------------- the pushes of a run

  lemma {:induction false} PushesOnLog(log: int, task: int, script: nat -> Attempt, asserted: bool, n: nat)
    ensures AllOn(log, Pushes(log, task, script, asserted, n))
    decreases n
  {
    if 0 < n {
      PushesOnLog(log, task, script, asserted, n - 1);
    }
  }

  /** Pushes about one log are broadcast on its key, one frame each. */
  lemma {:induction false} EventsOnLog(encode: Encoder, log: int, pushes: seq<Push>)
    requires AllOn(log, pushes)
    ensures Broadcasts(AllEventsOf(encode, pushes), OnLog(log)) == FramesFor(encode, log, pushes)
    ensures forall e <- AllEventsOf(encode, pushes) :: e.Broadcast?
    decreases |pushes|
  {
    if pushes != [] {
      EventsOnLog(encode, log, pushes[1..]);
      var e := EventsOf(encode, pushes[0])[0];
      BroadcastsCons(e, AllEventsOf(encode, pushes[1..]), OnLog(log));
      assert [e][..0] == [];
    }
  }

  // ---------------------------------------------------------------- the stream

  /** What else happens neither speaks about this log nor disturbs the follower: no one lists or
      delists its client id, and it does not unsubscribe from the task's new logs or from this log. */
  predicate Elsewhere(ids: Ids, others: seq<Event>, c: nat, task: int, log: int) {
    Undisturbed(ids, others, c, RunKeys(task, log)) && Silent(others, OnLog(log))
  }

  /** Event by event. */
  lemma ElsewhereMeans(ids: Ids, others: seq<Event>, c: nat, task: int, log: int)
    ensures Elsewhere(ids, others, c, task, log) <==>
            forall i | 0 <= i < |others| ::
              && !(others[i].Registered? && ids(others[i].conn) == ids(c))
              && !(others[i].Unregistered? && ids(others[i].conn) == ids(c))
              && others[i] != Toggled(c, Key("TASK_LOG_ADD", task), false)
              && others[i] != Toggled(c, Key("TASK_LOG", log), false)
              && !(others[i].Broadcast? && others[i].key == Key("TASK_LOG", log))
  {
  }

  /** The follower is subscribed to the log by its announcement, and then gets the announcement itself. */
  lemma Announced(ids: Ids, events: seq<Event>, between: seq<Event>, c: nat, task: int, log: int, add: string)
    requires Listed(ids, events, c) && Follows(ids, events, c, Key(TASK_LOG_ADD, task))
    requires Elsewhere(ids, between, c, task, log)
    ensures var heard := events + [NewLog(task, log)] + between;
            var told := heard + [Broadcast(Key(TASK_LOG_ADD, task), add)];
            && Frames(ids, told, c) == Frames(ids, heard, c) + [Update(Key(TASK_LOG_ADD, task), add)]
            && Only(Frames(ids, told, c), OnLog(log)) == Only(Frames(ids, events, c), OnLog(log))
            && Streams(ids, told, c, RunKeys(task, log))
  {
    var subscribed := events + [NewLog(task, log)];
    var heard := subscribed + between;
    var tell := Broadcast(Key(TASK_LOG_ADD, task), add);
    Unfold(ids, events, NewLog(task, log));
    StreamComplete(ids, subscribed, between, c, RunKeys(task, log));
    Unfold(ids, heard, tell);
    NothingQueued(ids, events, [NewLog(task, log)], c, OnLog(log));
    NothingQueued(ids, subscribed, between, c, OnLog(log));
    NothingQueued(ids, heard, [tell], c, OnLog(log));
  }

  lemma Around(all: seq<Event>, i: nat)
    requires i < |all|
    ensures all == all[..i] + [all[i]] + all[i + 1..]
  {
  }

  lemma Halves(all: seq<Event>, i: nat)
    requires i <= |all|
    ensures all == all[..i] + all[i..]
  {
  }

  lemma InThree(all: seq<Event>, before: seq<Event>, later: seq<Event>, between: seq<Event>, after: seq<Event>)
    requires all == before + later && later == between + after
    ensures all == before + between + after
  {
  }

  lemma InFive(all: seq<Event>, before: seq<Event>, first: Event, ahead: seq<Event>,
               between: seq<Event>, tell: Event, tail: seq<Event>)
    requires all == before + [first] + ahead && ahead == between + [tell] + tail
    ensures all == before + [first] + between + [tell] + tail
  {
  }

  /** Where a run's announcement and its own broadcasts are in an interleaving. */
  lemma Located(first: Event, tell: Event, rest: seq<Event>, others: seq<Event>, all: seq<Event>)
    returns (before: seq<Event>, between: seq<Event>, after: seq<Event>, tail: seq<Event>)
    requires Interleaving([first] + ([tell] + rest), others, all)
    ensures others == before + between + after
    ensures all == before + [first] + between + [tell] + tail
    ensures Interleaving(rest, after, tail)
  {
    var more := [tell] + rest;
    var i := UpToFirst(first, more, others, all);
    var later, ahead := others[i..], all[i + 1..];
    var j := UpToFirst(tell, rest, later, ahead);
    before, between, after, tail := others[..i], later[..j], later[j..], ahead[j + 1..];
    Around(all, i);
    Around(ahead, j);
    Halves(others, i);
    Halves(later, j);
    InThree(others, before, later, between, after);
    InFive(all, before, first, ahead, between, tell, tail);
  }

  lemma Parts(ids: Ids, before: seq<Event>, between: seq<Event>, after: seq<Event>, c: nat, task: int, log: int)
    requires Elsewhere(ids, before + between + after, c, task, log)
    ensures Elsewhere(ids, before, c, task, log) && Elsewhere(ids, between, c, task, log)
    ensures Elsewhere(ids, after, c, task, log)
  {
    var all := before + between + after;
    assert forall i | 0 <= i < |before| :: all[i] == before[i];
    assert forall i | 0 <= i < |between| :: all[|before| + i] == between[i];
    assert forall i | 0 <= i < |after| :: all[|before| + |between| + i] == after[i];
  }

  /** What of an interleaving follows the announcement: on the log's key, the run's own broadcasts. */
  lemma TailOfRun(ids: Ids, encode: Encoder, log: int, about: seq<Push>, others: seq<Event>, tail: seq<Event>, c: nat)
    requires AllOn(log, about) && Interleaving(AllEventsOf(encode, about), others, tail)
    requires Undisturbed(ids, others, c, OnLog(log)) && Silent(others, OnLog(log))
    ensures Undisturbed(ids, tail, c, OnLog(log))
    ensures Broadcasts(tail, OnLog(log)) == FramesFor(encode, log, about)
  {
    var mine := AllEventsOf(encode, about);
    EventsOnLog(encode, log, about);
    OnlyMine(mine, others, tail, OnLog(log));
    FromEither(mine, others, tail);
    assert forall i | 0 <= i < |tail| :: tail[i] in tail;
  }

  /** From the start of a run to its end, for a follower: nothing on its log until it is told about the
      run, then every broadcast on the log. */
  lemma Followed(ids: Ids, events: seq<Event>, before: seq<Event>, between: seq<Event>, tail: seq<Event>, c: nat,
                 task: int, log: int, add: string, heard: seq<Event>, told: seq<Event>, all: seq<Event>)
    requires Listed(ids, events, c) && Follows(ids, events, c, Key(TASK_LOG_ADD, task))
    requires Elsewhere(ids, before, c, task, log) && Elsewhere(ids, between, c, task, log)
    requires Undisturbed(ids, tail, c, OnLog(log))
    requires heard == events + before + [NewLog(task, log)] + between
    requires told == heard + [Broadcast(Key(TASK_LOG_ADD, task), add)] && all == told + tail
    ensures Frames(ids, told, c) == Frames(ids, heard, c) + [Update(Key(TASK_LOG_ADD, task), add)]
    ensures Only(Frames(ids, told, c), OnLog(log)) == Only(Frames(ids, events, c), OnLog(log))
    ensures Only(Frames(ids, all, c), OnLog(log)) ==
            Only(Frames(ids, events, c), OnLog(log)) + Broadcasts(tail, OnLog(log))
  {
    var begun := events + before;
    StreamComplete(ids, events, before, c, k => k == Key(TASK_LOG_ADD, task));
    NothingQueued(ids, events, before, c, OnLog(log));
    Announced(ids, begun, between, c, task, log, add);
    StreamComplete(ids, told, tail, c, OnLog(log));
  }

  lemma Joined(events: seq<Event>, before: seq<Event>, first: Event, between: seq<Event>, tell: Event,
               tail: seq<Event>, history: seq<Event>)
    returns (heard: seq<Event>, told: seq<Event>)
    requires history == events + (before + [first] + between + [tell] + tail)
    ensures heard == events + before + [first] + between && told == heard + [tell] && history == told + tail
    ensures events <= heard <= told <= history
  {
    heard := events + before + [first] + between;
    told := heard + [tell];
  }

  /** The same for an interleaving of an announcement and pushes about its log with anything else. */
  lemma FollowedAmong(ids: Ids, events: seq<Event>, others: seq<Event>, all: seq<Event>, c: nat, encode: Encoder,
                      task: int, log: int, add: string, about: seq<Push>)
    returns (heard: seq<Event>, told: seq<Event>)
    requires Listed(ids, events, c) && Follows(ids, events, c, Key(TASK_LOG_ADD, task))
    requires Elsewhere(ids, others, c, task, log) && AllOn(log, about)
    requires Interleaving([NewLog(task, log)] +
                            ([Broadcast(Key(TASK_LOG_ADD, task), add)] + AllEventsOf(encode, about)),
                          others, all)
    ensures events <= heard <= told <= events + all
    ensures Frames(ids, told, c) == Frames(ids, heard, c) + [Update(Key(TASK_LOG_ADD, task), add)]
    ensures Only(Frames(ids, told, c), OnLog(log)) == Only(Frames(ids, events, c), OnLog(log))
    ensures Only(Frames(ids, events + all, c), OnLog(log)) ==
            Only(Frames(ids, events, c), OnLog(log)) + FramesFor(encode, log, about)
  {
    var first, tell := NewLog(task, log), Broadcast(Key(TASK_LOG_ADD, task), add);
    var before, between, after, tail := Located(first, tell, AllEventsOf(encode, about), others, all);
    Parts(ids, before, between, after, c, task, log);
    TailOfRun(ids, encode, log, about, after, tail, c);
    var history := events + all;
    heard, told := Joined(events, before, first, between, tell, tail, history);
    Followed(ids, events, before, between, tail, c, task, log, add, heard, told, history);
  }

  /** What a run pushes about its own log. */
  function About(log: int, task: Task, script: nat -> Attempt, results: seq<ExecStat>): seq<Push> {
    Pushes(log, task.id, script, task.assertion != "", |results|) + [Final(log, task.id, results)]
  }

  /** All but the last say that the run is on; the last says that it is over, with all its records; and
      there are two for every attempt whose process started. */
  lemma AboutMeans(log: int, task: Task, script: nat -> Attempt, results: seq<ExecStat>)
    ensures var about := About(log, task, script, results);
            && |about| == 2 * |Started(script, |results|)| + 1
            && about[|about| - 1].info == Info(log, task.id, false, LogOf(results))
            && forall i | 0 <= i < |about| - 1 ::
                 about[i].info.status && about[i].info.log == log && about[i].info.task == task.id
  {
    var asserted, n := task.assertion != "", |results|;
    var pushes := Pushes(log, task.id, script, asserted, n);
    PushCount(log, task.id, script, asserted, n);
    forall i | 0 <= i < |pushes|
      ensures pushes[i].info.status && pushes[i].info.log == log && pushes[i].info.task == task.id
    {
      var k := PushesMean(log, task.id, script, asserted, n, i);
    }
  }

  /** A run's events: the announcement, and the broadcasts about its log. */
  lemma EventsOfRun(encode: Encoder, log: int, task: Task, script: nat -> Attempt, results: seq<ExecStat>,
                    pushed: seq<Push>, row: TaskLog, slept: nat)
    requires Finished(log, task, script, results, pushed, row, slept)
    ensures var about, add := About(log, task, script, results), encode(Info(log, task.id, true, Empty));
            && AllOn(log, about)
            && AllEventsOf(encode, pushed) ==
               [NewLog(task.id, log)] + ([Broadcast(Key(TASK_LOG_ADD, task.id), add)] + AllEventsOf(encode, about))
  {
    var about := About(log, task, script, results);
    PushesOnLog(log, task.id, script, task.assertion != "", |results|);
    assert pushed == [NewTaskLog(Info(log, task.id, true, Empty))] + about && pushed[1..] == about;
  }

  /** The follower of a run: whoever is listed and follows the task's new logs when the run begins gets,
      in any interleaving with anything else that leaves it alone, the announcement of the run and
      after it exactly the run's pushes: two for every attempt whose process started, with the records
      so far, and the final state, in order.  `heard` and `told` are the histories just before and
      just after the announcement. */
  lemma RunLogComplete(ids: Ids, events: seq<Event>, others: seq<Event>, all: seq<Event>, c: nat, encode: Encoder,
                       task: Task, log: int, script: nat -> Attempt, results: seq<ExecStat>, pushed: seq<Push>,
                       row: TaskLog, slept: nat)
    returns (heard: seq<Event>, told: seq<Event>)
    requires Finished(log, task, script, results, pushed, row, slept)
    requires Listed(ids, events, c) && Follows(ids, events, c, Key(TASK_LOG_ADD, task.id))
    requires Elsewhere(ids, others, c, task.id, log) && Interleaving(AllEventsOf(encode, pushed), others, all)
    ensures events <= heard <= told <= events + all
    ensures Frames(ids, told, c) ==
            Frames(ids, heard, c) + [Update(Key(TASK_LOG_ADD, task.id), encode(Info(log, task.id, true, Empty)))]
    ensures Only(Frames(ids, told, c), OnLog(log)) == Only(Frames(ids, events, c), OnLog(log))
    ensures Only(Frames(ids, events + all, c), OnLog(log)) ==
            Only(Frames(ids, events, c), OnLog(log)) + FramesFor(encode, log, About(log, task, script, results))
    ensures var about := About(log, task, script, results);
            && |about| == 2 * |Started(script, |results|)| + 1
            && about[|about| - 1].info == Info(log, task.id, false, LogOf(results))
            && (forall i | 0 <= i < |about| - 1 :: about[i].info.status)
            && forall i | 0 <= i < |about| ::
                 FramesFor(encode, log, about)[i] == Update(Key("TASK_LOG", log), encode(about[i].info))
  {
    AboutMeans(log, task, script, results);
    var about, add := About(log, task, script, results), encode(Info(log, task.id, true, Empty));
    EventsOfRun(encode, log, task, script, results, pushed, row, slept);
    heard, told := FollowedAmong(ids, events, others, all, c, encode, task.id, log, add, about);
  }

  ghost predicate Told(ids: Ids, heard: seq<Event>, told: seq<Event>, c: nat, frame: Frame) {
    Frames(ids, told, c) == Frames(ids, heard, c) + [frame]
  }

  /** `all` tells the follower about the run and then everything the run pushes, between `events` and
      its end. */
  ghost predicate Hears(ids: Ids, events: seq<Event>, all: seq<Event>, c: nat, encode: Encoder,
                        task: int, log: int, about: seq<Push>)
  {
    exists heard, told ::
      && Told(ids, heard, told, c, Update(Key(TASK_LOG_ADD, task), encode(Info(log, task, true, Empty))))
      && events <= heard <= told <= events + all
      && Only(Frames(ids, told, c), OnLog(log)) == Only(Frames(ids, events, c), OnLog(log))
      && Only(Frames(ids, events + all, c), OnLog(log)) ==
         Only(Frames(ids, events, c), OnLog(log)) + FramesFor(encode, log, about)
  }

  /** So running a job is enough: if the gate opens, then whatever the job ends up pushing is
      interleaved with, its followers are told about the run and receive all of it. */
  method FollowedJob(db: Database, task: Task, script: nat -> Attempt, encode: Encoder,
                     ghost ids: Ids, ghost events: seq<Event>, ghost c: nat)
    returns (run: RunningInstance, admitted: bool)
    requires -128 <= task.retryTimes < 128
    requires Listed(ids, events, c) && Follows(ids, events, c, Key(TASK_LOG_ADD, task.id))
    modifies db`logs
    ensures fresh(run) && |db.logs| == |old(db.logs)| + 1
    ensures admitted <==> Validate(task.id, task.dependsOn, db.rows.Keys, old(db.logs)) == Admit
    ensures !admitted ==> run.pushed == []
    ensures admitted ==>
              forall others, all | Elsewhere(ids, others, c, task.id, |db.logs|)
                                   && Interleaving(AllEventsOf(encode, run.pushed), others, all) ::
                Hears(ids, events, all, c, encode, task.id, |db.logs|,
                      About(|db.logs|, task, script, run.execResultList))
  {
    var verdict, slept;
    run, verdict, slept := ExecJob(db, task, script);
    admitted := verdict == Admit;
    if admitted {
      ghost var log, results, pushed, row := |db.logs|, run.execResultList, run.pushed, run.logInfo;
      forall others, all | Elsewhere(ids, others, c, task.id, log)
                           && Interleaving(AllEventsOf(encode, pushed), others, all)
        ensures Hears(ids, events, all, c, encode, task.id, log, About(log, task, script, results))
      {
        var heard, told :=
          RunLogComplete(ids, events, others, all, c, encode, task, log, script, results, pushed, row, slept);
        assert Told(ids, heard, told, c, Update(Key(TASK_LOG_ADD, task.id), encode(Info(log, task.id, true, Empty))));
      }
    }
  }
}
