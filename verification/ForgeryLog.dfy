/**
 De-duplication of AUTH_BYPASS_ATTEMPT events with a Redis reservation.

 All attempts considered here share one key: the same lab, user, claimed role and outcome.  An attempt
 reserves the key with `SET NX EX 900`, writes its event, and deletes the key again if the write
 failed.  The key carries no owner, so a late delete removes whatever reservation it finds.
*/
module ForgeryLog {
  import opened Options
  import opened Sets

  type TaskId = nat

  /** `JWT_FORGERY_LOG_WINDOW_SECONDS`. */
  const WINDOW := 900

  /**
   `reservedAt` is when the task's own SET made the key, and `answered` whether the task knows it: the
   answer may be lost, and Redis may not be there at all.
  */
  datatype Phase = Writing(reservedAt: Option<nat>, answered: bool) | MustRelease(since: nat) | Done

  datatype Row = Row(reservedAt: Option<nat>, at: nat)

  /** `deadline` is when the key in Redis expires. */
  datatype World = World(clock: nat, deadline: Option<nat>, tasks: map<TaskId, Phase>, events: seq<Row>)

  datatype Event =
    | Tick(seconds: nat)
    | Attempt(task: TaskId)
    | AttemptAnswerLost(task: TaskId)
    | AttemptWithoutRedis(task: TaskId)
    | WriteSucceeds(task: TaskId)
    | WriteFails(task: TaskId)
    | Delete(task: TaskId)
    | DeleteFails(task: TaskId)

  predicate Reserved(w: World) { w.deadline.Some? && w.clock < w.deadline.value }

  predicate Enabled(w: World, e: Event) {
    match e
    case Tick(_) => true
    case Attempt(t) => t !in w.tasks
    case AttemptAnswerLost(t) => t !in w.tasks
    case AttemptWithoutRedis(t) => t !in w.tasks
    case WriteSucceeds(t) => t in w.tasks && w.tasks[t].Writing?
    case WriteFails(t) => t in w.tasks && w.tasks[t].Writing?
    case Delete(t) => t in w.tasks && w.tasks[t].MustRelease?
    case DeleteFails(t) => t in w.tasks && w.tasks[t].MustRelease?
  }

  function Put(w: World, t: TaskId, p: Phase): World { w.(tasks := w.tasks[t := p]) }

  /** `SET key 1 NX EX 900` on a free key. */
  function Reserve(w: World, t: TaskId, answered: bool): World {
    Put(w, t, Writing(Some(w.clock), answered)).(deadline := Some(w.clock + WINDOW))
  }

  function Step(w: World, e: Event): World
    requires Enabled(w, e)
  {
    match e
    case Tick(seconds) => w.(clock := w.clock + seconds)
    case Attempt(t) => if Reserved(w) then Put(w, t, Done) else Reserve(w, t, true)
    case AttemptAnswerLost(t) => if Reserved(w) then Put(w, t, Writing(None, false)) else Reserve(w, t, false)
    case AttemptWithoutRedis(t) => Put(w, t, Writing(None, false))
    case WriteSucceeds(t) => Put(w, t, Done).(events := w.events + [Row(w.tasks[t].reservedAt, w.clock)])
    case WriteFails(t) =>
      var p := w.tasks[t];
      Put(w, t, if p.reservedAt.Some? && p.answered then MustRelease(p.reservedAt.value) else Done)
    case Delete(t) => Put(w, t, Done).(deadline := None)
    case DeleteFails(t) => Put(w, t, Done)
  }

  // ----- Reservations that have or may get an event -----

  /** The task's reservation may still become an event's; with `releasing`, also one that waits for its delete. */
  predicate Claims(p: Phase, releasing: bool) {
    (p.Writing? && p.reservedAt.Some?) || (releasing && p.MustRelease?)
  }

  function Since(p: Phase): nat
    requires Claims(p, true)
  {
    if p.MustRelease? then p.since else p.reservedAt.value
  }

  predicate Apart(a: nat, b: nat) { a + WINDOW <= b || b + WINDOW <= a }

  /** A reservation of the last window is the key in Redis. */
  predicate Kept(w: World, since: nat) {
    since <= w.clock && (w.clock < since + WINDOW ==> w.deadline == Some(since + WINDOW))
  }

  ghost predicate TasksOk(w: World, releasing: bool) {
    && (forall t <- w.tasks :: Claims(w.tasks[t], releasing) ==> Kept(w, Since(w.tasks[t])))
    && (forall t, u :: t in w.tasks && u in w.tasks && t != u && Claims(w.tasks[t], releasing) && Claims(w.tasks[u], releasing) ==>
          Apart(Since(w.tasks[t]), Since(w.tasks[u])))
  }

  ghost predicate RowsOk(w: World) {
    forall r <- w.events ::
      r.at <= w.clock && (r.reservedAt.Some? ==> r.reservedAt.value <= r.at && Kept(w, r.reservedAt.value))
  }

  ghost predicate RowsApart(w: World, releasing: bool) {
    forall r <- w.events, t <- w.tasks :: r.reservedAt.Some? && Claims(w.tasks[t], releasing) ==>
      Apart(r.reservedAt.value, Since(w.tasks[t]))
  }

  ghost predicate InOrder(events: seq<Row>) { forall i, j :: 0 <= i < j < |events| ==> events[i].at <= events[j].at }

  ghost predicate EventsOk(w: World, releasing: bool) {
    RowsOk(w) && RowsApart(w, releasing) && InOrder(w.events)
  }

  /** Events that come from reservations come from reservations at least a window apart. */
  ghost predicate Spaced(events: seq<Row>) {
    forall i, j :: 0 <= i < j < |events| && events[i].reservedAt.Some? && events[j].reservedAt.Some? ==>
      Apart(events[i].reservedAt.value, events[j].reservedAt.value)
  }

  ghost predicate Inv(w: World, releasing: bool) {
    TasksOk(w, releasing) && EventsOk(w, releasing) && Spaced(w.events)
  }

  // ----- The one harmful step -----

  predicate HeldByWriter(w: World, t: TaskId) {
    t in w.tasks && Claims(w.tasks[t], false) && w.deadline == Some(Since(w.tasks[t]) + WINDOW)
  }

  predicate HeldByEvent(w: World, i: nat) {
    i < |w.events| && w.events[i].reservedAt.Some? && w.deadline == Some(w.events[i].reservedAt.value + WINDOW)
  }

  /** A delete that removes the live reservation of an event, or of a task that is still writing its event. */
  ghost predicate Harmful(w: World, e: Event) {
    e.Delete? && Reserved(w) && ((exists t :: HeldByWriter(w, t)) || exists i: nat :: HeldByEvent(w, i))
  }

  /** The task deletes within the window of its own reservation. */
  predicate Overdue(w: World, e: Event)
    requires Enabled(w, e)
  {
    e.Delete? && w.tasks[e.task].since + WINDOW <= w.clock
  }

  /** What a run must avoid, depending on which reservations the invariant covers. */
  ghost predicate Avoided(w: World, e: Event, releasing: bool)
    requires Enabled(w, e)
  {
    if releasing then Overdue(w, e) else Harmful(w, e)
  }

  lemma TickKeepsInv(w: World, seconds: nat, releasing: bool)
    requires Inv(w, releasing)
    ensures Inv(Step(w, Tick(seconds)), releasing)
  {
  }

  lemma NewTaskKeepsInv(w: World, t: TaskId, p: Phase, releasing: bool)
    requires Inv(w, releasing) && t !in w.tasks && !Claims(p, true)
    ensures Inv(Put(w, t, p), releasing)
  {
  }

  /** A free key means that every covered reservation is a window old. */
  lemma ReserveKeepsInv(w: World, t: TaskId, answered: bool, releasing: bool)
    requires Inv(w, releasing) && t !in w.tasks && !Reserved(w)
    ensures Inv(Reserve(w, t, answered), releasing)
  {
    assert forall u <- w.tasks :: Claims(w.tasks[u], releasing) ==> Since(w.tasks[u]) + WINDOW <= w.clock;
    assert forall r <- w.events :: r.reservedAt.Some? ==> r.reservedAt.value + WINDOW <= w.clock;
  }

  lemma WrittenEvents(w: World, t: TaskId, releasing: bool)
    requires Inv(w, releasing) && Enabled(w, WriteSucceeds(t))
    ensures var events := w.events + [Row(w.tasks[t].reservedAt, w.clock)]; Spaced(events) && InOrder(events)
  {
    var events := w.events + [Row(w.tasks[t].reservedAt, w.clock)];
    assert forall i :: 0 <= i < |w.events| ==> events[i] == w.events[i] && w.events[i] in w.events;
  }

  lemma WrittenRow(w: World, t: TaskId, releasing: bool)
    requires Inv(w, releasing) && Enabled(w, WriteSucceeds(t))
    ensures RowsOk(Step(w, WriteSucceeds(t))) && RowsApart(Step(w, WriteSucceeds(t)), releasing)
  {
    var w1, row := Step(w, WriteSucceeds(t)), Row(w.tasks[t].reservedAt, w.clock);
    assert forall r <- w1.events :: r in w.events || r == row;
    assert forall u <- w1.tasks :: Claims(w1.tasks[u], releasing) ==> u != t && w1.tasks[u] == w.tasks[u];
  }

  lemma WriteKeepsInv(w: World, t: TaskId, releasing: bool)
    requires Inv(w, releasing) && Enabled(w, WriteSucceeds(t))
    ensures Inv(Step(w, WriteSucceeds(t)), releasing)
  {
    WrittenEvents(w, t, releasing);
    WrittenRow(w, t, releasing);
    assert TasksOk(Step(w, WriteSucceeds(t)), releasing);
  }

  lemma FailedWriteKeepsInv(w: World, t: TaskId, releasing: bool)
    requires Inv(w, releasing) && Enabled(w, WriteFails(t))
    ensures Inv(Step(w, WriteFails(t)), releasing)
  {
  }

  lemma GivingUpKeepsInv(w: World, t: TaskId, releasing: bool)
    requires Inv(w, releasing) && t in w.tasks
    ensures Inv(Put(w, t, Done), releasing)
  {
  }

  /** The deleted key is nobody's who could lose by it. */
  lemma DeleteKeepsInv(w: World, t: TaskId, releasing: bool)
    requires Inv(w, releasing) && Enabled(w, Delete(t)) && !Avoided(w, Delete(t), releasing)
    ensures Inv(Step(w, Delete(t)), releasing)
  {
    var w1 := Put(w, t, Done);
    GivingUpKeepsInv(w, t, releasing);
    forall u | u in w1.tasks && Claims(w1.tasks[u], releasing)
      ensures Since(w1.tasks[u]) + WINDOW <= w.clock
    {
      if releasing {
        assert Apart(Since(w.tasks[u]), Since(w.tasks[t]));
      } else {
        assert Reserved(w) ==> !HeldByWriter(w, u);
      }
    }
    forall r | r in w.events && r.reservedAt.Some?
      ensures r.reservedAt.value + WINDOW <= w.clock
    {
      var i: nat :| i < |w.events| && w.events[i] == r;
      if releasing {
        assert Apart(r.reservedAt.value, Since(w.tasks[t]));
      } else {
        assert Reserved(w) ==> !HeldByEvent(w, i);
      }
    }
  }

  lemma StepKeepsInv(w: World, e: Event, releasing: bool)
    requires Inv(w, releasing) && Enabled(w, e) && !Avoided(w, e, releasing)
    ensures Inv(Step(w, e), releasing)
  {
    match e
    case Tick(seconds) => TickKeepsInv(w, seconds, releasing);
    case Attempt(t) =>
      if Reserved(w) {
        NewTaskKeepsInv(w, t, Done, releasing);
      } else {
        ReserveKeepsInv(w, t, true, releasing);
      }
    case AttemptAnswerLost(t) =>
      if Reserved(w) {
        NewTaskKeepsInv(w, t, Writing(None, false), releasing);
      } else {
        ReserveKeepsInv(w, t, false, releasing);
      }
    case AttemptWithoutRedis(t) => NewTaskKeepsInv(w, t, Writing(None, false), releasing);
    case WriteSucceeds(t) => WriteKeepsInv(w, t, releasing);
    case WriteFails(t) => FailedWriteKeepsInv(w, t, releasing);
    case Delete(t) => DeleteKeepsInv(w, t, releasing);
    case DeleteFails(t) => GivingUpKeepsInv(w, t, releasing);
  }

  // ----- Whole runs -----

  ghost predicate LegalRun(w: World, es: seq<Event>)
    decreases |es|
  {
    es != [] ==> Enabled(w, es[0]) && LegalRun(Step(w, es[0]), es[1..])
  }

  /** No step of the run is one to avoid: harmful, or with `releasing` overdue. */
  ghost predicate Avoids(w: World, es: seq<Event>, releasing: bool)
    requires LegalRun(w, es)
    decreases |es|
  {
    es != [] ==> !Avoided(w, es[0], releasing) && Avoids(Step(w, es[0]), es[1..], releasing)
  }

  ghost function Final(w: World, es: seq<Event>): World
    requires LegalRun(w, es)
    decreases |es|
  {
    if es == [] then w else Final(Step(w, es[0]), es[1..])
  }

  lemma {:induction false} RunKeepsInv(w: World, es: seq<Event>, releasing: bool)
    requires Inv(w, releasing) && LegalRun(w, es) && Avoids(w, es, releasing)
    ensures Inv(Final(w, es), releasing)
    decreases |es|
  {
    if es != [] {
      StepKeepsInv(w, es[0], releasing);
      RunKeepsInv(Step(w, es[0]), es[1..], releasing);
    }
  }

  const START := World(0, None, map[], [])

  /**
   One event per window: without a harmful delete, and whatever else is late or fails, two reservations
   with events are a window apart; events that were written in time are also in that order.
  */
  lemma OneEventPerWindow(es: seq<Event>, i: nat, j: nat)
    requires LegalRun(START, es) && Avoids(START, es, false) && i < j < |Final(START, es).events|
    requires Final(START, es).events[i].reservedAt.Some? && Final(START, es).events[j].reservedAt.Some?
    ensures var a, b := Final(START, es).events[i], Final(START, es).events[j];
            && Apart(a.reservedAt.value, b.reservedAt.value)
            && a.reservedAt.value <= a.at <= b.at
            && (b.at < b.reservedAt.value + WINDOW ==> a.reservedAt.value + WINDOW <= b.reservedAt.value)
            && (a.at < a.reservedAt.value + WINDOW && b.at < b.reservedAt.value + WINDOW ==> a.at < b.at)
  {
    RunKeepsInv(START, es, false);
    var events := Final(START, es).events;
    assert events[i] in events && events[j] in events;
  }

  // ----- Who writes -----

  predicate IsAttempt(e: Event) { e.Attempt? || e.AttemptAnswerLost? || e.AttemptWithoutRedis? }

  /** Nothing in these events is done by `t`. */
  predicate WithoutTask(es: seq<Event>, t: TaskId) { forall e <- es :: e.Tick? || e.task != t }

  lemma {:induction false} OthersLeaveTask(w: World, es: seq<Event>, t: TaskId)
    requires t in w.tasks && LegalRun(w, es) && WithoutTask(es, t)
    ensures t in Final(w, es).tasks && Final(w, es).tasks[t] == w.tasks[t]
    decreases |es|
  {
    if es != [] {
      assert es[0] in es && forall e <- es[1..] :: e in es;
      OthersLeaveTask(Step(w, es[0]), es[1..], t);
    }
  }

  /** An attempt is dropped exactly if Redis answers and the key is there; any other stays able to write its event. */
  lemma DroppedExactly(w: World, e: Event, es: seq<Event>)
    requires Enabled(w, e) && IsAttempt(e) && LegalRun(Step(w, e), es) && WithoutTask(es, e.task)
    ensures Enabled(Final(Step(w, e), es), WriteSucceeds(e.task)) <==> !(e.Attempt? && Reserved(w))
    ensures Step(w, e).events == w.events
  {
    OthersLeaveTask(Step(w, e), es, e.task);
  }

  /** A reservation that nobody deletes lasts 900 seconds, and not longer. */
  lemma KeyLasts(w: World, t: TaskId, seconds: nat)
    requires Enabled(w, Attempt(t)) && !Reserved(w)
    ensures Reserved(Step(Step(w, Attempt(t)), Tick(seconds))) <==> seconds < 900
    ensures Reserved(Step(Step(w, AttemptAnswerLost(t)), Tick(seconds))) <==> seconds < 900
  {
  }

  /** A dropped attempt writes nothing, ever. */
  lemma {:induction false} DroppedStaysDropped(w: World, es: seq<Event>, t: TaskId)
    requires t in w.tasks && w.tasks[t].Done? && LegalRun(w, es)
    ensures WriteSucceeds(t) !in es && t in Final(w, es).tasks && Final(w, es).tasks[t].Done?
    decreases |es|
  {
    if es != [] {
      DroppedStaysDropped(Step(w, es[0]), es[1..], t);
      assert forall e <- es :: e == es[0] || e in es[1..];
    }
  }

  /** The attempts to which Redis gave no answer. */
  function Unanswered(es: seq<Event>): nat {
    if es == [] then 0
    else (if es[0].AttemptAnswerLost? || es[0].AttemptWithoutRedis? then 1 else 0) + Unanswered(es[1..])
  }

  /** The events that come from no reservation. */
  function Unreserved(events: seq<Row>): nat {
    if events == [] then 0
    else Unreserved(events[..|events| - 1]) + (if events[|events| - 1].reservedAt.None? then 1 else 0)
  }

  ghost function UnreservedWriters(w: World): set<TaskId> {
    set t | t in w.tasks && w.tasks[t].Writing? && w.tasks[t].reservedAt.None?
  }

  lemma WriteCountsUnreserved(w: World, t: TaskId)
    requires Enabled(w, WriteSucceeds(t))
    ensures var w1 := Step(w, WriteSucceeds(t));
            Unreserved(w1.events) + |UnreservedWriters(w1)| <= Unreserved(w.events) + |UnreservedWriters(w)|
  {
    var w1, before := Step(w, WriteSucceeds(t)), UnreservedWriters(w);
    assert w1.events[..|w.events|] == w.events;
    SubsetSize(UnreservedWriters(w1), before - {t});
    SubsetSize(before - {t}, before);
  }

  lemma StepCountsUnreserved(w: World, e: Event)
    requires Enabled(w, e)
    ensures Unreserved(Step(w, e).events) + |UnreservedWriters(Step(w, e))|
         <= Unreserved(w.events) + |UnreservedWriters(w)| + Unanswered([e])
  {
    assert [e][1..] == [];
    if e.AttemptAnswerLost? || e.AttemptWithoutRedis? {
      SubsetSize(UnreservedWriters(Step(w, e)), UnreservedWriters(w) + {e.task});
    } else if e.WriteSucceeds? {
      WriteCountsUnreserved(w, e.task);
    } else {
      SubsetSize(UnreservedWriters(Step(w, e)), UnreservedWriters(w));
    }
  }

  lemma {:induction false} RunCountsUnreserved(w: World, es: seq<Event>)
    requires LegalRun(w, es)
    ensures Unreserved(Final(w, es).events) + |UnreservedWriters(Final(w, es))|
         <= Unreserved(w.events) + |UnreservedWriters(w)| + Unanswered(es)
    decreases |es|
  {
    if es != [] {
      StepCountsUnreserved(w, es[0]);
      RunCountsUnreserved(Step(w, es[0]), es[1..]);
      assert [es[0]][1..] == [];
    }
  }

  lemma {:induction false} NoneUnreserved(events: seq<Row>, i: nat)
    requires i < |events| && Unreserved(events) == 0
    ensures events[i].reservedAt.Some?
  {
    if i < |events| - 1 {
      NoneUnreserved(events[..|events| - 1], i);
    }
  }

  /** Events without a reservation are at most as many as the attempts that Redis did not answer. */
  lemma UnreservedAreUnanswered(es: seq<Event>)
    requires LegalRun(START, es)
    ensures Unreserved(Final(START, es).events) <= Unanswered(es)
  {
    RunCountsUnreserved(START, es);
    assert UnreservedWriters(START) == {};
  }

  /** While Redis answers and no delete is harmful, all events of a run are 900 seconds apart. */
  lemma AnsweredEventsAreApart(es: seq<Event>, i: nat, j: nat)
    requires LegalRun(START, es) && Avoids(START, es, false) && Unanswered(es) == 0
    requires i < j < |Final(START, es).events|
    ensures var a, b := Final(START, es).events[i], Final(START, es).events[j];
            && a.reservedAt.Some? && b.reservedAt.Some?
            && (a.reservedAt.value + 900 <= b.reservedAt.value || b.reservedAt.value + 900 <= a.reservedAt.value)
  {
    UnreservedAreUnanswered(es);
    NoneUnreserved(Final(START, es).events, i);
    NoneUnreserved(Final(START, es).events, j);
    OneEventPerWindow(es, i, j);
  }

  lemma {:induction false} FreshId(ids: set<TaskId>) returns (n: TaskId)
    ensures forall id <- ids :: id < n
  {
    n := 0;
    if ids != {} {
      var id :| id in ids;
      var m := FreshId(ids - {id});
      n := if m > id then m else id + 1;
      assert forall other <- ids :: other == id || other in ids - {id};
    }
  }

  /** After a failed write is cleaned up, the next attempt is written. */
  lemma FailedWriteIsRetried(w: World, t: TaskId, next: TaskId)
    requires Enabled(w, Delete(t)) && next !in w.tasks && next != t
    ensures Enabled(Step(w, Delete(t)), Attempt(next))
    ensures Step(Step(w, Delete(t)), Attempt(next)).tasks[next] == Writing(Some(w.clock), true)
  {
  }

  /** The next attempt and its write, after a delete. */
  lemma NextIsWritten(w: World, t: TaskId) returns (n: TaskId)
    requires Enabled(w, Delete(t))
    ensures n !in w.tasks
    ensures var w1, es := Step(w, Delete(t)), [Attempt(n)] + ([WriteSucceeds(n)] + []);
            && LegalRun(w1, es) && Avoids(w1, es, false)
            && Final(w1, es) == Put(w, t, Done).(
                 deadline := Some(w.clock + WINDOW), tasks := w.tasks[t := Done][n := Done],
                 events := w.events + [Row(Some(w.clock), w.clock)])
  {
    n := FreshId(w.tasks.Keys);
    FailedWriteIsRetried(w, t, n);
    var w1 := Step(w, Delete(t));
    var w2 := Step(w1, Attempt(n));
    assert w1.tasks[n := Writing(Some(w.clock), true)][n := Done] == w1.tasks[n := Done];
    OneStep(w2, WriteSucceeds(n), []);
    OneStep(w1, Attempt(n), [WriteSucceeds(n)] + []);
  }

  lemma TooClose(events: seq<Row>, i: nat, j: nat)
    requires i < j < |events| && events[i].reservedAt.Some? && events[j].reservedAt.Some?
    requires !Apart(events[i].reservedAt.value, events[j].reservedAt.value)
    ensures !Spaced(events)
  {
  }

  /** The writer whose key was deleted writes its event after the next attempt has written its own. */
  lemma WriterFollows(w: World, t: TaskId, u: TaskId) returns (es: seq<Event>)
    requires Inv(w, false) && Enabled(w, Delete(t)) && Reserved(w) && HeldByWriter(w, u)
    ensures LegalRun(Step(w, Delete(t)), es) && Avoids(Step(w, Delete(t)), es, false)
    ensures !Spaced(Final(Step(w, Delete(t)), es).events)
  {
    var n := NextIsWritten(w, t);
    var w1, first, last := Step(w, Delete(t)), [Attempt(n)] + ([WriteSucceeds(n)] + []), [WriteSucceeds(u)] + [];
    var w2 := Final(w1, first);
    OneStep(w2, WriteSucceeds(u), []);
    RunThen(w1, first, last);
    es := first + last;
    var events := Final(w1, es).events;
    assert events == w.events + [Row(Some(w.clock), w.clock)] + [Row(w.tasks[u].reservedAt, w.clock)];
    TooClose(events, |w.events|, |w.events| + 1);
  }

  /** After a harmful delete two events follow whose reservations are less than a window apart. */
  lemma HarmIsDone(w: World, t: TaskId) returns (es: seq<Event>)
    requires Inv(w, false) && Enabled(w, Delete(t)) && Harmful(w, Delete(t))
    ensures LegalRun(Step(w, Delete(t)), es) && Avoids(Step(w, Delete(t)), es, false)
    ensures !Spaced(Final(Step(w, Delete(t)), es).events)
  {
    if i: nat :| HeldByEvent(w, i) {
      var n := NextIsWritten(w, t);
      es := [Attempt(n)] + ([WriteSucceeds(n)] + []);
      assert w.events[i] in w.events;
      TooClose(w.events + [Row(Some(w.clock), w.clock)], i, |w.events|);
    } else {
      var u :| HeldByWriter(w, u);
      es := WriterFollows(w, t, u);
    }
  }

  /** The guard is exact: a step endangers the spacing of events, now or later, if and only if it is a harmful delete. */
  lemma OnlyHarmfulDeletesMatter(w: World, e: Event)
    requires Inv(w, false) && Enabled(w, e)
    ensures (forall es :: LegalRun(Step(w, e), es) && Avoids(Step(w, e), es, false) ==> Spaced(Final(Step(w, e), es).events))
            <==> !Harmful(w, e)
  {
    if Harmful(w, e) {
      var es := HarmIsDone(w, e.task);
      assert !Spaced(Final(Step(w, e), es).events);
    } else {
      StepKeepsInv(w, e, false);
      forall es | LegalRun(Step(w, e), es) && Avoids(Step(w, e), es, false)
        ensures Spaced(Final(Step(w, e), es).events)
      {
        RunKeepsInv(Step(w, e), es, false);
      }
    }
  }

  /** What a task can see to: if every delete comes within its own window, none is harmful. */
  lemma {:induction false} TimelyDeletesAreHarmless(w: World, es: seq<Event>)
    requires Inv(w, true) && LegalRun(w, es) && Avoids(w, es, true)
    ensures Avoids(w, es, false)
    decreases |es|
  {
    if es != [] {
      if es[0].Delete? {
        OwnKeyOnly(w, es[0].task);
      }
      StepKeepsInv(w, es[0], true);
      TimelyDeletesAreHarmless(Step(w, es[0]), es[1..]);
    }
  }

  lemma OwnKeyOnly(w: World, t: TaskId)
    requires Inv(w, true) && Enabled(w, Delete(t)) && !Overdue(w, Delete(t))
    ensures !Harmful(w, Delete(t))
  {
    forall u
      ensures !HeldByWriter(w, u)
    {
      assert u in w.tasks && Claims(w.tasks[u], false) ==> Apart(Since(w.tasks[u]), Since(w.tasks[t]));
    }
    forall i: nat
      ensures !HeldByEvent(w, i)
    {
      assert i < |w.events| ==> w.events[i] in w.events;
    }
  }

  // ----- Nothing is hidden -----

  /** The key in Redis is the reservation of a task that will still write its event or delete the key. */
  predicate Owner(w: World, t: TaskId) {
    t in w.tasks && Claims(w.tasks[t], true) && w.deadline == Some(Since(w.tasks[t]) + WINDOW)
  }

  /** A reservation exists only while its event is written, or about to be written or given up. */
  ghost predicate Justified(w: World) { (exists t :: Owner(w, t)) || (exists i: nat :: HeldByEvent(w, i)) }

  ghost predicate NothingHidden(w: World) { Reserved(w) ==> Justified(w) }

  /** The task leaves its key behind: the delete failed, or it does not know that it made the key. */
  predicate Forgets(w: World, e: Event)
    requires Enabled(w, e)
  {
    match e
    case DeleteFails(_) => true
    case WriteFails(t) => w.tasks[t].reservedAt.Some? && !w.tasks[t].answered
    case _ => false
  }

  /** A key that is left behind hides attempts, unless it is somebody else's or an event's. */
  ghost predicate Abandons(w: World, e: Event)
    requires Enabled(w, e)
  {
    && Reserved(w) && Forgets(w, e) && (forall t :: Owner(w, t) ==> t == e.task)
    && forall i: nat :: !HeldByEvent(w, i)
  }

  lemma StillJustified(w: World, e: Event)
    requires Enabled(w, e) && Reserved(w) && Justified(w) && !Abandons(w, e) && !e.Delete?
    requires Step(w, e).deadline == w.deadline
    ensures Justified(Step(w, e))
  {
    var w1 := Step(w, e);
    if i: nat :| HeldByEvent(w, i) {
      assert HeldByEvent(w1, i);
    } else if t :| Owner(w, t) && (e.Tick? || t != e.task) {
      assert Owner(w1, t);
    } else {
      var t :| Owner(w, t);
      if e.WriteSucceeds? {
        assert HeldByEvent(w1, |w.events|);
      } else {
        assert Owner(w1, t);
      }
    }
  }

  /** A step hides later attempts if and only if it abandons the key. */
  lemma OnlyAbandoningHides(w: World, e: Event)
    requires NothingHidden(w) && Enabled(w, e)
    ensures NothingHidden(Step(w, e)) <==> !Abandons(w, e)
  {
    var w1 := Step(w, e);
    if Abandons(w, e) {
      forall t
        ensures !Owner(w1, t)
      {
        assert Owner(w, t) ==> t == e.task;
      }
      assert forall i: nat :: HeldByEvent(w1, i) ==> HeldByEvent(w, i);
    } else if Reserved(w1) {
      if (e.Attempt? || e.AttemptAnswerLost?) && !Reserved(w) {
        assert Owner(w1, e.task);
      } else {
        StillJustified(w, e);
      }
    }
  }

  ghost predicate NeverAbandons(w: World, es: seq<Event>)
    requires LegalRun(w, es)
    decreases |es|
  {
    es != [] ==> !Abandons(w, es[0]) && NeverAbandons(Step(w, es[0]), es[1..])
  }

  /** However late writes and deletes come, a reservation has an event, or a task that will write or release it. */
  lemma {:induction false} NothingIsHidden(w: World, es: seq<Event>)
    requires NothingHidden(w) && LegalRun(w, es) && NeverAbandons(w, es)
    ensures NothingHidden(Final(w, es))
    decreases |es|
  {
    if es != [] {
      OnlyAbandoningHides(w, es[0]);
      NothingIsHidden(Step(w, es[0]), es[1..]);
    }
  }

  lemma {:induction false} RunThen(w: World, es: seq<Event>, more: seq<Event>)
    requires LegalRun(w, es) && LegalRun(Final(w, es), more)
    requires Avoids(w, es, false) && Avoids(Final(w, es), more, false)
    ensures LegalRun(w, es + more) && Avoids(w, es + more, false)
    ensures Final(w, es + more) == Final(Final(w, es), more)
    decreases |es|
  {
    if es == [] {
      assert es + more == more;
    } else {
      RunThen(Step(w, es[0]), es[1..], more);
      assert (es + more)[0] == es[0] && (es + more)[1..] == es[1..] + more;
    }
  }

  // ----- A harmful delete in a run from the start -----

  const ROW := Row(Some(WINDOW), WINDOW)

  /** Task 1 reserved a window ago and is still writing; task 2 has reserved the new window and written. */
  const OVERDUE := World(WINDOW, Some(2 * WINDOW), map[1 := Writing(Some(0), true), 2 := Done], [ROW])

  lemma OverdueIsReachable()
    ensures var es := [Attempt(1), Tick(WINDOW), Attempt(2), WriteSucceeds(2)];
            LegalRun(START, es) && Final(START, es) == OVERDUE
  {
    var w1 := World(0, Some(WINDOW), map[1 := Writing(Some(0), true)], []);
    var w2 := w1.(clock := WINDOW);
    var w3 := World(WINDOW, Some(2 * WINDOW), map[1 := Writing(Some(0), true), 2 := Writing(Some(WINDOW), true)], []);
    assert Step(START, Attempt(1)) == w1 && Step(w1, Tick(WINDOW)) == w2;
    assert Step(w2, Attempt(2)) == w3;
    assert Step(w3, WriteSucceeds(2)) == OVERDUE;
    OneStep(w3, WriteSucceeds(2), []);
    OneStep(w2, Attempt(2), [WriteSucceeds(2)]);
    OneStep(w1, Tick(WINDOW), [Attempt(2), WriteSucceeds(2)]);
    OneStep(START, Attempt(1), [Tick(WINDOW), Attempt(2), WriteSucceeds(2)]);
    assert [WriteSucceeds(2)] + [] == [WriteSucceeds(2)];
    assert [Attempt(2)] + [WriteSucceeds(2)] == [Attempt(2), WriteSucceeds(2)];
    assert [Tick(WINDOW)] + [Attempt(2), WriteSucceeds(2)] == [Tick(WINDOW), Attempt(2), WriteSucceeds(2)];
    assert [Attempt(1)] + [Tick(WINDOW), Attempt(2), WriteSucceeds(2)]
        == [Attempt(1), Tick(WINDOW), Attempt(2), WriteSucceeds(2)];
  }

  /** The overdue task deletes the reservation of the written event, and a second event follows at once. */
  lemma LateDeleteBreaksTheWindow()
    ensures var es := [WriteFails(1), Delete(1), Attempt(3), WriteSucceeds(3)];
            LegalRun(OVERDUE, es) && Final(OVERDUE, es).events == [ROW, ROW]
  {
    var w1 := OVERDUE.(tasks := map[1 := MustRelease(0), 2 := Done]);
    var w2 := World(WINDOW, None, map[1 := Done, 2 := Done], [ROW]);
    var w3 := World(WINDOW, Some(2 * WINDOW), map[1 := Done, 2 := Done, 3 := Writing(Some(WINDOW), true)], [ROW]);
    var w4 := World(WINDOW, Some(2 * WINDOW), map[1 := Done, 2 := Done, 3 := Done], [ROW, ROW]);
    assert Step(OVERDUE, WriteFails(1)) == w1;
    assert Step(w1, Delete(1)) == w2;
    assert Step(w2, Attempt(3)) == w3;
    assert Step(w3, WriteSucceeds(3)) == w4;
    OneStep(w3, WriteSucceeds(3), []);
    OneStep(w2, Attempt(3), [WriteSucceeds(3)]);
    OneStep(w1, Delete(1), [Attempt(3), WriteSucceeds(3)]);
    OneStep(OVERDUE, WriteFails(1), [Delete(1), Attempt(3), WriteSucceeds(3)]);
    assert [WriteSucceeds(3)] + [] == [WriteSucceeds(3)];
    assert [Attempt(3)] + [WriteSucceeds(3)] == [Attempt(3), WriteSucceeds(3)];
    assert [Delete(1)] + [Attempt(3), WriteSucceeds(3)] == [Delete(1), Attempt(3), WriteSucceeds(3)];
    assert [WriteFails(1)] + [Delete(1), Attempt(3), WriteSucceeds(3)]
        == [WriteFails(1), Delete(1), Attempt(3), WriteSucceeds(3)];
  }

  lemma OneStep(w: World, e: Event, es: seq<Event>)
    requires Enabled(w, e)
    ensures LegalRun(w, [e] + es) <==> LegalRun(Step(w, e), es)
    ensures LegalRun(Step(w, e), es) ==> Final(w, [e] + es) == Final(Step(w, e), es)
    ensures LegalRun(Step(w, e), es) ==>
              (Avoids(w, [e] + es, false) <==> !Harmful(w, e) && Avoids(Step(w, e), es, false))
  {
    assert ([e] + es)[1..] == es;
  }
}
