/**
 The admission protocol that chat requests and the Auto-SOC worker follow to share one model.

 A chat request puts a ticket in a bounded `asyncio.Queue` and waits for an `asyncio.Lock`; the
 Auto-SOC worker waits for the same lock without a ticket.  Every event below is one stretch of
 code between two suspension points, so any interleaving of tasks is a sequence of events.  A
 waiter can be woken by one event and resumed by a later one; a timeout or a cancellation may land
 in between.
*/
module AdmissionQueue {
  import opened Options

  const MAX_QUEUE_SIZE := 50

  datatype Task = Chat(id: nat) | Soc(id: nat)

  /** What has been asked of a task suspended in `acquire`; a cancellation hides a timeout. */
  datatype Stop = NotStopped | TimedOut | CancelRequested

  /** An entry of the lock's waiter list.  `woken` means that the future holds a result. */
  datatype Waiter = Waiter(task: Task, woken: bool, stop: Stop) {
    predicate Done() { woken || stop != NotStopped }

    predicate FutureCancelled() { !woken && stop != NotStopped }
  }

  /** `running` is the set of tasks that are past `acquire` and have not released yet. */
  datatype World = World(queue: seq<Task>, unfinished: int, locked: bool, waiters: seq<Waiter>, running: set<Task>)

  datatype Reply = Rejected503 | Acquired | Suspended | Noted | TimedOut504 | CancelRaised | Finished

  datatype Error = QueueEmpty | TaskDoneTooOften | LockNotAcquired

  datatype Outcome = Next(world: World, reply: Reply) | Crash(error: Error)

  datatype Event =
    | Arrive(task: Task)
    | StopLands(task: Task, how: Stop)
    | Resume(task: Task)
    | Release(task: Task)

  const EMPTY := World([], 0, false, [], {})

  // ----- asyncio.Queue -----

  function PutNowait(w: World, ticket: Task): Option<World> {
    if |w.queue| >= MAX_QUEUE_SIZE then None
    else Some(w.(queue := w.queue + [ticket], unfinished := w.unfinished + 1))
  }

  /** `get_nowait` pops the oldest ticket, whoever put it there. */
  function GetNowait(w: World): Option<World> {
    if w.queue == [] then None else Some(w.(queue := w.queue[1..]))
  }

  function TaskDone(w: World): Option<World> {
    if w.unfinished <= 0 then None else Some(w.(unfinished := w.unfinished - 1))
  }

  // ----- asyncio.Lock -----

  /** Only the head is ever woken, and not when its future is already done. */
  function WakeUpFirst(ws: seq<Waiter>): seq<Waiter> {
    if ws != [] && !ws[0].Done() then [ws[0].(woken := true)] + ws[1..] else ws
  }

  /** `acquire` up to its suspension point: it passes at once only when nobody live is queued. */
  function AcquireBegin(w: World, t: Task): Outcome {
    if !w.locked && (forall x <- w.waiters :: x.FutureCancelled()) then
      Next(w.(locked := true, running := w.running + {t}), Acquired)
    else
      Next(w.(waiters := w.waiters + [Waiter(t, false, NotStopped)]), Suspended)
  }

  function LockRelease(w: World): Option<World> {
    if w.locked then Some(w.(locked := false, waiters := WakeUpFirst(w.waiters))) else None
  }

  predicate Waiting(ws: seq<Waiter>, t: Task) {
    exists x <- ws :: x.task == t
  }

  function IndexOf(ws: seq<Waiter>, t: Task): (i: nat)
    requires Waiting(ws, t)
    ensures i < |ws| && ws[i].task == t
    ensures forall j :: 0 <= j < i ==> ws[j].task != t
  {
    if ws[0].task == t then 0 else 1 + IndexOf(ws[1..], t)
  }

  function RemoveAt(ws: seq<Waiter>, i: nat): seq<Waiter>
    requires i < |ws|
  {
    ws[..i] + ws[i + 1..]
  }

  /** The cancelled end of `acquire`: drop the waiter, and wake the next one if the lock is free. */
  function LeaveWaiters(w: World, i: nat): World
    requires i < |w.waiters|
  {
    var rest := RemoveAt(w.waiters, i);
    w.(waiters := if w.locked then rest else WakeUpFirst(rest))
  }

  // ----- LLMQueueManager and the worker's `async with queue.gpu_lock` -----

  /** `get_nowait` then `task_done`; the Auto-SOC worker holds no ticket. */
  function ReturnTicket(w: World, t: Task, reply: Reply): Outcome {
    if t.Soc? then Next(w, reply)
    else match GetNowait(w)
         case None => Crash(QueueEmpty)
         case Some(w1) =>
           match TaskDone(w1)
           case None => Crash(TaskDoneTooOften)
           case Some(w2) => Next(w2, reply)
  }

  function OnArrive(w: World, t: Task): Outcome {
    if t.Soc? then AcquireBegin(w, t)
    else match PutNowait(w, t)
         case None => Next(w, Rejected503)
         case Some(w1) => AcquireBegin(w1, t)
  }

  /** A timeout or a cancellation marks the suspended task; the task runs only at its `Resume`. */
  function OnStop(w: World, t: Task, how: Stop): Outcome
    requires Waiting(w.waiters, t)
  {
    var i := IndexOf(w.waiters, t);
    var x := w.waiters[i];
    var stop := if x.stop == CancelRequested then CancelRequested else how;
    Next(w.(waiters := w.waiters[i := x.(stop := stop)]), Noted)
  }

  function OnResume(w: World, t: Task): Outcome
    requires Waiting(w.waiters, t)
  {
    var i := IndexOf(w.waiters, t);
    var x := w.waiters[i];
    if x.stop == NotStopped then
      Next(w.(waiters := RemoveAt(w.waiters, i), locked := true, running := w.running + {t}), Acquired)
    else
      ReturnTicket(LeaveWaiters(w, i), t, if x.stop == TimedOut then TimedOut504 else CancelRaised)
  }

  function OnRelease(w: World, t: Task): Outcome {
    match LockRelease(w)
    case None => Crash(LockNotAcquired)
    case Some(w1) => ReturnTicket(w1.(running := w1.running - {t}), t, Finished)
  }

  /** The scheduler's side: which event may happen next. */
  predicate Enabled(w: World, e: Event) {
    match e
    case Arrive(t) => !Waiting(w.waiters, t) && t !in w.running
    case StopLands(t, how) => Waiting(w.waiters, t) && how != NotStopped && (how == TimedOut ==> t.Chat?)
    case Resume(t) => Waiting(w.waiters, t) && w.waiters[IndexOf(w.waiters, t)].Done()
    case Release(t) => t in w.running
  }

  function Step(w: World, e: Event): Outcome
    requires Enabled(w, e)
  {
    match e
    case Arrive(t) => OnArrive(w, t)
    case StopLands(t, how) => OnStop(w, t, how)
    case Resume(t) => OnResume(w, t)
    case Release(t) => OnRelease(w, t)
  }

  // ----- Runs -----

  ghost predicate LegalRun(w: World, es: seq<Event>)
    decreases |es|
  {
    es == [] || (Enabled(w, es[0]) && (Step(w, es[0]).Next? ==> LegalRun(Step(w, es[0]).world, es[1..])))
  }

  /** The state after a run, or the first error that one of its events raises. */
  ghost function Final(w: World, es: seq<Event>): Outcome
    requires LegalRun(w, es)
    decreases |es|
  {
    if es == [] then Next(w, Noted)
    else match Step(w, es[0])
         case Crash(error) => Crash(error)
         case Next(w1, _) => Final(w1, es[1..])
  }

  // ----- The invariant -----

  function ChatCount(ws: seq<Waiter>): nat {
    if ws == [] then 0 else (if ws[0].task.Chat? then 1 else 0) + ChatCount(ws[1..])
  }

  ghost predicate ChatRunning(w: World) {
    exists t <- w.running :: t.Chat?
  }

  ghost predicate DistinctTasks(ws: seq<Waiter>) {
    forall i, j :: 0 <= i < j < |ws| ==> ws[i].task != ws[j].task
  }

  /** At most one task runs the model, and the lock says whether one does. */
  ghost predicate Exclusive(w: World) {
    && (forall a, b :: a in w.running && b in w.running ==> a == b)
    && (w.locked <==> w.running != {})
    && (forall x <- w.waiters :: x.task !in w.running)
    && DistinctTasks(w.waiters)
  }

  /** A free lock with waiters has a head that will run and pass the wake-up on. */
  ghost predicate WakeUpKept(w: World) {
    && (forall i :: 0 < i < |w.waiters| ==> !w.waiters[i].woken)
    && (w.waiters != [] && w.waiters[0].woken ==> !w.locked)
    && (w.waiters != [] && !w.locked ==> w.waiters[0].Done())
    && (forall x <- w.waiters :: x.stop == TimedOut ==> x.task.Chat?)
  }

  /** The tickets are exactly as many as the chat tasks inside, whoever they belong to. */
  ghost predicate TicketsCounted(w: World) {
    && |w.queue| == w.unfinished == ChatCount(w.waiters) + (if ChatRunning(w) then 1 else 0)
    && |w.queue| <= MAX_QUEUE_SIZE
  }

  ghost predicate Inv(w: World) {
    Exclusive(w) && WakeUpKept(w) && TicketsCounted(w)
  }

  lemma {:induction false} ChatCountConcat(a: seq<Waiter>, b: seq<Waiter>)
    ensures ChatCount(a + b) == ChatCount(a) + ChatCount(b)
  {
    if a == [] {
      assert a + b == b;
    } else {
      ChatCountConcat(a[1..], b);
      assert (a + b)[1..] == a[1..] + b;
    }
  }

  /** Taking one waiter out, or changing only its flags, counts as it should. */
  lemma ChatCountAt(ws: seq<Waiter>, i: nat, x: Waiter)
    requires i < |ws| && x.task == ws[i].task
    ensures ChatCount(ws[i := x]) == ChatCount(ws)
    ensures ChatCount(RemoveAt(ws, i)) == ChatCount(ws) - (if x.task.Chat? then 1 else 0)
  {
    ChatCountConcat(ws[..i], ws[i..]);
    ChatCountConcat(ws[..i], ws[i + 1..]);
    ChatCountConcat(ws[..i], ws[i := x][i..]);
    assert ws[..i] + ws[i..] == ws;
    assert ws[..i] + ws[i := x][i..] == ws[i := x];
    assert ws[i := x][i..][1..] == ws[i + 1..];
  }

  lemma ChatCountWake(ws: seq<Waiter>)
    ensures ChatCount(WakeUpFirst(ws)) == ChatCount(ws)
  {
    if ws != [] && !ws[0].Done() {
      assert WakeUpFirst(ws)[1..] == ws[1..];
    }
  }

  /** Joining the line, or passing at once, costs no invariant but the number of tickets. */
  lemma AcquireBeginKeeps(w: World, t: Task)
    requires Exclusive(w) && WakeUpKept(w) && !Waiting(w.waiters, t) && t !in w.running
    ensures var w1 := AcquireBegin(w, t).world; Exclusive(w1) && WakeUpKept(w1)
  {
    assert w.waiters != [] ==> w.waiters[0] in w.waiters;
  }

  lemma AcquireBeginCounts(w: World, t: Task)
    requires Exclusive(w) && !Waiting(w.waiters, t) && t !in w.running
    ensures var w1 := AcquireBegin(w, t).world;
            ChatCount(w1.waiters) + (if ChatRunning(w1) then 1 else 0)
              == ChatCount(w.waiters) + (if ChatRunning(w) then 1 else 0) + (if t.Chat? then 1 else 0)
  {
    ChatCountConcat(w.waiters, [Waiter(t, false, NotStopped)]);
    var w1 := AcquireBegin(w, t).world;
    if w1.running != w.running {
      assert t in w1.running;
      assert ChatRunning(w1) == t.Chat?;
    } else {
      assert ChatRunning(w1) == ChatRunning(w);
    }
  }

  lemma ArriveKeepsInv(w: World, t: Task)
    requires Inv(w) && Enabled(w, Arrive(t))
    ensures OnArrive(w, t).Next? && Inv(OnArrive(w, t).world)
  {
    var w1 := if t.Chat? then PutNowait(w, t).GetOr(w) else w;
    assert ChatRunning(w1) == ChatRunning(w);
    AcquireBeginKeeps(w1, t);
    AcquireBeginCounts(w1, t);
  }

  lemma StopKeepsInv(w: World, t: Task, how: Stop)
    requires Inv(w) && Enabled(w, StopLands(t, how))
    ensures OnStop(w, t, how).Next? && Inv(OnStop(w, t, how).world)
  {
    var i := IndexOf(w.waiters, t);
    ChatCountAt(w.waiters, i, OnStop(w, t, how).world.waiters[i]);
    assert ChatRunning(OnStop(w, t, how).world) == ChatRunning(w);
  }

  /** A waiter that resumes unstopped is the woken head, and the lock is free. */
  lemma ResumedIsHead(w: World, t: Task)
    requires Inv(w) && Enabled(w, Resume(t)) && w.waiters[IndexOf(w.waiters, t)].stop == NotStopped
    ensures IndexOf(w.waiters, t) == 0 && !w.locked && w.running == {}
    ensures RemoveAt(w.waiters, 0) == w.waiters[1..]
  {
  }

  /** The waiter that left was the woken head: the lock was free, and it is the only owner now. */
  lemma AcquireOnResumeKeepsInv(w: World, t: Task)
    requires Inv(w) && Enabled(w, Resume(t))
    requires w.waiters[IndexOf(w.waiters, t)].stop == NotStopped
    ensures OnResume(w, t).Next? && Inv(OnResume(w, t).world)
  {
    ResumedIsHead(w, t);
    ChatCountAt(w.waiters, 0, w.waiters[0]);
    var w1 := World(w.queue, w.unfinished, true, w.waiters[1..], {t});
    assert {} + {t} == {t};
    assert OnResume(w, t).world == w1;
    assert ChatRunning(w1) == t.Chat? by {
      assert t in w1.running;
    }
    HeadTakesLock(w, t);
  }

  lemma HeadTakesLock(w: World, t: Task)
    requires Exclusive(w) && WakeUpKept(w) && w.waiters != [] && w.waiters[0].task == t
    ensures var w1 := World(w.queue, w.unfinished, true, w.waiters[1..], {t}); Exclusive(w1) && WakeUpKept(w1)
  {
    var rest := w.waiters[1..];
    assert forall j :: 0 <= j < |rest| ==> rest[j] == w.waiters[j + 1];
  }

  lemma RemoveKeepsOrder(ws: seq<Waiter>, i: nat)
    requires i < |ws| && DistinctTasks(ws)
    ensures DistinctTasks(RemoveAt(ws, i))
    ensures forall x <- RemoveAt(ws, i) :: x in ws && x.task != ws[i].task
  {
    var rest := RemoveAt(ws, i);
    assert forall j :: 0 <= j < |rest| ==> rest[j] == ws[if j < i then j else j + 1];
  }

  lemma LeaveKeepsExclusive(w: World, i: nat)
    requires Exclusive(w) && i < |w.waiters|
    ensures Exclusive(LeaveWaiters(w, i))
  {
    RemoveKeepsOrder(w.waiters, i);
    var rest, left := RemoveAt(w.waiters, i), LeaveWaiters(w, i).waiters;
    assert forall j :: 0 <= j < |left| ==> left[j].task == rest[j].task && rest[j] in rest;
  }

  /** A stopped waiter gives its wake-up, if it had one, to the next waiter. */
  lemma LeaveKeepsWakeUp(w: World, i: nat)
    requires WakeUpKept(w) && i < |w.waiters|
    ensures WakeUpKept(LeaveWaiters(w, i))
  {
    var rest := RemoveAt(w.waiters, i);
    assert forall j :: 0 <= j < |rest| ==> rest[j] == w.waiters[if j < i then j else j + 1];
    if w.locked {
      assert rest != [] && rest[0].woken ==> i != 0;
    }
  }

  /** A stopped waiter returns one ticket and no lock. */
  lemma StopOnResumeKeepsInv(w: World, t: Task)
    requires Inv(w) && Enabled(w, Resume(t))
    requires w.waiters[IndexOf(w.waiters, t)].stop != NotStopped
    ensures OnResume(w, t).Next? && Inv(OnResume(w, t).world)
  {
    var i := IndexOf(w.waiters, t);
    var w1 := LeaveWaiters(w, i);
    LeaveKeepsExclusive(w, i);
    LeaveKeepsWakeUp(w, i);
    ChatCountAt(w.waiters, i, w.waiters[i]);
    ChatCountWake(RemoveAt(w.waiters, i));
    assert ChatRunning(w1) == ChatRunning(w);
    var w2 := OnResume(w, t).world;
    assert w2.waiters == w1.waiters && w2.running == w1.running && w2.locked == w1.locked;
    assert ChatRunning(w2) == ChatRunning(w);
  }

  lemma ResumeKeepsInv(w: World, t: Task)
    requires Inv(w) && Enabled(w, Resume(t))
    ensures OnResume(w, t).Next? && Inv(OnResume(w, t).world)
  {
    if w.waiters[IndexOf(w.waiters, t)].stop == NotStopped {
      AcquireOnResumeKeepsInv(w, t);
    } else {
      StopOnResumeKeepsInv(w, t);
    }
  }

  lemma ReleaseKeepsInv(w: World, t: Task)
    requires Inv(w) && Enabled(w, Release(t))
    ensures OnRelease(w, t).Next? && Inv(OnRelease(w, t).world)
  {
    ChatCountWake(w.waiters);
    assert w.running == {t};
    assert w.running - {t} == {};
    assert t.Chat? ==> ChatRunning(w);
  }

  /** No event of an admitted state fails, and every event keeps the invariant. */
  lemma StepKeepsInv(w: World, e: Event)
    requires Inv(w) && Enabled(w, e)
    ensures Step(w, e).Next? && Inv(Step(w, e).world)
  {
    match e
    case Arrive(t) => ArriveKeepsInv(w, t);
    case StopLands(t, how) => StopKeepsInv(w, t, how);
    case Resume(t) => ResumeKeepsInv(w, t);
    case Release(t) => ReleaseKeepsInv(w, t);
  }
}
