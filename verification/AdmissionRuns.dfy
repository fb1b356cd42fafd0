/** What the admission protocol promises over whole runs: capacity, exclusion, FIFO service, no lost wake-up. */
module AdmissionRuns {
  import opened Options
  import opened Sequences
  import opened AdmissionQueue

  /** `get_nowait`, `task_done` and `release` never fail, in any interleaving from any admitted state. */
  lemma {:induction false} RunsNeverFail(w: World, es: seq<Event>)
    requires Inv(w) && LegalRun(w, es)
    ensures Final(w, es).Next? && Inv(Final(w, es).world)
    decreases |es|
  {
    if es != [] {
      StepKeepsInv(w, es[0]);
      RunsNeverFail(Step(w, es[0]).world, es[1..]);
    }
  }

  /** The number of chat requests between their `put_nowait` and their `get_nowait`. */
  ghost function ChatsInside(w: World): nat {
    ChatCount(w.waiters) + (if ChatRunning(w) then 1 else 0)
  }

  /** From the empty manager on: both counters equal the chats inside, never more than 50, and one task runs. */
  lemma AdmissionIsSafe(es: seq<Event>)
    requires LegalRun(EMPTY, es)
    ensures Final(EMPTY, es).Next?
    ensures var w := Final(EMPTY, es).world;
            && |w.queue| == w.unfinished == ChatsInside(w) <= 50
            && (forall a, b :: a in w.running && b in w.running ==> a == b)
  {
    assert Inv(EMPTY);
    RunsNeverFail(EMPTY, es);
  }

  /** A chat request is refused exactly when 50 chats are inside, and a refusal changes nothing. */
  lemma RejectedExactlyWhenFull(w: World, t: Task)
    requires Inv(w) && Enabled(w, Arrive(t))
    ensures Step(w, Arrive(t)).Next?
    ensures Step(w, Arrive(t)).reply == Rejected503 <==> t.Chat? && ChatsInside(w) == 50
    ensures Step(w, Arrive(t)).reply == Rejected503 ==> Step(w, Arrive(t)).world == w
  {
    ArriveKeepsInv(w, t);
  }

  /** Only the owner's own release takes the lock from it: no timeout or cancellation of another task does. */
  lemma LockIsKept(w: World, e: Event, owner: Task)
    requires Inv(w) && Enabled(w, e) && owner in w.running && e != Release(owner)
    ensures Step(w, e).Next? && Step(w, e).world.running == w.running && Step(w, e).world.locked
  {
    StepKeepsInv(w, e);
    match e {
      case Arrive(t) =>
      case StopLands(t, how) =>
      case Resume(t) =>
        var i := IndexOf(w.waiters, t);
        assert i == 0 || !w.waiters[i].woken;
      case Release(t) =>
    }
  }

  // ----- FIFO service -----

  /** Still in the line: suspended, and its future not cancelled. */
  predicate InLine(w: World, t: Task) {
    Waiting(w.waiters, t) && !w.waiters[IndexOf(w.waiters, t)].FutureCancelled()
  }

  ghost function TasksBefore(ws: seq<Waiter>, n: nat): set<Task>
    requires n <= |ws|
  {
    set i | 0 <= i < n :: ws[i].task
  }

  /** Who must go before `t`: the task that runs the model and the waiters in front of it. */
  ghost function AheadOf(w: World, t: Task): set<Task>
    requires Waiting(w.waiters, t)
  {
    w.running + TasksBefore(w.waiters, IndexOf(w.waiters, t))
  }

  ghost function Ahead(w: World, t: Task): nat
    requires Waiting(w.waiters, t)
  {
    IndexOf(w.waiters, t) + |w.running|
  }

  /** In a list without repeated tasks, a position that holds the task is its index. */
  lemma IndexIs(ws: seq<Waiter>, t: Task, i: nat)
    requires DistinctTasks(ws) && i < |ws| && ws[i].task == t
    ensures Waiting(ws, t) && IndexOf(ws, t) == i
  {
    assert ws[i] in ws;
  }

  lemma BeforeAfterRemove(ws: seq<Waiter>, i: nat, j: nat)
    requires i < |ws| && j < |ws| && i != j
    ensures var k := if i < j then j - 1 else j;
            RemoveAt(ws, i)[k] == ws[j] && TasksBefore(RemoveAt(ws, i), k) <= TasksBefore(ws, j)
  {
    var k := if i < j then j - 1 else j;
    assert forall m :: 0 <= m < k ==> RemoveAt(ws, i)[m] == ws[if m < i then m else m + 1];
  }

  /** Where a removal moves the others. */
  lemma IndexAfterRemove(ws: seq<Waiter>, i: nat, t: Task)
    requires DistinctTasks(ws) && i < |ws| && Waiting(ws, t) && ws[i].task != t
    ensures Waiting(RemoveAt(ws, i), t)
    ensures IndexOf(RemoveAt(ws, i), t) == IndexOf(ws, t) - (if i < IndexOf(ws, t) then 1 else 0)
    ensures RemoveAt(ws, i)[IndexOf(RemoveAt(ws, i), t)] == ws[IndexOf(ws, t)]
    ensures TasksBefore(RemoveAt(ws, i), IndexOf(RemoveAt(ws, i), t)) <= TasksBefore(ws, IndexOf(ws, t))
  {
    var j := IndexOf(ws, t);
    RemoveKeepsOrder(ws, i);
    BeforeAfterRemove(ws, i, j);
    IndexIs(RemoveAt(ws, i), t, if i < j then j - 1 else j);
  }

  /** Waking the head moves nobody. */
  lemma IndexAfterWake(ws: seq<Waiter>, t: Task)
    requires DistinctTasks(ws) && Waiting(ws, t)
    ensures DistinctTasks(WakeUpFirst(ws)) && Waiting(WakeUpFirst(ws), t)
    ensures IndexOf(WakeUpFirst(ws), t) == IndexOf(ws, t)
    ensures forall m :: 0 <= m < |ws| ==> WakeUpFirst(ws)[m].task == ws[m].task
  {
    var woken := WakeUpFirst(ws);
    assert forall m :: 0 <= m < |ws| ==> woken[m].task == ws[m].task;
    IndexIs(woken, t, IndexOf(ws, t));
  }

  lemma PrefixTasks(a: seq<Waiter>, b: seq<Waiter>, n: nat)
    requires n <= |a| && n <= |b| && forall m :: 0 <= m < n ==> a[m].task == b[m].task
    ensures TasksBefore(a, n) == TasksBefore(b, n)
  {
    forall t
      ensures t in TasksBefore(a, n) <==> t in TasksBefore(b, n)
    {
      assert t in TasksBefore(a, n) ==> exists m :: 0 <= m < n && b[m].task == t;
      assert t in TasksBefore(b, n) ==> exists m :: 0 <= m < n && a[m].task == t;
    }
  }

  /** While somebody live is queued an arrival joins at the end, or is rejected. */
  lemma ArriveShape(w: World, u: Task, t: Task)
    requires Enabled(w, Arrive(u)) && InLine(w, t)
    ensures Step(w, Arrive(u)).Next? && Step(w, Arrive(u)).reply != Acquired
    ensures var w1 := Step(w, Arrive(u)).world;
            w1.running == w.running && w.waiters <= w1.waiters
  {
    assert w.waiters[IndexOf(w.waiters, t)] in w.waiters;
  }

  lemma ArriveBehind(w: World, u: Task, t: Task)
    requires Inv(w) && Enabled(w, Arrive(u)) && InLine(w, t)
    ensures Step(w, Arrive(u)).Next? && Step(w, Arrive(u)).reply != Acquired
    ensures var w1 := Step(w, Arrive(u)).world;
            Waiting(w1.waiters, t) && AheadOf(w1, t) == AheadOf(w, t) && Ahead(w1, t) == Ahead(w, t)
  {
    ArriveKeepsInv(w, u);
    ArriveShape(w, u, t);
    var i, w1 := IndexOf(w.waiters, t), Step(w, Arrive(u)).world;
    assert w1.waiters[i] == w.waiters[i];
    IndexIs(w1.waiters, t, i);
    PrefixTasks(w1.waiters, w.waiters, i);
  }

  lemma StopInPlace(w: World, u: Task, how: Stop, t: Task)
    requires Inv(w) && Enabled(w, StopLands(u, how)) && InLine(w, t)
    ensures Step(w, StopLands(u, how)).Next?
    ensures var w1 := Step(w, StopLands(u, how)).world;
            Waiting(w1.waiters, t) && AheadOf(w1, t) == AheadOf(w, t) && Ahead(w1, t) == Ahead(w, t)
  {
    StopKeepsInv(w, u, how);
    var i := IndexOf(w.waiters, t);
    var w1 := Step(w, StopLands(u, how)).world;
    IndexIs(w1.waiters, t, i);
    PrefixTasks(w1.waiters, w.waiters, i);
  }

  lemma AcquireInFront(w: World, u: Task, t: Task)
    requires Inv(w) && Enabled(w, Resume(u)) && Waiting(w.waiters, t) && u != t
    requires w.waiters[IndexOf(w.waiters, u)].stop == NotStopped
    ensures Step(w, Resume(u)).Next? && Step(w, Resume(u)).reply == Acquired
    ensures var w1 := Step(w, Resume(u)).world;
            Waiting(w1.waiters, t) && AheadOf(w1, t) <= AheadOf(w, t) && Ahead(w1, t) == Ahead(w, t)
    ensures u in AheadOf(w, t)
  {
    var i := IndexOf(w.waiters, u);
    assert i == 0 && w.running == {};
    IndexAfterRemove(w.waiters, 0, t);
    var w1 := Step(w, Resume(u)).world;
    assert w1.running == {u};
    assert u in TasksBefore(w.waiters, IndexOf(w.waiters, t));
  }

  lemma LeaveInFront(w: World, i: nat, t: Task)
    requires DistinctTasks(w.waiters) && i < |w.waiters| && Waiting(w.waiters, t) && w.waiters[i].task != t
    ensures var w1 := LeaveWaiters(w, i);
            Waiting(w1.waiters, t) && AheadOf(w1, t) <= AheadOf(w, t) && Ahead(w1, t) <= Ahead(w, t)
  {
    var rest := RemoveAt(w.waiters, i);
    RemoveKeepsOrder(w.waiters, i);
    IndexAfterRemove(w.waiters, i, t);
    IndexAfterWake(rest, t);
    PrefixTasks(LeaveWaiters(w, i).waiters, rest, IndexOf(rest, t));
  }

  lemma StopShape(w: World, u: Task)
    requires Inv(w) && Enabled(w, Resume(u))
    requires w.waiters[IndexOf(w.waiters, u)].stop != NotStopped
    ensures Step(w, Resume(u)).Next? && Step(w, Resume(u)).reply != Acquired
    ensures Step(w, Resume(u)).world.waiters == LeaveWaiters(w, IndexOf(w.waiters, u)).waiters
    ensures Step(w, Resume(u)).world.running == w.running
  {
    StopOnResumeKeepsInv(w, u);
  }

  lemma SameLine(w: World, w1: World, t: Task)
    requires w.waiters == w1.waiters && w.running == w1.running && Waiting(w.waiters, t)
    ensures AheadOf(w1, t) == AheadOf(w, t) && Ahead(w1, t) == Ahead(w, t)
  {
  }

  lemma ResumeInFront(w: World, u: Task, t: Task)
    requires Inv(w) && Enabled(w, Resume(u)) && Waiting(w.waiters, t) && u != t
    ensures Step(w, Resume(u)).Next?
    ensures var w1 := Step(w, Resume(u)).world;
            Waiting(w1.waiters, t) && AheadOf(w1, t) <= AheadOf(w, t) && Ahead(w1, t) <= Ahead(w, t)
    ensures Step(w, Resume(u)).reply == Acquired ==> u in AheadOf(w, t)
  {
    if w.waiters[IndexOf(w.waiters, u)].stop == NotStopped {
      AcquireInFront(w, u, t);
    } else {
      var i := IndexOf(w.waiters, u);
      StopShape(w, u);
      LeaveInFront(w, i, t);
      SameLine(LeaveWaiters(w, i), Step(w, Resume(u)).world, t);
    }
  }

  lemma ReleaseAdvances(w: World, u: Task, t: Task)
    requires Inv(w) && Enabled(w, Release(u)) && InLine(w, t)
    ensures Step(w, Release(u)).Next?
    ensures var w1 := Step(w, Release(u)).world;
            Waiting(w1.waiters, t) && AheadOf(w1, t) <= AheadOf(w, t) && Ahead(w1, t) == Ahead(w, t) - 1
  {
    ReleaseKeepsInv(w, u);
    IndexAfterWake(w.waiters, t);
    PrefixTasks(WakeUpFirst(w.waiters), w.waiters, IndexOf(w.waiters, t));
    assert w.running == {u};
    assert w.running - {u} == {};
  }

  /** While `t` is in the line nobody gets in front of it, and each release brings it one place closer. */
  lemma NobodyOvertakes(w: World, e: Event, t: Task)
    requires Inv(w) && Enabled(w, e) && InLine(w, t) && e != Resume(t)
    ensures Step(w, e).Next?
    ensures var w1 := Step(w, e).world;
            && Waiting(w1.waiters, t)
            && AheadOf(w1, t) <= AheadOf(w, t)
            && Ahead(w1, t) + (if e.Release? then 1 else 0) <= Ahead(w, t)
    ensures Step(w, e).reply == Acquired ==> e.task in AheadOf(w, t)
  {
    match e
    case Arrive(u) => ArriveBehind(w, u, t);
    case StopLands(u, how) => StopInPlace(w, u, how, t);
    case Resume(u) => ResumeInFront(w, u, t);
    case Release(u) => ReleaseAdvances(w, u, t);
  }

  /** `t` is in the line in every state of the run. */
  ghost predicate StaysInLine(w: World, es: seq<Event>, t: Task)
    requires Inv(w) && LegalRun(w, es)
    decreases |es|
  {
    && InLine(w, t)
    && (es != [] ==>
          && es[0] != Resume(t)
          && (StepKeepsInv(w, es[0]); StaysInLine(Step(w, es[0]).world, es[1..], t)))
  }

  function Releases(es: seq<Event>): nat {
    if es == [] then 0 else (if es[0].Release? then 1 else 0) + Releases(es[1..])
  }

  /** The tasks that get the lock during a run. */
  ghost function Served(w: World, es: seq<Event>): set<Task>
    requires LegalRun(w, es)
    decreases |es|
  {
    if es == [] then {}
    else match Step(w, es[0])
         case Crash(_) => {}
         case Next(w1, reply) => (if reply == Acquired then {es[0].task} else {}) + Served(w1, es[1..])
  }

  /**
   FIFO over whole runs.  However long `t` waits, only tasks that were in front of it at the start
   are served meanwhile, and the model is released at most as often as there were tasks in front.
  */
  lemma {:induction false} ServedInOrder(w: World, es: seq<Event>, t: Task)
    requires Inv(w) && LegalRun(w, es) && StaysInLine(w, es, t)
    ensures Served(w, es) <= AheadOf(w, t)
    ensures Releases(es) <= Ahead(w, t)
    decreases |es|
  {
    if es != [] {
      StepKeepsInv(w, es[0]);
      NobodyOvertakes(w, es[0], t);
      ServedInOrder(Step(w, es[0]).world, es[1..], t);
    }
  }

  // ----- No lost wake-up -----

  /** Who can move without help from outside: the owner, or else the head of the line. */
  function NextMove(w: World): Event
    requires w.running != {} || w.waiters != []
    requires forall a, b :: a in w.running && b in w.running ==> a == b
  {
    if w.running != {} then
      var t :| t in w.running;
      Release(t)
    else
      Resume(w.waiters[0].task)
  }

  function Load(w: World): nat { 2 * |w.waiters| + |w.running| }

  /** As long as a task is inside, one of them can move: the wake-up is never lost. */
  lemma SomebodyCanMove(w: World)
    requires Inv(w) && (w.running != {} || w.waiters != [])
    ensures Enabled(w, NextMove(w)) && Step(w, NextMove(w)).Next?
    ensures Inv(Step(w, NextMove(w)).world) && Load(Step(w, NextMove(w)).world) < Load(w)
  {
    if w.running == {} {
      IndexIs(w.waiters, w.waiters[0].task, 0);
    } else {
      var t :| t in w.running;
      assert w.running == {t};
      assert w.running - {t} == {};
    }
    StepKeepsInv(w, NextMove(w));
  }

  /** The run in which everybody inside finishes and nobody new arrives. */
  ghost function DrainRun(w: World): seq<Event>
    requires Inv(w)
    decreases Load(w)
  {
    if w.running == {} && w.waiters == [] then []
    else
      SomebodyCanMove(w);
      [NextMove(w)] + DrainRun(Step(w, NextMove(w)).world)
  }

  /** From every admitted state the manager can empty itself, and then all 50 places are free again. */
  lemma {:induction false} DrainsCompletely(w: World)
    requires Inv(w)
    ensures |DrainRun(w)| <= Load(w)
    ensures LegalRun(w, DrainRun(w)) && Final(w, DrainRun(w)) == Next(EMPTY, Noted)
    decreases Load(w)
  {
    if w.running == {} && w.waiters == [] {
      assert !ChatRunning(w);
    } else {
      SomebodyCanMove(w);
      var w1 := Step(w, NextMove(w)).world;
      DrainsCompletely(w1);
      assert DrainRun(w)[1..] == DrainRun(w1);
    }
  }

  // ----- Tickets come back in the order of arrival, whoever returns them -----

  predicate Leaves(reply: Reply) { reply in {TimedOut504, CancelRaised, Finished} }

  /** The chat that an event lets in with a ticket. */
  function AdmittedBy(w: World, e: Event): seq<Task>
    requires Enabled(w, e)
  {
    if e.Arrive? && e.task.Chat? && Step(w, e).Next? && Step(w, e).reply != Rejected503 then [e.task] else []
  }

  /** The chat that an event lets out. */
  function DepartedBy(w: World, e: Event): seq<Task>
    requires Enabled(w, e)
  {
    if e.task.Chat? && Step(w, e).Next? && Leaves(Step(w, e).reply) then [e.task] else []
  }

  /** The ticket that an event takes from the head of the queue. */
  function PoppedBy(w: World, e: Event): seq<Task>
    requires Enabled(w, e)
  {
    if w.queue != [] && Step(w, e).Next? && |Step(w, e).world.queue| < |w.queue| then [w.queue[0]] else []
  }

  ghost function Admitted(w: World, es: seq<Event>): seq<Task>
    requires LegalRun(w, es)
    decreases |es|
  {
    if es == [] || Step(w, es[0]).Crash? then [] else AdmittedBy(w, es[0]) + Admitted(Step(w, es[0]).world, es[1..])
  }

  ghost function Departed(w: World, es: seq<Event>): seq<Task>
    requires LegalRun(w, es)
    decreases |es|
  {
    if es == [] || Step(w, es[0]).Crash? then [] else DepartedBy(w, es[0]) + Departed(Step(w, es[0]).world, es[1..])
  }

  ghost function Popped(w: World, es: seq<Event>): seq<Task>
    requires LegalRun(w, es)
    decreases |es|
  {
    if es == [] || Step(w, es[0]).Crash? then [] else PoppedBy(w, es[0]) + Popped(Step(w, es[0]).world, es[1..])
  }

  /** Who arrives puts a ticket at the end; who leaves takes one from the head; nobody does both. */
  ghost predicate Queued(w: World, e: Event, queue1: seq<Task>)
    requires Enabled(w, e)
  {
    && w.queue + AdmittedBy(w, e) == PoppedBy(w, e) + queue1
    && |PoppedBy(w, e)| == |DepartedBy(w, e)|
  }

  lemma ArriveQueues(w: World, t: Task)
    requires Enabled(w, Arrive(t)) && Step(w, Arrive(t)).Next?
    ensures Queued(w, Arrive(t), Step(w, Arrive(t)).world.queue)
  {
    assert w.queue + [] == w.queue;
  }

  lemma ReturnPops(w: World, t: Task, reply: Reply)
    requires ReturnTicket(w, t, reply).Next?
    ensures ReturnTicket(w, t, reply).reply == reply
    ensures if t.Chat? then w.queue != [] && ReturnTicket(w, t, reply).world.queue == w.queue[1..]
            else ReturnTicket(w, t, reply).world.queue == w.queue
  {
  }

  lemma ResumeQueues(w: World, t: Task)
    requires Enabled(w, Resume(t)) && Step(w, Resume(t)).Next?
    ensures Queued(w, Resume(t), Step(w, Resume(t)).world.queue)
  {
    var i := IndexOf(w.waiters, t);
    if w.waiters[i].stop != NotStopped {
      ReturnPops(LeaveWaiters(w, i), t, if w.waiters[i].stop == TimedOut then TimedOut504 else CancelRaised);
    }
    SplitHead(w.queue);
  }

  lemma ReleaseQueues(w: World, t: Task)
    requires Enabled(w, Release(t)) && Step(w, Release(t)).Next?
    ensures Queued(w, Release(t), Step(w, Release(t)).world.queue)
  {
    var w1 := LockRelease(w).value;
    ReturnPops(w1.(running := w1.running - {t}), t, Finished);
    SplitHead(w.queue);
  }

  lemma SplitHead(queue: seq<Task>)
    ensures queue + [] == queue && [] + queue == queue
    ensures queue != [] ==> [queue[0]] + queue[1..] == queue
  {
  }

  lemma StepQueues(w: World, e: Event)
    requires Enabled(w, e) && Step(w, e).Next?
    ensures Queued(w, e, Step(w, e).world.queue)
  {
    SplitHead(w.queue);
    match e
    case Arrive(t) => ArriveQueues(w, t);
    case StopLands(_, _) =>
    case Resume(t) => ResumeQueues(w, t);
    case Release(t) => ReleaseQueues(w, t);
  }

  /** The tickets popped in a run are the first ones of the queue and the arrivals after it. */
  lemma {:induction false} TicketsLeaveInOrder(w: World, es: seq<Event>)
    requires Inv(w) && LegalRun(w, es)
    ensures Final(w, es).Next? && |Popped(w, es)| == |Departed(w, es)|
    ensures w.queue + Admitted(w, es) == Popped(w, es) + Final(w, es).world.queue
    decreases |es|
  {
    if es == [] {
      assert w.queue + [] == [] + w.queue;
    } else {
      var e := es[0];
      StepKeepsInv(w, e);
      var w1 := Step(w, e).world;
      StepQueues(w, e);
      TicketsLeaveInOrder(w1, es[1..]);
      Assoc(w.queue, AdmittedBy(w, e), Admitted(w1, es[1..]));
      Assoc(PoppedBy(w, e), w1.queue, Admitted(w1, es[1..]));
      Assoc(PoppedBy(w, e), Popped(w1, es[1..]), Final(w, es).world.queue);
    }
  }

  /**
   Whose ticket a leaving chat takes.  The queue always holds the tickets of the chats that came last,
   and the chats take their own tickets exactly when they leave in the order in which they came.
  */
  lemma TicketsMatchExactly(w: World, es: seq<Event>)
    requires Inv(w) && LegalRun(w, es)
    ensures var line := w.queue + Admitted(w, es);
            var gone := |Departed(w, es)|;
            && gone <= |line| && Final(w, es).Next? && Final(w, es).world.queue == line[gone..]
            && Popped(w, es) == line[..gone]
            && (Popped(w, es) == Departed(w, es) <==> Departed(w, es) <= line)
  {
    TicketsLeaveInOrder(w, es);
  }

  const ONE_IN := World([Chat(0)], 1, true, [], {Chat(0)})
  const TWO_IN := World([Chat(0), Chat(1)], 2, true, [Waiter(Chat(1), false, NotStopped)], {Chat(0)})
  const STOPPED := World([Chat(0), Chat(1)], 2, true, [Waiter(Chat(1), false, TimedOut)], {Chat(0)})
  const OTHERS_TICKET := World([Chat(1)], 1, true, [], {Chat(0)})

  lemma TwoArrive()
    ensures Enabled(EMPTY, Arrive(Chat(0))) && Step(EMPTY, Arrive(Chat(0))) == Next(ONE_IN, Acquired)
    ensures Enabled(ONE_IN, Arrive(Chat(1))) && Step(ONE_IN, Arrive(Chat(1))) == Next(TWO_IN, Suspended)
  {
    assert EMPTY.running + {Chat(0)} == {Chat(0)};
  }

  lemma SecondTimesOut()
    ensures Enabled(TWO_IN, StopLands(Chat(1), TimedOut))
    ensures Step(TWO_IN, StopLands(Chat(1), TimedOut)) == Next(STOPPED, Noted)
    ensures Enabled(STOPPED, Resume(Chat(1))) && Step(STOPPED, Resume(Chat(1))) == Next(OTHERS_TICKET, TimedOut504)
  {
    assert TWO_IN.waiters[0] in TWO_IN.waiters && STOPPED.waiters[0] in STOPPED.waiters;
    assert IndexOf(TWO_IN.waiters, Chat(1)) == 0 && IndexOf(STOPPED.waiters, Chat(1)) == 0;
    assert TWO_IN.waiters[0 := Waiter(Chat(1), false, TimedOut)] == STOPPED.waiters;
    assert RemoveAt(STOPPED.waiters, 0) == [];
    assert STOPPED.queue[1..] == [Chat(1)];
  }

  /** One event in front of a run. */
  lemma Prepend(w: World, e: Event, es: seq<Event>)
    requires Enabled(w, e) && Step(w, e).Next? && LegalRun(Step(w, e).world, es)
    ensures LegalRun(w, [e] + es) && Final(w, [e] + es) == Final(Step(w, e).world, es)
    ensures Admitted(w, [e] + es) == AdmittedBy(w, e) + Admitted(Step(w, e).world, es)
    ensures Departed(w, [e] + es) == DepartedBy(w, e) + Departed(Step(w, e).world, es)
  {
    assert ([e] + es)[1..] == es;
  }

  lemma TimeoutOfTheSecond() returns (es: seq<Event>)
    ensures es == [StopLands(Chat(1), TimedOut), Resume(Chat(1))]
    ensures LegalRun(TWO_IN, es) && Final(TWO_IN, es) == Next(OTHERS_TICKET, Noted)
    ensures Departed(TWO_IN, es) == [Chat(1)] && Admitted(TWO_IN, es) == []
  {
    SecondTimesOut();
    Prepend(STOPPED, Resume(Chat(1)), []);
    Prepend(TWO_IN, StopLands(Chat(1), TimedOut), [Resume(Chat(1))] + []);
    es := [StopLands(Chat(1), TimedOut)] + ([Resume(Chat(1))] + []);
  }

  lemma WholeTimeoutRun() returns (es: seq<Event>)
    ensures es == [Arrive(Chat(0)), Arrive(Chat(1)), StopLands(Chat(1), TimedOut), Resume(Chat(1))]
    ensures LegalRun(EMPTY, es) && Final(EMPTY, es) == Next(OTHERS_TICKET, Noted)
    ensures Departed(EMPTY, es) == [Chat(1)] && Admitted(EMPTY, es) == [Chat(0), Chat(1)]
  {
    TwoArrive();
    es := TimeoutOfTheSecond();
    Prepend(ONE_IN, Arrive(Chat(1)), es);
    es := [Arrive(Chat(1))] + es;
    Prepend(EMPTY, Arrive(Chat(0)), es);
    es := [Arrive(Chat(0))] + es;
  }

  /**
   An instance that fails: a request that times out pops the running request's ticket, and the queue
   then holds the ticket of a task that has left.
  */
  lemma TicketsDoNotIdentify() returns (es: seq<Event>)
    ensures es == [Arrive(Chat(0)), Arrive(Chat(1)), StopLands(Chat(1), TimedOut), Resume(Chat(1))]
    ensures LegalRun(EMPTY, es) && Final(EMPTY, es) == Next(OTHERS_TICKET, Noted)
    ensures Departed(EMPTY, es) == [Chat(1)] && Popped(EMPTY, es) == [Chat(0)]
  {
    es := WholeTimeoutRun();
    assert !ChatRunning(EMPTY) && Inv(EMPTY);
    TicketsMatchExactly(EMPTY, es);
    assert EMPTY.queue + Admitted(EMPTY, es) == [Chat(0), Chat(1)];
  }
}
