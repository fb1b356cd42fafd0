/** What becomes of a task that is stopped while it waits, told by the events of a run and their replies. */
module AdmissionStops {
  import opened Options
  import opened AdmissionQueue
  import opened AdmissionRuns

  // ----- The history of one wait -----

  /** In these events `t` neither arrives nor is resumed. */
  predicate StillSuspended(es: seq<Event>, t: Task) { Arrive(t) !in es && Resume(t) !in es }

  /** A timeout or a cancellation landed on `t`. */
  predicate StopLanded(es: seq<Event>, t: Task) { exists e <- es :: e.StopLands? && e.task == t }

  predicate CancelLanded(es: seq<Event>, t: Task) { StopLands(t, CancelRequested) in es }

  // ----- A stop stays until its task is resumed -----

  function StopOf(w: World, t: Task): Stop
    requires Waiting(w.waiters, t)
  {
    w.waiters[IndexOf(w.waiters, t)].stop
  }

  /** A cancellation hides a timeout, before or after it. */
  function Both(earlier: Stop, later: Stop): Stop {
    if earlier == CancelRequested || later == CancelRequested then CancelRequested
    else if later == NotStopped then earlier else later
  }

  function LandsOn(e: Event, t: Task): Stop { if e.StopLands? && e.task == t then e.how else NotStopped }

  ghost predicate StopKept(w: World, w1: World, t: Task, landed: Stop)
    requires Waiting(w.waiters, t)
  {
    Waiting(w1.waiters, t) && StopOf(w1, t) == Both(StopOf(w, t), landed)
  }

  lemma SameWaiter(w: World, w1: World, t: Task, j: nat)
    requires Waiting(w.waiters, t) && DistinctTasks(w1.waiters) && j < |w1.waiters|
    requires w1.waiters[j].task == t && w1.waiters[j].stop == StopOf(w, t)
    ensures StopKept(w, w1, t, NotStopped)
  {
    IndexIs(w1.waiters, t, j);
  }

  lemma ArriveKeepsStop(w: World, u: Task, t: Task)
    requires Inv(w) && Enabled(w, Arrive(u)) && Waiting(w.waiters, t)
    ensures Step(w, Arrive(u)).Next? && StopKept(w, Step(w, Arrive(u)).world, t, NotStopped)
  {
    ArriveKeepsInv(w, u);
    var i := IndexOf(w.waiters, t);
    assert Step(w, Arrive(u)).world.waiters[i] == w.waiters[i];
    SameWaiter(w, Step(w, Arrive(u)).world, t, i);
  }

  lemma StopKeepsStop(w: World, u: Task, how: Stop, t: Task)
    requires Inv(w) && Enabled(w, StopLands(u, how)) && Waiting(w.waiters, t)
    ensures Step(w, StopLands(u, how)).Next?
    ensures StopKept(w, Step(w, StopLands(u, how)).world, t, LandsOn(StopLands(u, how), t))
  {
    StopKeepsInv(w, u, how);
    var i := IndexOf(w.waiters, t);
    var w1 := Step(w, StopLands(u, how)).world;
    assert w1.waiters[i].task == t;
    IndexIs(w1.waiters, t, i);
    IndexIs(w.waiters, u, IndexOf(w.waiters, u));
  }

  lemma WakeKeepsStop(ws: seq<Waiter>, i: nat)
    requires i < |ws|
    ensures |WakeUpFirst(ws)| == |ws| && WakeUpFirst(ws)[i].task == ws[i].task && WakeUpFirst(ws)[i].stop == ws[i].stop
  {
  }

  lemma ReleaseKeepsStop(w: World, u: Task, t: Task)
    requires Inv(w) && Enabled(w, Release(u)) && Waiting(w.waiters, t)
    ensures Step(w, Release(u)).Next? && StopKept(w, Step(w, Release(u)).world, t, NotStopped)
  {
    ReleaseKeepsInv(w, u);
    var i := IndexOf(w.waiters, t);
    WakeKeepsStop(w.waiters, i);
    SameWaiter(w, Step(w, Release(u)).world, t, i);
  }

  /** What a resumption does to the line: its task is taken out, and the next one may be woken. */
  lemma ResumeShape(w: World, u: Task)
    requires Inv(w) && Enabled(w, Resume(u))
    ensures Step(w, Resume(u)).Next?
    ensures var rest := RemoveAt(w.waiters, IndexOf(w.waiters, u));
            Step(w, Resume(u)).world.waiters in [rest, WakeUpFirst(rest)]
  {
    ResumeKeepsInv(w, u);
  }

  lemma ResumeKeepsStop(w: World, u: Task, t: Task)
    requires Inv(w) && Enabled(w, Resume(u)) && Waiting(w.waiters, t) && u != t
    ensures Step(w, Resume(u)).Next? && StopKept(w, Step(w, Resume(u)).world, t, NotStopped)
  {
    ResumeKeepsInv(w, u);
    ResumeShape(w, u);
    var i, j := IndexOf(w.waiters, u), IndexOf(w.waiters, t);
    var k := if i < j then j - 1 else j;
    BeforeAfterRemove(w.waiters, i, j);
    WakeKeepsStop(RemoveAt(w.waiters, i), k);
    SameWaiter(w, Step(w, Resume(u)).world, t, k);
  }

  lemma StepKeepsStop(w: World, e: Event, t: Task)
    requires Inv(w) && Enabled(w, e) && Waiting(w.waiters, t) && e != Resume(t)
    ensures Step(w, e).Next? && StopKept(w, Step(w, e).world, t, LandsOn(e, t))
  {
    match e
    case Arrive(u) => ArriveKeepsStop(w, u, t);
    case StopLands(u, how) => StopKeepsStop(w, u, how, t);
    case Resume(u) => ResumeKeepsStop(w, u, t);
    case Release(u) => ReleaseKeepsStop(w, u, t);
  }

  /** What is asked of a suspended task is what landed on it, whoever else came and went. */
  lemma {:induction false} RunKeepsStop(w: World, es: seq<Event>, t: Task)
    requires Inv(w) && LegalRun(w, es) && Waiting(w.waiters, t) && StillSuspended(es, t)
    ensures Final(w, es).Next? && Inv(Final(w, es).world) && Waiting(Final(w, es).world.waiters, t)
    ensures var stop := StopOf(Final(w, es).world, t);
            && (stop == NotStopped <==> StopOf(w, t) == NotStopped && !StopLanded(es, t))
            && (stop == CancelRequested <==> StopOf(w, t) == CancelRequested || CancelLanded(es, t))
    decreases |es|
  {
    if es != [] {
      assert es[0] in es;
      assert forall e <- es :: e == es[0] || e in es[1..];
      assert forall e <- es[1..] :: e in es;
      StepKeepsInv(w, es[0]);
      StepKeepsStop(w, es[0], t);
      RunKeepsStop(Step(w, es[0]).world, es[1..], t);
    }
  }

  // ----- What the resumed task does -----

  lemma ResumeReplies(w: World, t: Task)
    requires Inv(w) && Enabled(w, Resume(t))
    ensures Step(w, Resume(t)).Next?
    ensures Step(w, Resume(t)).reply == match StopOf(w, t)
                                        case NotStopped => Acquired
                                        case TimedOut => TimedOut504
                                        case CancelRequested => CancelRaised
  {
    ResumeKeepsInv(w, t);
  }

  lemma NotInside(ws: seq<Waiter>, i: nat, t: Task)
    requires DistinctTasks(ws) && i < |ws| && ws[i].task == t
    ensures !Waiting(RemoveAt(ws, i), t) && !Waiting(WakeUpFirst(RemoveAt(ws, i)), t)
  {
    RemoveKeepsOrder(ws, i);
    var rest := RemoveAt(ws, i);
    forall j | 0 <= j < |rest|
      ensures rest[j].task != t && WakeUpFirst(rest)[j].task != t
    {
      assert rest[j] in rest;
    }
  }

  /** A stopped task leaves with nothing: out of the line, not the owner, and one ticket back if it is a chat. */
  lemma StoppedLeaves(w: World, t: Task)
    requires Inv(w) && Enabled(w, Resume(t)) && StopOf(w, t) != NotStopped
    ensures Step(w, Resume(t)).Next?
    ensures var w1 := Step(w, Resume(t)).world;
            && !Waiting(w1.waiters, t) && t !in w1.running
            && w1.running == w.running && w1.locked == w.locked
            && |w1.queue| == |w.queue| - (if t.Chat? then 1 else 0)
  {
    var i := IndexOf(w.waiters, t);
    StopShape(w, t);
    ResumeShape(w, t);
    NotInside(w.waiters, i, t);
    assert w.waiters[i] in w.waiters;
  }

  /** The whole effect of a stop, in terms of what a caller sees. */
  ghost predicate LeavesWithoutLock(w: World, t: Task)
    requires Enabled(w, Resume(t))
  {
    && Step(w, Resume(t)).Next?
    && var w1 := Step(w, Resume(t)).world;
       && t !in w1.running && w1.running == w.running && w1.locked == w.locked
       && |w1.queue| == |w.queue| - (if t.Chat? then 1 else 0)
  }

  /**
   The reply tells the history.  A task that was suspended on arrival gets the lock exactly if nothing
   stopped it since; it times out exactly if it was stopped and never cancelled, whether a stop landed
   before or after the lock was granted to it.
  */
  lemma ReplyTellsTheHistory(w: World, es: seq<Event>, t: Task)
    requires Inv(w) && Enabled(w, Arrive(t)) && Step(w, Arrive(t)).Next? && Step(w, Arrive(t)).reply == Suspended
    requires LegalRun(Step(w, Arrive(t)).world, es) && StillSuspended(es, t)
    requires Final(Step(w, Arrive(t)).world, es).Next?
    requires Enabled(Final(Step(w, Arrive(t)).world, es).world, Resume(t))
    ensures var w1 := Final(Step(w, Arrive(t)).world, es).world;
            && Step(w1, Resume(t)).Next?
            && (Step(w1, Resume(t)).reply == Acquired <==> !StopLanded(es, t))
            && (Step(w1, Resume(t)).reply == TimedOut504 <==> StopLanded(es, t) && !CancelLanded(es, t))
            && (Step(w1, Resume(t)).reply == CancelRaised <==> CancelLanded(es, t))
            && (StopLanded(es, t) ==> LeavesWithoutLock(w1, t))
  {
    var w0 := Step(w, Arrive(t)).world;
    StepKeepsInv(w, Arrive(t));
    NewWaiter(w, t);
    RunKeepsStop(w0, es, t);
    var w1 := Final(w0, es).world;
    ResumeReplies(w1, t);
    if StopLanded(es, t) {
      StoppedLeaves(w1, t);
    }
  }

  lemma NewWaiter(w: World, t: Task)
    requires Inv(w) && Enabled(w, Arrive(t)) && Step(w, Arrive(t)).Next? && Step(w, Arrive(t)).reply == Suspended
    ensures Waiting(Step(w, Arrive(t)).world.waiters, t) && StopOf(Step(w, Arrive(t)).world, t) == NotStopped
  {
    StepKeepsInv(w, Arrive(t));
    var ws := Step(w, Arrive(t)).world.waiters;
    assert ws[|ws| - 1] == Waiter(t, false, NotStopped);
    IndexIs(ws, t, |ws| - 1);
  }

  /** From any admitted state, for a woken or an unwoken waiter: a stop that lands is acted on at the next resumption. */
  lemma StopIsObeyed(w: World, how: Stop, es: seq<Event>, t: Task)
    requires Inv(w) && Enabled(w, StopLands(t, how)) && Step(w, StopLands(t, how)).Next?
    requires LegalRun(Step(w, StopLands(t, how)).world, es) && StillSuspended(es, t)
    requires Final(Step(w, StopLands(t, how)).world, es).Next?
    requires Enabled(Final(Step(w, StopLands(t, how)).world, es).world, Resume(t))
    ensures var w1 := Final(Step(w, StopLands(t, how)).world, es).world;
            && Step(w1, Resume(t)).Next? && Step(w1, Resume(t)).reply in {TimedOut504, CancelRaised}
            && (how == CancelRequested || CancelLanded(es, t) ==> Step(w1, Resume(t)).reply == CancelRaised)
            && LeavesWithoutLock(w1, t)
  {
    var w0 := Step(w, StopLands(t, how)).world;
    StepKeepsInv(w, StopLands(t, how));
    StepKeepsStop(w, StopLands(t, how), t);
    RunKeepsStop(w0, es, t);
    var w1 := Final(w0, es).world;
    ResumeReplies(w1, t);
    StoppedLeaves(w1, t);
  }

  // ----- Never served afterwards -----

  /** Outside, or waiting with a stop. */
  ghost predicate Doomed(w: World, t: Task) {
    t !in w.running && (Waiting(w.waiters, t) ==> StopOf(w, t) != NotStopped)
  }

  lemma WakeAddsNobody(ws: seq<Waiter>, t: Task)
    ensures Waiting(WakeUpFirst(ws), t) <==> Waiting(ws, t)
  {
    var woken := WakeUpFirst(ws);
    assert forall j :: 0 <= j < |ws| ==> woken[j].task == ws[j].task && woken[j] in woken && ws[j] in ws;
  }

  lemma ResumeAddsNobody(w: World, u: Task, t: Task)
    requires Inv(w) && Enabled(w, Resume(u)) && !Waiting(w.waiters, t)
    ensures Step(w, Resume(u)).Next? && !Waiting(Step(w, Resume(u)).world.waiters, t)
  {
    ResumeShape(w, u);
    RemoveKeepsOrder(w.waiters, IndexOf(w.waiters, u));
    WakeAddsNobody(RemoveAt(w.waiters, IndexOf(w.waiters, u)), t);
  }

  /** Who is outside comes in by arriving only. */
  lemma OutsideStays(w: World, e: Event, t: Task)
    requires Inv(w) && Enabled(w, e) && !Waiting(w.waiters, t) && t !in w.running && e != Arrive(t)
    ensures Step(w, e).Next? && !Waiting(Step(w, e).world.waiters, t) && t !in Step(w, e).world.running
  {
    StepKeepsInv(w, e);
    OthersRun(w, e, t);
    match e
    case Arrive(_) =>
    case StopLands(u, _) =>
      var i := IndexOf(w.waiters, u);
      assert w.waiters[i] in w.waiters;
    case Resume(u) => ResumeAddsNobody(w, u, t);
    case Release(_) => WakeAddsNobody(w.waiters, t);
  }

  lemma StepKeepsDoomed(w: World, e: Event, t: Task)
    requires Inv(w) && Enabled(w, e) && Doomed(w, t) && e != Arrive(t)
    ensures Step(w, e).Next? && Doomed(Step(w, e).world, t)
    ensures Step(w, e).reply == Acquired ==> e.task != t
  {
    if !Waiting(w.waiters, t) {
      OutsideStays(w, e, t);
    } else if e == Resume(t) {
      ResumeReplies(w, t);
      StoppedLeaves(w, t);
    } else {
      StepKeepsStop(w, e, t);
      OthersRun(w, e, t);
    }
  }

  lemma OthersRun(w: World, e: Event, t: Task)
    requires Inv(w) && Enabled(w, e) && t !in w.running && e != Resume(t) && e != Arrive(t)
    ensures Step(w, e).Next? && t !in Step(w, e).world.running
    ensures Step(w, e).reply == Acquired ==> e.task != t
  {
    StepKeepsInv(w, e);
  }

  lemma {:induction false} DoomedIsNeverServed(w: World, es: seq<Event>, t: Task)
    requires Inv(w) && LegalRun(w, es) && Doomed(w, t) && Arrive(t) !in es
    ensures t !in Served(w, es)
    decreases |es|
  {
    if es != [] {
      assert es[0] in es && forall e <- es[1..] :: e in es;
      StepKeepsInv(w, es[0]);
      StepKeepsDoomed(w, es[0], t);
      DoomedIsNeverServed(Step(w, es[0]).world, es[1..], t);
    }
  }

  /** A stopped task is not served before it arrives again, whatever else happens. */
  lemma StoppedIsNeverServed(w: World, how: Stop, es: seq<Event>, t: Task)
    requires Inv(w) && Enabled(w, StopLands(t, how)) && LegalRun(w, [StopLands(t, how)] + es) && Arrive(t) !in es
    ensures t !in Served(w, [StopLands(t, how)] + es)
  {
    var e := StopLands(t, how);
    StepKeepsInv(w, e);
    StepKeepsStop(w, e, t);
    assert ([e] + es)[1..] == es;
    assert w.waiters[IndexOf(w.waiters, t)] in w.waiters;
    DoomedIsNeverServed(Step(w, e).world, es, t);
  }

  /** A task passes at once exactly if nobody runs the model and nobody live is in the line. */
  lemma PassesAtOnceExactly(w: World, t: Task)
    requires Inv(w) && Enabled(w, Arrive(t))
    ensures Step(w, Arrive(t)).Next?
    ensures Step(w, Arrive(t)).reply == Acquired <==>
            (t.Chat? ==> |w.queue| < 50) && w.running == {} && forall u :: !InLine(w, u)
  {
    ArriveKeepsInv(w, t);
    forall x | x in w.waiters
      ensures InLine(w, x.task) <==> !x.FutureCancelled()
    {
      var i: nat :| i < |w.waiters| && w.waiters[i] == x;
      IndexIs(w.waiters, x.task, i);
    }
  }
}
