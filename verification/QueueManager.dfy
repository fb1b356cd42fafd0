/** The manager object itself: its methods change the queue and the lock in place, as the events say. */
module QueueManager {
  import opened Options
  import opened AdmissionQueue

  class LLMQueueManager {
    var queue: seq<Task>
    var unfinished: int
    var locked: bool
    var waiters: seq<Waiter>
    ghost var running: set<Task>

    ghost function View(): World
      reads this
    {
      World(queue, unfinished, locked, waiters, running)
    }

    ghost predicate Valid()
      reads this
    {
      Inv(View())
    }

    constructor ()
      ensures View() == EMPTY && Valid()
    {
      queue, unfinished, locked, waiters, running := [], 0, false, [], {};
    }

    /** `_wake_up_first` of the lock. */
    method WakeUpFirstWaiter()
      modifies `waiters
      ensures waiters == WakeUpFirst(old(waiters))
    {
      if waiters != [] {
        var head := waiters[0];
        if !head.Done() {
          waiters := [head.(woken := true)] + waiters[1..];
        }
      }
    }

    /** `get_nowait` and `task_done`: false stands for the exception that either would raise. */
    method PopTicket() returns (ok: bool)
      modifies `queue, `unfinished
      ensures ok == (old(queue) != [] && old(unfinished) > 0)
      ensures ok ==> queue == old(queue)[1..] && unfinished == old(unfinished) - 1
    {
      if queue == [] {
        return false;
      }
      queue := queue[1..];
      if unfinished <= 0 {
        return false;
      }
      unfinished := unfinished - 1;
      return true;
    }

    /** `acquire` up to its first suspension; the loop is the `all(w.cancelled() ...)` scan. */
    method BeginAcquire(t: Task) returns (reply: Reply)
      modifies `locked, `waiters, `running
      ensures Next(View(), reply) == old(AcquireBegin(View(), t))
    {
      var free := !locked;
      var i := 0;
      while free && i < |waiters|
        invariant i <= |waiters|
        invariant free <==> !locked && forall j :: 0 <= j < i ==> waiters[j].FutureCancelled()
      {
        free := waiters[i].FutureCancelled();
        i := i + 1;
      }
      if free {
        locked := true;
        running := running + {t};
        return Acquired;
      }
      waiters := waiters + [Waiter(t, false, NotStopped)];
      return Suspended;
    }

    /** `wait_for_turn` of a chat request, or the worker's `async with gpu_lock`, up to the suspension. */
    method WaitForTurn(t: Task) returns (reply: Reply)
      requires Valid() && Enabled(View(), Arrive(t))
      modifies this
      ensures Valid()
      ensures Next(View(), reply) == old(Step(View(), Arrive(t)))
    {
      ArriveKeepsInv(View(), t);
      if t.Chat? {
        if |queue| >= MAX_QUEUE_SIZE {
          return Rejected503;
        }
        queue := queue + [t];
        unfinished := unfinished + 1;
      }
      reply := BeginAcquire(t);
    }

    /** The `finally` and `except CancelledError` of a cancelled `acquire`. */
    method LeaveLine(i: nat)
      requires i < |waiters|
      modifies `waiters
      ensures View() == old(LeaveWaiters(View(), i))
    {
      waiters := waiters[..i] + waiters[i + 1..];
      if !locked {
        WakeUpFirstWaiter();
      }
    }

    /** A chat task gives a ticket back; the worker has none. */
    method GiveTicketBack(t: Task) returns (ok: bool)
      modifies `queue, `unfinished
      ensures ok == old(ReturnTicket(View(), t, Finished)).Next?
      ensures ok ==> View() == old(ReturnTicket(View(), t, Finished)).world
    {
      if t.Soc? {
        return true;
      }
      ok := PopTicket();
    }

    /** The suspended task runs again: it takes the lock, or it was stopped and cleans up. */
    method ResumeWaiter(t: Task) returns (reply: Reply)
      requires Valid() && Enabled(View(), Resume(t))
      modifies this
      ensures Valid()
      ensures Next(View(), reply) == old(Step(View(), Resume(t)))
    {
      ResumeKeepsInv(View(), t);
      var i := IndexOf(waiters, t);
      var stop := waiters[i].stop;
      if stop == NotStopped {
        waiters := waiters[..i] + waiters[i + 1..];
        locked := true;
        running := running + {t};
        return Acquired;
      }
      LeaveLine(i);
      var ok := GiveTicketBack(t);
      assert ok;
      reply := if stop == TimedOut then TimedOut504 else CancelRaised;
    }

    /** `release_turn`: the lock first, then the ticket. */
    method ReleaseTurn(t: Task) returns (reply: Reply)
      requires Valid() && Enabled(View(), Release(t))
      modifies this
      ensures Valid()
      ensures Next(View(), reply) == old(Step(View(), Release(t)))
    {
      ReleaseKeepsInv(View(), t);
      locked := false;
      running := running - {t};
      WakeUpFirstWaiter();
      var ok := GiveTicketBack(t);
      assert ok;
      reply := Finished;
    }
  }
}
