/**
 Failed logins from one source in one lab, written concurrently.

 Every write first takes the advisory lock of its lab and source, counts the recent usernames, stamps
 its event and commits, which frees the lock.  Counting may fail: the transaction is rolled back, the
 lock is lost, and the event is written without a count.
*/
module LoginCounting {
  import opened Options
  import opened Forensics
  import opened Sets

  type TaskId = nat

  /** `LOGIN_ENUMERATION_WINDOW`, in seconds. */
  const WINDOW := 300

  /** A committed LOGIN_FAILED event; `seen` is how many events were committed when it was counted. */
  datatype Failure = Failure(username: string, at: Moment, since: Moment, count: Option<nat>, seen: nat)

  datatype Phase =
    | Started(username: string, since: Moment)
    | Locked(username: string, since: Moment)
    | Counted(username: string, since: Moment, count: Option<nat>, seen: nat)
    | Stamped(row: Failure)
    | Ended

  datatype World = World(clock: Moment, committed: seq<Failure>, holder: Option<TaskId>, tasks: map<TaskId, Phase>)

  datatype Event =
    | Tick(seconds: nat)
    | Begin(task: TaskId, username: string)
    | Lock(task: TaskId)
    | Count(task: TaskId)
    | CountFails(task: TaskId)
    | Stamp(task: TaskId)
    | CommitRow(task: TaskId)
    | WriteFails(task: TaskId)

  /** `recent_failed_login_usernames`: distinct usernames of the committed events since a moment. */
  function RecentUsernames(rows: seq<Failure>, since: Moment): set<string> {
    set i | 0 <= i < |rows| && rows[i].at >= since :: rows[i].username
  }

  predicate Enabled(w: World, e: Event) {
    match e
    case Tick(_) => true
    case Begin(t, _) => t !in w.tasks
    case Lock(t) => t in w.tasks && w.tasks[t].Started? && w.holder.None?
    case Count(t) => t in w.tasks && w.tasks[t].Locked?
    case CountFails(t) => t in w.tasks && (w.tasks[t].Started? || w.tasks[t].Locked?)
    case Stamp(t) => t in w.tasks && w.tasks[t].Counted?
    case CommitRow(t) => t in w.tasks && w.tasks[t].Stamped?
    case WriteFails(t) => t in w.tasks && (w.tasks[t].Counted? || w.tasks[t].Stamped?)
  }

  function Put(w: World, t: TaskId, p: Phase): World { w.(tasks := w.tasks[t := p]) }

  /** The end of a transaction frees the lock if it is its own. */
  function Free(w: World, t: TaskId): World { if w.holder == Some(t) then w.(holder := None) else w }

  function Step(w: World, e: Event): World
    requires Enabled(w, e)
  {
    match e
    case Tick(seconds) => w.(clock := w.clock + seconds)
    case Begin(t, username) => Put(w, t, Started(username, w.clock - WINDOW))
    case Lock(t) => Put(w, t, Locked(w.tasks[t].username, w.tasks[t].since)).(holder := Some(t))
    case Count(t) =>
      var p := w.tasks[t];
      var count := |RecentUsernames(w.committed, p.since) + {p.username}|;
      Put(w, t, Counted(p.username, p.since, Some(count), |w.committed|))
    case CountFails(t) => Free(Put(w, t, Counted(w.tasks[t].username, w.tasks[t].since, None, 0)), t)
    case Stamp(t) =>
      var p := w.tasks[t];
      Put(w, t, Stamped(Failure(p.username, w.clock, p.since, p.count, p.seen)))
    case CommitRow(t) => Free(Put(w, t, Ended), t).(committed := w.committed + [w.tasks[t].row])
    case WriteFails(t) => Free(Put(w, t, Ended), t)
  }

  // ----- Invariant -----

  predicate HoldsLock(p: Phase) {
    p.Locked? || (p.Counted? && p.count.Some?) || (p.Stamped? && p.row.count.Some?)
  }

  /** A count is what the query saw, and no other counted event slipped in between the query and position `i`. */
  ghost predicate CountRight(rows: seq<Failure>, username: string, since: Moment, count: nat, seen: nat, i: nat) {
    && seen <= i <= |rows|
    && count == |RecentUsernames(rows[..seen], since) + {username}|
    && forall j :: seen <= j < i ==> rows[j].count.None?
  }

  ghost predicate PhaseOk(w: World, p: Phase) {
    match p
    case Started(_, since) => since + WINDOW <= w.clock
    case Locked(_, since) => since + WINDOW <= w.clock
    case Counted(u, since, count, seen) =>
      since + WINDOW <= w.clock && (count.Some? ==> CountRight(w.committed, u, since, count.value, seen, |w.committed|))
    case Stamped(row) =>
      && row.since + WINDOW <= row.at
      && (row.count.Some? ==> CountRight(w.committed, row.username, row.since, row.count.value, row.seen, |w.committed|))
    case Ended => true
  }

  ghost predicate RowOk(rows: seq<Failure>, i: nat)
    requires i < |rows|
  {
    && rows[i].since + WINDOW <= rows[i].at
    && (rows[i].count.Some? ==>
          CountRight(rows, rows[i].username, rows[i].since, rows[i].count.value, rows[i].seen, i))
  }

  ghost predicate Inv(w: World) {
    && (forall t <- w.tasks :: PhaseOk(w, w.tasks[t]) && (HoldsLock(w.tasks[t]) ==> w.holder == Some(t)))
    && (forall i :: 0 <= i < |w.committed| ==> RowOk(w.committed, i))
  }

  lemma CountStaysRight(rows: seq<Failure>, row: Failure, username: string, since: Moment, count: nat, seen: nat, i: nat)
    requires CountRight(rows, username, since, count, seen, i)
    ensures CountRight(rows + [row], username, since, count, seen, i)
    ensures i == |rows| && row.count.None? ==> CountRight(rows + [row], username, since, count, seen, i + 1)
  {
    assert (rows + [row])[..seen] == rows[..seen];
  }

  lemma CommitKeepsInv(w: World, t: TaskId)
    requires Inv(w) && Enabled(w, CommitRow(t))
    ensures Inv(Step(w, CommitRow(t)))
  {
    var w1 := Step(w, CommitRow(t));
    var row := w.tasks[t].row;
    assert PhaseOk(w, w.tasks[t]);
    forall u | u in w1.tasks
      ensures PhaseOk(w1, w1.tasks[u]) && (HoldsLock(w1.tasks[u]) ==> w1.holder == Some(u))
    {
      if u != t {
        var p := w.tasks[u];
        assert PhaseOk(w, p);
        assert HoldsLock(p) ==> row.count.None?;
        if p.Counted? && p.count.Some? {
          CountStaysRight(w.committed, row, p.username, p.since, p.count.value, p.seen, |w.committed|);
        } else if p.Stamped? && p.row.count.Some? {
          CountStaysRight(w.committed, row, p.row.username, p.row.since, p.row.count.value, p.row.seen, |w.committed|);
        }
      }
    }
    forall i | 0 <= i < |w1.committed|
      ensures RowOk(w1.committed, i)
    {
      var f := w1.committed[i];
      if i < |w.committed| {
        assert RowOk(w.committed, i);
      }
      if f.count.Some? {
        CountStaysRight(w.committed, row, f.username, f.since, f.count.value, f.seen, i);
      }
    }
  }

  lemma CountKeepsInv(w: World, t: TaskId)
    requires Inv(w) && Enabled(w, Count(t))
    ensures Inv(Step(w, Count(t)))
  {
    assert w.committed[..|w.committed|] == w.committed;
    assert PhaseOk(w, w.tasks[t]);
  }

  lemma StepKeepsInv(w: World, e: Event)
    requires Inv(w) && Enabled(w, e)
    ensures Inv(Step(w, e))
  {
    match e
    case Count(t) => CountKeepsInv(w, t);
    case CommitRow(t) => CommitKeepsInv(w, t);
    case _ =>
      var w1 := Step(w, e);
      forall u | u in w1.tasks
        ensures PhaseOk(w1, w1.tasks[u]) && (HoldsLock(w1.tasks[u]) ==> w1.holder == Some(u))
      {
        assert u in w.tasks ==> PhaseOk(w, w.tasks[u]);
      }
  }

  ghost predicate LegalRun(w: World, es: seq<Event>)
    decreases |es|
  {
    es != [] ==> Enabled(w, es[0]) && LegalRun(Step(w, es[0]), es[1..])
  }

  ghost function Final(w: World, es: seq<Event>): World
    requires LegalRun(w, es)
    decreases |es|
  {
    if es == [] then w else Final(Step(w, es[0]), es[1..])
  }

  lemma {:induction false} RunKeepsInv(w: World, es: seq<Event>)
    requires Inv(w) && LegalRun(w, es)
    ensures Inv(Final(w, es))
    decreases |es|
  {
    if es != [] {
      StepKeepsInv(w, es[0]);
      RunKeepsInv(Step(w, es[0]), es[1..]);
    }
  }

  function Start(clock: Moment): World { World(clock, [], None, map[]) }

  // ----- Counts -----

  /** `user` failed, counted under the lock, no later than event `i` and inside its window. */
  ghost predicate FailedBefore(rows: seq<Failure>, i: nat, user: string)
    requires i < |rows|
  {
    exists j :: 0 <= j <= i && rows[j].username == user && rows[j].count.Some? && rows[j].at >= rows[i].since
  }

  /**
   In every interleaving a counted event stores at least the number of distinct usernames that
   failed in its window and got the lock before it; from five on it is judged malicious.
  */
  lemma CountCoversEarlierFailures(clock: Moment, es: seq<Event>, i: nat, users: set<string>, payload: Payload,
                                   heuristic: Payload -> bool)
    requires LegalRun(Start(clock), es)
    requires var rows := Final(Start(clock), es).committed;
             && i < |rows| && rows[i].count.Some? && payload.failedUsernames == Some(rows[i].count.value)
             && forall u <- users :: FailedBefore(rows, i, u)
    ensures Final(Start(clock), es).committed[i].count.value >= |users|
    ensures |users| >= 5 ==> PredictIsMalicious(payload, LoginFailed, heuristic)
  {
    RunKeepsInv(Start(clock), es);
    var rows := Final(Start(clock), es).committed;
    assert RowOk(rows, i);
    var seen := RecentUsernames(rows[..rows[i].seen], rows[i].since) + {rows[i].username};
    forall u | u in users
      ensures u in seen
    {
      assert FailedBefore(rows, i, u);
      var j :| 0 <= j <= i && rows[j].username == u && rows[j].count.Some? && rows[j].at >= rows[i].since;
      if j < i {
        assert j < rows[i].seen;
        assert rows[..rows[i].seen][j] == rows[j];
      }
    }
    SubsetSize(users, seen);
  }

  /** `user` failed before event `i` in its window, counted or not, or is the user of event `i` itself. */
  ghost predicate SeenBefore(rows: seq<Failure>, i: nat, user: string)
    requires i < |rows|
  {
    user == rows[i].username || exists j :: 0 <= j < i && rows[j].username == user && rows[j].at >= rows[i].since
  }

  /** A count never exceeds the number of distinct usernames that failed in the window of five minutes before the event. */
  lemma CountNeverExceeds(clock: Moment, es: seq<Event>, i: nat, users: set<string>, payload: Payload,
                          heuristic: Payload -> bool)
    requires LegalRun(Start(clock), es)
    requires var rows := Final(Start(clock), es).committed;
             && i < |rows| && rows[i].count.Some? && payload.failedUsernames == Some(rows[i].count.value)
             && forall u :: SeenBefore(rows, i, u) ==> u in users
    ensures Final(Start(clock), es).committed[i].count.value <= |users|
    ensures Final(Start(clock), es).committed[i].since + 300 <= Final(Start(clock), es).committed[i].at
    ensures |users| < 5 ==> !PredictIsMalicious(payload, LoginFailed, heuristic)
  {
    RunKeepsInv(Start(clock), es);
    var rows := Final(Start(clock), es).committed;
    assert RowOk(rows, i);
    var seen := RecentUsernames(rows[..rows[i].seen], rows[i].since) + {rows[i].username};
    forall u | u in seen
      ensures u in users
    {
      if u != rows[i].username {
        var j :| 0 <= j < rows[i].seen && rows[..rows[i].seen][j].at >= rows[i].since && rows[..rows[i].seen][j].username == u;
        assert rows[j].username == u;
      }
      assert SeenBefore(rows, i, u);
    }
    SubsetSize(seen, users);
  }

  /** The events `a..b` are one burst: counted, all usernames different, all requests begun within one window. */
  ghost predicate Burst(rows: seq<Failure>, a: nat, b: nat, from: Moment) {
    && a <= b <= |rows|
    && (forall i :: a <= i < b ==> rows[i].count.Some? && from <= rows[i].since + 300 <= from + 300)
    && (forall i, j :: a <= i < j < b ==> rows[i].username != rows[j].username)
    && (forall i :: 0 <= i < a ==> rows[i].at < from - 300)
  }

  lemma RecentOneMore(rows: seq<Failure>, b: nat, since: Moment)
    requires b < |rows|
    ensures RecentUsernames(rows[..b + 1], since)
         == RecentUsernames(rows[..b], since) + (if rows[b].at >= since then {rows[b].username} else {})
  {
    assert rows[..b + 1][b] == rows[b];
    assert forall i :: 0 <= i < b ==> rows[..b + 1][i] == rows[..b][i];
  }

  /** The recent usernames are those of the window, each of them once. */
  ghost predicate InRange(rows: seq<Failure>, a: nat, b: nat, u: string)
    requires b <= |rows|
  {
    exists i :: a <= i < b && rows[i].username == u
  }

  lemma NewUsername(rows: seq<Failure>, a: nat, b: nat, before: set<string>)
    requires a < b <= |rows| && forall i, j :: a <= i < j < b ==> rows[i].username != rows[j].username
    requires forall u <- before :: InRange(rows, a, b - 1, u)
    ensures rows[b - 1].username !in before
    ensures forall u <- before + {rows[b - 1].username} :: InRange(rows, a, b, u)
  {
    assert !InRange(rows, a, b - 1, rows[b - 1].username);
  }

  lemma {:induction false} DistinctUsernames(rows: seq<Failure>, a: nat, b: nat, since: Moment)
    requires a <= b <= |rows| && forall i, j :: a <= i < j < b ==> rows[i].username != rows[j].username
    requires forall i :: a <= i < b ==> rows[i].at >= since
    requires forall i :: 0 <= i < a ==> rows[i].at < since
    ensures |RecentUsernames(rows[..b], since)| == b - a
    ensures forall u <- RecentUsernames(rows[..b], since) :: InRange(rows, a, b, u)
  {
    if a == b {
      assert RecentUsernames(rows[..b], since) == {};
    } else {
      var before := RecentUsernames(rows[..b - 1], since);
      DistinctUsernames(rows, a, b - 1, since);
      RecentOneMore(rows, b - 1, since);
      NewUsername(rows, a, b, before);
    }
  }

  /** The first event of a burst saw no recent username at all. */
  lemma FirstOfBurst(rows: seq<Failure>, a: nat, b: nat, from: Moment)
    requires Burst(rows, a, b, from) && a < b && RowOk(rows, a)
    ensures rows[a].count == Some(1)
  {
    var f := rows[a];
    assert RecentUsernames(rows[..f.seen], f.since) == {};
    assert {} + {f.username} == {f.username};
  }

  /** Every later one saw all of the burst before it. */
  lemma LaterOfBurst(rows: seq<Failure>, a: nat, b: nat, from: Moment, i: nat)
    requires Burst(rows, a, b, from) && a < i < b && forall j :: a <= j <= i ==> RowOk(rows, j)
    ensures rows[i].count == Some(i - a + 1)
  {
    var f := rows[i];
    assert RowOk(rows, i);
    BurstIsRecent(rows, a, b, from, i);
    DistinctUsernames(rows, a, i, f.since);
    assert f.username !in RecentUsernames(rows[..i], f.since);
  }

  lemma BurstIsRecent(rows: seq<Failure>, a: nat, b: nat, from: Moment, i: nat)
    requires Burst(rows, a, b, from) && a < i < b && forall j :: a <= j <= i ==> RowOk(rows, j)
    ensures rows[i].seen == i && forall j :: a <= j < i ==> rows[j].at >= rows[i].since
  {
    assert RowOk(rows, i) && rows[i - 1].count.Some?;
    forall j | a <= j < i
      ensures rows[j].at >= rows[i].since
    {
      assert RowOk(rows, j);
    }
  }

  /** In every interleaving a burst of n different usernames stores exactly the counts 1, 2, ..., n, in commit order. */
  lemma BurstCountsUp(clock: Moment, es: seq<Event>, a: nat, b: nat, from: Moment, i: nat)
    requires LegalRun(Start(clock), es) && Burst(Final(Start(clock), es).committed, a, b, from) && a <= i < b
    ensures Final(Start(clock), es).committed[i].count == Some(i - a + 1)
  {
    RunKeepsInv(Start(clock), es);
    var rows := Final(Start(clock), es).committed;
    if i == a {
      FirstOfBurst(rows, a, b, from);
    } else {
      LaterOfBurst(rows, a, b, from, i);
    }
  }
}
