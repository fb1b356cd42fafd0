/** The two Redis limiters: fixed windows for logins, and a window opened by the first request for chat. */
module RateLimits {
  import opened Options
  import opened Sequences

  /** Times are in milliseconds. */
  type Moment = nat

  const MINUTE := 60000
  const LOGIN_ATTEMPTS_PER_MINUTE := 10

  // ----- Hits in numbered windows -----

  /** One request: the window whose counter it raised, when, and whether it passed. */
  datatype Hit = Hit(window: nat, time: Moment, passed: bool)

  function PassedIn(hits: seq<Hit>, w: nat): nat {
    if hits == [] then 0
    else PassedIn(hits[..|hits| - 1], w) + (if hits[|hits| - 1].passed && hits[|hits| - 1].window == w then 1 else 0)
  }

  /** The requests that passed in the 60 seconds from `from` on. */
  function PassedBetween(hits: seq<Hit>, from: Moment): nat {
    if hits == [] then 0
    else
      var last := hits[|hits| - 1];
      PassedBetween(hits[..|hits| - 1], from) + (if last.passed && from <= last.time < from + 60000 then 1 else 0)
  }

  /** Windows never go back, and a window is closed for a minute before the next but one opens. */
  ghost predicate Separated(hits: seq<Hit>) {
    forall i, j :: 0 <= i < j < |hits| ==>
      && hits[i].window <= hits[j].window && hits[i].time <= hits[j].time
      && (hits[i].window + 2 <= hits[j].window ==> hits[i].time + MINUTE <= hits[j].time)
  }

  lemma SeparatedPrefix(hits: seq<Hit>)
    requires Separated(hits) && hits != []
    ensures Separated(hits[..|hits| - 1])
  {
    var rest := hits[..|hits| - 1];
    assert forall i :: 0 <= i < |rest| ==> rest[i] == hits[i];
  }

  /** All the hits that lie in the interval belong to window `w` or `w - 1`. */
  lemma {:induction false} PassedInTwoWindows(hits: seq<Hit>, from: Moment, w: nat)
    requires forall i :: 0 <= i < |hits| && from <= hits[i].time < from + MINUTE ==> w <= hits[i].window + 1 && hits[i].window <= w
    ensures PassedBetween(hits, from) <= PassedIn(hits, w) + (if w > 0 then PassedIn(hits, w - 1) else 0)
  {
    if hits != [] {
      var rest := hits[..|hits| - 1];
      assert forall i :: 0 <= i < |rest| ==> rest[i] == hits[i];
      PassedInTwoWindows(rest, from, w);
    }
  }

  lemma {:induction false} PassedGrows(hits: seq<Hit>, w: nat)
    requires hits != []
    ensures PassedIn(hits[..|hits| - 1], w) <= PassedIn(hits, w)
  {
  }

  /** If each window lets at most `limit` requests pass, any 60 seconds let at most twice as many pass. */
  lemma {:induction false} AtMostTwoWindows(hits: seq<Hit>, from: Moment, limit: nat)
    requires Separated(hits) && forall w: nat :: PassedIn(hits, w) <= limit
    ensures PassedBetween(hits, from) <= 2 * limit
  {
    if hits != [] {
      var last := hits[|hits| - 1];
      if from <= last.time < from + MINUTE {
        PassedInTwoWindows(hits, from, last.window);
      } else {
        var rest := hits[..|hits| - 1];
        SeparatedPrefix(hits);
        forall w: nat
          ensures PassedIn(rest, w) <= limit
        {
          PassedGrows(hits, w);
        }
        AtMostTwoWindows(rest, from, limit);
      }
    }
  }

  // ----- Redis counters -----

  datatype Counter = Counter(count: nat, deadline: Option<Moment>)

  /** A lab and source, and the minute in which the application built the key. */
  datatype LoginKey = LoginKey(source: nat, minute: nat)

  predicate Live(c: Counter, now: Moment) { c.deadline.None? || now < c.deadline.value }

  /** INCR keeps the time to live; a missing or expired key starts at 1 without one. */
  function Incr(c: Option<Counter>, now: Moment): Counter {
    if c.Some? && Live(c.value, now) then c.value.(count := c.value.count + 1) else Counter(1, None)
  }

  function Get(store: map<LoginKey, Counter>, k: LoginKey): Option<Counter> {
    if k in store then Some(store[k]) else None
  }

  // ----- Login attempts -----

  datatype Verdict = Allowed | BlockedAndLogged | Blocked

  /** An attempt that read the clock at `seen` and reached Redis at `executed`. */
  datatype Attempt = Attempt(source: nat, seen: Moment, executed: Moment)

  function KeyOf(a: Attempt): LoginKey { LoginKey(a.source, a.seen / MINUTE) }

  function Judge(count: nat): Verdict {
    if count <= LOGIN_ATTEMPTS_PER_MINUTE then Allowed
    else if count == LOGIN_ATTEMPTS_PER_MINUTE + 1 then BlockedAndLogged
    else Blocked
  }

  /** INCR and EXPIRE in one transaction. */
  function Bump(store: map<LoginKey, Counter>, a: Attempt): map<LoginKey, Counter> {
    store[KeyOf(a) := Incr(Get(store, KeyOf(a)), a.executed).(deadline := Some(a.executed + MINUTE))]
  }

  /** The store after attempts in the order in which Redis executed them. */
  function StoreAfter(attempts: seq<Attempt>): map<LoginKey, Counter> {
    if attempts == [] then map[] else Bump(StoreAfter(attempts[..|attempts| - 1]), attempts[|attempts| - 1])
  }

  function VerdictOf(attempts: seq<Attempt>, i: nat): Verdict
    requires i < |attempts|
  {
    Judge(Bump(StoreAfter(attempts[..i]), attempts[i])[KeyOf(attempts[i])].count)
  }

  function AttemptsWith(attempts: seq<Attempt>, k: LoginKey): nat {
    if attempts == [] then 0
    else AttemptsWith(attempts[..|attempts| - 1], k) + (if KeyOf(attempts[|attempts| - 1]) == k then 1 else 0)
  }

  // ----- Bursts: attempts of one key, each less than 60 seconds after the one before -----

  /** When Redis last executed an attempt with this key. */
  function LastExecuted(attempts: seq<Attempt>, k: LoginKey): Option<Moment> {
    if attempts == [] then None
    else
      var n := |attempts| - 1;
      if KeyOf(attempts[n]) == k then Some(attempts[n].executed) else LastExecuted(attempts[..n], k)
  }

  /** The key was used before, but 60 seconds or more ago. */
  predicate Restarts(earlier: seq<Attempt>, a: Attempt) {
    var last := LastExecuted(earlier, KeyOf(a));
    last.Some? && last.value + 60000 <= a.executed
  }

  /** No two consecutive attempts with this key are executed 60 seconds or more apart. */
  predicate NoRestart(attempts: seq<Attempt>, k: LoginKey) {
    attempts == [] ||
    (var n := |attempts| - 1;
     NoRestart(attempts[..n], k) && (KeyOf(attempts[n]) == k ==> !Restarts(attempts[..n], attempts[n])))
  }

  function Last(bursts: seq<nat>): nat
    requires bursts != []
  {
    bursts[|bursts| - 1]
  }

  /** The bursts after one more attempt of their key. */
  function OneMore(bursts: seq<nat>, restarts: bool): seq<nat> {
    if bursts == [] || restarts then bursts + [1] else bursts[..|bursts| - 1] + [Last(bursts) + 1]
  }

  /** The sizes of the bursts of a key, in order. */
  function Bursts(attempts: seq<Attempt>, k: LoginKey): seq<nat> {
    if attempts == [] then []
    else
      var n := |attempts| - 1;
      var bursts := Bursts(attempts[..n], k);
      if KeyOf(attempts[n]) != k then bursts
      else OneMore(bursts, Restarts(attempts[..n], attempts[n]))
  }

  function Total(bursts: seq<nat>): nat {
    if bursts == [] then 0 else Total(bursts[..|bursts| - 1]) + Last(bursts)
  }

  ghost predicate Positive(bursts: seq<nat>) { forall i :: 0 <= i < |bursts| ==> bursts[i] > 0 }

  lemma OneMoreAddsOne(bursts: seq<nat>, restarts: bool)
    requires Positive(bursts)
    ensures var longer := OneMore(bursts, restarts);
            && longer != [] && Positive(longer) && Total(longer) == Total(bursts) + 1
            && (|longer| <= 1 <==> |bursts| <= 1 && (bursts != [] ==> !restarts))
  {
    var longer := OneMore(bursts, restarts);
    assert longer[..|longer| - 1] == if bursts == [] || restarts then bursts else bursts[..|bursts| - 1];
  }

  /** The bursts account for every attempt. */
  lemma {:induction false} BurstsAddUp(attempts: seq<Attempt>, k: LoginKey)
    ensures var bursts := Bursts(attempts, k);
            && Total(bursts) == AttemptsWith(attempts, k) && Positive(bursts)
            && (bursts == [] <==> LastExecuted(attempts, k).None?)
            && (NoRestart(attempts, k) <==> |bursts| <= 1)
  {
    if attempts != [] {
      var n := |attempts| - 1;
      BurstsAddUp(attempts[..n], k);
      if KeyOf(attempts[n]) == k {
        OneMoreAddsOne(Bursts(attempts[..n], k), Restarts(attempts[..n], attempts[n]));
      }
    }
  }

  /** The stored counter is the size of the burst that is going on, and expires 60 seconds after its last attempt. */
  lemma {:induction false} CounterIsLastBurst(attempts: seq<Attempt>, k: LoginKey)
    ensures var store, bursts, last := StoreAfter(attempts), Bursts(attempts, k), LastExecuted(attempts, k);
            if last.None? then k !in store && bursts == []
            else k in store && bursts != [] && store[k] == Counter(Last(bursts), Some(last.value + MINUTE))
  {
    if attempts != [] {
      CounterIsLastBurst(attempts[..|attempts| - 1], k);
    }
  }

  lemma {:induction false} LastOfTotal(bursts: seq<nat>)
    requires bursts != [] && Positive(bursts)
    ensures 0 < Last(bursts) <= Total(bursts) && (Last(bursts) == Total(bursts) <==> |bursts| == 1)
  {
    if |bursts| > 1 {
      LastOfTotal(bursts[..|bursts| - 1]);
    }
  }

  /** A counter is the number of attempts with its key exactly if the key was never 60 seconds without one. */
  lemma CounterIsExact(attempts: seq<Attempt>, k: LoginKey)
    ensures var n, store := AttemptsWith(attempts, k), StoreAfter(attempts);
            if n == 0 then k !in store
            else k in store && 0 < store[k].count <= n && (store[k].count == n <==> NoRestart(attempts, k))
  {
    BurstsAddUp(attempts, k);
    CounterIsLastBurst(attempts, k);
    if Bursts(attempts, k) != [] {
      LastOfTotal(Bursts(attempts, k));
    }
  }

  /** The verdict on an attempt depends on its place in its burst, which is its place in the minute if nothing restarted. */
  lemma LoginLimitIsExact(attempts: seq<Attempt>, i: nat)
    requires i < |attempts|
    ensures var k, upTo := KeyOf(attempts[i]), attempts[..i + 1];
            && Bursts(upTo, k) != [] && VerdictOf(attempts, i) == Judge(Last(Bursts(upTo, k)))
            && (NoRestart(upTo, k) ==> VerdictOf(attempts, i) == Judge(AttemptsWith(attempts[..i], k) + 1))
  {
    var k, upTo := KeyOf(attempts[i]), attempts[..i + 1];
    assert upTo[..i] == attempts[..i];
    CounterIsLastBurst(upTo, k);
    BurstsAddUp(upTo, k);
    LastOfTotal(Bursts(upTo, k));
  }

  /** How often a verdict was given for one key. */
  function Verdicts(attempts: seq<Attempt>, k: LoginKey, v: Verdict): nat {
    if attempts == [] then 0
    else
      var n := |attempts| - 1;
      Verdicts(attempts[..n], k, v) + (if KeyOf(attempts[n]) == k && VerdictOf(attempts, n) == v then 1 else 0)
  }

  function UpToTen(n: nat): nat { if n <= LOGIN_ATTEMPTS_PER_MINUTE then n else LOGIN_ATTEMPTS_PER_MINUTE }

  /** At most ten attempts of each burst pass. */
  function PassesOf(bursts: seq<nat>): nat {
    if bursts == [] then 0 else PassesOf(bursts[..|bursts| - 1]) + UpToTen(Last(bursts))
  }

  /** Each burst of more than ten writes one event. */
  function EventsOf(bursts: seq<nat>): nat {
    if bursts == [] then 0
    else EventsOf(bursts[..|bursts| - 1]) + (if Last(bursts) > LOGIN_ATTEMPTS_PER_MINUTE then 1 else 0)
  }

  lemma OneMorePasses(bursts: seq<nat>, restarts: bool)
    requires Positive(bursts)
    ensures var longer := OneMore(bursts, restarts);
            && longer != []
            && PassesOf(longer) == PassesOf(bursts) + (if Judge(Last(longer)) == Allowed then 1 else 0)
            && EventsOf(longer) == EventsOf(bursts) + (if Judge(Last(longer)) == BlockedAndLogged then 1 else 0)
  {
    var longer := OneMore(bursts, restarts);
    assert longer[..|longer| - 1] == if bursts == [] || restarts then bursts else bursts[..|bursts| - 1];
  }

  lemma BurstsGrow(attempts: seq<Attempt>)
    requires attempts != []
    ensures var n, k := |attempts| - 1, KeyOf(attempts[|attempts| - 1]);
            Bursts(attempts, k) == OneMore(Bursts(attempts[..n], k), Restarts(attempts[..n], attempts[n]))
  {
  }

  lemma VerdictOnLast(attempts: seq<Attempt>)
    requires attempts != []
    ensures var n, k := |attempts| - 1, KeyOf(attempts[|attempts| - 1]);
            var earlier, bursts := Bursts(attempts[..n], k), Bursts(attempts, k);
            && PassesOf(bursts) == PassesOf(earlier) + (if VerdictOf(attempts, n) == Allowed then 1 else 0)
            && EventsOf(bursts) == EventsOf(earlier) + (if VerdictOf(attempts, n) == BlockedAndLogged then 1 else 0)
  {
    var n, k := |attempts| - 1, KeyOf(attempts[|attempts| - 1]);
    BurstsAddUp(attempts[..n], k);
    BurstsGrow(attempts);
    OneMorePasses(Bursts(attempts[..n], k), Restarts(attempts[..n], attempts[n]));
    assert attempts[..n + 1] == attempts;
    LoginLimitIsExact(attempts, n);
  }

  /** What passes and what is logged, for every sequence of attempts. */
  lemma {:induction false} LoginVerdictCounts(attempts: seq<Attempt>, k: LoginKey)
    ensures Verdicts(attempts, k, Allowed) == PassesOf(Bursts(attempts, k))
    ensures Verdicts(attempts, k, BlockedAndLogged) == EventsOf(Bursts(attempts, k))
  {
    if attempts != [] {
      LoginVerdictCounts(attempts[..|attempts| - 1], k);
      VerdictOnLast(attempts);
    }
  }

  lemma {:induction false} PassesOfMany(bursts: seq<nat>)
    requires Positive(bursts)
    ensures PassesOf(bursts) <= Total(bursts)
    ensures Total(bursts) <= LOGIN_ATTEMPTS_PER_MINUTE ==> PassesOf(bursts) == Total(bursts)
    ensures Total(bursts) > LOGIN_ATTEMPTS_PER_MINUTE ==> PassesOf(bursts) >= LOGIN_ATTEMPTS_PER_MINUTE
    ensures Total(bursts) > LOGIN_ATTEMPTS_PER_MINUTE && |bursts| > 1 ==> PassesOf(bursts) > LOGIN_ATTEMPTS_PER_MINUTE
    ensures bursts != [] ==> PassesOf(bursts) > 0
  {
    if bursts != [] {
      PassesOfMany(bursts[..|bursts| - 1]);
    }
  }

  /**
   At most ten attempts of a key pass exactly if there are no more than ten, or the key was never 60
   seconds without one; in that case min(n, 10) pass and one event is written exactly if n > 10.
  */
  lemma LoginLimitHoldsExactly(attempts: seq<Attempt>, k: LoginKey)
    ensures var n := AttemptsWith(attempts, k);
            && (Verdicts(attempts, k, Allowed) <= 10 <==> NoRestart(attempts, k) || n <= 10)
            && (NoRestart(attempts, k) ==>
                  && Verdicts(attempts, k, Allowed) == (if n <= 10 then n else 10)
                  && Verdicts(attempts, k, BlockedAndLogged) == (if n > 10 then 1 else 0))
  {
    var bursts := Bursts(attempts, k);
    BurstsAddUp(attempts, k);
    LoginVerdictCounts(attempts, k);
    PassesOfMany(bursts);
    if |bursts| == 1 {
      assert bursts[..0] == [];
      assert Total(bursts) == Last(bursts) && PassesOf(bursts) == UpToTen(Last(bursts));
    }
  }

  /** Every attempt reaches Redis within the minute of its key. */
  ghost predicate Punctual(attempts: seq<Attempt>) {
    forall i :: 0 <= i < |attempts| ==> attempts[i].executed / MINUTE == attempts[i].seen / MINUTE
  }

  lemma {:induction false} PunctualLast(attempts: seq<Attempt>, k: LoginKey)
    requires Punctual(attempts)
    ensures LastExecuted(attempts, k).Some? ==> LastExecuted(attempts, k).value / MINUTE == k.minute
  {
    if attempts != [] {
      var rest := attempts[..|attempts| - 1];
      assert forall i :: 0 <= i < |rest| ==> rest[i] == attempts[i];
      PunctualLast(rest, k);
    }
  }

  /** A caller's guarantee: attempts that reach Redis within the minute of their key never restart a counter. */
  lemma {:induction false} PunctualNeverRestarts(attempts: seq<Attempt>, k: LoginKey)
    requires Punctual(attempts)
    ensures NoRestart(attempts, k)
  {
    if attempts != [] {
      var n := |attempts| - 1;
      var rest := attempts[..n];
      assert forall i :: 0 <= i < |rest| ==> rest[i] == attempts[i];
      PunctualNeverRestarts(rest, k);
      PunctualLast(rest, KeyOf(attempts[n]));
    }
  }

  // ----- A counter that restarts -----

  /** The same attempt `n` times. */
  function Times(n: nat, a: Attempt): (s: seq<Attempt>)
    ensures |s| == n
  {
    if n == 0 then [] else Times(n - 1, a) + [a]
  }

  lemma OneMoreExecuted(earlier: seq<Attempt>, a: Attempt, k: LoginKey)
    ensures LastExecuted(earlier + [a], k) == if KeyOf(a) == k then Some(a.executed) else LastExecuted(earlier, k)
  {
    assert (earlier + [a])[..|earlier|] == earlier;
  }

  /** What one more attempt does to the bursts of its key. */
  lemma OneMoreInBursts(earlier: seq<Attempt>, a: Attempt)
    ensures Bursts(earlier + [a], KeyOf(a)) == OneMore(Bursts(earlier, KeyOf(a)), Restarts(earlier, a))
  {
    var all := earlier + [a];
    assert all[..|earlier|] == earlier;
    assert all[|earlier|] == a;
  }

  ghost predicate NewBurst(earlier: seq<Attempt>, a: Attempt) {
    LastExecuted(earlier, KeyOf(a)).None? || Restarts(earlier, a)
  }

  lemma {:induction false} TimesMakeABurst(earlier: seq<Attempt>, n: nat, a: Attempt)
    requires NewBurst(earlier, a) && n > 0
    ensures Bursts(earlier + Times(n, a), KeyOf(a)) == Bursts(earlier, KeyOf(a)) + [n]
    ensures LastExecuted(earlier + Times(n, a), KeyOf(a)) == Some(a.executed)
  {
    var all := earlier + Times(n - 1, a);
    Assoc(earlier, Times(n - 1, a), [a]);
    OneMoreExecuted(all, a, KeyOf(a));
    OneMoreInBursts(all, a);
    if n == 1 {
      assert all == earlier;
      BurstsAddUp(earlier, KeyOf(a));
    } else {
      TimesMakeABurst(earlier, n - 1, a);
      var bursts := Bursts(earlier, KeyOf(a));
      assert (bursts + [n - 1])[..|bursts|] == bursts;
    }
  }

  lemma {:induction false} TimesLeaveOthers(earlier: seq<Attempt>, n: nat, a: Attempt, k: LoginKey)
    requires k != KeyOf(a)
    ensures LastExecuted(earlier + Times(n, a), k) == LastExecuted(earlier, k)
  {
    if n == 0 {
      assert earlier + [] == earlier;
    } else {
      TimesLeaveOthers(earlier, n - 1, a, k);
      Assoc(earlier, Times(n - 1, a), [a]);
      OneMoreExecuted(earlier + Times(n - 1, a), a, k);
    }
  }

  function CrossingTheMinute(source: nat): seq<Attempt> {
    Times(10, Attempt(source, 0, 1)) + Times(10, Attempt(source, MINUTE - 1, MINUTE + 1))
  }

  lemma BurstsOfTheCrossing(source: nat, n: nat)
    requires n > 0
    ensures var ten, late := Times(10, Attempt(source, 0, 1)), Attempt(source, MINUTE - 1, MINUTE + 1);
            Bursts(ten + Times(n, late), LoginKey(source, 0)) == [10, n]
  {
    var first, late := Attempt(source, 0, 1), Attempt(source, MINUTE - 1, MINUTE + 1);
    assert [] + Times(10, first) == Times(10, first) && [] + [10] == [10];
    TimesMakeABurst([], 10, first);
    TimesMakeABurst(Times(10, first), n, late);
  }

  lemma PassesOfTwoBursts(a: nat, b: nat)
    ensures PassesOf([a, b]) == UpToTen(a) + UpToTen(b)
  {
    assert [a, b][..1] == [a] && [a][..0] == [];
    assert PassesOf([a]) == UpToTen(a);
  }

  /** Ten early attempts and ten whose key is of the same minute but which reach Redis 60 seconds later: all pass. */
  lemma RestartLetsTwentyPass(source: nat)
    ensures var attempts, k := CrossingTheMinute(source), LoginKey(source, 0);
            && Verdicts(attempts, k, Allowed) == 20 && !NoRestart(attempts, k)
            && VerdictOf(attempts, 10) == Allowed
  {
    var attempts, k := CrossingTheMinute(source), LoginKey(source, 0);
    BurstsOfTheCrossing(source, 10);
    LoginVerdictCounts(attempts, k);
    PassesOfTwoBursts(10, 10);
    BurstsAddUp(attempts, k);
    EleventhPasses(source);
  }

  lemma EleventhPasses(source: nat)
    ensures VerdictOf(CrossingTheMinute(source), 10) == Allowed
  {
    var attempts, late := CrossingTheMinute(source), Attempt(source, MINUTE - 1, MINUTE + 1);
    BurstsOfTheCrossing(source, 1);
    TimesFirst(10, late);
    assert Times(1, late) == [late];
    assert attempts[..11] == Times(10, Attempt(source, 0, 1)) + [late];
    LoginLimitIsExact(attempts, 10);
  }

  lemma {:induction false} TimesFirst(n: nat, a: Attempt)
    ensures forall i :: 0 <= i < n ==> Times(n, a)[i] == a
  {
    if n > 0 {
      TimesFirst(n - 1, a);
    }
  }

  // ----- Any 60 seconds -----

  predicate Within(t: Moment, from: Moment) { from <= t < from + 60000 }

  /** The attempts with a key that passed in the 60 seconds from `from` on. */
  function KeyPasses(attempts: seq<Attempt>, k: LoginKey, from: Moment): nat {
    if attempts == [] then 0
    else
      var n := |attempts| - 1;
      KeyPasses(attempts[..n], k, from)
      + (if KeyOf(attempts[n]) == k && Within(attempts[n].executed, from) && VerdictOf(attempts, n) == Allowed then 1 else 0)
  }

  /** The same for a source, whatever the minutes of its keys. */
  function SourcePasses(attempts: seq<Attempt>, source: nat, from: Moment): nat {
    if attempts == [] then 0
    else
      var n := |attempts| - 1;
      SourcePasses(attempts[..n], source, from)
      + (if attempts[n].source == source && Within(attempts[n].executed, from) && VerdictOf(attempts, n) == Allowed
         then 1 else 0)
  }

  /** Redis executes one attempt after the other. */
  ghost predicate Ordered(attempts: seq<Attempt>) {
    forall i, j :: 0 <= i < j < |attempts| ==> attempts[i].executed <= attempts[j].executed
  }

  lemma OrderedPrefix(attempts: seq<Attempt>, n: nat)
    requires Ordered(attempts) && n <= |attempts|
    ensures Ordered(attempts[..n])
  {
    assert forall i :: 0 <= i < n ==> attempts[..n][i] == attempts[i];
  }

  lemma {:induction false} LastIsNotLater(attempts: seq<Attempt>, k: LoginKey, t: Moment)
    requires forall i :: 0 <= i < |attempts| ==> attempts[i].executed <= t
    ensures LastExecuted(attempts, k).Some? ==> LastExecuted(attempts, k).value <= t
  {
    if attempts != [] {
      var rest := attempts[..|attempts| - 1];
      assert forall i :: 0 <= i < |rest| ==> rest[i] == attempts[i];
      LastIsNotLater(rest, k, t);
    }
  }

  /** A key cannot restart twice within 60 seconds, so at most ten of its attempts pass in them. */
  lemma {:induction false} TenPerKey(attempts: seq<Attempt>, k: LoginKey, from: Moment)
    requires Ordered(attempts)
    ensures KeyPasses(attempts, k, from) <= LOGIN_ATTEMPTS_PER_MINUTE
    ensures var last := LastExecuted(attempts, k);
            && (last.None? || last.value < from ==> KeyPasses(attempts, k, from) == 0)
            && (last.Some? && Within(last.value, from) ==>
                  Bursts(attempts, k) != [] && KeyPasses(attempts, k, from) <= Last(Bursts(attempts, k)))
  {
    if attempts != [] {
      var n := |attempts| - 1;
      OrderedPrefix(attempts, n);
      TenPerKey(attempts[..n], k, from);
      if KeyOf(attempts[n]) == k {
        assert forall i :: 0 <= i < n ==> attempts[..n][i] == attempts[i];
        LastIsNotLater(attempts[..n], k, attempts[n].executed);
        assert attempts[..n + 1] == attempts;
        LoginLimitIsExact(attempts, n);
        BurstsAddUp(attempts[..n], k);
      }
    }
  }

  /** Two minutes of keys, at most twenty passes. */
  lemma {:induction false} PassesOfTwoMinutes(attempts: seq<Attempt>, source: nat, from: Moment, m: nat)
    requires forall i :: 0 <= i < |attempts| && attempts[i].source == source && Within(attempts[i].executed, from) ==>
               m <= attempts[i].seen / MINUTE <= m + 1
    ensures SourcePasses(attempts, source, from)
         == KeyPasses(attempts, LoginKey(source, m), from) + KeyPasses(attempts, LoginKey(source, m + 1), from)
  {
    if attempts != [] {
      var rest := attempts[..|attempts| - 1];
      assert forall i :: 0 <= i < |rest| ==> rest[i] == attempts[i];
      PassesOfTwoMinutes(rest, source, from, m);
    }
  }

  /** Attempts reach Redis in order, each at most `most` milliseconds after it read the clock. */
  ghost predicate WithLatency(attempts: seq<Attempt>, most: nat) {
    Ordered(attempts) &&
    forall i :: 0 <= i < |attempts| ==> attempts[i].seen <= attempts[i].executed <= attempts[i].seen + most
  }

  lemma TwentyWithoutLatency(attempts: seq<Attempt>, source: nat, from: Moment)
    requires WithLatency(attempts, 1)
    ensures SourcePasses(attempts, source, from) <= 2 * LOGIN_ATTEMPTS_PER_MINUTE
  {
    var m := if from == 0 then 0 else (from - 1) / MINUTE;
    forall i | 0 <= i < |attempts| && Within(attempts[i].executed, from)
      ensures m <= attempts[i].seen / MINUTE <= m + 1
    {
      MinutesOf(attempts[i].seen, from);
    }
    PassesOfTwoMinutes(attempts, source, from, m);
    TenPerKey(attempts, LoginKey(source, m), from);
    TenPerKey(attempts, LoginKey(source, m + 1), from);
  }

  lemma MinutesOf(seen: Moment, from: Moment)
    requires from <= seen + 1 && seen < from + MINUTE
    ensures var m := if from == 0 then 0 else (from - 1) / MINUTE; m <= seen / MINUTE <= m + 1
  {
  }

  const ACROSS := Times(10, Attempt(0, MINUTE - 1, MINUTE + 1))
  const INSIDE := Times(10, Attempt(0, MINUTE + 1, MINUTE + 1))
  const AFTER := Times(10, Attempt(0, 2 * MINUTE, 2 * MINUTE))

  lemma OneMoreInSource(earlier: seq<Attempt>, a: Attempt, from: Moment)
    requires Within(a.executed, from)
    requires Bursts(earlier + [a], KeyOf(a)) != [] ==> Last(Bursts(earlier + [a], KeyOf(a))) <= LOGIN_ATTEMPTS_PER_MINUTE
    ensures SourcePasses(earlier + [a], a.source, from) == SourcePasses(earlier, a.source, from) + 1
  {
    var all := earlier + [a];
    assert all[..|earlier|] == earlier && all[..|earlier| + 1] == all;
    LoginLimitIsExact(all, |earlier|);
  }

  lemma FreshBurst(earlier: seq<Attempt>, n: nat, a: Attempt)
    requires LastExecuted(earlier, KeyOf(a)).None? && n > 0
    ensures Bursts(earlier + Times(n - 1, a) + [a], KeyOf(a)) == [n]
  {
    TimesMakeABurst(earlier, n, a);
    Assoc(earlier, Times(n - 1, a), [a]);
    BurstsAddUp(earlier, KeyOf(a));
    assert [] + [n] == [n];
  }

  /** Up to ten attempts with a new key pass. */
  lemma {:induction false} FreshKeyPasses(earlier: seq<Attempt>, n: nat, a: Attempt, from: Moment)
    requires LastExecuted(earlier, KeyOf(a)).None? && n <= LOGIN_ATTEMPTS_PER_MINUTE && Within(a.executed, from)
    ensures SourcePasses(earlier + Times(n, a), a.source, from) == SourcePasses(earlier, a.source, from) + n
  {
    if n == 0 {
      assert earlier + [] == earlier;
    } else {
      FreshKeyPasses(earlier, n - 1, a, from);
      FreshBurst(earlier, n, a);
      Assoc(earlier, Times(n - 1, a), [a]);
      OneMoreInSource(earlier + Times(n - 1, a), a, from);
    }
  }

  lemma ThirtyInTime()
    ensures WithLatency(ACROSS + INSIDE + AFTER, 2)
  {
    TimesFirst(10, Attempt(0, MINUTE - 1, MINUTE + 1));
    TimesFirst(10, Attempt(0, MINUTE + 1, MINUTE + 1));
    TimesFirst(10, Attempt(0, 2 * MINUTE, 2 * MINUTE));
  }

  /** With two milliseconds of latency three minutes of keys fall into 60 seconds of executions. */
  lemma ThirtyPass()
    ensures WithLatency(ACROSS + INSIDE + AFTER, 2)
    ensures SourcePasses(ACROSS + INSIDE + AFTER, 0, MINUTE + 1) == 30
  {
    var a, b, c := Attempt(0, MINUTE - 1, MINUTE + 1), Attempt(0, MINUTE + 1, MINUTE + 1), Attempt(0, 2 * MINUTE, 2 * MINUTE);
    ThirtyInTime();
    assert [] + ACROSS == ACROSS;
    FreshKeyPasses([], 10, a, MINUTE + 1);
    TimesLeaveOthers([], 10, a, KeyOf(b));
    TimesLeaveOthers([], 10, a, KeyOf(c));
    FreshKeyPasses(ACROSS, 10, b, MINUTE + 1);
    TimesLeaveOthers(ACROSS, 10, b, KeyOf(c));
    FreshKeyPasses(ACROSS + INSIDE, 10, c, MINUTE + 1);
  }

  /** Twenty passes in any 60 seconds are guaranteed exactly for a latency of at most one millisecond. */
  lemma TwentyLoginsPerMinute(most: nat)
    ensures (forall attempts, source, from :: WithLatency(attempts, most) ==>
               SourcePasses(attempts, source, from) <= 20)
            <==> most <= 1
  {
    if most <= 1 {
      forall attempts, source, from | WithLatency(attempts, most)
        ensures SourcePasses(attempts, source, from) <= 20
      {
        TwentyWithoutLatency(attempts, source, from);
      }
    } else {
      ThirtyPass();
      assert WithLatency(ACROSS + INSIDE + AFTER, most);
    }
  }

  // ----- Chat requests -----

  /** `owed` says that the request that opened the window has not set its time to live yet. */
  datatype Chat = Chat(counter: Option<Counter>, owed: bool, openedAt: Moment, now: Moment, window: nat, hits: seq<Hit>)

  datatype Op = Request(time: Moment) | SetTtl(time: Moment)

  const CHAT_START := Chat(None, false, 0, 0, 0, [])

  predicate ChatEnabled(c: Chat, op: Op) {
    c.now <= op.time && (op.SetTtl? ==> c.owed && c.counter.Some?)
  }

  /** INCR alone, then EXPIRE alone by the request that saw 1; other requests may come in between. */
  function ChatStep(c: Chat, op: Op, rpm: nat): Chat
    requires ChatEnabled(c, op)
  {
    match op
    case Request(time) =>
      var counter := Incr(c.counter, time);
      var opens := counter.count == 1;
      var window := if opens then c.window + 1 else c.window;
      Chat(Some(counter), c.owed || opens, if opens then time else c.openedAt, time, window,
           c.hits + [Hit(window, time, counter.count <= rpm)])
    case SetTtl(time) =>
      c.(counter := Some(c.counter.value.(deadline := Some(time + MINUTE))), owed := false, now := time)
  }

  ghost predicate ChatRun(c: Chat, ops: seq<Op>, rpm: nat)
    decreases |ops|
  {
    ops != [] ==> ChatEnabled(c, ops[0]) && ChatRun(ChatStep(c, ops[0], rpm), ops[1..], rpm)
  }

  ghost function ChatFinal(c: Chat, ops: seq<Op>, rpm: nat): Chat
    requires ChatRun(c, ops, rpm)
    decreases |ops|
  {
    if ops == [] then c else ChatFinal(ChatStep(c, ops[0], rpm), ops[1..], rpm)
  }

  /** Hits of older windows are older, and those of the windows before the last are a minute older. */
  ghost predicate HitsOk(hits: seq<Hit>, window: nat, openedAt: Moment, now: Moment) {
    && Separated(hits) && openedAt <= now
    && (forall h <- hits :: h.window <= window && h.time <= now)
    && (forall h <- hits :: h.window < window ==> h.time <= openedAt)
    && (forall h <- hits :: h.window + 2 <= window ==> h.time + MINUTE <= openedAt)
  }

  /** A counter without an owed time to live expires a minute after its window was opened, or later. */
  ghost predicate CounterOk(c: Chat, rpm: nat) {
    match c.counter
    case None => c.hits == [] && c.window == 0 && !c.owed
    case Some(Counter(count, deadline)) =>
      && count > 0 && PassedIn(c.hits, c.window) == (if count <= rpm then count else rpm)
      && (c.owed <==> deadline.None?)
      && (deadline.Some? ==> c.openedAt + MINUTE <= deadline.value)
  }

  ghost predicate UnderLimit(hits: seq<Hit>, rpm: nat) { forall w: nat :: PassedIn(hits, w) <= rpm }

  ghost predicate ChatInv(c: Chat, rpm: nat) {
    && HitsOk(c.hits, c.window, c.openedAt, c.now) && CounterOk(c, rpm)
    && UnderLimit(c.hits, rpm)
  }

  lemma {:induction false} NothingPassedYet(hits: seq<Hit>, w: nat)
    requires forall h <- hits :: h.window < w
    ensures PassedIn(hits, w) == 0
  {
    if hits != [] {
      NothingPassedYet(hits[..|hits| - 1], w);
    }
  }

  lemma OneMorePassed(hits: seq<Hit>, h: Hit, w: nat)
    ensures PassedIn(hits + [h], w) == PassedIn(hits, w) + (if h.passed && h.window == w then 1 else 0)
  {
    assert (hits + [h])[..|hits|] == hits;
  }

  lemma OneMoreHit(hits: seq<Hit>, h: Hit)
    requires Separated(hits)
    requires forall x <- hits :: x.window <= h.window && x.time <= h.time
    requires forall x <- hits :: x.window + 2 <= h.window ==> x.time + MINUTE <= h.time
    ensures Separated(hits + [h])
    ensures forall w: nat :: PassedIn(hits + [h], w) == PassedIn(hits, w) + (if h.passed && h.window == w then 1 else 0)
  {
    assert forall i :: 0 <= i < |hits| ==> (hits + [h])[i] == hits[i] && hits[i] in hits;
    forall w: nat
      ensures PassedIn(hits + [h], w) == PassedIn(hits, w) + (if h.passed && h.window == w then 1 else 0)
    {
      OneMorePassed(hits, h, w);
    }
  }

  lemma HitsInWindow(c: Chat, time: Moment, passed: bool)
    requires HitsOk(c.hits, c.window, c.openedAt, c.now) && c.now <= time
    ensures HitsOk(c.hits + [Hit(c.window, time, passed)], c.window, c.openedAt, time)
  {
    var h := Hit(c.window, time, passed);
    OneMoreHit(c.hits, h);
    assert forall x <- c.hits + [h] :: x == h || x in c.hits;
  }

  lemma RequestInWindow(c: Chat, time: Moment, rpm: nat)
    requires ChatInv(c, rpm) && c.now <= time && c.counter.Some? && Live(c.counter.value, time)
    ensures ChatInv(ChatStep(c, Request(time), rpm), rpm)
  {
    var h := Hit(c.window, time, c.counter.value.count + 1 <= rpm);
    HitsInWindow(c, time, h.passed);
    OneMoreHit(c.hits, h);
    assert ChatStep(c, Request(time), rpm).hits == c.hits + [h];
  }

  /** When a new window opens, the last but one has been closed for a minute. */
  lemma HitsOfNewWindow(c: Chat, time: Moment, passed: bool)
    requires HitsOk(c.hits, c.window, c.openedAt, c.now) && c.now <= time
    requires c.hits == [] || c.openedAt + MINUTE <= time
    ensures HitsOk(c.hits + [Hit(c.window + 1, time, passed)], c.window + 1, time, time)
  {
    var h := Hit(c.window + 1, time, passed);
    OneMoreHit(c.hits, h);
    assert forall x <- c.hits + [h] :: x == h || x in c.hits;
  }

  lemma CountersOfNewWindow(c: Chat, time: Moment, rpm: nat)
    requires ChatInv(c, rpm)
    ensures var hits := c.hits + [Hit(c.window + 1, time, 1 <= rpm)];
            PassedIn(hits, c.window + 1) == (if 1 <= rpm then 1 else 0) && UnderLimit(hits, rpm)
  {
    var h := Hit(c.window + 1, time, 1 <= rpm);
    NothingPassedYet(c.hits, c.window + 1);
    forall w: nat
      ensures PassedIn(c.hits + [h], w) == PassedIn(c.hits, w) + (if h.passed && h.window == w then 1 else 0)
    {
      assert (c.hits + [h])[..|c.hits|] == c.hits;
    }
  }

  function NewWindow(c: Chat, time: Moment, rpm: nat): Chat {
    Chat(Some(Counter(1, None)), true, time, time, c.window + 1, c.hits + [Hit(c.window + 1, time, 1 <= rpm)])
  }

  ghost predicate HitsKept(c: Chat) { HitsOk(c.hits, c.window, c.openedAt, c.now) }

  lemma RequestOpensNew(c: Chat, time: Moment, rpm: nat)
    requires c.now <= time && !(c.counter.Some? && Live(c.counter.value, time))
    ensures ChatStep(c, Request(time), rpm) == NewWindow(c, time, rpm)
  {
  }

  lemma NewWindowHits(c: Chat, time: Moment, rpm: nat)
    requires ChatInv(c, rpm) && c.now <= time && !(c.counter.Some? && Live(c.counter.value, time))
    ensures HitsKept(NewWindow(c, time, rpm))
  {
    HitsOfNewWindow(c, time, 1 <= rpm);
  }

  lemma NewWindowCounter(c: Chat, time: Moment, rpm: nat)
    requires ChatInv(c, rpm)
    ensures CounterOk(NewWindow(c, time, rpm), rpm) && UnderLimit(NewWindow(c, time, rpm).hits, rpm)
  {
    CountersOfNewWindow(c, time, rpm);
  }

  lemma ThreeParts(c: Chat, rpm: nat)
    requires HitsKept(c) && CounterOk(c, rpm) && UnderLimit(c.hits, rpm)
    ensures ChatInv(c, rpm)
  {
  }

  lemma RequestOpensWindow(c: Chat, time: Moment, rpm: nat)
    requires ChatInv(c, rpm) && c.now <= time && !(c.counter.Some? && Live(c.counter.value, time))
    ensures ChatInv(ChatStep(c, Request(time), rpm), rpm)
  {
    RequestOpensNew(c, time, rpm);
    NewWindowHits(c, time, rpm);
    NewWindowCounter(c, time, rpm);
    ThreeParts(NewWindow(c, time, rpm), rpm);
  }

  lemma ChatStepKeepsInv(c: Chat, op: Op, rpm: nat)
    requires ChatInv(c, rpm) && ChatEnabled(c, op)
    ensures ChatInv(ChatStep(c, op, rpm), rpm)
  {
    match op
    case Request(time) =>
      if c.counter.Some? && Live(c.counter.value, time) {
        RequestInWindow(c, time, rpm);
      } else {
        RequestOpensWindow(c, time, rpm);
      }
    case SetTtl(_) =>
  }

  lemma {:induction false} ChatRunKeepsInv(c: Chat, ops: seq<Op>, rpm: nat)
    requires ChatInv(c, rpm) && ChatRun(c, ops, rpm)
    ensures ChatInv(ChatFinal(c, ops, rpm), rpm)
    decreases |ops|
  {
    if ops != [] {
      ChatStepKeepsInv(c, ops[0], rpm);
      ChatRunKeepsInv(ChatStep(c, ops[0], rpm), ops[1..], rpm);
    }
  }

  /** At most `rpm` requests pass in a window and at most twice as many in any 60 seconds, in every interleaving. */
  lemma ChatLimitHolds(ops: seq<Op>, rpm: nat, w: nat, from: Moment)
    requires ChatRun(CHAT_START, ops, rpm)
    ensures PassedIn(ChatFinal(CHAT_START, ops, rpm).hits, w) <= rpm
    ensures PassedBetween(ChatFinal(CHAT_START, ops, rpm).hits, from) <= 2 * rpm
  {
    ChatRunKeepsInv(CHAT_START, ops, rpm);
    AtMostTwoWindows(ChatFinal(CHAT_START, ops, rpm).hits, from, rpm);
  }

  /** The requests of a window, passed or not. */
  function InWindow(hits: seq<Hit>, w: nat): nat {
    if hits == [] then 0 else InWindow(hits[..|hits| - 1], w) + (if hits[|hits| - 1].window == w then 1 else 0)
  }

  function Lesser(a: nat, b: nat): nat { if a < b then a else b }

  ghost predicate FirstOnesPass(hits: seq<Hit>, rpm: nat) {
    forall w: nat :: PassedIn(hits, w) == Lesser(InWindow(hits, w), rpm)
  }

  ghost predicate CountsItsWindow(c: Chat) {
    && (forall h <- c.hits :: h.window <= c.window)
    && match c.counter
       case None => c.hits == []
       case Some(counter) => counter.count > 0 && counter.count == InWindow(c.hits, c.window)
  }

  lemma {:induction false} NothingInWindowYet(hits: seq<Hit>, w: nat)
    requires forall h <- hits :: h.window < w
    ensures InWindow(hits, w) == 0
  {
    if hits != [] {
      NothingInWindowYet(hits[..|hits| - 1], w);
    }
  }

  lemma OneMoreInWindow(hits: seq<Hit>, h: Hit, rpm: nat)
    requires FirstOnesPass(hits, rpm) && (h.passed <==> InWindow(hits, h.window) + 1 <= rpm)
    ensures FirstOnesPass(hits + [h], rpm)
    ensures InWindow(hits + [h], h.window) == InWindow(hits, h.window) + 1
  {
    assert (hits + [h])[..|hits|] == hits;
    forall w: nat
      ensures PassedIn(hits + [h], w) == Lesser(InWindow(hits + [h], w), rpm)
    {
      OneMorePassed(hits, h, w);
    }
  }

  lemma RequestPassesInTurn(c: Chat, time: Moment, rpm: nat)
    requires FirstOnesPass(c.hits, rpm) && CountsItsWindow(c) && ChatEnabled(c, Request(time))
    ensures var c1 := ChatStep(c, Request(time), rpm);
            FirstOnesPass(c1.hits, rpm) && CountsItsWindow(c1) && |c1.hits| == |c.hits| + 1
  {
    var c1 := ChatStep(c, Request(time), rpm);
    var h := c1.hits[|c.hits|];
    assert c1.hits == c.hits + [h];
    if c1.window == c.window + 1 {
      NothingInWindowYet(c.hits, c1.window);
    }
    OneMoreInWindow(c.hits, h, rpm);
    assert forall x <- c1.hits :: x in c.hits || x == h;
  }

  function Requests(ops: seq<Op>): nat {
    if ops == [] then 0 else (if ops[0].Request? then 1 else 0) + Requests(ops[1..])
  }

  lemma {:induction false} ChatRunPassesInTurn(c: Chat, ops: seq<Op>, rpm: nat)
    requires FirstOnesPass(c.hits, rpm) && CountsItsWindow(c) && ChatRun(c, ops, rpm)
    ensures FirstOnesPass(ChatFinal(c, ops, rpm).hits, rpm)
    ensures |ChatFinal(c, ops, rpm).hits| == |c.hits| + Requests(ops)
    decreases |ops|
  {
    if ops != [] {
      if ops[0].Request? {
        RequestPassesInTurn(c, ops[0].time, rpm);
      }
      ChatRunPassesInTurn(ChatStep(c, ops[0], rpm), ops[1..], rpm);
    }
  }

  /** No request is blocked too early: of n requests of a window min(n, rpm) pass, the first ones, in every interleaving. */
  lemma ChatPassesExactly(ops: seq<Op>, rpm: nat, w: nat)
    requires ChatRun(CHAT_START, ops, rpm)
    ensures var hits := ChatFinal(CHAT_START, ops, rpm).hits;
            |hits| == Requests(ops) && PassedIn(hits, w) == Lesser(InWindow(hits, w), rpm)
  {
    ChatRunPassesInTurn(CHAT_START, ops, rpm);
  }

  /** If the first request dies between INCR and EXPIRE, the window never ends and only `rpm` requests ever pass. */
  lemma {:induction false} LostExpireBlocksForGood(c: Chat, ops: seq<Op>, rpm: nat)
    requires ChatInv(c, rpm) && c.counter.Some? && c.owed && ChatRun(c, ops, rpm)
    requires forall op <- ops :: op.Request?
    ensures var c1 := ChatFinal(c, ops, rpm);
            c1.window == c.window && c1.owed && c1.counter.Some? && c1.counter.value.count == c.counter.value.count + |ops|
    decreases |ops|
  {
    if ops != [] {
      ChatStepKeepsInv(c, ops[0], rpm);
      assert forall op <- ops[1..] :: op in ops;
      LostExpireBlocksForGood(ChatStep(c, ops[0], rpm), ops[1..], rpm);
    }
  }

  lemma {:induction false} WindowsNeverGoBack(c: Chat, ops: seq<Op>, rpm: nat)
    requires ChatRun(c, ops, rpm)
    ensures c.window <= ChatFinal(c, ops, rpm).window
    decreases |ops|
  {
    if ops != [] {
      WindowsNeverGoBack(ChatStep(c, ops[0], rpm), ops[1..], rpm);
    }
  }

  lemma {:induction false} WindowEndsAtDeadline(c: Chat, deadline: Moment, ops: seq<Op>, rpm: nat)
    requires !c.owed && c.counter.Some? && c.counter.value.deadline == Some(deadline) && c.counter.value.count > 0
    requires ChatRun(c, ops, rpm)
    ensures ChatFinal(c, ops, rpm).window == c.window <==> forall op <- ops :: op.time < deadline
    decreases |ops|
  {
    if ops != [] {
      var c1 := ChatStep(c, ops[0], rpm);
      assert ops[0] in ops && forall op <- ops[1..] :: op in ops;
      assert forall op <- ops :: op == ops[0] || op in ops[1..];
      if ops[0].time < deadline {
        WindowEndsAtDeadline(c1, deadline, ops[1..], rpm);
      } else {
        WindowsNeverGoBack(c1, ops[1..], rpm);
      }
    }
  }

  /** Once EXPIRE ran at `time`, the window goes on exactly until a request comes 60 seconds later or more. */
  lemma ExpireEndsTheWindow(c: Chat, time: Moment, ops: seq<Op>, rpm: nat)
    requires ChatInv(c, rpm) && ChatEnabled(c, SetTtl(time)) && ChatRun(ChatStep(c, SetTtl(time), rpm), ops, rpm)
    ensures ChatFinal(ChatStep(c, SetTtl(time), rpm), ops, rpm).window == c.window
            <==> forall op <- ops :: op.time < time + 60000
  {
    WindowEndsAtDeadline(ChatStep(c, SetTtl(time), rpm), time + MINUTE, ops, rpm);
  }

  // ----- The limiter on a mutable store -----

  /** Redis answers, executes the commands but the answer is lost, or does not execute them. */
  datatype Link = Answers | AnswerLost | Down

  class RedisCounters {
    var store: map<LoginKey, Counter>

    constructor ()
      ensures store == map[]
    {
      store := map[];
    }

    /** `pipe.incr(key).expire(key, 60).execute()`: both commands or none; None stands for the exception. */
    method IncrAndExpire(key: LoginKey, now: Moment, link: Link) returns (attempts: Option<nat>)
      modifies this
      ensures var counter := Incr(Get(old(store), key), now).(deadline := Some(now + MINUTE));
              && attempts == (if link.Answers? then Some(counter.count) else None)
              && store == if link.Down? then old(store) else old(store)[key := counter]
    {
      if link.Down? {
        return None;
      }
      var counter := Incr(Get(store, key), now);
      counter := counter.(deadline := Some(now + MINUTE));
      store := store[key := counter];
      return if link.Answers? then Some(counter.count) else None;
    }
  }

  /** `enforce_login_attempt_limit`; without an answer nothing is limited, although the counter may have been raised. */
  method EnforceLoginAttemptLimit(redis: RedisCounters, a: Attempt, link: Link) returns (verdict: Verdict)
    modifies redis
    ensures redis.store == if link.Down? then old(redis.store) else Bump(old(redis.store), a)
    ensures verdict == if link.Answers? then Judge(redis.store[KeyOf(a)].count) else Allowed
  {
    var key := LoginKey(a.source, a.seen / MINUTE);
    var attempts := redis.IncrAndExpire(key, a.executed, link);
    if attempts.None? {
      return Allowed;
    }
    if attempts.value <= LOGIN_ATTEMPTS_PER_MINUTE {
      return Allowed;
    }
    if attempts.value == LOGIN_ATTEMPTS_PER_MINUTE + 1 {
      return BlockedAndLogged;
    }
    return Blocked;
  }

  /** A whole sequence of attempts served by the mutable limiter gets the verdicts above. */
  method ServeAttempts(attempts: seq<Attempt>) returns (verdicts: seq<Verdict>)
    ensures |verdicts| == |attempts|
    ensures forall i :: 0 <= i < |attempts| ==> verdicts[i] == VerdictOf(attempts, i)
  {
    var redis := new RedisCounters();
    verdicts := [];
    for i := 0 to |attempts|
      invariant redis.store == StoreAfter(attempts[..i])
      invariant |verdicts| == i && forall j :: 0 <= j < i ==> verdicts[j] == VerdictOf(attempts, j)
    {
      assert attempts[..i + 1][..i] == attempts[..i];
      var verdict := EnforceLoginAttemptLimit(redis, attempts[i], Answers);
      verdicts := verdicts + [verdict];
    }
  }
}
