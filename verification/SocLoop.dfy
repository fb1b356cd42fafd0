/** The Auto-SOC worker's endless loop: which events a poll settles, how long it sleeps, what it reports. */
module SocLoop {
  import opened Options
  import opened Forensics
  import opened Sets

  const SOC_BATCH_SIZE := 5
  const SOC_POLL_SECONDS := 5
  const SOC_MAX_BACKOFF_SECONDS := 60
  const SOC_RULE_BATCH_SIZE := 500

  /** An event of the audit log, named by its place in timestamp order, and whether its lab is played alone. */
  datatype Row = Row(log: Log, solo: bool)

  datatype Message = Unreachable | ReachableAgain

  /** One analysis by the model: a verdict, an error of this event, or no connection. */
  datatype Attempt = Answered(malicious: bool, reasoning: string) | Failed | NoConnection

  /** What the surroundings do during one poll and the sleep after it. */
  datatype Env = Env(
    rulesFail: bool,
    fetchFails: bool,
    attempt: nat -> Attempt,
    taken: set<nat>,
    saveFails: set<nat>,
    arrivals: seq<Row>,
    now: Moment,
    heuristic: Payload -> bool)

  datatype State = State(rows: seq<Row>, backoff: nat, llmDown: bool, messages: seq<Message>)

  function Min(a: nat, b: nat): nat { if a < b then a else b }

  // ----- Batches: the oldest rows, up to a limit -----

  predicate Pending(row: Row) { row.log.investigatedAt.None? }

  predicate RuleWork(row: Row) { Pending(row) && row.solo && RuleJudged(row.log.eventType) }

  predicate ModelWork(row: Row) { Pending(row) && row.solo && !RuleJudged(row.log.eventType) }

  function RuleSet(rows: seq<Row>): set<nat> { set i: nat | i < |rows| && RuleWork(rows[i]) }

  function ModelSet(rows: seq<Row>): set<nat> { set i: nat | i < |rows| && ModelWork(rows[i]) }

  /** `ORDER BY timestamp LIMIT limit` over the first `n` rows. */
  function Oldest(w: set<nat>, limit: nat, n: nat): seq<nat> {
    if n == 0 then []
    else
      var older := Oldest(w, limit, n - 1);
      if n - 1 in w && |older| < limit then older + [n - 1] else older
  }

  function Before(w: set<nat>, i: nat): set<nat> { set j | j in w && j < i }

  ghost predicate Increasing(s: seq<nat>) { forall i, j :: 0 <= i < j < |s| ==> s[i] < s[j] }

  lemma BeforeNext(w: set<nat>, n: nat)
    ensures Before(w, n + 1) == if n in w then Before(w, n) + {n} else Before(w, n)
    ensures |Before(w, n + 1)| == |Before(w, n)| + if n in w then 1 else 0
  {
    assert Before(w, n + 1) == if n in w then Before(w, n) + {n} else Before(w, n);
  }

  lemma BeforeGrows(w: set<nat>, i: nat, j: nat)
    requires i <= j
    ensures |Before(w, i)| <= |Before(w, j)|
    decreases j
  {
    if i < j {
      BeforeGrows(w, i, j - 1);
      BeforeNext(w, j - 1);
    }
  }

  ghost predicate InOldest(w: set<nat>, limit: nat, n: nat, i: nat) { i in w && i < n && |Before(w, i)| < limit }

  lemma OldestNext(w: set<nat>, limit: nat, n: nat, i: nat)
    requires |Oldest(w, limit, n)| == Min(limit, |Before(w, n)|)
    requires i in Oldest(w, limit, n) <==> InOldest(w, limit, n, i)
    ensures i in Oldest(w, limit, n + 1) <==> InOldest(w, limit, n + 1, i)
  {
    var older := Oldest(w, limit, n);
    if n in w && |older| < limit {
      assert i in older + [n] <==> i in older || i == n;
    }
  }

  lemma {:induction false} OldestMembers(w: set<nat>, limit: nat, n: nat, i: nat)
    ensures i in Oldest(w, limit, n) <==> InOldest(w, limit, n, i)
  {
    if n > 0 {
      OldestMembers(w, limit, n - 1, i);
      OldestCount(w, limit, n - 1);
      OldestNext(w, limit, n - 1, i);
    }
  }

  lemma {:induction false} OldestCount(w: set<nat>, limit: nat, n: nat)
    ensures |Oldest(w, limit, n)| == Min(limit, |Before(w, n)|)
  {
    if n > 0 {
      OldestCount(w, limit, n - 1);
      BeforeNext(w, n - 1);
    } else {
      assert Before(w, 0) == {};
    }
  }

  lemma {:induction false} OldestIncreases(w: set<nat>, limit: nat, n: nat)
    ensures Increasing(Oldest(w, limit, n))
  {
    if n > 0 {
      var older := Oldest(w, limit, n - 1);
      OldestIncreases(w, limit, n - 1);
      forall k | 0 <= k < |older|
        ensures older[k] < n - 1
      {
        assert older[k] in older;
        OldestMembers(w, limit, n - 1, older[k]);
      }
    }
  }

  /** A batch holds the rows with fewer than `limit` older ones of the same kind, oldest first. */
  lemma OldestExactly(w: set<nat>, limit: nat, n: nat)
    ensures |Oldest(w, limit, n)| == Min(limit, |Before(w, n)|) && Increasing(Oldest(w, limit, n))
    ensures forall i :: i in Oldest(w, limit, n) <==> i in w && i < n && |Before(w, i)| < limit
  {
    OldestCount(w, limit, n);
    OldestIncreases(w, limit, n);
    forall i: nat
      ensures i in Oldest(w, limit, n) <==> InOldest(w, limit, n, i)
    {
      OldestMembers(w, limit, n, i);
    }
  }

  function Elements(s: seq<nat>): set<nat> { set i | i in s }

  lemma {:induction false} ElementsCount(s: seq<nat>)
    requires Increasing(s)
    ensures |Elements(s)| == |s|
  {
    if s != [] {
      var k := |s| - 1;
      ElementsCount(s[..k]);
      assert s == s[..k] + [s[k]];
      assert Elements(s) == Elements(s[..k]) + {s[k]};
      assert s[k] !in Elements(s[..k]);
    }
  }

  // ----- One poll -----

  function Settle(row: Row, malicious: bool, reasoning: string, now: Moment): Row {
    row.(log := WithVerdict(row.log, malicious, reasoning, now))
  }

  function SettleByRules(row: Row, env: Env): Row {
    var malicious := PredictIsMalicious(row.log.payload, row.log.eventType, env.heuristic);
    Settle(row, malicious, RuleReasoning(malicious), env.now)
  }

  /** The rows that the rule step locks: it skips locked ones. */
  function RuleBatch(rows: seq<Row>, env: Env): seq<nat> {
    if env.rulesFail then [] else Oldest(RuleSet(rows) - env.taken, SOC_RULE_BATCH_SIZE, |rows|)
  }

  function ModelBatch(rows: seq<Row>, env: Env): seq<nat> {
    if env.fetchFails then [] else Oldest(ModelSet(rows), SOC_BATCH_SIZE, |rows|)
  }

  function CloseRules(rows: seq<Row>, batch: seq<nat>, env: Env): (r: seq<Row>)
    ensures |r| == |rows|
  {
    seq(|rows|, i requires 0 <= i < |rows| => if i in batch then SettleByRules(rows[i], env) else rows[i])
  }

  /** The model answered. */
  function AllClear(s: State): State {
    if s.llmDown then s.(llmDown := false, messages := s.messages + [ReachableAgain]) else s
  }

  /** `save_verdict`: a row that is taken or settled by then stays as it is. */
  function Save(rows: seq<Row>, i: nat, malicious: bool, reasoning: string, env: Env): (r: seq<Row>)
    ensures |r| == |rows|
  {
    if i < |rows| && Pending(rows[i]) && i !in env.taken then rows[i := Settle(rows[i], malicious, reasoning, env.now)]
    else rows
  }

  /** The loop over a batch: the new state and whether it ended in an outage. */
  function Analyse(s: State, batch: seq<nat>, env: Env): (r: (State, bool))
    ensures |r.0.rows| == |s.rows| && r.0.backoff == s.backoff
    decreases |batch|
  {
    if batch == [] then (s, false)
    else match env.attempt(batch[0])
         case NoConnection => (s, true)
         case Failed => Analyse(s, batch[1..], env)
         case Answered(malicious, reasoning) =>
           if batch[0] in env.saveFails then (AllClear(s), false)
           else Analyse(AllClear(s).(rows := Save(s.rows, batch[0], malicious, reasoning, env)), batch[1..], env)
  }

  function Work(s: State, env: Env): (State, bool) {
    var s1 := s.(rows := CloseRules(s.rows, RuleBatch(s.rows, env), env));
    Analyse(s1, ModelBatch(s1.rows, env), env)
  }

  function IsOutage(s: State, env: Env): bool { Work(s, env).1 }

  function Delay(s: State, env: Env): nat { if IsOutage(s, env) then s.backoff else SOC_POLL_SECONDS }

  function AfterPoll(s: State, env: Env): State {
    var (s1, outage) := Work(s, env);
    if outage then
      State(s1.rows, Min(s1.backoff * 2, SOC_MAX_BACKOFF_SECONDS), true,
            if s1.llmDown then s1.messages else s1.messages + [Unreachable])
    else s1.(backoff := SOC_POLL_SECONDS)
  }

  function Next(s: State, env: Env): State {
    var s1 := AfterPoll(s, env);
    s1.(rows := s1.rows + env.arrivals)
  }

  function Run(s: State, envs: seq<Env>): State {
    if envs == [] then s else Next(Run(s, envs[..|envs| - 1]), envs[|envs| - 1])
  }

  // ----- What one poll settles -----

  /** Neither an outage nor a failed write came before place `k` of the batch. */
  ghost predicate Reached(batch: seq<nat>, env: Env, k: nat) {
    k < |batch| &&
    forall j :: 0 <= j < k ==>
      env.attempt(batch[j]) != NoConnection && !(env.attempt(batch[j]).Answered? && batch[j] in env.saveFails)
  }

  ghost predicate SavedAt(batch: seq<nat>, env: Env, k: nat, i: nat) {
    Reached(batch, env, k) && batch[k] == i && env.attempt(i).Answered? && i !in env.saveFails && i !in env.taken
  }

  ghost predicate SavedIn(batch: seq<nat>, env: Env, i: nat) { exists k: nat :: SavedAt(batch, env, k, i) }

  ghost predicate AnsweredAt(batch: seq<nat>, env: Env, k: nat) {
    Reached(batch, env, k) && env.attempt(batch[k]).Answered?
  }

  ghost predicate LostAt(batch: seq<nat>, env: Env, k: nat) {
    Reached(batch, env, k) && env.attempt(batch[k]) == NoConnection
  }

  ghost predicate AnyAnswer(batch: seq<nat>, env: Env) { exists k: nat :: AnsweredAt(batch, env, k) }

  ghost predicate AnyLoss(batch: seq<nat>, env: Env) { exists k: nat :: LostAt(batch, env, k) }

  predicate GoesOn(i: nat, env: Env) {
    env.attempt(i) != NoConnection && !(env.attempt(i).Answered? && i in env.saveFails)
  }

  lemma ReachedTail(batch: seq<nat>, env: Env, k: nat)
    requires batch != []
    ensures Reached(batch, env, 0)
    ensures Reached(batch, env, k + 1) <==> GoesOn(batch[0], env) && Reached(batch[1..], env, k)
  {
    assert forall j :: 0 <= j < |batch| - 1 ==> batch[1..][j] == batch[j + 1];
    if Reached(batch, env, k + 1) {
      assert GoesOn(batch[0], env);
      forall j | 0 <= j < k
        ensures GoesOn(batch[1..][j], env)
      {
        assert GoesOn(batch[j + 1], env);
      }
    }
    if GoesOn(batch[0], env) && Reached(batch[1..], env, k) {
      forall j | 0 <= j < k + 1
        ensures GoesOn(batch[j], env)
      {
        if j > 0 {
          assert GoesOn(batch[1..][j - 1], env);
        }
      }
    }
  }

  lemma TailMeaning(batch: seq<nat>, env: Env)
    requires batch != []
    ensures AnyLoss(batch, env) <==>
            env.attempt(batch[0]) == NoConnection || (GoesOn(batch[0], env) && AnyLoss(batch[1..], env))
    ensures AnyAnswer(batch, env) <==>
            env.attempt(batch[0]).Answered? || (GoesOn(batch[0], env) && AnyAnswer(batch[1..], env))
  {
    var tail := batch[1..];
    ReachedTail(batch, env, 0);
    forall k: nat
      ensures LostAt(batch, env, k + 1) <==> GoesOn(batch[0], env) && LostAt(tail, env, k)
      ensures AnsweredAt(batch, env, k + 1) <==> GoesOn(batch[0], env) && AnsweredAt(tail, env, k)
    {
      ReachedTail(batch, env, k);
    }
    assert LostAt(batch, env, 0) <==> env.attempt(batch[0]) == NoConnection;
    assert AnsweredAt(batch, env, 0) <==> env.attempt(batch[0]).Answered?;
    if AnyLoss(batch, env) {
      var k: nat :| LostAt(batch, env, k);
      assert k > 0 ==> LostAt(tail, env, k - 1) by { if k > 0 { ReachedTail(batch, env, k - 1); } }
    }
    if AnyAnswer(batch, env) {
      var k: nat :| AnsweredAt(batch, env, k);
      assert k > 0 ==> AnsweredAt(tail, env, k - 1) by { if k > 0 { ReachedTail(batch, env, k - 1); } }
    }
  }

  lemma SavedTail(batch: seq<nat>, env: Env, i: nat)
    requires batch != []
    ensures SavedIn(batch, env, i) <==> SavedAt(batch, env, 0, i) || (GoesOn(batch[0], env) && SavedIn(batch[1..], env, i))
  {
    var tail := batch[1..];
    forall k: nat
      ensures SavedAt(batch, env, k + 1, i) <==> GoesOn(batch[0], env) && SavedAt(tail, env, k, i)
    {
      ReachedTail(batch, env, k);
    }
    if SavedIn(batch, env, i) {
      var k: nat :| SavedAt(batch, env, k, i);
      assert k > 0 ==> SavedAt(tail, env, k - 1, i) by { if k > 0 { ReachedTail(batch, env, k - 1); } }
    }
  }

  /** An outage is a lost connection that the loop got to. */
  lemma {:induction false} OutageExactly(s: State, batch: seq<nat>, env: Env)
    ensures Analyse(s, batch, env).1 <==> AnyLoss(batch, env)
    ensures Analyse(s, batch, env).0.llmDown <==> s.llmDown && !AnyAnswer(batch, env)
    decreases |batch|
  {
    if batch != [] {
      TailMeaning(batch, env);
      match env.attempt(batch[0])
      case NoConnection =>
      case Failed => OutageExactly(s, batch[1..], env);
      case Answered(m, why) =>
        if batch[0] !in env.saveFails {
          OutageExactly(AllClear(s).(rows := Save(s.rows, batch[0], m, why, env)), batch[1..], env);
        }
    }
  }

  function Saved(row: Row, a: Attempt, now: Moment): Row {
    if a.Answered? && Pending(row) then Settle(row, a.malicious, a.reasoning, now) else row
  }

  /** The rows that a batch settles are those whose verdict was reached and written; no other row changes. */
  lemma {:induction false} BatchSettlesExactly(s: State, batch: seq<nat>, env: Env, i: nat)
    requires i < |s.rows|
    ensures Analyse(s, batch, env).0.rows[i]
         == if SavedIn(batch, env, i) then Saved(s.rows[i], env.attempt(i), env.now) else s.rows[i]
    decreases |batch|
  {
    if batch != [] {
      SavedTail(batch, env, i);
      ReachedTail(batch, env, 0);
      match env.attempt(batch[0])
      case NoConnection =>
      case Failed => BatchSettlesExactly(s, batch[1..], env, i);
      case Answered(m, why) =>
        if batch[0] !in env.saveFails {
          BatchSettlesExactly(AllClear(s).(rows := Save(s.rows, batch[0], m, why, env)), batch[1..], env, i);
        }
    }
  }

  // ----- Whole runs: sleeping -----

  function Pow2(k: nat): nat { if k == 0 then 1 else 2 * Pow2(k - 1) }

  /** The sleep after `k` outages in a row, before the next one. */
  function Backoff(k: nat): nat { Min(SOC_POLL_SECONDS * Pow2(k), SOC_MAX_BACKOFF_SECONDS) }

  /** How many of the last polls in a row were outages. */
  function Streak(s: State, envs: seq<Env>): nat {
    if envs == [] then 0
    else
      var earlier := envs[..|envs| - 1];
      if IsOutage(Run(s, earlier), envs[|envs| - 1]) then Streak(s, earlier) + 1 else 0
  }

  lemma BackoffNext(s: State, env: Env)
    ensures Next(s, env).backoff
         == if IsOutage(s, env) then Min(s.backoff * 2, SOC_MAX_BACKOFF_SECONDS) else SOC_POLL_SECONDS
    ensures Delay(s, env) == if IsOutage(s, env) then s.backoff else SOC_POLL_SECONDS
  {
  }

  lemma BackoffDoubles(k: nat)
    ensures Backoff(0) == SOC_POLL_SECONDS
    ensures Backoff(k + 1) == Min(Backoff(k) * 2, SOC_MAX_BACKOFF_SECONDS)
  {
  }

  /** One more poll, in terms of the backoff and the streak alone. */
  lemma LastPoll(s: State, envs: seq<Env>)
    requires envs != []
    ensures var earlier, env := envs[..|envs| - 1], envs[|envs| - 1];
            var outage := IsOutage(Run(s, earlier), env);
            && Streak(s, envs) == (if outage then Streak(s, earlier) + 1 else 0)
            && Run(s, envs).backoff == (if outage then Min(Run(s, earlier).backoff * 2, SOC_MAX_BACKOFF_SECONDS)
                                        else SOC_POLL_SECONDS)
  {
    BackoffNext(Run(s, envs[..|envs| - 1]), envs[|envs| - 1]);
  }

  /** One poll, as a step on numbers. */
  lemma BackoffStep(backoff: nat, streak: nat, outage: bool, backoff1: nat, streak1: nat)
    requires backoff == Backoff(streak) && streak1 == (if outage then streak + 1 else 0)
    requires backoff1 == (if outage then Min(backoff * 2, SOC_MAX_BACKOFF_SECONDS) else SOC_POLL_SECONDS)
    ensures backoff1 == Backoff(streak1)
  {
    BackoffDoubles(if outage then streak else 0);
  }

  ghost predicate InStep(s: State, envs: seq<Env>) { Run(s, envs).backoff == Backoff(Streak(s, envs)) }

  lemma {:induction false} BackoffFollowsStreak(s: State, envs: seq<Env>)
    requires s.backoff == SOC_POLL_SECONDS
    ensures InStep(s, envs)
  {
    if envs == [] {
      BackoffDoubles(0);
    } else {
      BackoffFollowsStreak(s, envs[..|envs| - 1]);
      NextInStep(s, envs);
    }
  }

  lemma NextInStep(s: State, envs: seq<Env>)
    requires envs != [] && InStep(s, envs[..|envs| - 1])
    ensures InStep(s, envs)
  {
    var earlier := envs[..|envs| - 1];
    LastPoll(s, envs);
    BackoffStep(Run(s, earlier).backoff, Streak(s, earlier), IsOutage(Run(s, earlier), envs[|envs| - 1]),
                Run(s, envs).backoff, Streak(s, envs));
  }

  /** The k-th outage in a row sleeps min(5 * 2^(k-1), 60) seconds; every other poll sleeps 5. */
  lemma SleepFollowsStreak(s: State, envs: seq<Env>)
    requires s.backoff == SOC_POLL_SECONDS && envs != []
    ensures var k := Streak(s, envs);
            Delay(Run(s, envs[..|envs| - 1]), envs[|envs| - 1]) == if k > 0 then Min(5 * Pow2(k - 1), 60) else 5
  {
    var earlier, env := envs[..|envs| - 1], envs[|envs| - 1];
    BackoffFollowsStreak(s, earlier);
    LastPoll(s, envs);
    BackoffNext(Run(s, earlier), env);
    SleepStep(Run(s, earlier).backoff, Streak(s, earlier), IsOutage(Run(s, earlier), env),
              Delay(Run(s, earlier), env), Streak(s, envs));
  }

  /** One sleep, as a step on numbers. */
  lemma SleepStep(backoff: nat, streak: nat, outage: bool, delay: nat, streak1: nat)
    requires backoff == Backoff(streak) && streak1 == (if outage then streak + 1 else 0)
    requires delay == (if outage then backoff else SOC_POLL_SECONDS)
    ensures delay == if streak1 > 0 then Min(5 * Pow2(streak1 - 1), 60) else 5
  {
  }

  // ----- Whole runs: reporting -----

  /** Warnings and all-clears take turns, a warning first, and the flag tells which came last. */
  ghost predicate Alternate(s: State) {
    && (forall i :: 0 <= i < |s.messages| ==> s.messages[i] == if i % 2 == 0 then Unreachable else ReachableAgain)
    && (s.llmDown <==> |s.messages| % 2 == 1)
  }

  lemma {:induction false} AnalyseAlternates(s: State, batch: seq<nat>, env: Env)
    requires Alternate(s)
    ensures Alternate(Analyse(s, batch, env).0)
    decreases |batch|
  {
    if batch != [] {
      assert Alternate(AllClear(s));
      match env.attempt(batch[0])
      case NoConnection =>
      case Failed => AnalyseAlternates(s, batch[1..], env);
      case Answered(m, why) =>
        if batch[0] !in env.saveFails {
          AnalyseAlternates(AllClear(s).(rows := Save(s.rows, batch[0], m, why, env)), batch[1..], env);
        }
    }
  }

  lemma {:induction false} MessagesAlternate(s: State, envs: seq<Env>)
    requires Alternate(s)
    ensures Alternate(Run(s, envs))
  {
    if envs != [] {
      MessagesAlternate(s, envs[..|envs| - 1]);
      PollAlternates(Run(s, envs[..|envs| - 1]), envs[|envs| - 1]);
    }
  }

  /** A poll that ends in an outage leaves the warning as the last message, one that hears the model does not. */
  lemma PollIsReported(s: State, env: Env)
    requires Alternate(s)
    ensures var s1 := AfterPoll(s, env);
            && (IsOutage(s, env) ==> s1.messages != [] && s1.messages[|s1.messages| - 1] == Unreachable)
            && (!IsOutage(s, env) && Heard(s, env) ==>
                  s1.messages == [] || s1.messages[|s1.messages| - 1] == ReachableAgain)
            && (!IsOutage(s, env) && !Heard(s, env) ==> s1.messages == s.messages)
  {
    var s1 := s.(rows := CloseRules(s.rows, RuleBatch(s.rows, env), env));
    var batch := ModelBatch(s1.rows, env);
    PollAlternates(s, env);
    AnalyseAlternates(s1, batch, env);
    OutageExactly(s1, batch, env);
    if !AnyAnswer(batch, env) {
      SilentBatch(s1, batch, env);
    }
    assert Alternate(AfterPoll(s, env));
  }

  /** The model answered in this poll before any outage. */
  ghost predicate Heard(s: State, env: Env) {
    AnyAnswer(ModelBatch(CloseRules(s.rows, RuleBatch(s.rows, env), env), env), env)
  }

  lemma {:induction false} SilentBatch(s: State, batch: seq<nat>, env: Env)
    requires !AnyAnswer(batch, env)
    ensures Analyse(s, batch, env).0.messages == s.messages
    decreases |batch|
  {
    if batch != [] {
      TailMeaning(batch, env);
      ReachedTail(batch, env, 0);
      if env.attempt(batch[0]) == Failed {
        SilentBatch(s, batch[1..], env);
      }
    }
  }

  lemma PollAlternates(s: State, env: Env)
    requires Alternate(s)
    ensures Alternate(Next(s, env))
  {
    var s1 := s.(rows := CloseRules(s.rows, RuleBatch(s.rows, env), env));
    assert Alternate(s1);
    AnalyseAlternates(s1, ModelBatch(s1.rows, env), env);
    var s2 := Work(s, env).0;
    assert Alternate(s2);
    assert AfterPoll(s, env).messages == if IsOutage(s, env) && !s2.llmDown then s2.messages + [Unreachable] else s2.messages;
  }

  // ----- Whole runs: what the worker may touch -----

  ghost predicate SettledByRules(before: Row, after: Row) {
    RuleWork(before) && exists env: Env :: after == SettleByRules(before, env)
  }

  ghost predicate SettledByModel(before: Row, after: Row) {
    ModelWork(before) && exists m: bool, why: string, now: Moment :: after == Settle(before, m, why, now)
  }

  /** The only change of a row: a pending solo event gets its verdict, by the rules if they judge its kind. */
  ghost predicate OnlySettled(before: Row, after: Row) {
    after == before || SettledByRules(before, after) || SettledByModel(before, after)
  }

  lemma PollOnlySettles(s: State, env: Env, i: nat)
    requires i < |s.rows|
    ensures |AfterPoll(s, env).rows| == |s.rows| && OnlySettled(s.rows[i], AfterPoll(s, env).rows[i])
  {
    OldestExactly(RuleSet(s.rows) - env.taken, SOC_RULE_BATCH_SIZE, |s.rows|);
    var s1 := s.(rows := CloseRules(s.rows, RuleBatch(s.rows, env), env));
    var batch := ModelBatch(s1.rows, env);
    OldestExactly(ModelSet(s1.rows), SOC_BATCH_SIZE, |s1.rows|);
    BatchSettlesExactly(s1, batch, env, i);
    if SavedIn(batch, env, i) {
      assert i in batch;
      assert ModelWork(s1.rows[i]) && s1.rows[i] == s.rows[i];
      var a := env.attempt(i);
      assert AfterPoll(s, env).rows[i] == Settle(s.rows[i], a.malicious, a.reasoning, env.now);
    }
  }

  lemma {:induction false} RunOnlySettles(s: State, envs: seq<Env>, i: nat)
    requires i < |s.rows|
    ensures |s.rows| <= |Run(s, envs).rows| && OnlySettled(s.rows[i], Run(s, envs).rows[i])
  {
    if envs != [] {
      RunOnlySettles(s, envs[..|envs| - 1], i);
      PollOnlySettles(Run(s, envs[..|envs| - 1]), envs[|envs| - 1], i);
    }
  }

  // ----- Whole runs: which verdicts are stored, column by column -----

  ghost predicate IsRuleEvent(row: Row) { row.log.eventType.LoginFailed? || row.log.eventType.LoginRateLimited? }

  /** A row that a poll changed was pending, in a solo lab and free, and holds the verdict that was given for it. */
  ghost predicate StoredRight(before: Row, after: Row, i: nat, env: Env) {
    && after.solo == before.solo
    && (after != before ==>
          && before.solo && before.log.investigatedAt.None? && i !in env.taken
          && (IsRuleEvent(before) ==> !env.rulesFail && RuleVerdictStored(before.log, after.log, env.now))
          && (!IsRuleEvent(before) ==>
                && !env.fetchFails && i !in env.saveFails && env.attempt(i).Answered?
                && VerdictStored(before.log, after.log, env.attempt(i).malicious, env.attempt(i).reasoning, env.now)))
  }

  lemma ClosedRight(rows: seq<Row>, env: Env, i: nat)
    requires i < |rows|
    ensures StoredRight(rows[i], CloseRules(rows, RuleBatch(rows, env), env)[i], i, env)
    ensures CloseRules(rows, RuleBatch(rows, env), env)[i] != rows[i] ==> IsRuleEvent(rows[i])
  {
    OldestExactly(RuleSet(rows) - env.taken, SOC_RULE_BATCH_SIZE, |rows|);
    if i in RuleBatch(rows, env) {
      RuleVerdictInValues(rows[i].log, env.now, env.heuristic);
    }
  }

  /** The row changed, and holds the answer that the model gave for it. */
  ghost predicate AnswerStored(before: Row, after: Row, i: nat, env: Env) {
    && env.attempt(i).Answered? && i !in env.taken && i !in env.saveFails
    && before.log.investigatedAt.None? && after.solo == before.solo
    && VerdictStored(before.log, after.log, env.attempt(i).malicious, env.attempt(i).reasoning, env.now)
  }

  /** Only answered events of the batch change. */
  lemma BatchStoresAnswers(s: State, batch: seq<nat>, env: Env, i: nat)
    requires i < |s.rows|
    ensures var after := Analyse(s, batch, env).0.rows[i];
            after != s.rows[i] ==> i in batch && AnswerStored(s.rows[i], after, i, env)
  {
    BatchSettlesExactly(s, batch, env, i);
    if SavedIn(batch, env, i) {
      var k: nat :| SavedAt(batch, env, k, i);
    }
  }

  lemma AnalysedRight(s: State, env: Env, i: nat)
    requires i < |s.rows|
    ensures StoredRight(s.rows[i], Analyse(s, ModelBatch(s.rows, env), env).0.rows[i], i, env)
    ensures Analyse(s, ModelBatch(s.rows, env), env).0.rows[i] != s.rows[i] ==> !IsRuleEvent(s.rows[i])
  {
    OldestExactly(ModelSet(s.rows), SOC_BATCH_SIZE, |s.rows|);
    BatchStoresAnswers(s, ModelBatch(s.rows, env), env, i);
  }

  /** What a poll stores is what the rules or the model said of that very event. */
  lemma PollStoresVerdicts(s: State, env: Env, i: nat)
    requires i < |s.rows|
    ensures |AfterPoll(s, env).rows| == |s.rows| && StoredRight(s.rows[i], AfterPoll(s, env).rows[i], i, env)
  {
    var s1 := s.(rows := CloseRules(s.rows, RuleBatch(s.rows, env), env));
    ClosedRight(s.rows, env, i);
    AnalysedRight(s1, env, i);
    assert AfterPoll(s, env).rows == Analyse(s1, ModelBatch(s1.rows, env), env).0.rows;
  }

  ghost predicate StoredInRun(before: Row, after: Row, i: nat, envs: seq<Env>) {
    exists k :: 0 <= k < |envs| && StoredRight(before, after, i, envs[k])
  }

  lemma LongerRun(before: Row, after: Row, i: nat, envs: seq<Env>)
    requires envs != [] && StoredInRun(before, after, i, envs[..|envs| - 1])
    ensures StoredInRun(before, after, i, envs)
  {
    var k :| 0 <= k < |envs| - 1 && StoredRight(before, after, i, envs[..|envs| - 1][k]);
    assert envs[..|envs| - 1][k] == envs[k];
  }

  /** Over a whole run a row is as it was, or holds the verdict of the one poll that settled it. */
  lemma {:induction false} RunStoresVerdicts(s: State, envs: seq<Env>, i: nat)
    requires i < |s.rows|
    ensures |s.rows| <= |Run(s, envs).rows|
    ensures Run(s, envs).rows[i] == s.rows[i]
            || (Run(s, envs).rows[i].log.investigatedAt.Some? && StoredInRun(s.rows[i], Run(s, envs).rows[i], i, envs))
  {
    if envs != [] {
      var k := |envs| - 1;
      var s1 := Run(s, envs[..k]);
      RunStoresVerdicts(s, envs[..k], i);
      PollStoresVerdicts(s1, envs[k], i);
      var before, between, after := s.rows[i], s1.rows[i], Run(s, envs).rows[i];
      assert StoredRight(between, after, i, envs[k]);
      if between != before {
        LongerRun(before, after, i, envs);
      }
    }
  }

  lemma RulesSettleExactly(s: State, env: Env, i: nat)
    requires i < |s.rows| && RuleWork(s.rows[i])
    ensures AfterPoll(s, env).rows[i].log.investigatedAt.Some? <==>
            !env.rulesFail && i !in env.taken && |Before(RuleSet(s.rows) - env.taken, i)| < 500
  {
    var s1 := s.(rows := CloseRules(s.rows, RuleBatch(s.rows, env), env));
    OldestExactly(RuleSet(s.rows) - env.taken, SOC_RULE_BATCH_SIZE, |s.rows|);
    AnalysedRight(s1, env, i);
    assert AfterPoll(s, env).rows == Analyse(s1, ModelBatch(s1.rows, env), env).0.rows;
  }

  lemma ModelSettlesExactly(s: State, env: Env, i: nat)
    requires i < |s.rows| && ModelWork(s.rows[i])
    ensures AfterPoll(s, env).rows[i].log.investigatedAt.Some? <==>
            !env.fetchFails && |Before(ModelSet(s.rows), i)| < 5 && SavedIn(ModelBatch(s.rows, env), env, i)
  {
    var s1 := s.(rows := CloseRules(s.rows, RuleBatch(s.rows, env), env));
    RulesLeaveModelWork(s.rows, env);
    ClosedRight(s.rows, env, i);
    OldestExactly(ModelSet(s.rows), SOC_BATCH_SIZE, |s.rows|);
    BatchSettlesExactly(s1, ModelBatch(s.rows, env), env, i);
    assert AfterPoll(s, env).rows == Analyse(s1, ModelBatch(s1.rows, env), env).0.rows;
  }

  /** Which rows a poll settles: the 500 oldest free ones for the rules, and those of the five oldest that are answered and written. */
  lemma PollSettlesExactly(s: State, env: Env, i: nat)
    requires i < |s.rows| && s.rows[i].solo && s.rows[i].log.investigatedAt.None?
    ensures IsRuleEvent(s.rows[i]) ==>
              (AfterPoll(s, env).rows[i].log.investigatedAt.Some? <==>
               !env.rulesFail && i !in env.taken && |Before(RuleSet(s.rows) - env.taken, i)| < 500)
    ensures !IsRuleEvent(s.rows[i]) ==>
              (AfterPoll(s, env).rows[i].log.investigatedAt.Some? <==>
               !env.fetchFails && |Before(ModelSet(s.rows), i)| < 5 && SavedIn(ModelBatch(s.rows, env), env, i))
  {
    if IsRuleEvent(s.rows[i]) {
      RulesSettleExactly(s, env, i);
    } else {
      ModelSettlesExactly(s, env, i);
    }
  }

  /** The two kinds of work are the pending events of solo labs, split by the kind of event. */
  lemma WorkIsPartitioned(rows: seq<Row>, i: nat)
    ensures i in RuleSet(rows) + ModelSet(rows) <==> i < |rows| && rows[i].solo && rows[i].log.investigatedAt.None?
    ensures i in RuleSet(rows) <==> i in RuleSet(rows) + ModelSet(rows) && IsRuleEvent(rows[i])
    ensures RuleSet(rows) !! ModelSet(rows)
  {
  }

  // ----- Whole runs: which events are analysed in the end -----

  /** Nothing fails but the analysis of the events in `bad`, and that always does. */
  ghost predicate Steady(env: Env, bad: set<nat>) {
    && !env.rulesFail && !env.fetchFails && env.taken == {} && env.saveFails == {}
    && forall i: nat :: env.attempt(i).Failed? == (i in bad) && (i !in bad ==> env.attempt(i).Answered?)
  }

  ghost predicate AllSteady(envs: seq<Env>, bad: set<nat>) { forall k :: 0 <= k < |envs| ==> Steady(envs[k], bad) }

  lemma RulesLeaveModelWork(rows: seq<Row>, env: Env)
    ensures ModelSet(CloseRules(rows, RuleBatch(rows, env), env)) == ModelSet(rows)
    ensures RuleSet(CloseRules(rows, RuleBatch(rows, env), env)) == RuleSet(rows) - Elements(RuleBatch(rows, env))
    ensures ModelBatch(CloseRules(rows, RuleBatch(rows, env), env), env) == ModelBatch(rows, env)
  {
    var rows1 := CloseRules(rows, RuleBatch(rows, env), env);
    OldestExactly(RuleSet(rows) - env.taken, SOC_RULE_BATCH_SIZE, |rows|);
    assert forall i :: i in RuleBatch(rows, env) ==> i in RuleSet(rows);
    forall i: nat | i < |rows|
      ensures ModelWork(rows1[i]) <==> ModelWork(rows[i])
      ensures RuleWork(rows1[i]) <==> RuleWork(rows[i]) && i !in RuleBatch(rows, env)
    {
      if i in RuleBatch(rows, env) {
        assert RuleWork(rows[i]);
      }
    }
    assert ModelSet(rows1) == ModelSet(rows);
  }

  ghost predicate SettledBatch(rows: seq<Row>, rows1: seq<Row>, done: set<nat>) {
    |rows1| == |rows| &&
    forall i: nat :: i < |rows| ==>
      if i in done then !Pending(rows1[i]) else rows1[i] == rows[i]
  }

  lemma SteadyAnalysis(s: State, batch: seq<nat>, env: Env, bad: set<nat>)
    requires Steady(env, bad) && forall i :: i in batch ==> i in ModelSet(s.rows)
    ensures SettledBatch(s.rows, Analyse(s, batch, env).0.rows, Elements(batch) - bad)
  {
    forall i: nat | i < |s.rows|
      ensures Analyse(s, batch, env).0.rows[i]
           == if i in Elements(batch) - bad then Settle(s.rows[i], env.attempt(i).malicious, env.attempt(i).reasoning, env.now)
              else s.rows[i]
    {
      BatchSettlesExactly(s, batch, env, i);
      SteadyBatch(batch, env, bad, i);
    }
  }

  lemma SettledSets(rows: seq<Row>, rows1: seq<Row>, done: set<nat>)
    requires SettledBatch(rows, rows1, done) && done <= ModelSet(rows)
    ensures ModelSet(rows1) == ModelSet(rows) - done && RuleSet(rows1) == RuleSet(rows)
  {
  }

  /** A steady poll settles its rule batch and the good events of its model batch. */
  lemma SteadyPoll(s: State, env: Env, bad: set<nat>)
    requires Steady(env, bad)
    ensures ModelSet(AfterPoll(s, env).rows) == ModelSet(s.rows) - (Elements(ModelBatch(s.rows, env)) - bad)
    ensures RuleSet(AfterPoll(s, env).rows) == RuleSet(s.rows) - Elements(RuleBatch(s.rows, env))
  {
    var s1 := s.(rows := CloseRules(s.rows, RuleBatch(s.rows, env), env));
    var batch := ModelBatch(s.rows, env);
    RulesLeaveModelWork(s.rows, env);
    OldestExactly(ModelSet(s.rows), SOC_BATCH_SIZE, |s.rows|);
    assert forall i :: i in batch ==> i in ModelSet(s1.rows);
    SteadyAnalysis(s1, batch, env, bad);
    var s2 := Analyse(s1, batch, env).0;
    SettledSets(s1.rows, s2.rows, Elements(batch) - bad);
    assert AfterPoll(s, env).rows == s2.rows;
  }

  lemma SteadyBatch(batch: seq<nat>, env: Env, bad: set<nat>, i: nat)
    requires Steady(env, bad)
    ensures SavedIn(batch, env, i) <==> i in batch && i !in bad
  {
    if i in batch && i !in bad {
      var k: nat :| k < |batch| && batch[k] == i;
      assert Reached(batch, env, k);
      assert SavedAt(batch, env, k, i);
    }
  }

  /** Places of older rows do not change, so arrivals do not matter to an older event. */
  lemma ArrivalsAreLater(rows: seq<Row>, arrivals: seq<Row>, r: nat)
    requires r < |rows|
    ensures Before(ModelSet(rows + arrivals), r) == Before(ModelSet(rows), r)
    ensures r in ModelSet(rows + arrivals) <==> r in ModelSet(rows)
  {
  }

  /** The waiting events that are older than `r`. */
  function Ahead(s: State, r: nat): set<nat> { Before(ModelSet(s.rows), r) }

  ghost predicate Waits(s: State, r: nat) { r in ModelSet(s.rows) }

  /** One steady poll settles `r`, or settles an older event, unless five older events always fail. */
  lemma SteadyStep(s: State, env: Env, bad: set<nat>, r: nat)
    requires Steady(env, bad) && Waits(s, r) && r !in bad
    ensures Ahead(Next(s, env), r) <= Ahead(s, r) && Ahead(Next(s, env), r) * bad == Ahead(s, r) * bad
    ensures |Ahead(s, r) * bad| >= SOC_BATCH_SIZE ==> Waits(Next(s, env), r)
    ensures |Ahead(s, r) * bad| < SOC_BATCH_SIZE && Waits(Next(s, env), r) ==> |Ahead(Next(s, env), r)| < |Ahead(s, r)|
  {
    var w, batch, ahead := ModelSet(s.rows), ModelBatch(s.rows, env), Ahead(s, r);
    SteadyPoll(s, env, bad);
    ArrivalsAreLater(AfterPoll(s, env).rows, env.arrivals, r);
    OldestExactly(w, SOC_BATCH_SIZE, |s.rows|);
    assert Ahead(Next(s, env), r) == ahead - (Elements(batch) - bad);
    SubsetSize(ahead * bad, ahead);
    SubsetSize(Ahead(Next(s, env), r), ahead);
    if |ahead| < SOC_BATCH_SIZE {
      assert r in batch;
    } else {
      assert r !in batch;
      BatchIsAhead(w, batch, r, |s.rows|);
      if |ahead * bad| < SOC_BATCH_SIZE {
        SomeGood(Elements(batch), ahead, bad);
      }
    }
  }

  lemma BatchIsAhead(w: set<nat>, batch: seq<nat>, r: nat, n: nat)
    requires batch == Oldest(w, SOC_BATCH_SIZE, n) && r in w && r < n && r !in batch
    ensures Elements(batch) <= Before(w, r) && |Elements(batch)| == SOC_BATCH_SIZE
  {
    OldestExactly(w, SOC_BATCH_SIZE, n);
    ElementsCount(batch);
    BeforeGrows(w, r, n);
    forall i | i in batch
      ensures i < r
    {
      if i >= r {
        BeforeGrows(w, r, i);
      }
    }
  }

  /** Five events of which fewer than five are bad hold a good one. */
  lemma SomeGood(five: set<nat>, ahead: set<nat>, bad: set<nat>)
    requires five <= ahead && |five| == SOC_BATCH_SIZE && |ahead * bad| < SOC_BATCH_SIZE
    ensures five - bad != {}
    ensures ahead - (five - bad) != ahead
  {
    if five - bad == {} {
      forall i | i in five
        ensures i in bad
      {
        assert i !in five - bad;
      }
      assert five <= ahead * bad;
      SubsetSize(five, ahead * bad);
    }
    var x :| x in five - bad;
    assert x in ahead;
  }

  /** A settled event is never waiting again. */
  lemma SettledStays(s: State, env: Env, r: nat)
    requires r < |s.rows| && !Waits(s, r)
    ensures !Waits(Next(s, env), r)
  {
    PollOnlySettles(s, env, r);
  }

  lemma {:induction false} SteadyRun(s: State, envs: seq<Env>, bad: set<nat>, r: nat)
    requires AllSteady(envs, bad) && Waits(s, r) && r !in bad
    ensures r < |Run(s, envs).rows|
    ensures |Ahead(s, r) * bad| >= SOC_BATCH_SIZE ==> Waits(Run(s, envs), r)
    ensures Waits(Run(s, envs), r) ==> Ahead(Run(s, envs), r) * bad == Ahead(s, r) * bad
    ensures Waits(Run(s, envs), r) && |Ahead(s, r) * bad| < SOC_BATCH_SIZE ==>
              |Ahead(Run(s, envs), r)| + |envs| <= |Ahead(s, r)|
  {
    if envs != [] {
      var k := |envs| - 1;
      var s1 := Run(s, envs[..k]);
      SteadyRun(s, envs[..k], bad, r);
      PollOnlySettles(s1, envs[k], r);
      if Waits(s1, r) {
        SteadyStep(s1, envs[k], bad, r);
      } else {
        SettledStays(s1, envs[k], r);
      }
    }
  }

  /**
   "Every event is analysed in the end" is false.  When the events in `bad` always fail, an event is still
   waiting after any long enough run exactly if five of them are older: they fill every batch.
  */
  lemma StarvesExactly(s: State, envs: seq<Env>, bad: set<nat>, r: nat)
    requires AllSteady(envs, bad) && Waits(s, r) && r !in bad && |envs| > |Ahead(s, r)|
    ensures Waits(Run(s, envs), r) <==> |Ahead(s, r) * bad| >= SOC_BATCH_SIZE
  {
    SteadyRun(s, envs, bad, r);
  }

  // ----- Draining -----

  lemma CountStep(rows: seq<Row>, w: set<nat>, limit: nat)
    requires forall i :: i in w ==> i < |rows|
    ensures var batch := Elements(Oldest(w, limit, |rows|));
            batch <= w && |w - batch| == if |w| > limit then |w| - limit else 0
  {
    var batch := Oldest(w, limit, |rows|);
    OldestExactly(w, limit, |rows|);
    ElementsCount(batch);
    assert Before(w, |rows|) == w;
    assert w == Elements(batch) + (w - Elements(batch));
  }

  function Left(n: nat, batch: nat, polls: nat): nat { if n > batch * polls then n - batch * polls else 0 }

  ghost predicate Ideal(envs: seq<Env>) {
    AllSteady(envs, {}) && forall k :: 0 <= k < |envs| ==> envs[k].arrivals == []
  }

  lemma IdealPoll(s: State, env: Env)
    requires Steady(env, {}) && env.arrivals == []
    ensures |ModelSet(Next(s, env).rows)| == Left(|ModelSet(s.rows)|, SOC_BATCH_SIZE, 1)
    ensures |RuleSet(Next(s, env).rows)| == Left(|RuleSet(s.rows)|, SOC_RULE_BATCH_SIZE, 1)
  {
    var rows, rows1 := s.rows, AfterPoll(s, env).rows;
    SteadyPoll(s, env, {});
    assert rows1 + [] == rows1;
    ModelCount(rows, rows1, env);
    RuleCount(rows, rows1, env);
  }

  lemma ModelCount(rows: seq<Row>, rows1: seq<Row>, env: Env)
    requires !env.fetchFails && ModelSet(rows1) == ModelSet(rows) - (Elements(ModelBatch(rows, env)) - {})
    ensures |ModelSet(rows1)| == Left(|ModelSet(rows)|, SOC_BATCH_SIZE, 1)
  {
    CountStep(rows, ModelSet(rows), SOC_BATCH_SIZE);
    assert Elements(ModelBatch(rows, env)) - {} == Elements(ModelBatch(rows, env));
  }

  lemma RuleCount(rows: seq<Row>, rows1: seq<Row>, env: Env)
    requires !env.rulesFail && env.taken == {} && RuleSet(rows1) == RuleSet(rows) - Elements(RuleBatch(rows, env))
    ensures |RuleSet(rows1)| == Left(|RuleSet(rows)|, SOC_RULE_BATCH_SIZE, 1)
  {
    CountStep(rows, RuleSet(rows), SOC_RULE_BATCH_SIZE);
    assert RuleSet(rows) - env.taken == RuleSet(rows);
  }

  lemma {:induction false} DrainStep(s: State, envs: seq<Env>)
    requires Ideal(envs)
    ensures |ModelSet(Run(s, envs).rows)| == Left(|ModelSet(s.rows)|, SOC_BATCH_SIZE, |envs|)
    ensures |RuleSet(Run(s, envs).rows)| == Left(|RuleSet(s.rows)|, SOC_RULE_BATCH_SIZE, |envs|)
  {
    if envs != [] {
      DrainStep(s, envs[..|envs| - 1]);
      IdealPoll(Run(s, envs[..|envs| - 1]), envs[|envs| - 1]);
    }
  }

  /** Without failures and arrivals, n model-judged events take ceil(n/5) polls and m rule-judged ones ceil(m/500). */
  lemma DrainsExactly(s: State, envs: seq<Env>)
    requires Ideal(envs)
    ensures ModelSet(Run(s, envs).rows) == {} <==> |envs| >= (|ModelSet(s.rows)| + 4) / 5
    ensures RuleSet(Run(s, envs).rows) == {} <==> |envs| >= (|RuleSet(s.rows)| + 499) / 500
  {
    DrainStep(s, envs);
  }

  // ----- The worker -----

  lemma RuleBatchIsOrdered(rows: seq<Row>, env: Env)
    ensures Increasing(RuleBatch(rows, env))
    ensures forall k :: 0 <= k < |RuleBatch(rows, env)| ==> RuleBatch(rows, env)[k] < |rows|
  {
    var logs := RuleBatch(rows, env);
    OldestExactly(RuleSet(rows) - env.taken, SOC_RULE_BATCH_SIZE, |rows|);
    assert forall k :: 0 <= k < |logs| ==> logs[k] in logs;
  }

  lemma CloseNothing(rows: seq<Row>, env: Env)
    ensures CloseRules(rows, [], env) == rows
  {
  }

  lemma CloseNext(rows: seq<Row>, logs: seq<nat>, k: nat, env: Env)
    requires k < |logs| && Increasing(logs) && logs[k] < |rows|
    ensures var rows1 := CloseRules(rows, logs[..k], env);
            && rows1[logs[k]] == rows[logs[k]]
            && CloseRules(rows, logs[..k + 1], env) == rows1[logs[k] := SettleByRules(rows[logs[k]], env)]
  {
    assert logs[..k + 1] == logs[..k] + [logs[k]];
    assert forall i :: i in logs[..k + 1] <==> i in logs[..k] || i == logs[k];
  }

  class SocWorker {
    var rows: seq<Row>
    var backoff: nat
    var llmDown: bool
    var messages: seq<Message>

    function View(): State
      reads this
    {
      State(rows, backoff, llmDown, messages)
    }

    constructor (logs: seq<Row>)
      ensures View() == State(logs, SOC_POLL_SECONDS, false, []) && Alternate(View())
    {
      rows, backoff, llmDown, messages := logs, SOC_POLL_SECONDS, false, [];
    }

    method CloseRuleJudgedLogs(env: Env) returns (closed: nat)
      modifies this`rows
      ensures rows == CloseRules(old(rows), RuleBatch(old(rows), env), env)
      ensures closed == |RuleBatch(old(rows), env)|
      ensures |rows| == |old(rows)| && forall i: nat :: i < |rows| ==> StoredRight(old(rows)[i], rows[i], i, env)
    {
      forall i: nat | i < |rows|
        ensures StoredRight(rows[i], CloseRules(rows, RuleBatch(rows, env), env)[i], i, env)
      {
        ClosedRight(rows, env, i);
      }
      var logs := RuleBatch(rows, env);
      RuleBatchIsOrdered(rows, env);
      CloseLogs(logs, env);
      closed := |logs|;
    }

    method CloseLogs(logs: seq<nat>, env: Env)
      requires Increasing(logs) && forall k :: 0 <= k < |logs| ==> logs[k] < |rows|
      modifies this`rows
      ensures rows == CloseRules(old(rows), logs, env)
    {
      CloseNothing(rows, env);
      for k := 0 to |logs|
        invariant rows == CloseRules(old(rows), logs[..k], env)
      {
        CloseNext(old(rows), logs, k, env);
        rows := rows[logs[k] := SettleByRules(rows[logs[k]], env)];
      }
      assert logs[..|logs|] == logs;
    }

    method SaveVerdict(i: nat, malicious: bool, reasoning: string, env: Env) returns (saved: bool)
      requires i < |rows|
      modifies this`rows
      ensures rows == Save(old(rows), i, malicious, reasoning, env)
      ensures saved <==> Pending(old(rows)[i]) && i !in env.taken
    {
      saved := Pending(rows[i]) && i !in env.taken;
      if saved {
        rows := rows[i := Settle(rows[i], malicious, reasoning, env.now)];
      }
    }

    /** The loop over one batch; a connection error is an outage, a failed write only ends the batch. */
    method AnalyseBatch(batch: seq<nat>, env: Env) returns (outage: bool)
      requires forall i :: i in batch ==> i < |rows|
      modifies this`rows, this`llmDown, this`messages
      ensures (View(), outage) == Analyse(old(View()), batch, env)
      ensures |rows| == |old(rows)|
      ensures forall i: nat :: i < |rows| && rows[i] != old(rows)[i] ==>
                i in batch && AnswerStored(old(rows)[i], rows[i], i, env)
    {
      ghost var s := View();
      forall i: nat | i < |rows| && Analyse(s, batch, env).0.rows[i] != rows[i]
        ensures i in batch && AnswerStored(rows[i], Analyse(s, batch, env).0.rows[i], i, env)
      {
        BatchStoresAnswers(s, batch, env, i);
      }
      outage := false;
      for k := 0 to |batch|
        invariant |rows| == |old(rows)| && !outage
        invariant Analyse(View(), batch[k..], env) == Analyse(old(View()), batch, env)
      {
        var attempt := env.attempt(batch[k]);
        assert batch[k..][0] == batch[k] && batch[k..][1..] == batch[k + 1..];
        if attempt.NoConnection? {
          outage := true;
          return;
        }
        if attempt.Failed? {
          continue;
        }
        if llmDown {
          llmDown := false;
          messages := messages + [ReachableAgain];
        }
        if batch[k] in env.saveFails {
          return;
        }
        assert batch[k] in batch;
        var _ := SaveVerdict(batch[k], attempt.malicious, attempt.reasoning, env);
      }
    }

    /** One pass of the endless loop, up to its sleep. */
    method Poll(env: Env) returns (delay: nat)
      modifies this
      ensures View() == AfterPoll(old(View()), env)
      ensures delay == Delay(old(View()), env)
      ensures |rows| == |old(rows)| && forall i: nat :: i < |rows| ==> StoredRight(old(rows)[i], rows[i], i, env)
    {
      ghost var s := View();
      forall i: nat | i < |rows|
        ensures |AfterPoll(s, env).rows| == |rows| && StoredRight(rows[i], AfterPoll(s, env).rows[i], i, env)
      {
        PollStoresVerdicts(s, env, i);
      }
      var _ := CloseRuleJudgedLogs(env);
      var batch := ModelBatch(rows, env);
      OldestExactly(ModelSet(rows), SOC_BATCH_SIZE, |rows|);
      var outage := AnalyseBatch(batch, env);
      if outage {
        if !llmDown {
          llmDown := true;
          messages := messages + [Unreachable];
        }
        delay, backoff := backoff, Min(backoff * 2, SOC_MAX_BACKOFF_SECONDS);
      } else {
        delay, backoff := SOC_POLL_SECONDS, SOC_POLL_SECONDS;
      }
    }
  }
}
