/** What holds in every state that any interleaving of the transactions can reach. */
module EconomyRuns {
  import opened Options
  import opened Sets
  import opened Forensics
  import opened Economy

  // ----- Reading the ledger -----

  function CreditTo(e: Entry, i: SessionId): int { if e.Judged? && e.session == i then e.credits else 0 }

  function PaidBy(e: Entry, i: SessionId): int { if e.Bought? && e.session == i then Price(e.defense) else 0 }

  function Buys(e: Entry, i: SessionId, d: Defense): nat { if e == Bought(i, d) then 1 else 0 }

  function Closes(e: Entry, l: LogId): nat {
    match e
    case Judged(log, _, _) => if log == l then 1 else 0
    case ClosedLogs(logs) => if l in logs then 1 else 0
    case Bought(_, _) => 0
  }

  function Earned(ledger: seq<Entry>, i: SessionId): int {
    if ledger == [] then 0 else Earned(ledger[..|ledger| - 1], i) + CreditTo(ledger[|ledger| - 1], i)
  }

  function Spent(ledger: seq<Entry>, i: SessionId): int {
    if ledger == [] then 0 else Spent(ledger[..|ledger| - 1], i) + PaidBy(ledger[|ledger| - 1], i)
  }

  function Purchases(ledger: seq<Entry>, i: SessionId, d: Defense): nat {
    if ledger == [] then 0 else Purchases(ledger[..|ledger| - 1], i, d) + Buys(ledger[|ledger| - 1], i, d)
  }

  function Closings(ledger: seq<Entry>, l: LogId): nat {
    if ledger == [] then 0 else Closings(ledger[..|ledger| - 1], l) + Closes(ledger[|ledger| - 1], l)
  }

  lemma OneMoreEntry(ledger: seq<Entry>, e: Entry)
    ensures forall i :: Earned(ledger + [e], i) == Earned(ledger, i) + CreditTo(e, i)
    ensures forall i :: Spent(ledger + [e], i) == Spent(ledger, i) + PaidBy(e, i)
    ensures forall i, d :: Purchases(ledger + [e], i, d) == Purchases(ledger, i, d) + Buys(e, i, d)
    ensures forall l :: Closings(ledger + [e], l) == Closings(ledger, l) + Closes(e, l)
  {
    assert (ledger + [e])[..|ledger|] == ledger;
  }

  // ----- The invariant: the rows are what the ledger says -----

  function BoolToNat(b: bool): nat { if b then 1 else 0 }

  /** A start state: nobody is at work, nothing is owed, and no pending event is marked compromised. */
  ghost predicate Fresh(base: State) {
    && base.txs == map[] && base.logLocks == map[] && base.sessionLocks == map[] && base.ledger == []
    && (forall i <- base.sessions :: base.sessions[i].budget >= 0)
    && (forall l <- base.logs :: base.logs[l].compromised ==> base.logs[l].investigatedAt.Some?)
  }

  ghost predicate SessionBooks(base: State, s: State) {
    && s.sessions.Keys == base.sessions.Keys
    && forall i <- s.sessions ::
         && s.sessions[i].lab == base.sessions[i].lab && s.sessions[i].isSolo == base.sessions[i].isSolo
         && s.sessions[i].budget == base.sessions[i].budget + Earned(s.ledger, i) - Spent(s.ledger, i)
         && s.sessions[i].budget >= 0
  }

  ghost predicate DefenseBooks(base: State, s: State) {
    && s.sessions.Keys == base.sessions.Keys
    && forall i, d :: i in s.sessions ==>
         BoolToNat(Owns(s.sessions[i], d)) == BoolToNat(Owns(base.sessions[i], d)) + Purchases(s.ledger, i, d)
  }

  /** Before or during the run, a log is closed at most once, and it is investigated exactly if it was closed. */
  ghost predicate LogBooks(base: State, s: State) {
    && base.logs.Keys <= s.logs.Keys
    && (forall l <- s.logs ::
          BoolToNat(s.logs[l].investigatedAt.Some?)
          == BoolToNat(l in base.logs && base.logs[l].investigatedAt.Some?) + Closings(s.ledger, l))
    && (forall l :: l !in s.logs ==> Closings(s.ledger, l) == 0)
  }

  /** The keys that a rule reads. */
  function RuleKeys(p: Payload): (Option<string>, Option<int>, Option<string>) {
    (p.indexing, p.failedUsernames, p.claimedRole)
  }

  ghost predicate VerdictBooks(base: State, s: State, heuristic: Payload -> bool) {
    && base.logs.Keys <= s.logs.Keys
    && (forall l <- s.logs :: s.logs[l].compromised ==> s.logs[l].investigatedAt.Some?)
    && (forall l <- base.logs :: s.logs[l].eventType == base.logs[l].eventType
                                 && RuleKeys(s.logs[l].payload) == RuleKeys(base.logs[l].payload))
    && (forall l <- s.logs :: RuleJudged(s.logs[l].eventType) && Closings(s.ledger, l) > 0 ==>
          s.logs[l].compromised == PredictIsMalicious(s.logs[l].payload, s.logs[l].eventType, heuristic))
  }

  ghost predicate Books(base: State, s: State, heuristic: Payload -> bool) {
    SessionBooks(base, s) && DefenseBooks(base, s) && LogBooks(base, s) && VerdictBooks(base, s, heuristic)
  }

  // ----- A commit acts on the current rows, although it writes from its copies -----

  /** Pay on the current row and switch the defense on. */
  ghost predicate BuysNow(s: State, s1: State, i: SessionId, d: Defense) {
    && i in s.sessions && RefusePurchase(s.sessions[i], d).None?
    && s1.sessions == s.sessions[i := Activate(s.sessions[i].(budget := s.sessions[i].budget - Price(d)), d)]
    && s1.logs == s.logs && s1.ledger == s.ledger + [Bought(i, d)]
  }

  /** Judge a log that is pending now and credit the current balance. */
  ghost predicate JudgesNow(s: State, s1: State, request: Request, now: Moment, actual: bool)
    requires request.Investigate?
  {
    var l, i := request.log, request.session;
    && l in s.logs && s.logs[l].investigatedAt.None? && i in s.sessions && s.sessions[i].lab == s.logs[l].lab
    && s1.logs == s.logs[l := s.logs[l].(investigatedAt := Some(now), investigatedBy := Some(request.user),
                                         compromised := actual || s.logs[l].compromised)]
    && s1.sessions == s.sessions[i := s.sessions[i].(budget := s.sessions[i].budget + Credits(request.claim, actual))]
    && s1.ledger == s.ledger + [Judged(l, i, Credits(request.claim, actual))]
  }

  ghost predicate ClosedBy(row: Log, row1: Log, heuristic: Payload -> bool) {
    && row1.investigatedAt.Some? && row1.eventType == row.eventType && row1.lab == row.lab
    && RuleKeys(row1.payload) == RuleKeys(row.payload)
    && (RuleJudged(row.eventType) ==> row1.compromised == PredictIsMalicious(row.payload, row.eventType, heuristic))
  }

  /** Close logs that are all pending now, and change no other row. */
  ghost predicate ClosesNow(s: State, s1: State, closed: set<LogId>, heuristic: Payload -> bool) {
    && closed <= s.logs.Keys && s1.logs.Keys == s.logs.Keys
    && (forall l <- closed :: s.logs[l].investigatedAt.None? && ClosedBy(s.logs[l], s1.logs[l], heuristic))
    && (forall l <- s.logs :: l !in closed ==> s1.logs[l] == s.logs[l])
    && s1.sessions == s.sessions && s1.ledger == s.ledger + [ClosedLogs(closed)]
  }

  lemma CommitBuysNow(s: State, t: TxId, now: Moment, heuristic: Payload -> bool)
    requires LocksOk(s) && Enabled(s, Commit(t, now)) && s.txs[t].phase.ReadyToBuy?
    ensures BuysNow(s, Step(s, Commit(t, now), heuristic), s.txs[t].request.session, s.txs[t].phase.defense)
  {
    assert TxOk(s, t);
  }

  lemma CommitJudgesNow(s: State, t: TxId, now: Moment, heuristic: Payload -> bool)
    requires LocksOk(s) && Enabled(s, Commit(t, now)) && s.txs[t].phase.ReadyToJudge?
    ensures var l := s.txs[t].request.log;
            l in s.logs && JudgesNow(s, Step(s, Commit(t, now), heuristic), s.txs[t].request, now,
                                     PredictIsMalicious(s.logs[l].payload, s.logs[l].eventType, heuristic))
  {
    assert TxOk(s, t);
  }

  lemma CommitClosesNow(s: State, t: TxId, now: Moment, heuristic: Payload -> bool)
    requires LocksOk(s) && Enabled(s, Commit(t, now)) && s.txs[t].phase.ReadyToClose?
    ensures ClosesNow(s, Step(s, Commit(t, now), heuristic), s.txs[t].phase.copies.Keys, heuristic)
  {
    assert TxOk(s, t);
    var copies := s.txs[t].phase.copies;
    forall l | l in copies
      ensures HasLog(s, t, l, copies[l])
    {
    }
  }

  // ----- Each kind of commit keeps the books -----

  lemma BuyKeepsSessionBooks(base: State, s: State, s1: State, i: SessionId, d: Defense)
    requires SessionBooks(base, s) && BuysNow(s, s1, i, d)
    ensures SessionBooks(base, s1)
  {
    OneMoreEntry(s.ledger, Bought(i, d));
    ActivateOwns(s.sessions[i].(budget := s.sessions[i].budget - Price(d)), d);
  }

  lemma BuyKeepsDefenseBooks(base: State, s: State, s1: State, i: SessionId, d: Defense)
    requires DefenseBooks(base, s) && BuysNow(s, s1, i, d)
    ensures DefenseBooks(base, s1)
  {
    OneMoreEntry(s.ledger, Bought(i, d));
    var paid := s.sessions[i].(budget := s.sessions[i].budget - Price(d));
    ActivateOwns(paid, d);
    assert forall other :: Owns(paid, other) == Owns(s.sessions[i], other);
  }

  lemma BuyKeepsLogBooks(base: State, s: State, s1: State, i: SessionId, d: Defense, heuristic: Payload -> bool)
    requires LogBooks(base, s) && VerdictBooks(base, s, heuristic) && BuysNow(s, s1, i, d)
    ensures LogBooks(base, s1) && VerdictBooks(base, s1, heuristic)
  {
    OneMoreEntry(s.ledger, Bought(i, d));
  }

  lemma JudgeKeepsSessionBooks(base: State, s: State, s1: State, request: Request, now: Moment, actual: bool)
    requires request.Investigate? && JudgesNow(s, s1, request, now, actual)
    requires SessionBooks(base, s)
    ensures SessionBooks(base, s1)
  {
    OneMoreEntry(s.ledger, Judged(request.log, request.session, Credits(request.claim, actual)));
  }

  lemma JudgeKeepsDefenseBooks(base: State, s: State, s1: State, request: Request, now: Moment, actual: bool)
    requires request.Investigate? && JudgesNow(s, s1, request, now, actual)
    requires DefenseBooks(base, s)
    ensures DefenseBooks(base, s1)
  {
    OneMoreEntry(s.ledger, Judged(request.log, request.session, Credits(request.claim, actual)));
    assert forall d :: Owns(s1.sessions[request.session], d) == Owns(s.sessions[request.session], d);
  }

  lemma JudgeKeepsLogBooks(base: State, s: State, s1: State, request: Request, now: Moment, actual: bool)
    requires request.Investigate? && JudgesNow(s, s1, request, now, actual) && LogBooks(base, s)
    ensures LogBooks(base, s1)
  {
    OneMoreEntry(s.ledger, Judged(request.log, request.session, Credits(request.claim, actual)));
  }

  lemma JudgeKeepsVerdictBooks(base: State, s: State, s1: State, request: Request, now: Moment, heuristic: Payload -> bool)
    requires request.Investigate? && request.log in s.logs
    requires JudgesNow(s, s1, request, now,
                       PredictIsMalicious(s.logs[request.log].payload, s.logs[request.log].eventType, heuristic))
    requires LogBooks(base, s) && VerdictBooks(base, s, heuristic)
    ensures VerdictBooks(base, s1, heuristic)
  {
    OneMoreEntry(s.ledger, s1.ledger[|s.ledger|]);
  }

  lemma CloseKeepsLogBooks(base: State, s: State, s1: State, closed: set<LogId>, heuristic: Payload -> bool)
    requires ClosesNow(s, s1, closed, heuristic) && LogBooks(base, s)
    ensures LogBooks(base, s1)
  {
    OneMoreEntry(s.ledger, ClosedLogs(closed));
  }

  lemma CloseKeepsVerdictBooks(base: State, s: State, s1: State, closed: set<LogId>, heuristic: Payload -> bool)
    requires ClosesNow(s, s1, closed, heuristic) && VerdictBooks(base, s, heuristic)
    ensures VerdictBooks(base, s1, heuristic)
  {
    OneMoreEntry(s.ledger, ClosedLogs(closed));
  }

  lemma CloseKeepsSessionBooks(base: State, s: State, s1: State, closed: set<LogId>, heuristic: Payload -> bool)
    requires ClosesNow(s, s1, closed, heuristic) && SessionBooks(base, s) && DefenseBooks(base, s)
    ensures SessionBooks(base, s1) && DefenseBooks(base, s1)
  {
    OneMoreEntry(s.ledger, ClosedLogs(closed));
  }

  lemma CommitKeepsBooks(base: State, s: State, t: TxId, now: Moment, heuristic: Payload -> bool)
    requires Books(base, s, heuristic) && LocksOk(s) && Enabled(s, Commit(t, now))
    ensures Books(base, Step(s, Commit(t, now), heuristic), heuristic)
  {
    var request := s.txs[t].request;
    var s1 := Step(s, Commit(t, now), heuristic);
    match s.txs[t].phase
    case ReadyToBuy(_, d) =>
      CommitBuysNow(s, t, now, heuristic);
      BuyKeepsSessionBooks(base, s, s1, request.session, d);
      BuyKeepsDefenseBooks(base, s, s1, request.session, d);
      BuyKeepsLogBooks(base, s, s1, request.session, d, heuristic);
    case ReadyToJudge(_, _) =>
      CommitJudgesNow(s, t, now, heuristic);
      var row := s.logs[request.log];
      var actual := PredictIsMalicious(row.payload, row.eventType, heuristic);
      JudgeKeepsSessionBooks(base, s, s1, request, now, actual);
      JudgeKeepsDefenseBooks(base, s, s1, request, now, actual);
      JudgeKeepsLogBooks(base, s, s1, request, now, actual);
      JudgeKeepsVerdictBooks(base, s, s1, request, now, heuristic);
    case ReadyToClose(copies) =>
      CommitClosesNow(s, t, now, heuristic);
      CloseKeepsLogBooks(base, s, s1, copies.Keys, heuristic);
      CloseKeepsVerdictBooks(base, s, s1, copies.Keys, heuristic);
      CloseKeepsSessionBooks(base, s, s1, copies.Keys, heuristic);
  }

  lemma RecordKeepsLogBooks(base: State, s: State, l: LogId, row: Log)
    requires LogBooks(base, s) && l !in s.logs && row.investigatedAt.None?
    ensures LogBooks(base, s.(logs := s.logs[l := row]))
  {
  }

  lemma RecordKeepsVerdictBooks(base: State, s: State, l: LogId, row: Log, heuristic: Payload -> bool)
    requires LogBooks(base, s) && VerdictBooks(base, s, heuristic) && l !in s.logs && !row.compromised
    ensures VerdictBooks(base, s.(logs := s.logs[l := row]), heuristic)
  {
  }

  /** Recording a new event: the only other step that touches a row. */
  lemma RecordKeepsBooks(base: State, s: State, l: LogId, row: Log, heuristic: Payload -> bool)
    requires Books(base, s, heuristic) && l !in s.logs && row.investigatedAt.None? && !row.compromised
    ensures Books(base, s.(logs := s.logs[l := row]), heuristic)
  {
    RecordKeepsLogBooks(base, s, l, row);
    RecordKeepsVerdictBooks(base, s, l, row, heuristic);
  }

  ghost predicate SameRows(s: State, s1: State) {
    s1.logs == s.logs && s1.sessions == s.sessions && s1.ledger == s.ledger
  }

  lemma LockSessionIsQuiet(s: State, t: TxId)
    requires Enabled(s, LockSession(t))
    ensures SameRows(s, OnLockSession(s, t, true))
  {
  }

  lemma LockLogIsQuiet(s: State, t: TxId)
    requires Enabled(s, LockLog(t))
    ensures SameRows(s, OnLockLog(s, t))
  {
  }

  lemma LockPendingIsQuiet(s: State, t: TxId, chosen: set<LogId>)
    requires t in s.txs && chosen <= s.logs.Keys
    ensures SameRows(s, OnLockPending(s, t, chosen))
  {
  }

  /** Every other step leaves rows and ledger alone. */
  lemma QuietStep(s: State, e: Event, heuristic: Payload -> bool)
    requires LocksOk(s) && Enabled(s, e) && !e.Record? && !e.Commit?
    ensures SameRows(s, Step(s, e, heuristic))
  {
    match e
    case LockLog(t) => LockLogIsQuiet(s, t);
    case LockSession(t) => LockSessionIsQuiet(s, t);
    case LockPending(t, chosen) => LockPendingIsQuiet(s, t, chosen);
    case _ =>
  }

  lemma SameRowsSameBooks(base: State, s: State, s1: State, heuristic: Payload -> bool)
    requires Books(base, s, heuristic) && SameRows(s, s1)
    ensures Books(base, s1, heuristic)
  {
  }

  lemma StepKeepsBooks(base: State, s: State, e: Event, heuristic: Payload -> bool)
    requires Books(base, s, heuristic) && LocksOk(s) && Enabled(s, e)
    ensures Books(base, Step(s, e, heuristic), heuristic)
  {
    if e.Record? {
      RecordKeepsBooks(base, s, e.newLog, Log(e.lab, e.eventType, e.payload, false, None, None), heuristic);
    } else if e.Commit? {
      CommitKeepsBooks(base, s, e.tx, e.now, heuristic);
    } else {
      QuietStep(s, e, heuristic);
      SameRowsSameBooks(base, s, Step(s, e, heuristic), heuristic);
    }
  }

  // ----- Whole runs -----

  /** Each event is enabled in the state in which it happens. */
  ghost predicate LegalRun(s: State, es: seq<Event>, heuristic: Payload -> bool)
    requires LocksOk(s)
    decreases |es|
  {
    es != [] ==>
      && Enabled(s, es[0])
      && (StepKeepsLocks(s, es[0], heuristic); LegalRun(Step(s, es[0], heuristic), es[1..], heuristic))
  }

  ghost function Final(s: State, es: seq<Event>, heuristic: Payload -> bool): (r: State)
    requires LocksOk(s) && LegalRun(s, es, heuristic)
    ensures LocksOk(r)
    decreases |es|
  {
    if es == [] then s
    else
      StepKeepsLocks(s, es[0], heuristic);
      Final(Step(s, es[0], heuristic), es[1..], heuristic)
  }

  lemma FreshIsRight(base: State, heuristic: Payload -> bool)
    requires Fresh(base)
    ensures LocksOk(base) && Books(base, base, heuristic)
  {
  }

  lemma {:induction false} RunKeepsBooks(base: State, s: State, es: seq<Event>, heuristic: Payload -> bool)
    requires Books(base, s, heuristic) && LocksOk(s) && LegalRun(s, es, heuristic)
    ensures Books(base, Final(s, es, heuristic), heuristic)
    decreases |es|
  {
    if es != [] {
      StepKeepsLocks(s, es[0], heuristic);
      StepKeepsBooks(base, s, es[0], heuristic);
      RunKeepsBooks(base, Step(s, es[0], heuristic), es[1..], heuristic);
    }
  }

  /** Budget = initial budget + credits awarded - prices paid, in every run, and it never goes negative. */
  lemma BudgetIsConserved(base: State, es: seq<Event>, heuristic: Payload -> bool, i: SessionId)
    requires Fresh(base) && LegalRun(base, es, heuristic) && i in base.sessions
    ensures var s := Final(base, es, heuristic);
            i in s.sessions && s.sessions[i].budget >= 0
            && s.sessions[i].budget == base.sessions[i].budget + Earned(s.ledger, i) - Spent(s.ledger, i)
  {
    FreshIsRight(base, heuristic);
    RunKeepsBooks(base, base, es, heuristic);
  }

  /** A defense is charged at most once, only if it was off, and it is on exactly if it was on or bought. */
  lemma DefensesAreChargedOnce(base: State, es: seq<Event>, heuristic: Payload -> bool, i: SessionId, d: Defense)
    requires Fresh(base) && LegalRun(base, es, heuristic) && i in base.sessions
    ensures var s := Final(base, es, heuristic);
            && i in s.sessions
            && Purchases(s.ledger, i, d) <= (if Owns(base.sessions[i], d) then 0 else 1)
            && (Owns(s.sessions[i], d) <==> Owns(base.sessions[i], d) || Purchases(s.ledger, i, d) == 1)
  {
    FreshIsRight(base, heuristic);
    RunKeepsBooks(base, base, es, heuristic);
    var s := Final(base, es, heuristic);
    assert BoolToNat(Owns(s.sessions[i], d)) == BoolToNat(Owns(base.sessions[i], d)) + Purchases(s.ledger, i, d);
  }

  /** How often a log was judged for credits. */
  function Judgings(ledger: seq<Entry>, l: LogId): nat {
    if ledger == [] then 0
    else
      var e := ledger[|ledger| - 1];
      Judgings(ledger[..|ledger| - 1], l) + (if e.Judged? && e.log == l then 1 else 0)
  }

  lemma {:induction false} JudgingsAreClosings(ledger: seq<Entry>, l: LogId)
    ensures Judgings(ledger, l) <= Closings(ledger, l)
  {
    if ledger != [] {
      JudgingsAreClosings(ledger[..|ledger| - 1], l);
    }
  }

  /** All three writers together close a log at most once, whenever it was recorded, and credit it at most once. */
  lemma LogsAreClosedOnce(base: State, es: seq<Event>, heuristic: Payload -> bool, l: LogId)
    requires Fresh(base) && LegalRun(base, es, heuristic)
    ensures var s, before := Final(base, es, heuristic), l in base.logs && base.logs[l].investigatedAt.Some?;
            && Judgings(s.ledger, l) <= Closings(s.ledger, l) <= (if before then 0 else 1)
            && (l in base.logs ==> l in s.logs)
            && (l in s.logs ==>
                  && (s.logs[l].investigatedAt.Some? <==> before || Closings(s.ledger, l) == 1)
                  && (s.logs[l].compromised ==> s.logs[l].investigatedAt.Some?))
  {
    FreshIsRight(base, heuristic);
    RunKeepsBooks(base, base, es, heuristic);
    JudgingsAreClosings(Final(base, es, heuristic).ledger, l);
  }

  /** No event loses or changes what the rules read of a log. */
  ghost predicate KeepsKinds(s: State, s1: State) {
    forall l <- s.logs ::
      l in s1.logs && s1.logs[l].eventType == s.logs[l].eventType
      && RuleKeys(s1.logs[l].payload) == RuleKeys(s.logs[l].payload)
  }

  lemma CommitKeepsKinds(s: State, t: TxId, now: Moment, heuristic: Payload -> bool)
    requires LocksOk(s) && Enabled(s, Commit(t, now))
    ensures KeepsKinds(s, Step(s, Commit(t, now), heuristic))
  {
    match s.txs[t].phase
    case ReadyToBuy(_, _) => CommitBuysNow(s, t, now, heuristic);
    case ReadyToJudge(_, _) => CommitJudgesNow(s, t, now, heuristic);
    case ReadyToClose(_) => CommitClosesNow(s, t, now, heuristic);
  }

  lemma {:induction false} RunKeepsKinds(s: State, es: seq<Event>, heuristic: Payload -> bool)
    requires LocksOk(s) && LegalRun(s, es, heuristic)
    ensures KeepsKinds(s, Final(s, es, heuristic))
    decreases |es|
  {
    if es != [] {
      var e, s1 := es[0], Step(s, es[0], heuristic);
      StepKeepsLocks(s, e, heuristic);
      if e.Commit? {
        CommitKeepsKinds(s, e.tx, e.now, heuristic);
      } else if !e.Record? {
        QuietStep(s, e, heuristic);
      }
      RunKeepsKinds(s1, es[1..], heuristic);
      KindsAddUp(s, s1, Final(s1, es[1..], heuristic));
    }
  }

  lemma KindsAddUp(s: State, s1: State, s2: State)
    requires KeepsKinds(s, s1) && KeepsKinds(s1, s2)
    ensures KeepsKinds(s, s2)
  {
  }

  /** What the rules say of a log as it was in `s`. */
  predicate RuleVerdict(s: State, l: LogId, heuristic: Payload -> bool)
    requires l in s.logs
  {
    PredictIsMalicious(s.logs[l].payload, s.logs[l].eventType, heuristic)
  }

  lemma ClosedWithRuleVerdict(
      base: State, s: State, es: seq<Event>, heuristic: Payload -> bool, l: LogId)
    requires Books(base, s, heuristic) && LocksOk(s) && LegalRun(s, es, heuristic)
    requires l in s.logs && RuleJudged(s.logs[l].eventType) && Closings(Final(s, es, heuristic).ledger, l) > 0
    ensures var s1 := Final(s, es, heuristic); l in s1.logs && s1.logs[l].compromised == RuleVerdict(s, l, heuristic)
  {
    RunKeepsBooks(base, s, es, heuristic);
    RunKeepsKinds(s, es, heuristic);
  }

  /**
   For a rule-judged event the race does not matter.  From any state in which it is recorded, any two
   continuations that have closed it store the same verdict, the one that the rules gave at the start.
  */
  lemma SameVerdictWhoeverWins(
      base: State, es0: seq<Event>, es1: seq<Event>, es2: seq<Event>, heuristic: Payload -> bool, l: LogId)
    requires Fresh(base) && LegalRun(base, es0, heuristic)
    requires LegalRun(Final(base, es0, heuristic), es1, heuristic) && LegalRun(Final(base, es0, heuristic), es2, heuristic)
    requires l in Final(base, es0, heuristic).logs && RuleJudged(Final(base, es0, heuristic).logs[l].eventType)
    requires Closings(Final(Final(base, es0, heuristic), es1, heuristic).ledger, l) > 0
    requires Closings(Final(Final(base, es0, heuristic), es2, heuristic).ledger, l) > 0
    ensures var s0 := Final(base, es0, heuristic);
            var s1, s2 := Final(s0, es1, heuristic), Final(s0, es2, heuristic);
            && l in s1.logs && l in s2.logs
            && s1.logs[l].compromised == s2.logs[l].compromised == RuleVerdict(s0, l, heuristic)
  {
    var s0 := Final(base, es0, heuristic);
    FreshIsRight(base, heuristic);
    RunKeepsBooks(base, base, es0, heuristic);
    ClosedWithRuleVerdict(base, s0, es1, heuristic, l);
    ClosedWithRuleVerdict(base, s0, es2, heuristic, l);
  }

  // ----- Why the locking read refreshes the ORM's object -----

  predicate Granted(s: State, t: TxId)
    requires Enabled(s, LockSession(t))
  {
    !AtSession(s, t, false).Ended?
  }

  /** Without the refresh the copy is current exactly if nobody changed the row since the router read it. */
  lemma UnrefreshedIsCurrentExactly(s: State, t: TxId)
    requires LocksOk(s) && Enabled(s, LockSession(t)) && Granted(s, t)
    ensures var i := s.txs[t].request.session;
            && i in s.sessions && t in OnLockSession(s, t, false).txs
            && (TxOk(OnLockSession(s, t, false), t) <==> s.txs[t].cached.GetOr(s.sessions[i]) == s.sessions[i])
  {
    assert TxOk(s, t);
  }

  /** What a purchase commits that was decided on an object that was not refreshed. */
  lemma UnrefreshedCommit(s: State, t: TxId, now: Moment, heuristic: Payload -> bool)
    requires Enabled(s, LockSession(t)) && s.txs[t].request.Buy? && Granted(s, t)
    ensures var i, s1 := s.txs[t].request.session, OnLockSession(s, t, false);
            && Enabled(s1, Commit(t, now)) && i in s1.sessions && i in s.sessions
            && (var s2, d := OnCommit(s1, t, now, heuristic), s1.txs[t].phase.defense;
                && s2.ledger == s.ledger + [Bought(i, d)] && i in s2.sessions
                && s2.sessions[i].budget == s.txs[t].cached.GetOr(s.sessions[i]).budget - Price(d))
  {
    var i, s1 := s.txs[t].request.session, OnLockSession(s, t, false);
    var paid := s.sessions[i].(budget := s1.txs[t].phase.sessionCopy.budget - Price(s1.txs[t].phase.defense));
    ActivateOwns(paid, s1.txs[t].phase.defense);
  }

  /** How far a session's balance is from what the ledger says it should be. */
  function Error(base: State, s: State, i: SessionId): int
    requires i in base.sessions && i in s.sessions
  {
    s.sessions[i].budget - (base.sessions[i].budget + Earned(s.ledger, i) - Spent(s.ledger, i))
  }

  /** Such a purchase undoes whatever was committed since the router's read, to the last credit. */
  lemma UnrefreshedLosesUpdates(base: State, s: State, t: TxId, now: Moment, heuristic: Payload -> bool)
    requires SessionBooks(base, s) && Enabled(s, LockSession(t)) && s.txs[t].request.Buy? && Granted(s, t)
    ensures var i, s1 := s.txs[t].request.session, OnLockSession(s, t, false);
            && Enabled(s1, Commit(t, now)) && i in s1.sessions && i in s.sessions
            && (var s2 := OnCommit(s1, t, now, heuristic);
                && i in s2.sessions && i in base.sessions
                && Error(base, s2, i) == s.txs[t].cached.GetOr(s.sessions[i]).budget - s.sessions[i].budget)
  {
    UnrefreshedCommit(s, t, now, heuristic);
    var i, s1 := s.txs[t].request.session, OnLockSession(s, t, false);
    OneMoreEntry(s.ledger, Bought(i, s1.txs[t].phase.defense));
  }

  const SHOP := Session(0, true, 5, DEFAULT_PROMPT, false, false, false, false)
  const OPEN_SHOP := State(map[], map[0 := SHOP], map[], map[], map[], [])

  /** One event in front of a run. */
  lemma InFront(s: State, e: Event, es: seq<Event>, heuristic: Payload -> bool)
    requires LocksOk(s) && Enabled(s, e) && LocksOk(Step(s, e, heuristic)) && LegalRun(Step(s, e, heuristic), es, heuristic)
    ensures LegalRun(s, [e] + es, heuristic)
    ensures Final(s, [e] + es, heuristic) == Final(Step(s, e, heuristic), es, heuristic)
  {
    assert ([e] + es)[1..] == es;
  }

  const FIRST := Begin(1, Buy(0, "rate_limit"))
  const SECOND := Begin(2, Buy(0, "jwt_filter"))
  const WAITING := Tx(Buy(0, "jwt_filter"), Some(SHOP), Started)
  const ONE_BEGUN := OPEN_SHOP.(txs := map[1 := Tx(Buy(0, "rate_limit"), Some(SHOP), Started)])
  const BOTH_BEGUN := ONE_BEGUN.(txs := ONE_BEGUN.txs[2 := WAITING])

  lemma BothBegin(heuristic: Payload -> bool)
    ensures Fresh(OPEN_SHOP) && LocksOk(OPEN_SHOP) && LocksOk(ONE_BEGUN) && LocksOk(BOTH_BEGUN)
    ensures Enabled(OPEN_SHOP, FIRST) && Step(OPEN_SHOP, FIRST, heuristic) == ONE_BEGUN
    ensures Enabled(ONE_BEGUN, SECOND) && Step(ONE_BEGUN, SECOND, heuristic) == BOTH_BEGUN
  {
  }

  lemma FirstLocks(heuristic: Payload -> bool)
    requires LocksOk(BOTH_BEGUN)
    ensures Enabled(BOTH_BEGUN, LockSession(1))
    ensures var s := Step(BOTH_BEGUN, LockSession(1), heuristic);
            && s.txs == BOTH_BEGUN.txs[1 := BOTH_BEGUN.txs[1].(phase := ReadyToBuy(SHOP, RateLimit))]
            && s.sessions == BOTH_BEGUN.sessions && s.sessionLocks == map[0 := 1] && s.ledger == []
  {
  }

  /** The first one has spent 3 of the balance of 5; the second one still has the object with 5. */
  lemma FirstBuys(heuristic: Payload -> bool)
    requires LocksOk(BOTH_BEGUN)
    ensures var es := [LockSession(1)] + ([Commit(1, 0)] + []);
            && LegalRun(BOTH_BEGUN, es, heuristic)
            && (var s := Final(BOTH_BEGUN, es, heuristic);
                && 2 in s.txs && s.txs[2] == WAITING && s.sessionLocks == map[]
                && s.sessions == map[0 := SHOP.(budget := 2, rateLimitEnabled := true)])
  {
    FirstLocks(heuristic);
    StepKeepsLocks(BOTH_BEGUN, LockSession(1), heuristic);
    var s := Step(BOTH_BEGUN, LockSession(1), heuristic);
    StepKeepsLocks(s, Commit(1, 0), heuristic);
    InFront(s, Commit(1, 0), [], heuristic);
    InFront(BOTH_BEGUN, LockSession(1), [Commit(1, 0)] + [], heuristic);
  }

  lemma SecondMayLock(s: State)
    requires 2 in s.txs && s.txs[2] == WAITING && s.sessionLocks == map[] && 0 in s.sessions
    ensures Enabled(s, LockSession(2)) && Granted(s, 2)
  {
  }

  /** A lost update is one unrefreshed lock away: two purchases begin on 5 credits, and one of them commits. */
  lemma StaleObjectIsReachable(heuristic: Payload -> bool) returns (es: seq<Event>)
    ensures es == [FIRST, SECOND, LockSession(1), Commit(1, 0)]
    ensures Fresh(OPEN_SHOP) && LegalRun(OPEN_SHOP, es, heuristic)
    ensures var s := Final(OPEN_SHOP, es, heuristic);
            && Enabled(s, LockSession(2)) && Granted(s, 2) && 0 in s.sessions
            && s.txs[2].cached == Some(SHOP) && s.sessions[0].budget == 2
  {
    BothBegin(heuristic);
    FirstBuys(heuristic);
    es := [LockSession(1)] + ([Commit(1, 0)] + []);
    SecondMayLock(Final(BOTH_BEGUN, es, heuristic));
    InFront(ONE_BEGUN, SECOND, es, heuristic);
    es := [SECOND] + es;
    InFront(OPEN_SHOP, FIRST, es, heuristic);
    es := [FIRST] + es;
  }

  ghost predicate KeepsDecisions(s: State, s1: State) {
    && (forall l <- s.logs :: s.logs[l].investigatedAt.Some? ==> l in s1.logs && s1.logs[l] == s.logs[l])
    && (forall i, d :: i in s.sessions && Owns(s.sessions[i], d) ==> i in s1.sessions && Owns(s1.sessions[i], d))
  }

  lemma BuyKeepsDecisions(s: State, s1: State, i: SessionId, d: Defense)
    requires BuysNow(s, s1, i, d)
    ensures KeepsDecisions(s, s1)
  {
    var row := s.sessions[i];
    ActivateOwns(row.(budget := row.budget - Price(d)), d);
    assert forall other :: Owns(row.(budget := row.budget - Price(d)), other) == Owns(row, other);
  }

  lemma JudgeKeepsDecisions(s: State, s1: State, request: Request, now: Moment, actual: bool)
    requires request.Investigate? && JudgesNow(s, s1, request, now, actual)
    ensures KeepsDecisions(s, s1)
  {
    assert forall d :: Owns(s1.sessions[request.session], d) == Owns(s.sessions[request.session], d);
  }

  lemma CloseKeepsDecisions(s: State, s1: State, closed: set<LogId>, heuristic: Payload -> bool)
    requires ClosesNow(s, s1, closed, heuristic)
    ensures KeepsDecisions(s, s1)
  {
  }

  /** A step leaves every field of an investigated event and every active defense as they are. */
  lemma StepKeepsDecisions(s: State, e: Event, heuristic: Payload -> bool)
    requires LocksOk(s) && Enabled(s, e)
    ensures KeepsDecisions(s, Step(s, e, heuristic))
  {
    var s1 := Step(s, e, heuristic);
    if e.Commit? {
      CommitKeepsDecisions(s, e.tx, e.now, heuristic);
    } else if !e.Record? {
      QuietStep(s, e, heuristic);
    }
  }

  lemma CommitKeepsDecisions(s: State, t: TxId, now: Moment, heuristic: Payload -> bool)
    requires LocksOk(s) && Enabled(s, Commit(t, now))
    ensures KeepsDecisions(s, Step(s, Commit(t, now), heuristic))
  {
    var request, s1 := s.txs[t].request, Step(s, Commit(t, now), heuristic);
    match s.txs[t].phase {
      case ReadyToBuy(_, d) =>
        CommitBuysNow(s, t, now, heuristic);
        BuyKeepsDecisions(s, s1, request.session, d);
      case ReadyToJudge(_, _) =>
        CommitJudgesNow(s, t, now, heuristic);
        var log := s.logs[request.log];
        assert TxOk(s, t);
        JudgeKeepsDecisions(s, s1, request, now, PredictIsMalicious(log.payload, log.eventType, heuristic));
      case ReadyToClose(copies) =>
        CommitClosesNow(s, t, now, heuristic);
        CloseKeepsDecisions(s, s1, copies.Keys, heuristic);
    }
  }

  /** Later verdicts are discarded with no field changed, and no defense is ever switched off, in any run. */
  lemma {:induction false} DecisionsAreFinal(s: State, es: seq<Event>, heuristic: Payload -> bool)
    requires LocksOk(s) && LegalRun(s, es, heuristic)
    ensures KeepsDecisions(s, Final(s, es, heuristic))
    decreases |es|
  {
    if es != [] {
      var s1 := Step(s, es[0], heuristic);
      StepKeepsLocks(s, es[0], heuristic);
      StepKeepsDecisions(s, es[0], heuristic);
      DecisionsAreFinal(s1, es[1..], heuristic);
      DecisionsAddUp(s, s1, Final(s1, es[1..], heuristic));
    }
  }

  lemma DecisionsAddUp(s: State, s1: State, s2: State)
    requires KeepsDecisions(s, s1) && KeepsDecisions(s1, s2)
    ensures KeepsDecisions(s, s2)
  {
  }

  // ----- No deadlock -----

  ghost predicate Unfinished(s: State, t: TxId) { t in s.txs && !s.txs[t].phase.Ended? }

  /** The event by which an unfinished transaction goes on. */
  function OwnEvent(s: State, t: TxId): Event
    requires t in s.txs && !s.txs[t].phase.Ended?
  {
    var request := s.txs[t].request;
    match s.txs[t].phase
    case Started =>
      if request.Investigate? then LockLog(t)
      else if request.Buy? then LockSession(t)
      else LockPending(t, if request.SaveVerdict? && Pickable(s, request, request.log) then {request.log} else {})
    case HoldingLog(_) => LockSession(t)
    case _ => Commit(t, 0)
  }

  /** Who holds what `t` waits for. */
  function Blocker(s: State, t: TxId): TxId
    requires t in s.txs
  {
    var request := s.txs[t].request;
    if request.Investigate? && s.txs[t].phase.Started? && request.log in s.logLocks then s.logLocks[request.log]
    else if (request.Buy? || request.Investigate?) && request.session in s.sessionLocks then s.sessionLocks[request.session]
    else t
  }

  /** The worker's transactions skip locked rows, so they wait for nobody. */
  lemma SkippersNeverWait(s: State, t: TxId)
    requires LocksOk(s) && Unfinished(s, t)
    ensures s.txs[t].request.SaveVerdict? || s.txs[t].request.CloseRuleJudged? ==> Enabled(s, OwnEvent(s, t))
  {
    assert TxOk(s, t);
    if s.txs[t].request.SaveVerdict? {
      assert |{s.txs[t].request.log}| == 1;
    }
  }

  lemma BlockedByHolder(s: State, t: TxId)
    requires LocksOk(s) && Unfinished(s, t) && !Enabled(s, OwnEvent(s, t))
    ensures var u := Blocker(s, t);
            && Unfinished(s, u)
            && (Enabled(s, OwnEvent(s, u)) || (s.txs[t].phase.Started? && s.txs[u].phase.HoldingLog?))
  {
    assert TxOk(s, t);
    var u := Blocker(s, t);
    var request := s.txs[t].request;
    if request.Investigate? && s.txs[t].phase.Started? {
      assert HoldsLog(s.txs[u], request.log);
    } else if request.Buy? || request.Investigate? {
      assert HoldsSession(s.txs[u], request.session);
    }
    SkippersNeverWait(s, t);
    assert TxOk(s, u);
  }

  /** Log first, session second: some transaction can always go on, whichever one we ask about. */
  lemma NoDeadlock(s: State, t: TxId) returns (runnable: TxId)
    requires LocksOk(s) && Unfinished(s, t)
    ensures Unfinished(s, runnable) && Enabled(s, OwnEvent(s, runnable))
    ensures runnable in {t, Blocker(s, t)} || (Blocker(s, t) in s.txs && runnable == Blocker(s, Blocker(s, t)))
  {
    runnable := t;
    if !Enabled(s, OwnEvent(s, t)) {
      BlockedByHolder(s, t);
      runnable := Blocker(s, t);
      if !Enabled(s, OwnEvent(s, runnable)) {
        BlockedByHolder(s, runnable);
        runnable := Blocker(s, runnable);
      }
    }
  }

  // ----- Everybody finishes -----

  function Rank(p: Phase): nat {
    match p
    case Ended(_) => 0
    case Started => 3
    case HoldingLog(_) => 2
    case _ => 1
  }

  ghost function AtLeast(s: State, k: nat): set<TxId> { set t | t in s.txs && Rank(s.txs[t].phase) >= k }

  /** The steps that the transactions have left. */
  ghost function Work(s: State): nat { |AtLeast(s, 1)| + |AtLeast(s, 2)| + |AtLeast(s, 3)| }

  /** Whatever a transaction turns into, the others stay what they are. */
  ghost predicate OnlyMoves(s: State, s1: State, t: TxId, rank: nat) {
    && t in s.txs && s1.txs.Keys == s.txs.Keys && Rank(s1.txs[t].phase) <= rank
    && forall u <- s.txs :: u != t ==> s1.txs[u] == s.txs[u]
  }

  lemma EndMoves(s: State, t: TxId, reply: Reply)
    requires t in s.txs
    ensures OnlyMoves(s, End(s, t, reply), t, 0)
  {
  }

  lemma SessionLockMoves(s: State, t: TxId, i: SessionId, phase: Phase)
    requires t in s.txs && Rank(phase) == 1
    ensures OnlyMoves(s, WithSessionLock(s, t, i, phase), t, 1)
  {
  }

  lemma LockSessionMoves(s: State, t: TxId)
    requires Enabled(s, LockSession(t))
    ensures OnlyMoves(s, OnLockSession(s, t, true), t, 1)
  {
    var phase := AtSession(s, t, true);
    if phase.Ended? {
      EndMoves(s, t, phase.reply);
    } else {
      SessionLockMoves(s, t, s.txs[t].request.session, phase);
    }
  }

  lemma LockPendingMoves(s: State, t: TxId, chosen: set<LogId>)
    requires t in s.txs && chosen <= s.logs.Keys
    ensures OnlyMoves(s, OnLockPending(s, t, chosen), t, 1)
  {
  }

  lemma LockLogMoves(s: State, t: TxId)
    requires Enabled(s, LockLog(t))
    ensures OnlyMoves(s, OnLockLog(s, t), t, 2)
  {
  }

  lemma CommitMoves(s: State, t: TxId, now: Moment, heuristic: Payload -> bool)
    requires LocksOk(s) && Enabled(s, Commit(t, now))
    ensures OnlyMoves(s, Step(s, Commit(t, now), heuristic), t, 0)
  {
    var s1 := Step(s, Commit(t, now), heuristic);
    CommitEnds(s, t, now, heuristic);
    var reply :| s1.txs == End(s, t, reply).txs;
    EndMoves(s, t, reply);
  }

  lemma OwnEventOf(s: State, t: TxId, heuristic: Payload -> bool)
    requires LocksOk(s) && Unfinished(s, t) && Enabled(s, OwnEvent(s, t))
    ensures OnlyMoves(s, Step(s, OwnEvent(s, t), heuristic), t, Rank(s.txs[t].phase) - 1)
  {
    match OwnEvent(s, t)
    case LockLog(_) => LockLogMoves(s, t);
    case LockSession(_) => LockSessionMoves(s, t);
    case LockPending(_, chosen) =>
      assert forall l <- chosen :: Pickable(s, s.txs[t].request, l);
      LockPendingMoves(s, t, chosen);
    case Commit(_, now) => CommitMoves(s, t, now, heuristic);
  }

  lemma OwnEventWorks(s: State, t: TxId, heuristic: Payload -> bool)
    requires LocksOk(s) && Unfinished(s, t) && Enabled(s, OwnEvent(s, t))
    ensures Work(Step(s, OwnEvent(s, t), heuristic)) < Work(s)
  {
    OwnEventOf(s, t, heuristic);
    var s1 := Step(s, OwnEvent(s, t), heuristic);
    var r := Rank(s.txs[t].phase);
    SubsetSize(AtLeast(s1, 1), AtLeast(s, 1));
    SubsetSize(AtLeast(s1, 2), AtLeast(s, 2));
    SubsetSize(AtLeast(s1, 3), AtLeast(s, 3));
    assert t in AtLeast(s, r) && t !in AtLeast(s1, r);
  }

  /** From every reachable state all transactions can run to their end, in at most `Work` steps. */
  lemma {:induction false} EverybodyFinishes(s: State, heuristic: Payload -> bool) returns (es: seq<Event>)
    requires LocksOk(s)
    ensures LegalRun(s, es, heuristic) && |es| <= Work(s)
    ensures forall t <- Final(s, es, heuristic).txs :: Final(s, es, heuristic).txs[t].phase.Ended?
    decreases Work(s)
  {
    es := [];
    if t :| Unfinished(s, t) {
      var runnable := NoDeadlock(s, t);
      var e := OwnEvent(s, runnable);
      OwnEventWorks(s, runnable, heuristic);
      StepKeepsLocks(s, e, heuristic);
      var rest := EverybodyFinishes(Step(s, e, heuristic), heuristic);
      es := [e] + rest;
      assert es[1..] == rest;
    } else {
      assert forall t <- s.txs :: !Unfinished(s, t);
    }
  }
}
