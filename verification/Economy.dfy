/**
 Purchases, investigations and Auto-SOC verdicts as transactions that race on row locks.

 The router reads the session without a lock, so the ORM already has an object for it when the
 transaction locks the row (`FOR UPDATE`, or `SKIP LOCKED` for the Auto-SOC).  The locking read
 refreshes that object (`populate_existing`); what the transaction decides and writes comes from its
 objects, so an object that was not refreshed would lose an update.
*/
module Economy {
  import opened Options
  import opened Forensics

  type LogId = nat
  type SessionId = nat
  type TxId = nat

  datatype Request =
    | Buy(session: SessionId, defenseType: string)
    | Investigate(log: LogId, claim: bool, session: SessionId, user: nat)
    | SaveVerdict(log: LogId, malicious: bool, reasoning: string)
    | CloseRuleJudged

  /** The copies are the ORM's objects after the locking reads. */
  datatype Phase =
    | Started
    | HoldingLog(logCopy: Log)
    | ReadyToBuy(sessionCopy: Session, defense: Defense)
    | ReadyToJudge(logCopy: Log, sessionCopy: Session)
    | ReadyToClose(copies: map<LogId, Log>)
    | Ended(reply: Reply)

  /** `cached` is the ORM's session object as the router's unlocked read filled it. */
  datatype Tx = Tx(request: Request, cached: Option<Session>, phase: Phase)

  /** What committed transactions did, in commit order. */
  datatype Entry =
    | Bought(session: SessionId, defense: Defense)
    | Judged(log: LogId, session: SessionId, credits: nat)
    | ClosedLogs(logs: set<LogId>)

  datatype State = State(
    logs: map<LogId, Log>,
    sessions: map<SessionId, Session>,
    logLocks: map<LogId, TxId>,
    sessionLocks: map<SessionId, TxId>,
    txs: map<TxId, Tx>,
    ledger: seq<Entry>)

  const RULE_BATCH_SIZE := 500

  datatype Event =
    | Record(newLog: LogId, lab: Lab, eventType: EventType, payload: Payload)
    | Begin(tx: TxId, request: Request)
    | LockLog(tx: TxId)
    | LockSession(tx: TxId)
    | LockPending(tx: TxId, chosen: set<LogId>)
    | Commit(tx: TxId, now: Moment)
    | Abort(tx: TxId)

  // ----- One step of one transaction -----

  function Put(s: State, t: TxId, phase: Phase): State
    requires t in s.txs
  {
    s.(txs := s.txs[t := s.txs[t].(phase := phase)])
  }

  /** The end of a transaction frees every row it holds. */
  function End(s: State, t: TxId, reply: Reply): State
    requires t in s.txs
  {
    Put(s, t, Ended(reply)).(
      logLocks := map l | l in s.logLocks && s.logLocks[l] != t :: s.logLocks[l],
      sessionLocks := map i | i in s.sessionLocks && s.sessionLocks[i] != t :: s.sessionLocks[i])
  }

  predicate Phased(s: State, t: TxId) { t in s.txs && !s.txs[t].phase.Ended? }

  /** Rows that the `SKIP LOCKED` statements may return. */
  predicate Pickable(s: State, request: Request, l: LogId) {
    && l in s.logs && l !in s.logLocks && s.logs[l].investigatedAt.None?
    && match request
       case SaveVerdict(log, _, _) => l == log
       case CloseRuleJudged =>
         RuleJudged(s.logs[l].eventType) && exists i <- s.sessions :: s.sessions[i].lab == s.logs[l].lab && s.sessions[i].isSolo
       case _ => false
  }

  /** The transaction has locked and read everything it needs. */
  predicate Decided(x: Tx) {
    match x.phase
    case ReadyToBuy(_, _) => x.request.Buy?
    case ReadyToJudge(_, _) => x.request.Investigate?
    case ReadyToClose(_) => x.request.SaveVerdict? || x.request.CloseRuleJudged?
    case _ => false
  }

  /** An unknown defense type is refused before the session is read. */
  predicate InvalidPurchase(request: Request) { request.Buy? && ParseDefense(request.defenseType).None? }

  /** The database grants a row lock only when the row is free, and refuses nothing else. */
  predicate Enabled(s: State, e: Event) {
    match e
    case Record(l, _, _, _) => l !in s.logs
    case Begin(t, request) =>
      t !in s.txs
      && (request.SaveVerdict? ==> request.log in s.logs && !RuleJudged(s.logs[request.log].eventType))
    case LockLog(t) =>
      t in s.txs && s.txs[t].request.Investigate? && s.txs[t].phase.Started? && s.txs[t].request.log !in s.logLocks
    case LockSession(t) =>
      && t in s.txs
      && ((s.txs[t].request.Buy? && s.txs[t].phase.Started?) || (s.txs[t].request.Investigate? && s.txs[t].phase.HoldingLog?))
      && (s.txs[t].request.session !in s.sessionLocks || InvalidPurchase(s.txs[t].request))
    case LockPending(t, chosen) =>
      && t in s.txs && s.txs[t].phase.Started?
      && (s.txs[t].request.SaveVerdict? || s.txs[t].request.CloseRuleJudged?)
      && (forall l <- chosen :: Pickable(s, s.txs[t].request, l))
      && |chosen| <= RULE_BATCH_SIZE
      && (s.txs[t].request.SaveVerdict? && Pickable(s, s.txs[t].request, s.txs[t].request.log) ==> chosen != {})
    case Commit(t, _) =>
      t in s.txs && Decided(s.txs[t])
    case Abort(t) => Phased(s, t)
  }

  function WithLogLock(s: State, t: TxId, l: LogId, phase: Phase): State
    requires t in s.txs
  {
    Put(s, t, phase).(logLocks := s.logLocks[l := t])
  }

  function OnLockLog(s: State, t: TxId): State
    requires Enabled(s, LockLog(t))
  {
    var l := s.txs[t].request.log;
    if l !in s.logs then End(s, t, LogNotFound404)
    else if s.logs[l].investigatedAt.Some? then End(s, t, AlreadyInvestigated400)
    else WithLogLock(s, t, l, HoldingLog(s.logs[l]))
  }

  function WithSessionLock(s: State, t: TxId, i: SessionId, phase: Phase): State
    requires t in s.txs
  {
    Put(s, t, phase).(sessionLocks := s.sessionLocks[i := t])
  }

  /**
   The ORM's object after `SELECT ... FOR UPDATE` returned `row`.  An object that is already loaded keeps
   its attributes unless the statement says `populate_existing`.
  */
  function Loaded(cached: Option<Session>, row: Session, populateExisting: bool): Session {
    if populateExisting then row else cached.GetOr(row)
  }

  /** What the transaction decides on when it has the session row. */
  function AtSession(s: State, t: TxId, populateExisting: bool): Phase
    requires Enabled(s, LockSession(t))
  {
    var request := s.txs[t].request;
    var i := request.session;
    var cached := s.txs[t].cached;
    if request.Buy? then
      match ParseDefense(request.defenseType)
      case None => Ended(InvalidDefense400)
      case Some(d) =>
        if i !in s.sessions then Ended(SessionNotFound404)
        else
          var loaded := Loaded(cached, s.sessions[i], populateExisting);
          (match RefusePurchase(loaded, d)
           case Some(refusal) => Ended(refusal)
           case None => ReadyToBuy(loaded, d))
    else
      var row := s.txs[t].phase.logCopy;
      if i !in s.sessions then Ended(LogNotInSession404)
      else
        var loaded := Loaded(cached, s.sessions[i], populateExisting);
        if loaded.lab != row.lab then Ended(LogNotInSession404) else ReadyToJudge(row, loaded)
  }

  function OnLockSession(s: State, t: TxId, populateExisting: bool): State
    requires Enabled(s, LockSession(t))
  {
    match AtSession(s, t, populateExisting)
    case Ended(reply) => End(s, t, reply)
    case phase => WithSessionLock(s, t, s.txs[t].request.session, phase)
  }

  function OnLockPending(s: State, t: TxId, chosen: set<LogId>): State
    requires t in s.txs && chosen <= s.logs.Keys
  {
    if s.txs[t].request.SaveVerdict? && chosen == {} then End(s, t, Discarded)
    else
      Put(s, t, ReadyToClose(map l | l in chosen :: s.logs[l])).(
        logLocks := map l | l in s.logLocks.Keys + chosen :: if l in chosen then t else s.logLocks[l])
  }

  /** The closed form of one row, computed from the transaction's own copy. */
  function CloseCopy(request: Request, copy: Log, now: Moment, heuristic: Payload -> bool): Log {
    if request.SaveVerdict? then WithVerdict(copy, request.malicious, request.reasoning, now)
    else
      var malicious := PredictIsMalicious(copy.payload, copy.eventType, heuristic);
      WithVerdict(copy, malicious, RuleReasoning(malicious), now)
  }

  /** The values written come from the copies; columns that were not assigned keep the row's value. */
  function OnCommit(s: State, t: TxId, now: Moment, heuristic: Payload -> bool): State
    requires Enabled(s, Commit(t, now))
    requires s.txs[t].phase.ReadyToBuy? ==> s.txs[t].request.session in s.sessions
    requires s.txs[t].phase.ReadyToJudge? ==> s.txs[t].request.session in s.sessions && s.txs[t].request.log in s.logs
  {
    var request := s.txs[t].request;
    match s.txs[t].phase
    case ReadyToBuy(copy, d) =>
      var paid := s.sessions[request.session].(budget := copy.budget - Price(d));
      End(s, t, Purchased(paid.budget)).(
        sessions := s.sessions[request.session := Activate(paid, d)],
        ledger := s.ledger + [Bought(request.session, d)])
    case ReadyToJudge(logCopy, sessionCopy) =>
      var actual := PredictIsMalicious(logCopy.payload, logCopy.eventType, heuristic);
      var credits := Credits(request.claim, actual);
      var row := s.logs[request.log];
      var judged := row.(investigatedAt := Some(now), investigatedBy := Some(request.user),
                         compromised := actual || row.compromised);
      var earned := s.sessions[request.session].(budget := sessionCopy.budget + credits);
      End(s, t, Investigated(credits, earned.budget)).(
        logs := s.logs[request.log := judged],
        sessions := s.sessions[request.session := earned],
        ledger := s.ledger + [Judged(request.log, request.session, credits)])
    case ReadyToClose(copies) =>
      End(s, t, if request.SaveVerdict? then Saved else Closed(|copies|)).(
        logs := map l | l in s.logs :: if l in copies then CloseCopy(request, copies[l], now, heuristic) else s.logs[l],
        ledger := s.ledger + [ClosedLogs(copies.Keys)])
    case _ => s
  }

  // ----- Locks protect copies -----

  ghost predicate HasLog(s: State, t: TxId, l: LogId, copy: Log) {
    && l in s.logLocks && s.logLocks[l] == t
    && l in s.logs && s.logs[l] == copy && copy.investigatedAt.None?
  }

  ghost predicate HasSession(s: State, t: TxId, i: SessionId, copy: Session) {
    i in s.sessionLocks && s.sessionLocks[i] == t && i in s.sessions && s.sessions[i] == copy
  }

  /** A transaction's copies are the current rows for as long as it holds their locks. */
  ghost predicate TxOk(s: State, t: TxId)
    requires t in s.txs
  {
    var request := s.txs[t].request;
    && (request.SaveVerdict? ==> request.log in s.logs && !RuleJudged(s.logs[request.log].eventType))
    && match s.txs[t].phase
       case Started => true
       case Ended(_) => true
       case HoldingLog(logCopy) => request.Investigate? && HasLog(s, t, request.log, logCopy)
       case ReadyToBuy(copy, d) =>
         && request.Buy? && HasSession(s, t, request.session, copy)
         && ParseDefense(request.defenseType) == Some(d) && RefusePurchase(copy, d).None?
       case ReadyToJudge(logCopy, copy) =>
         && request.Investigate? && HasLog(s, t, request.log, logCopy)
         && HasSession(s, t, request.session, copy) && copy.lab == logCopy.lab
       case ReadyToClose(copies) =>
         && (request.SaveVerdict? || request.CloseRuleJudged?)
         && (forall l <- copies :: HasLog(s, t, l, copies[l]))
         && (forall l <- copies :: if request.SaveVerdict? then l == request.log else RuleJudged(copies[l].eventType))
  }

  /** Every lock is held by a transaction that is entitled to it, so no lock outlives its owner. */
  ghost predicate HoldsLog(x: Tx, l: LogId) {
    match x.phase
    case HoldingLog(_) => x.request.Investigate? && x.request.log == l
    case ReadyToJudge(_, _) => x.request.Investigate? && x.request.log == l
    case ReadyToClose(copies) => l in copies
    case _ => false
  }

  ghost predicate HoldsSession(x: Tx, i: SessionId) {
    match x.phase
    case ReadyToBuy(_, _) => x.request.Buy? && x.request.session == i
    case ReadyToJudge(_, _) => x.request.Investigate? && x.request.session == i
    case _ => false
  }

  ghost predicate LockTablesOk(s: State) {
    && (forall l <- s.logLocks :: s.logLocks[l] in s.txs && HoldsLog(s.txs[s.logLocks[l]], l))
    && (forall i <- s.sessionLocks :: s.sessionLocks[i] in s.txs && HoldsSession(s.txs[s.sessionLocks[i]], i))
  }

  ghost predicate LocksOk(s: State) {
    (forall t <- s.txs :: TxOk(s, t)) && LockTablesOk(s)
  }

  function Step(s: State, e: Event, heuristic: Payload -> bool): State
    requires Enabled(s, e) && LocksOk(s)
  {
    match e
    case Record(l, lab, eventType, payload) =>
      s.(logs := s.logs[l := Log(lab, eventType, payload, false, None, None)])
    case Begin(t, request) =>
      var cached := if (request.Buy? || request.Investigate?) && request.session in s.sessions
                    then Some(s.sessions[request.session]) else None;
      s.(txs := s.txs[t := Tx(request, cached, Started)])
    case LockLog(t) => OnLockLog(s, t)
    case LockSession(t) => OnLockSession(s, t, true)
    case LockPending(t, chosen) =>
      assert forall l <- chosen :: Pickable(s, s.txs[t].request, l);
      OnLockPending(s, t, chosen)
    case Commit(t, now) => assert TxOk(s, t); OnCommit(s, t, now, heuristic)
    case Abort(t) => End(s, t, RolledBack)
  }

  // ----- Every step keeps the locks meaningful -----

  /** Event rows are never deleted, and their type and lab never change. */
  ghost predicate RowsStay(s: State, s1: State) {
    forall l <- s.logs :: l in s1.logs && s1.logs[l].eventType == s.logs[l].eventType && s1.logs[l].lab == s.logs[l].lab
  }

  /** What another transaction sees of a step: its locks stay and the rows under them do not change. */
  ghost predicate Untouched(s: State, s1: State, u: TxId) {
    && (forall l :: l in s.logLocks && s.logLocks[l] == u && l in s.logs ==>
          l in s1.logLocks && s1.logLocks[l] == u && l in s1.logs && s1.logs[l] == s.logs[l])
    && (forall i :: i in s.sessionLocks && s.sessionLocks[i] == u && i in s.sessions ==>
          i in s1.sessionLocks && s1.sessionLocks[i] == u && i in s1.sessions && s1.sessions[i] == s.sessions[i])
  }

  lemma OthersStayOk(s: State, s1: State, u: TxId)
    requires u in s.txs && TxOk(s, u) && u in s1.txs && s1.txs[u] == s.txs[u]
    requires RowsStay(s, s1) && Untouched(s, s1, u)
    ensures TxOk(s1, u)
  {
    match s.txs[u].phase
    case ReadyToClose(copies) =>
      forall l | l in copies
        ensures HasLog(s1, u, l, copies[l])
      {
        assert HasLog(s, u, l, copies[l]);
      }
    case _ =>
  }

  ghost predicate OthersUntouched(s: State, s1: State, t: TxId) {
    && t in s1.txs && s1.txs.Keys == s.txs.Keys + {t}
    && forall u <- s.txs :: u != t ==> s1.txs[u] == s.txs[u] && Untouched(s, s1, u)
  }

  /** Whatever `t` holds now it is entitled to; every other lock is an old one. */
  ghost predicate LogTableMoves(s: State, s1: State, t: TxId)
    requires t in s1.txs
  {
    forall l <- s1.logLocks ::
      if s1.logLocks[l] == t then HoldsLog(s1.txs[t], l) else l in s.logLocks && s.logLocks[l] == s1.logLocks[l]
  }

  ghost predicate SessionTableMoves(s: State, s1: State, t: TxId)
    requires t in s1.txs
  {
    forall i <- s1.sessionLocks ::
      if s1.sessionLocks[i] == t then HoldsSession(s1.txs[t], i)
      else i in s.sessionLocks && s.sessionLocks[i] == s1.sessionLocks[i]
  }

  /** A step by `t` that leaves the others alone is right if `t` itself and the lock tables are. */
  lemma OneTransactionMoves(s: State, s1: State, t: TxId)
    requires LocksOk(s) && RowsStay(s, s1) && OthersUntouched(s, s1, t) && TxOk(s1, t)
    requires LogTableMoves(s, s1, t) && SessionTableMoves(s, s1, t)
    ensures LocksOk(s1)
  {
    forall u | u in s1.txs
      ensures TxOk(s1, u)
    {
      if u != t {
        assert TxOk(s, u);
        OthersStayOk(s, s1, u);
      }
    }
  }

  lemma EndKeepsLocks(s: State, t: TxId, reply: Reply)
    requires LocksOk(s) && t in s.txs
    ensures LocksOk(End(s, t, reply))
  {
    assert TxOk(s, t);
    OneTransactionMoves(s, End(s, t, reply), t);
  }

  lemma RecordKeepsLocks(s: State, l: LogId, row: Log)
    requires LocksOk(s) && l !in s.logs
    ensures LocksOk(s.(logs := s.logs[l := row]))
  {
    var s1 := s.(logs := s.logs[l := row]);
    forall u | u in s1.txs
      ensures TxOk(s1, u)
    {
      assert TxOk(s, u);
      OthersStayOk(s, s1, u);
    }
  }

  lemma BeginKeepsLocks(s: State, t: TxId, request: Request, cached: Option<Session>)
    requires LocksOk(s) && Enabled(s, Begin(t, request))
    ensures LocksOk(s.(txs := s.txs[t := Tx(request, cached, Started)]))
  {
    OneTransactionMoves(s, s.(txs := s.txs[t := Tx(request, cached, Started)]), t);
  }

  lemma GrabOneLogLeavesOthers(s: State, t: TxId, l: LogId, phase: Phase)
    requires t in s.txs && l !in s.logLocks
    ensures var s1 := WithLogLock(s, t, l, phase); OthersUntouched(s, s1, t) && RowsStay(s, s1)
  {
  }

  lemma GrabOneLogTables(s: State, t: TxId, l: LogId, phase: Phase)
    requires LockTablesOk(s) && t in s.txs && l !in s.logLocks && HoldsLog(s.txs[t].(phase := phase), l)
    requires forall k :: !HoldsLog(s.txs[t], k)
    requires forall i :: HoldsSession(s.txs[t], i) ==> HoldsSession(s.txs[t].(phase := phase), i)
    ensures var s1 := WithLogLock(s, t, l, phase); LogTableMoves(s, s1, t) && SessionTableMoves(s, s1, t)
  {
  }

  lemma LockLogKeepsLocks(s: State, t: TxId)
    requires LocksOk(s) && Enabled(s, LockLog(t))
    ensures LocksOk(OnLockLog(s, t))
  {
    var l := s.txs[t].request.log;
    assert TxOk(s, t);
    if l !in s.logs {
      EndKeepsLocks(s, t, LogNotFound404);
    } else if s.logs[l].investigatedAt.Some? {
      EndKeepsLocks(s, t, AlreadyInvestigated400);
    } else {
      GrabOneLogLeavesOthers(s, t, l, HoldingLog(s.logs[l]));
      GrabOneLogTables(s, t, l, HoldingLog(s.logs[l]));
      OneTransactionMoves(s, OnLockLog(s, t), t);
    }
  }

  lemma GrabSessionLeavesOthers(s: State, t: TxId, i: SessionId, phase: Phase)
    requires t in s.txs && i !in s.sessionLocks
    ensures var s1 := WithSessionLock(s, t, i, phase); OthersUntouched(s, s1, t) && RowsStay(s, s1)
  {
  }

  /** The session lock was free, and `t` keeps its log lock, if it has one, and had no session lock. */
  ghost predicate GrantIsNew(s: State, t: TxId, i: SessionId, phase: Phase)
    requires t in s.txs
  {
    && i !in s.sessionLocks && HoldsSession(s.txs[t].(phase := phase), i)
    && (forall l :: HoldsLog(s.txs[t], l) ==> HoldsLog(s.txs[t].(phase := phase), l))
    && (forall j :: !HoldsSession(s.txs[t], j))
  }

  lemma GrabSessionTables(s: State, t: TxId, i: SessionId, phase: Phase)
    requires LockTablesOk(s) && t in s.txs && GrantIsNew(s, t, i, phase)
    ensures var s1 := WithSessionLock(s, t, i, phase); LogTableMoves(s, s1, t) && SessionTableMoves(s, s1, t)
  {
  }

  lemma GrantedSession(s: State, t: TxId)
    requires t in s.txs && TxOk(s, t) && Enabled(s, LockSession(t)) && !AtSession(s, t, true).Ended?
    ensures GrantIsNew(s, t, s.txs[t].request.session, AtSession(s, t, true))
  {
  }

  lemma GrantedIsOk(s: State, t: TxId)
    requires t in s.txs && TxOk(s, t) && Enabled(s, LockSession(t)) && !AtSession(s, t, true).Ended?
    ensures TxOk(WithSessionLock(s, t, s.txs[t].request.session, AtSession(s, t, true)), t)
  {
  }

  lemma LockSessionKeepsLocks(s: State, t: TxId)
    requires LocksOk(s) && Enabled(s, LockSession(t))
    ensures LocksOk(OnLockSession(s, t, true))
  {
    var i, phase := s.txs[t].request.session, AtSession(s, t, true);
    if phase.Ended? {
      EndKeepsLocks(s, t, phase.reply);
    } else {
      assert TxOk(s, t);
      GrantedSession(s, t);
      GrantedIsOk(s, t);
      GrabSessionLeavesOthers(s, t, i, phase);
      GrabSessionTables(s, t, i, phase);
      OneTransactionMoves(s, WithSessionLock(s, t, i, phase), t);
    }
  }

  /** The copies of the picked rows are current, and they are rows of the right kind. */
  lemma GrabLogs(s: State, t: TxId, chosen: set<LogId>)
    requires t in s.txs && TxOk(s, t) && Enabled(s, LockPending(t, chosen)) && (s.txs[t].request.SaveVerdict? ==> chosen != {})
    ensures TxOk(OnLockPending(s, t, chosen), t)
  {
    var s1 := OnLockPending(s, t, chosen);
    var copies := s1.txs[t].phase.copies;
    forall l | l in copies
      ensures HasLog(s1, t, l, copies[l])
      ensures if s.txs[t].request.SaveVerdict? then l == s.txs[t].request.log else RuleJudged(copies[l].eventType)
    {
      assert Pickable(s, s.txs[t].request, l);
    }
  }

  ghost predicate Picked(s: State, t: TxId, chosen: set<LogId>) {
    && t in s.txs && chosen <= s.logs.Keys && chosen !! s.logLocks.Keys
    && !(s.txs[t].request.SaveVerdict? && chosen == {})
  }

  lemma PickedRows(s: State, t: TxId, chosen: set<LogId>)
    requires Enabled(s, LockPending(t, chosen)) && (s.txs[t].request.SaveVerdict? ==> chosen != {})
    ensures Picked(s, t, chosen)
  {
    assert forall l <- chosen :: Pickable(s, s.txs[t].request, l);
  }

  lemma GrabUntouched(s: State, t: TxId, chosen: set<LogId>, u: TxId)
    requires Picked(s, t, chosen) && u != t
    ensures Untouched(s, OnLockPending(s, t, chosen), u)
  {
    var s1 := OnLockPending(s, t, chosen);
    forall l | l in s.logLocks
      ensures l in s1.logLocks && s1.logLocks[l] == s.logLocks[l]
    {
    }
  }

  lemma GrabLeavesOthers(s: State, t: TxId, chosen: set<LogId>)
    requires Picked(s, t, chosen)
    ensures OthersUntouched(s, OnLockPending(s, t, chosen), t) && RowsStay(s, OnLockPending(s, t, chosen))
  {
    var s1 := OnLockPending(s, t, chosen);
    forall u | u in s.txs && u != t
      ensures s1.txs[u] == s.txs[u] && Untouched(s, s1, u)
    {
      GrabUntouched(s, t, chosen, u);
    }
  }

  lemma GrabTables(s: State, t: TxId, chosen: set<LogId>)
    requires LockTablesOk(s) && Enabled(s, LockPending(t, chosen)) && (s.txs[t].request.SaveVerdict? ==> chosen != {})
    ensures LogTableMoves(s, OnLockPending(s, t, chosen), t) && SessionTableMoves(s, OnLockPending(s, t, chosen), t)
  {
    assert OnLockPending(s, t, chosen).txs[t].phase.copies.Keys == chosen;
    assert OnLockPending(s, t, chosen).sessionLocks == s.sessionLocks;
  }

  lemma LockPendingKeepsLocks(s: State, t: TxId, chosen: set<LogId>)
    requires LocksOk(s) && Enabled(s, LockPending(t, chosen))
    ensures LocksOk(OnLockPending(s, t, chosen))
  {
    if s.txs[t].request.SaveVerdict? && chosen == {} {
      EndKeepsLocks(s, t, Discarded);
    } else {
      GrabLogs(s, t, chosen);
      PickedRows(s, t, chosen);
      GrabLeavesOthers(s, t, chosen);
      GrabTables(s, t, chosen);
      OneTransactionMoves(s, OnLockPending(s, t, chosen), t);
    }
  }

  lemma CommitOpens(s: State, t: TxId, now: Moment, heuristic: Payload -> bool)
    requires LocksOk(s) && Enabled(s, Commit(t, now))
    ensures var s1 := Step(s, Commit(t, now), heuristic);
            TxOk(s1, t) && LogTableMoves(s, s1, t) && SessionTableMoves(s, s1, t)
  {
    assert TxOk(s, t);
    CommitKeepsRows(s, t, now, heuristic);
  }

  lemma OwnLockOnly(s: State, t: TxId, reply: Reply, u: TxId)
    requires t in s.txs && u != t
    ensures forall l :: l in s.logLocks && s.logLocks[l] == u ==>
              l in End(s, t, reply).logLocks && End(s, t, reply).logLocks[l] == u
    ensures forall i :: i in s.sessionLocks && s.sessionLocks[i] == u ==>
              i in End(s, t, reply).sessionLocks && End(s, t, reply).sessionLocks[i] == u
  {
  }

  /** The rows that a commit writes are locked by it. */
  ghost predicate WritesOwnRows(s: State, s1: State, t: TxId) {
    && (forall l <- s.logs :: l in s1.logs && (s1.logs[l] == s.logs[l] || (l in s.logLocks && s.logLocks[l] == t)))
    && (forall i <- s.sessions ::
          i in s1.sessions && (s1.sessions[i] == s.sessions[i] || (i in s.sessionLocks && s.sessionLocks[i] == t)))
  }

  lemma CommitWritesOwnRows(s: State, t: TxId, now: Moment, heuristic: Payload -> bool)
    requires LocksOk(s) && Enabled(s, Commit(t, now))
    ensures WritesOwnRows(s, Step(s, Commit(t, now), heuristic), t)
  {
    assert TxOk(s, t);
    match s.txs[t].phase
    case ReadyToClose(copies) =>
      forall l | l in copies
        ensures l in s.logLocks && s.logLocks[l] == t
      {
        assert HasLog(s, t, l, copies[l]);
      }
    case _ =>
  }

  lemma CommitEnds(s: State, t: TxId, now: Moment, heuristic: Payload -> bool)
    requires LocksOk(s) && Enabled(s, Commit(t, now))
    ensures var s1 := Step(s, Commit(t, now), heuristic);
            exists reply :: s1.txs == End(s, t, reply).txs && s1.logLocks == End(s, t, reply).logLocks
                            && s1.sessionLocks == End(s, t, reply).sessionLocks
  {
    assert TxOk(s, t);
    var s1 := Step(s, Commit(t, now), heuristic);
    var reply := s1.txs[t].phase.reply;
    assert s1.txs == End(s, t, reply).txs;
  }

  lemma CommitLeavesOthers(s: State, t: TxId, now: Moment, heuristic: Payload -> bool, u: TxId)
    requires LocksOk(s) && Enabled(s, Commit(t, now)) && u in s.txs && u != t
    ensures var s1 := Step(s, Commit(t, now), heuristic);
            u in s1.txs && s1.txs[u] == s.txs[u] && Untouched(s, s1, u)
  {
    var s1 := Step(s, Commit(t, now), heuristic);
    CommitWritesOwnRows(s, t, now, heuristic);
    CommitEnds(s, t, now, heuristic);
    var reply :| s1.txs == End(s, t, reply).txs && s1.logLocks == End(s, t, reply).logLocks
                 && s1.sessionLocks == End(s, t, reply).sessionLocks;
    OwnLockOnly(s, t, reply, u);
  }

  /** A commit writes only rows that it holds, so every other copy stays current. */
  lemma CommitKeepsLocks(s: State, t: TxId, now: Moment, heuristic: Payload -> bool)
    requires LocksOk(s) && Enabled(s, Commit(t, now))
    ensures LocksOk(Step(s, Commit(t, now), heuristic))
  {
    CommitKeepsRows(s, t, now, heuristic);
    CommitLeavesAllOthers(s, t, now, heuristic);
    CommitOpens(s, t, now, heuristic);
    OneTransactionMoves(s, Step(s, Commit(t, now), heuristic), t);
  }

  lemma CommitLeavesAllOthers(s: State, t: TxId, now: Moment, heuristic: Payload -> bool)
    requires LocksOk(s) && Enabled(s, Commit(t, now))
    ensures OthersUntouched(s, Step(s, Commit(t, now), heuristic), t)
  {
    var s1 := Step(s, Commit(t, now), heuristic);
    assert TxOk(s, t);
    assert s1.txs.Keys == s.txs.Keys;
    forall u | u in s.txs && u != t
      ensures s1.txs[u] == s.txs[u] && Untouched(s, s1, u)
    {
      CommitLeavesOthers(s, t, now, heuristic, u);
    }
  }

  lemma CommitKeepsRows(s: State, t: TxId, now: Moment, heuristic: Payload -> bool)
    requires LocksOk(s) && Enabled(s, Commit(t, now))
    ensures RowsStay(s, Step(s, Commit(t, now), heuristic))
  {
    assert TxOk(s, t);
    match s.txs[t].phase
    case ReadyToClose(copies) =>
      forall l | l in copies
        ensures copies[l] == s.logs[l]
      {
        assert HasLog(s, t, l, copies[l]);
      }
    case _ =>
  }

  lemma StepKeepsLocks(s: State, e: Event, heuristic: Payload -> bool)
    requires LocksOk(s) && Enabled(s, e)
    ensures LocksOk(Step(s, e, heuristic))
  {
    match e
    case Record(l, lab, eventType, payload) =>
      RecordKeepsLocks(s, l, Log(lab, eventType, payload, false, None, None));
    case Begin(t, request) =>
      var s1 := Step(s, e, heuristic);
      BeginKeepsLocks(s, t, request, s1.txs[t].cached);
    case LockLog(t) => LockLogKeepsLocks(s, t);
    case LockSession(t) => LockSessionKeepsLocks(s, t);
    case LockPending(t, chosen) => LockPendingKeepsLocks(s, t, chosen);
    case Commit(t, now) => CommitKeepsLocks(s, t, now, heuristic);
    case Abort(t) => EndKeepsLocks(s, t, RolledBack);
  }
}
