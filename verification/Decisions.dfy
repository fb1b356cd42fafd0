/** What each transaction decides and writes, in values and columns, in any state that its locks protect. */
module Decisions {
  import opened Options
  import opened Forensics
  import opened Economy
  import opened EconomyRuns

  // ----- Purchases -----

  /** What the lock step of a purchase decides. */
  ghost predicate DecidedAs(row: Session, name: string, price: nat, phase: Phase) {
    && (phase == Ended(AlreadyActive400) <==> IsOn(row, name))
    && (phase == Ended(InsufficientFunds400) <==> !IsOn(row, name) && row.budget - price < 0)
    && (phase.ReadyToBuy? <==> !IsOn(row, name) && row.budget - price >= 0)
  }

  lemma OnRow(row: Session, name: string, d: Defense, phase: Phase)
    requires ParseDefense(name) == Some(d)
    requires match RefusePurchase(row, d)
             case Some(refusal) => phase == Ended(refusal)
             case None => phase.ReadyToBuy?
    ensures forall price :: OnSale(name, price) ==> DecidedAs(row, name, price, phase)
  {
    PurchaseInValues(row, name);
    forall price | OnSale(name, price)
      ensures DecidedAs(row, name, price, phase)
    {
      OnePrice(name, d, price);
    }
  }

  lemma AtSessionDecides(s: State, t: TxId)
    requires Enabled(s, LockSession(t)) && s.txs[t].request.Buy?
    ensures var i, name, phase := s.txs[t].request.session, s.txs[t].request.defenseType, AtSession(s, t, true);
            && (phase == Ended(InvalidDefense400) <==> NotOnSale(name))
            && (phase == Ended(SessionNotFound404) <==> !NotOnSale(name) && i !in s.sessions)
            && (i in s.sessions ==> forall price :: OnSale(name, price) ==> DecidedAs(s.sessions[i], name, price, phase))
  {
    var i, name := s.txs[t].request.session, s.txs[t].request.defenseType;
    NamesOnSale(name);
    if i in s.sessions && ParseDefense(name).Some? {
      OnRow(s.sessions[i], name, ParseDefense(name).value, AtSession(s, t, true));
    }
  }

  /** The answer that the lock step of a purchase gives, or that it goes on. */
  lemma PurchaseIsDecided(s: State, t: TxId, heuristic: Payload -> bool)
    requires LocksOk(s) && Enabled(s, LockSession(t)) && s.txs[t].request.Buy?
    ensures var i, name := s.txs[t].request.session, s.txs[t].request.defenseType;
            var s1 := Step(s, LockSession(t), heuristic);
            && t in s1.txs && SameRows(s, s1)
            && (s1.txs[t].phase == Ended(InvalidDefense400) <==> NotOnSale(name))
            && (s1.txs[t].phase == Ended(SessionNotFound404) <==> !NotOnSale(name) && i !in s.sessions)
            && (i in s.sessions ==>
                  forall price :: OnSale(name, price) ==> DecidedAs(s.sessions[i], name, price, s1.txs[t].phase))
  {
    AtSessionDecides(s, t);
    PhaseAfterLock(s, t);
    LockSessionIsQuiet(s, t);
  }

  lemma PhaseAfterLock(s: State, t: TxId)
    requires Enabled(s, LockSession(t))
    ensures t in OnLockSession(s, t, true).txs && OnLockSession(s, t, true).txs[t].phase == AtSession(s, t, true)
  {
  }

  /** A purchase that goes on is paid when it commits, whatever happened between its lock and its commit. */
  lemma PurchaseIsPaid(s: State, t: TxId, now: Moment, heuristic: Payload -> bool)
    requires LocksOk(s) && Enabled(s, Commit(t, now)) && s.txs[t].request.Buy?
    ensures var i, name := s.txs[t].request.session, s.txs[t].request.defenseType;
            var s1 := Step(s, Commit(t, now), heuristic);
            && i in s.sessions && i in s1.sessions && t in s1.txs && !NotOnSale(name)
            && s1.logs == s.logs && (forall j <- s.sessions :: j != i ==> j in s1.sessions && s1.sessions[j] == s.sessions[j])
            && (forall price :: OnSale(name, price) ==>
                  && !IsOn(s.sessions[i], name) && Paid(s.sessions[i], s1.sessions[i], name, price)
                  && s1.sessions[i].budget >= 0
                  && s1.txs[t].phase == Ended(Purchased(s1.sessions[i].budget)))
  {
    assert TxOk(s, t);
    var i, name := s.txs[t].request.session, s.txs[t].request.defenseType;
    CommitBuysNow(s, t, now, heuristic);
    PurchaseInValues(s.sessions[i], name);
    PayingInValues(s.sessions[i], name);
    forall price | OnSale(name, price)
      ensures price == Price(ParseDefense(name).value)
    {
      OnePrice(name, ParseDefense(name).value, price);
    }
  }

  // ----- Investigations -----

  lemma InvestigationIsOpened(s: State, t: TxId, heuristic: Payload -> bool)
    requires LocksOk(s) && Enabled(s, LockLog(t))
    ensures var l, s1 := s.txs[t].request.log, Step(s, LockLog(t), heuristic);
            && t in s1.txs && SameRows(s, s1)
            && (s1.txs[t].phase == Ended(LogNotFound404) <==> l !in s.logs)
            && (s1.txs[t].phase == Ended(AlreadyInvestigated400) <==> l in s.logs && s.logs[l].investigatedAt.Some?)
            && (s1.txs[t].phase.HoldingLog? <==> l in s.logs && s.logs[l].investigatedAt.None?)
  {
  }

  lemma InvestigationIsDecided(s: State, t: TxId, heuristic: Payload -> bool)
    requires LocksOk(s) && Enabled(s, LockSession(t)) && s.txs[t].request.Investigate?
    ensures var i, l, s1 := s.txs[t].request.session, s.txs[t].request.log, Step(s, LockSession(t), heuristic);
            && l in s.logs && t in s1.txs && SameRows(s, s1)
            && (s1.txs[t].phase == Ended(LogNotInSession404) <==> i !in s.sessions || s.sessions[i].lab != s.logs[l].lab)
            && (s1.txs[t].phase.ReadyToJudge? <==> i in s.sessions && s.sessions[i].lab == s.logs[l].lab)
  {
    assert TxOk(s, t);
  }

  /** The log's columns after an investigation. */
  ghost predicate Investigated(before: Log, after: Log, actual: bool, user: nat, now: Moment) {
    && after.investigatedAt == Some(now) && after.investigatedBy == Some(user)
    && after.compromised == (before.compromised || actual)
    && after.payload == before.payload && after.lab == before.lab && after.eventType == before.eventType
  }

  /** What an investigation records and earns. */
  lemma InvestigationIsRecorded(s: State, t: TxId, now: Moment, heuristic: Payload -> bool) returns (actual: bool)
    requires LocksOk(s) && Enabled(s, Commit(t, now)) && s.txs[t].request.Investigate?
    ensures var request, s1 := s.txs[t].request, Step(s, Commit(t, now), heuristic);
            var i, l := request.session, request.log;
            && i in s.sessions && i in s1.sessions && l in s.logs && l in s1.logs && t in s1.txs
            && s.logs[l].investigatedAt.None?
            && FollowsRules(s.logs[l], actual) && Investigated(s.logs[l], s1.logs[l], actual, request.user, now)
            && Earns(request.claim, actual, s1.sessions[i].budget - s.sessions[i].budget)
            && s1.sessions[i] == s.sessions[i].(budget := s1.sessions[i].budget)
            && s1.txs[t].phase.Ended? && s1.txs[t].phase.reply.Investigated?
            && Earns(request.claim, actual, s1.txs[t].phase.reply.credits)
            && s1.txs[t].phase.reply.balance == s1.sessions[i].budget
  {
    assert TxOk(s, t);
    var log := s.logs[s.txs[t].request.log];
    CommitJudgesNow(s, t, now, heuristic);
    RulesInValues(log, heuristic);
    actual := PredictIsMalicious(log.payload, log.eventType, heuristic);
  }

  // ----- The worker's verdicts -----

  /** The verdict of the model is stored as it was given, and is discarded exactly if the row is locked or investigated. */
  lemma SavedVerdictIsStored(s: State, t: TxId, now: Moment, heuristic: Payload -> bool)
    requires LocksOk(s) && Enabled(s, Commit(t, now)) && s.txs[t].request.SaveVerdict?
    ensures var request, s1 := s.txs[t].request, Step(s, Commit(t, now), heuristic);
            && request.log in s.logs && request.log in s1.logs && s1.sessions == s.sessions && t in s1.txs
            && (forall l <- s.logs :: l in s1.logs && (l != request.log ==> s1.logs[l] == s.logs[l]))
            && (s.txs[t].phase.copies != map[] ==>
                  s.logs[request.log].investigatedAt.None? && s1.txs[t].phase == Ended(Saved)
                  && VerdictStored(s.logs[request.log], s1.logs[request.log], request.malicious, request.reasoning, now))
  {
    assert TxOk(s, t);
    var request, copies := s.txs[t].request, s.txs[t].phase.copies;
    forall l | l in copies
      ensures l == request.log && copies[l] == s.logs[l] && copies[l].investigatedAt.None?
    {
      assert HasLog(s, t, l, copies[l]);
    }
    if copies != map[] {
      assert request.log in copies by {
        var l :| l in copies;
      }
    }
  }

  lemma VerdictIsDiscardedExactly(s: State, t: TxId)
    requires LocksOk(s) && t in s.txs && s.txs[t].phase.Started? && s.txs[t].request.SaveVerdict?
    ensures var l := s.txs[t].request.log;
            && l in s.logs
            && (Enabled(s, LockPending(t, {})) <==> l in s.logLocks || s.logs[l].investigatedAt.Some?)
            && (Enabled(s, LockPending(t, {l})) <==> l !in s.logLocks && s.logs[l].investigatedAt.None?)
  {
    assert TxOk(s, t);
    assert |{s.txs[t].request.log}| == 1;
  }

  /** The rows that the worker closes without the model get the rules' verdict and reason, and no other row changes. */
  lemma RuleVerdictsAreStored(s: State, t: TxId, now: Moment, heuristic: Payload -> bool)
    requires LocksOk(s) && Enabled(s, Commit(t, now)) && s.txs[t].request.CloseRuleJudged?
    ensures var s1 := Step(s, Commit(t, now), heuristic);
            && s1.sessions == s.sessions && s1.logs.Keys == s.logs.Keys
            && t in s1.txs && s1.txs[t].phase == Ended(Closed(|s.txs[t].phase.copies|))
            && forall l <- s.logs ::
                 if l in s.txs[t].phase.copies
                 then s.logs[l].investigatedAt.None? && RuleVerdictStored(s.logs[l], s1.logs[l], now)
                 else s1.logs[l] == s.logs[l]
  {
    assert TxOk(s, t);
    var copies := s.txs[t].phase.copies;
    forall l | l in copies
      ensures copies[l] == s.logs[l] && copies[l].investigatedAt.None? && RuleJudged(copies[l].eventType)
      ensures RuleVerdictStored(s.logs[l], CloseCopy(s.txs[t].request, copies[l], now, heuristic), now)
    {
      assert HasLog(s, t, l, copies[l]);
      RuleVerdictInValues(copies[l], now, heuristic);
    }
  }
}
