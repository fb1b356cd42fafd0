/** The dashboard counters: three separate reads, not one snapshot. */
module Dashboard {
  import opened Options
  import opened Forensics
  import opened Economy
  import opened EconomyRuns

  function LogsOf(s: State, lab: Lab): set<LogId> { set l | l in s.logs && s.logs[l].lab == lab }

  function CompromisedLogs(s: State, lab: Lab): set<LogId> { set l | l in LogsOf(s, lab) && s.logs[l].compromised }

  function PendingLogs(s: State, lab: Lab): set<LogId> {
    set l | l in LogsOf(s, lab) && s.logs[l].investigatedAt.None?
  }

  datatype Stats = Stats(total: nat, compromised: nat, pending: nat)

  /** `get_stats` runs three statements; each sees what is committed when it starts. */
  function GetStats(first: State, second: State, third: State, lab: Lab): Stats {
    Stats(|LogsOf(first, lab)|, |CompromisedLogs(second, lab)|, |PendingLogs(third, lab)|)
  }

  /** What can have happened between two reads: new events, and events investigated once and for all. */
  ghost predicate Later(s: State, s1: State) {
    forall l <- s.logs :: l in s1.logs && s1.logs[l].lab == s.logs[l].lab
                          && (s.logs[l].investigatedAt.Some? ==> s1.logs[l].investigatedAt.Some?)
  }

  lemma StepIsLater(s: State, e: Event, heuristic: Payload -> bool)
    requires LocksOk(s) && Enabled(s, e)
    ensures Later(s, Step(s, e, heuristic))
  {
    StepKeepsDecisions(s, e, heuristic);
    if e.Commit? {
      CommitKeepsRows(s, e.tx, e.now, heuristic);
    } else if !e.Record? {
      QuietStep(s, e, heuristic);
    }
  }

  lemma {:induction false} RunIsLater(s: State, es: seq<Event>, heuristic: Payload -> bool)
    requires LocksOk(s) && LegalRun(s, es, heuristic)
    ensures Later(s, Final(s, es, heuristic))
    decreases |es|
  {
    if es != [] {
      StepKeepsLocks(s, es[0], heuristic);
      StepIsLater(s, es[0], heuristic);
      RunIsLater(Step(s, es[0], heuristic), es[1..], heuristic);
    }
  }

  ghost predicate CompromisedIsInvestigated(s: State) {
    forall l <- s.logs :: s.logs[l].compromised ==> s.logs[l].investigatedAt.Some?
  }

  lemma CountedApart(s2: State, s3: State, lab: Lab)
    requires Later(s2, s3) && CompromisedIsInvestigated(s2)
    ensures CompromisedLogs(s2, lab) !! PendingLogs(s3, lab)
    ensures CompromisedLogs(s2, lab) + PendingLogs(s3, lab) <= LogsOf(s3, lab)
  {
  }

  lemma RecordedSince(s1: State, s3: State, lab: Lab)
    requires Later(s1, s3)
    ensures |LogsOf(s3, lab)| == |LogsOf(s1, lab)| + |LogsOf(s3, lab) - LogsOf(s1, lab)|
  {
    var before, recorded := LogsOf(s1, lab), LogsOf(s3, lab) - LogsOf(s1, lab);
    assert LogsOf(s3, lab) == before + recorded;
    assert |before + recorded| == |before| + |recorded|;
  }

  lemma LaterAddsUp(s1: State, s2: State, s3: State)
    requires Later(s1, s2) && Later(s2, s3)
    ensures Later(s1, s3)
  {
  }

  /** Events of the third read that neither counter holds: judged harmless, or judged after the second read. */
  function Uncounted(s2: State, s3: State, lab: Lab): set<LogId> {
    LogsOf(s3, lab) - CompromisedLogs(s2, lab) - PendingLogs(s3, lab)
  }

  /** Events recorded between the first and the third read. */
  function RecordedBetween(s1: State, s3: State, lab: Lab): set<LogId> { LogsOf(s3, lab) - LogsOf(s1, lab) }

  /** What three reads with anything in between add up to. */
  ghost predicate Reconciled(s1: State, s2: State, s3: State, lab: Lab) {
    var stats := GetStats(s1, s2, s3, lab);
    && stats.compromised + stats.pending + |Uncounted(s2, s3, lab)| == stats.total + |RecordedBetween(s1, s3, lab)|
    && (stats.compromised + stats.pending <= stats.total <==>
        |RecordedBetween(s1, s3, lab)| <= |Uncounted(s2, s3, lab)|)
  }

  lemma ThreeParts(a: set<LogId>, b: set<LogId>, whole: set<LogId>)
    requires a !! b && a + b <= whole
    ensures |a| + |b| + |whole - a - b| == |whole|
  {
    assert |a + b| == |a| + |b|;
    assert whole == (a + b) + (whole - a - b);
    assert |(a + b) + (whole - a - b)| == |a + b| + |whole - a - b|;
  }

  /**
   The exact account of three reads: the counters exceed the total exactly if more events were recorded
   since the first read than the third one finds uncounted.
  */
  lemma CountersAcrossReads(s1: State, s2: State, s3: State, lab: Lab)
    requires Later(s1, s2) && Later(s2, s3) && CompromisedIsInvestigated(s2)
    ensures Reconciled(s1, s2, s3, lab)
  {
    CountedApart(s2, s3, lab);
    ThreeParts(CompromisedLogs(s2, lab), PendingLogs(s3, lab), LogsOf(s3, lab));
    LaterAddsUp(s1, s2, s3);
    RecordedSince(s1, s3, lab);
  }

  /** The same for the states of a run: three cuts of any interleaving. */
  lemma DashboardOfARun(base: State, es1: seq<Event>, es2: seq<Event>, es3: seq<Event>,
                        heuristic: Payload -> bool, lab: Lab)
    requires Fresh(base) && LegalRun(base, es1, heuristic)
    requires LegalRun(Final(base, es1, heuristic), es2, heuristic)
    requires LegalRun(Final(Final(base, es1, heuristic), es2, heuristic), es3, heuristic)
    ensures var s1 := Final(base, es1, heuristic);
            var s2 := Final(s1, es2, heuristic);
            Reconciled(s1, s2, Final(s2, es3, heuristic), lab)
  {
    var s1 := Final(base, es1, heuristic);
    var s2 := Final(s1, es2, heuristic);
    CompromisedStaysConsistent(base, s1, es1, es2, heuristic);
    RunIsLater(s1, es2, heuristic);
    RunIsLater(s2, es3, heuristic);
    CountersAcrossReads(s1, s2, Final(s2, es3, heuristic), lab);
  }

  lemma CompromisedStaysConsistent(base: State, s1: State, es1: seq<Event>, es2: seq<Event>, heuristic: Payload -> bool)
    requires Fresh(base) && LegalRun(base, es1, heuristic) && s1 == Final(base, es1, heuristic)
    requires LegalRun(s1, es2, heuristic)
    ensures CompromisedIsInvestigated(Final(s1, es2, heuristic))
  {
    FreshIsRight(base, heuristic);
    RunKeepsBooks(base, base, es1, heuristic);
    RunKeepsBooks(base, s1, es2, heuristic);
  }

  /** In one and the same state the inequality holds without a correction. */
  lemma CountersInOneState(base: State, es: seq<Event>, heuristic: Payload -> bool, lab: Lab)
    requires Fresh(base) && LegalRun(base, es, heuristic)
    ensures var s := Final(base, es, heuristic);
            var stats := GetStats(s, s, s, lab);
            stats.compromised + stats.pending <= stats.total
  {
    FreshIsRight(base, heuristic);
    RunKeepsBooks(base, base, es, heuristic);
    var s := Final(base, es, heuristic);
    ThreeParts(CompromisedLogs(s, lab), PendingLogs(s, lab), LogsOf(s, lab));
  }

  const NO_ROWS := State(map[], map[], map[], map[], map[], [])

  /** An event recorded after the first read makes one pending event out of none. */
  lemma CountersCanExceedTotal(payload: Payload, heuristic: Payload -> bool)
    ensures Enabled(NO_ROWS, Record(0, 0, FileUpload, payload)) && Fresh(NO_ROWS)
    ensures GetStats(NO_ROWS, NO_ROWS, Step(NO_ROWS, Record(0, 0, FileUpload, payload), heuristic), 0) == Stats(0, 0, 1)
  {
    var s1 := Step(NO_ROWS, Record(0, 0, FileUpload, payload), heuristic);
    assert PendingLogs(s1, 0) == {0};
    assert LogsOf(NO_ROWS, 0) == {} && CompromisedLogs(NO_ROWS, 0) == {};
  }
}
