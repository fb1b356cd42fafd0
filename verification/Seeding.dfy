/**
 Seeding a lab's exercise flags and its private document, with a crash or an error at any point.

 One run holds an advisory lock from start to end.  It stages the missing flags, commits them, reads
 the committed EX-05 flag, removes the old document and inserts the new one batch by batch.  `Fail`
 ends a run wherever it is, for an exception, a crash or a lost connection.
*/
module Seeding {
  import opened Options
  import opened Sequences
  import opened Ingestion

  type Lab = nat
  type Flag = nat

  datatype Exercise = EX03 | EX04 | EX05

  /** A row of `lab_secrets` with the flag that it registers; `value` is the plaintext, if it is kept. */
  datatype Secret = Secret(lab: Lab, exercise: Exercise, flag: Flag, value: Option<Flag>)

  datatype Phase =
    | Idle
    | Locked(lab: Lab)
    | Staged(lab: Lab, rows: seq<Secret>)
    | Committed(lab: Lab)
    | HasSecret(lab: Lab, value: Flag)
    | Indexing(lab: Lab, value: Flag, done: nat)

  /** Committed rows, the shared document index, and the one run that holds the lock. */
  datatype World = World(labs: set<Lab>, secrets: seq<Secret>, index: seq<Record>, phase: Phase)

  datatype Event =
    | Start(lab: Lab)
    | Stage(flag03: Flag, flag04: Flag, flag05: Flag)
    | CommitFlags
    | ReadSecret
    | RemoveOld
    | InsertNext
    | Finish
    | Fail
    | Upload(records: seq<Record>)

  const PRIVATE_PDF_NAME := "staff_handbook_confidential.pdf"

  /** The chunk texts of the document built from a flag, and the token counter. */
  datatype Tools = Tools(chunksOf: Flag -> seq<string>, tok: string -> nat)

  predicate KeepsPlaintext(e: Exercise) { e.EX03? || e.EX05? }

  predicate Seeded(secrets: seq<Secret>, lab: Lab, e: Exercise) {
    exists row <- secrets :: row.lab == lab && row.exercise == e
  }

  function NewRow(secrets: seq<Secret>, lab: Lab, e: Exercise, flag: Flag): seq<Secret> {
    if Seeded(secrets, lab, e) then []
    else [Secret(lab, e, flag, if KeepsPlaintext(e) then Some(flag) else None)]
  }

  /** `seed_exercise_flags`: rows for the exercises that the lab does not have yet. */
  function MissingRows(secrets: seq<Secret>, lab: Lab, f3: Flag, f4: Flag, f5: Flag): seq<Secret> {
    NewRow(secrets, lab, EX03, f3) + NewRow(secrets, lab, EX04, f4) + NewRow(secrets, lab, EX05, f5)
  }

  /** `get_exercise_secret`: the plaintext of the first matching row. */
  function SecretOf(secrets: seq<Secret>, lab: Lab, e: Exercise): Option<Flag> {
    if secrets == [] then None
    else if secrets[0].lab == lab && secrets[0].exercise == e then secrets[0].value
    else SecretOf(secrets[1..], lab, e)
  }

  function Document(tools: Tools, lab: Lab, flag: Flag): seq<Record> {
    Records(tools.chunksOf(flag), tools.tok, PRIVATE_PDF_NAME, lab, true)
  }

  predicate IsDocument(r: Record, lab: Lab) { r.lab == lab && r.source == PRIVATE_PDF_NAME }

  function Without(index: seq<Record>, lab: Lab): seq<Record> {
    if index == [] then []
    else (if IsDocument(index[0], lab) then [] else [index[0]]) + Without(index[1..], lab)
  }

  function PrivateDocs(index: seq<Record>, lab: Lab): seq<Record> {
    if index == [] then []
    else (if index[0].isPrivate && index[0].lab == lab then [index[0]] else []) + PrivateDocs(index[1..], lab)
  }

  predicate Enabled(w: World, e: Event, tools: Tools) {
    match e
    case Start(_) => w.phase.Idle?
    case Stage(_, _, _) => w.phase.Locked? && w.phase.lab in w.labs
    case CommitFlags => w.phase.Staged?
    case ReadSecret => w.phase.Committed? && SecretOf(w.secrets, w.phase.lab, EX05).Some?
    case RemoveOld => w.phase.HasSecret?
    case InsertNext => w.phase.Indexing? && w.phase.done < Batches(|Document(tools, w.phase.lab, w.phase.value)|)
    case Finish =>
      w.phase.Indexing? && w.phase.done == Batches(|Document(tools, w.phase.lab, w.phase.value)|)
      && tools.chunksOf(w.phase.value) != []
    case Fail => !w.phase.Idle?
    case Upload(records) => forall r <- records :: !r.isPrivate
  }

  function Step(w: World, e: Event, tools: Tools): World
    requires Enabled(w, e, tools)
  {
    match e
    case Start(lab) => w.(phase := Locked(lab))
    case Stage(f3, f4, f5) => w.(phase := Staged(w.phase.lab, MissingRows(w.secrets, w.phase.lab, f3, f4, f5)))
    case CommitFlags => w.(secrets := w.secrets + w.phase.rows, phase := Committed(w.phase.lab))
    case ReadSecret => w.(phase := HasSecret(w.phase.lab, SecretOf(w.secrets, w.phase.lab, EX05).value))
    case RemoveOld => w.(index := Without(w.index, w.phase.lab), phase := Indexing(w.phase.lab, w.phase.value, 0))
    case InsertNext =>
      w.(index := w.index + NextBatch(Document(tools, w.phase.lab, w.phase.value), w.phase.done),
         phase := w.phase.(done := w.phase.done + 1))
    case Finish => w.(phase := Idle)
    case Fail => w.(phase := Idle)
    case Upload(records) => w.(index := w.index + records)
  }

  // ----- Invariant -----

  ghost predicate OneFlagEach(secrets: seq<Secret>) {
    && (forall i, j :: 0 <= i < j < |secrets| ==>
          !(secrets[i].lab == secrets[j].lab && secrets[i].exercise == secrets[j].exercise))
    && (forall row <- secrets :: row.value == if KeepsPlaintext(row.exercise) then Some(row.flag) else None)
  }

  /** The part of the index that a lab's document may be: some whole batches of the committed flag's document. */
  ghost predicate HoldsBatches(w: World, lab: Lab, k: nat, tools: Tools) {
    && SecretOf(w.secrets, lab, EX05).Some?
    && PrivateDocs(w.index, lab) == BatchPrefix(Document(tools, lab, SecretOf(w.secrets, lab, EX05).value), k)
  }

  ghost predicate LabOk(w: World, lab: Lab, tools: Tools) {
    PrivateDocs(w.index, lab) == [] || exists k: nat :: HoldsBatches(w, lab, k, tools)
  }

  ghost predicate PhaseOk(w: World, tools: Tools) {
    match w.phase
    case Staged(_, rows) => OneFlagEach(w.secrets + rows)
    case HasSecret(lab, value) => SecretOf(w.secrets, lab, EX05) == Some(value)
    case Indexing(lab, value, done) => SecretOf(w.secrets, lab, EX05) == Some(value) && HoldsBatches(w, lab, done, tools)
    case _ => true
  }

  ghost predicate Inv(w: World, tools: Tools) {
    && OneFlagEach(w.secrets) && PhaseOk(w, tools)
    && (forall lab: Lab :: LabOk(w, lab, tools))
    && (forall r <- w.index :: r.isPrivate ==> r.source == PRIVATE_PDF_NAME)
  }

  lemma {:induction false} PrivateDocsConcat(a: seq<Record>, b: seq<Record>, lab: Lab)
    ensures PrivateDocs(a + b, lab) == PrivateDocs(a, lab) + PrivateDocs(b, lab)
  {
    if a == [] {
      assert a + b == b;
    } else {
      PrivateDocsConcat(a[1..], b, lab);
      assert (a + b)[1..] == a[1..] + b && (a + b)[0] == a[0];
      Assoc(if a[0].isPrivate && a[0].lab == lab then [a[0]] else [], PrivateDocs(a[1..], lab), PrivateDocs(b, lab));
    }
  }

  lemma {:induction false} PrivateDocsOfBatch(batch: seq<Record>, owner: Lab, lab: Lab)
    requires forall r <- batch :: r.isPrivate && r.lab == owner
    ensures PrivateDocs(batch, lab) == if lab == owner then batch else []
  {
    if batch != [] {
      PrivateDocsOfBatch(batch[1..], owner, lab);
      assert batch == [batch[0]] + batch[1..];
    }
  }

  lemma {:induction false} NoPrivateDocs(records: seq<Record>, lab: Lab)
    requires forall r <- records :: !r.isPrivate
    ensures PrivateDocs(records, lab) == []
  {
    if records != [] {
      NoPrivateDocs(records[1..], lab);
    }
  }

  /** Removing one lab's document leaves that lab without private chunks and the others as they were. */
  lemma {:induction false} WithoutRemoves(index: seq<Record>, owner: Lab, lab: Lab)
    requires forall r <- index :: r.isPrivate ==> r.source == PRIVATE_PDF_NAME
    ensures PrivateDocs(Without(index, owner), lab) == if lab == owner then [] else PrivateDocs(index, lab)
    ensures forall r <- Without(index, owner) :: r in index
  {
    if index != [] {
      WithoutRemoves(index[1..], owner, lab);
      var head := if IsDocument(index[0], owner) then [] else [index[0]];
      PrivateDocsConcat(head, Without(index[1..], owner), lab);
      assert head == [index[0]] ==> head[1..] == [];
    }
  }

  /** A committed secret is never replaced: rows are only added behind it. */
  lemma {:induction false} SecretStays(secrets: seq<Secret>, rows: seq<Secret>, lab: Lab, e: Exercise)
    ensures SecretOf(secrets, lab, e).Some? ==> SecretOf(secrets + rows, lab, e) == SecretOf(secrets, lab, e)
  {
    if secrets != [] {
      SecretStays(secrets[1..], rows, lab, e);
      assert (secrets + rows)[1..] == secrets[1..] + rows;
    }
  }

  lemma NewRowKeepsOneFlag(secrets: seq<Secret>, staged: seq<Secret>, lab: Lab, e: Exercise, flag: Flag)
    requires OneFlagEach(secrets + staged)
    requires forall row <- staged :: row.lab == lab && row.exercise != e
    ensures OneFlagEach(secrets + staged + NewRow(secrets, lab, e, flag))
  {
    var all := secrets + staged + NewRow(secrets, lab, e, flag);
    assert all == (secrets + staged) + NewRow(secrets, lab, e, flag);
    assert forall i :: 0 <= i < |secrets| ==> secrets[i] in secrets;
    assert forall i :: 0 <= i < |staged| ==> (secrets + staged)[|secrets| + i] == staged[i] && staged[i] in staged;
  }

  lemma StageKeepsOneFlag(secrets: seq<Secret>, lab: Lab, f3: Flag, f4: Flag, f5: Flag)
    requires OneFlagEach(secrets)
    ensures OneFlagEach(secrets + MissingRows(secrets, lab, f3, f4, f5))
  {
    var r3, r4, r5 := NewRow(secrets, lab, EX03, f3), NewRow(secrets, lab, EX04, f4), NewRow(secrets, lab, EX05, f5);
    assert secrets + [] == secrets;
    NewRowKeepsOneFlag(secrets, [], lab, EX03, f3);
    assert secrets + [] + r3 == secrets + r3;
    NewRowKeepsOneFlag(secrets, r3, lab, EX04, f4);
    assert secrets + r3 + r4 == secrets + (r3 + r4);
    NewRowKeepsOneFlag(secrets, r3 + r4, lab, EX05, f5);
    assert secrets + (r3 + r4) + r5 == secrets + MissingRows(secrets, lab, f3, f4, f5);
  }

  lemma CommitKeepsInv(w: World, tools: Tools)
    requires Inv(w, tools) && Enabled(w, CommitFlags, tools)
    ensures Inv(Step(w, CommitFlags, tools), tools)
  {
    var w1 := Step(w, CommitFlags, tools);
    forall lab: Lab
      ensures LabOk(w1, lab, tools)
    {
      SecretStays(w.secrets, w.phase.rows, lab, EX05);
      assert LabOk(w, lab, tools);
      if PrivateDocs(w.index, lab) != [] {
        var k: nat :| HoldsBatches(w, lab, k, tools);
        assert HoldsBatches(w1, lab, k, tools);
      }
    }
  }

  lemma RemoveKeepsInv(w: World, tools: Tools)
    requires Inv(w, tools) && Enabled(w, RemoveOld, tools)
    ensures Inv(Step(w, RemoveOld, tools), tools)
  {
    var w1 := Step(w, RemoveOld, tools);
    var owner := w.phase.lab;
    forall lab: Lab
      ensures LabOk(w1, lab, tools)
    {
      WithoutRemoves(w.index, owner, lab);
      SameDocsSameLab(w, w1, lab, tools);
    }
    WithoutRemoves(w.index, owner, owner);
    AllBatches(Document(tools, owner, w.phase.value));
    assert HoldsBatches(w1, owner, 0, tools);
  }

  /** A lab whose private chunks did not change, or are gone, is as right as before. */
  lemma SameDocsSameLab(w: World, w1: World, lab: Lab, tools: Tools)
    requires LabOk(w, lab, tools) && w1.secrets == w.secrets
    requires PrivateDocs(w1.index, lab) in [[], PrivateDocs(w.index, lab)]
    ensures LabOk(w1, lab, tools)
  {
    if PrivateDocs(w1.index, lab) != [] {
      var k: nat :| HoldsBatches(w, lab, k, tools);
      assert HoldsBatches(w1, lab, k, tools);
    }
  }

  lemma InsertKeepsInv(w: World, tools: Tools)
    requires Inv(w, tools) && Enabled(w, InsertNext, tools)
    ensures Inv(Step(w, InsertNext, tools), tools)
  {
    var w1 := Step(w, InsertNext, tools);
    var owner, done := w.phase.lab, w.phase.done;
    var document := Document(tools, owner, w.phase.value);
    var batch := NextBatch(document, done);
    assert forall r <- batch :: r in document;
    BatchesAddUp(document, done);
    forall lab: Lab
      ensures LabOk(w1, lab, tools)
    {
      PrivateDocsConcat(w.index, batch, lab);
      PrivateDocsOfBatch(batch, owner, lab);
      if lab == owner {
        assert HoldsBatches(w1, lab, done + 1, tools);
      } else {
        assert PrivateDocs(w.index, lab) + [] == PrivateDocs(w.index, lab);
        SameDocsSameLab(w, w1, lab, tools);
      }
    }
    PrivateDocsConcat(w.index, batch, owner);
    PrivateDocsOfBatch(batch, owner, owner);
    assert HoldsBatches(w1, owner, done + 1, tools);
  }

  lemma UploadKeepsInv(w: World, records: seq<Record>, tools: Tools)
    requires Inv(w, tools) && Enabled(w, Upload(records), tools)
    ensures Inv(Step(w, Upload(records), tools), tools)
  {
    var w1 := Step(w, Upload(records), tools);
    forall lab: Lab
      ensures LabOk(w1, lab, tools) && PrivateDocs(w1.index, lab) == PrivateDocs(w.index, lab)
    {
      PrivateDocsConcat(w.index, records, lab);
      NoPrivateDocs(records, lab);
      assert PrivateDocs(w.index, lab) + [] == PrivateDocs(w.index, lab);
      SameDocsSameLab(w, w1, lab, tools);
    }
  }

  lemma StepKeepsInv(w: World, e: Event, tools: Tools)
    requires Inv(w, tools) && Enabled(w, e, tools)
    ensures Inv(Step(w, e, tools), tools)
  {
    match e
    case Stage(f3, f4, f5) =>
      StageKeepsOneFlag(w.secrets, w.phase.lab, f3, f4, f5);
      StillOk(w, Step(w, e, tools), tools);
    case CommitFlags => CommitKeepsInv(w, tools);
    case RemoveOld => RemoveKeepsInv(w, tools);
    case InsertNext => InsertKeepsInv(w, tools);
    case Upload(records) => UploadKeepsInv(w, records, tools);
    case _ => StillOk(w, Step(w, e, tools), tools);
  }

  lemma StillOk(w: World, w1: World, tools: Tools)
    requires Inv(w, tools) && w1.secrets == w.secrets && w1.index == w.index && PhaseOk(w1, tools)
    ensures Inv(w1, tools)
  {
    forall lab: Lab
      ensures LabOk(w1, lab, tools)
    {
      SameDocsSameLab(w, w1, lab, tools);
    }
  }

  // ----- Runs -----

  ghost predicate LegalRun(w: World, es: seq<Event>, tools: Tools)
    decreases |es|
  {
    |es| > 0 ==> Enabled(w, es[0], tools) && LegalRun(Step(w, es[0], tools), es[1..], tools)
  }

  ghost function Final(w: World, es: seq<Event>, tools: Tools): World
    requires LegalRun(w, es, tools)
    decreases |es|
  {
    if |es| == 0 then w else Final(Step(w, es[0], tools), es[1..], tools)
  }

  lemma {:induction false} RunKeepsInv(w: World, es: seq<Event>, tools: Tools)
    requires Inv(w, tools) && LegalRun(w, es, tools)
    ensures Inv(Final(w, es, tools), tools)
    ensures w.secrets <= Final(w, es, tools).secrets
    decreases |es|
  {
    if |es| > 0 {
      StepKeepsInv(w, es[0], tools);
      RunKeepsInv(Step(w, es[0], tools), es[1..], tools);
    }
  }

  ghost predicate CleanStart(w: World) {
    w.secrets == [] && w.phase.Idle? && forall r <- w.index :: !r.isPrivate
  }

  lemma CleanStartIsRight(w: World, tools: Tools)
    requires CleanStart(w)
    ensures Inv(w, tools)
  {
    forall lab: Lab
      ensures LabOk(w, lab, tools)
    {
      NoPrivateDocs(w.index, lab);
    }
  }

  /** The row that holds a lab's committed flag for an exercise. */
  predicate IsCommitted(secrets: seq<Secret>, lab: Lab, e: Exercise, value: Flag) {
    exists row <- secrets :: row.lab == lab && row.exercise == e && row.value == Some(value)
  }

  lemma {:induction false} SecretIsCommitted(secrets: seq<Secret>, lab: Lab, e: Exercise)
    requires SecretOf(secrets, lab, e).Some?
    ensures IsCommitted(secrets, lab, e, SecretOf(secrets, lab, e).value)
  {
    if secrets[0].lab == lab && secrets[0].exercise == e {
      assert secrets[0] in secrets;
    } else {
      SecretIsCommitted(secrets[1..], lab, e);
      assert forall row <- secrets[1..] :: row in secrets;
    }
  }

  /** One chunk of the document that is built from a flag. */
  predicate IsChunkOf(r: Record, tools: Tools, lab: Lab, value: Flag) {
    && r.lab == lab && r.isPrivate && r.source == "staff_handbook_confidential.pdf"
    && r.chunkId < |tools.chunksOf(value)| && r.text == tools.chunksOf(value)[r.chunkId] && r.tokenLength == tools.tok(r.text)
  }

  lemma {:induction false} PrivateDocsHas(index: seq<Record>, r: Record)
    requires r in index && r.isPrivate
    ensures r in PrivateDocs(index, r.lab)
  {
    if index[0] != r {
      PrivateDocsHas(index[1..], r);
    }
  }

  /** Whatever fails: a private chunk always belongs to the document of its lab's committed flag. */
  lemma PrivateChunksAreCommitted(w: World, es: seq<Event>, tools: Tools, r: Record)
    requires CleanStart(w) && LegalRun(w, es, tools)
    requires r in Final(w, es, tools).index && r.isPrivate
    ensures var w1 := Final(w, es, tools);
            && SecretOf(w1.secrets, r.lab, EX05).Some?
            && r in Document(tools, r.lab, SecretOf(w1.secrets, r.lab, EX05).value)
            && IsCommitted(w1.secrets, r.lab, EX05, SecretOf(w1.secrets, r.lab, EX05).value)
            && IsChunkOf(r, tools, r.lab, SecretOf(w1.secrets, r.lab, EX05).value)
  {
    CleanStartIsRight(w, tools);
    RunKeepsInv(w, es, tools);
    var w1 := Final(w, es, tools);
    PrivateDocsHas(w1.index, r);
    assert LabOk(w1, r.lab, tools);
    var k: nat :| HoldsBatches(w1, r.lab, k, tools);
    SecretIsCommitted(w1.secrets, r.lab, EX05);
  }

  /** A run that failed leaves whole batches from the front of the document, or nothing. */
  lemma FailureLeavesWholeBatches(w: World, es: seq<Event>, tools: Tools, lab: Lab)
    requires CleanStart(w) && LegalRun(w, es, tools)
    ensures var w1 := Final(w, es, tools);
            && OneFlagEach(w1.secrets)
            && (PrivateDocs(w1.index, lab) == [] || exists k: nat :: HoldsBatches(w1, lab, k, tools))
  {
    CleanStartIsRight(w, tools);
    RunKeepsInv(w, es, tools);
    assert LabOk(Final(w, es, tools), lab, tools);
  }

  /** After any history of failures, a run that finishes leaves exactly one document, in order, of the committed flag. */
  lemma SuccessLeavesOneDocument(w: World, es: seq<Event>, tools: Tools)
    requires CleanStart(w) && LegalRun(w, es, tools) && Enabled(Final(w, es, tools), Finish, tools)
    ensures var w1 := Final(w, es, tools);
            var docs := PrivateDocs(Step(w1, Finish, tools).index, w1.phase.lab);
            && SecretOf(w1.secrets, w1.phase.lab, EX05).Some?
            && docs == Document(tools, w1.phase.lab, SecretOf(w1.secrets, w1.phase.lab, EX05).value)
            && IsCommitted(w1.secrets, w1.phase.lab, EX05, w1.phase.value) && |docs| == |tools.chunksOf(w1.phase.value)|
            && forall i :: 0 <= i < |docs| ==>
                 docs[i].chunkId == i && IsChunkOf(docs[i], tools, w1.phase.lab, w1.phase.value)
  {
    CleanStartIsRight(w, tools);
    RunKeepsInv(w, es, tools);
    var w1 := Final(w, es, tools);
    SecretIsCommitted(w1.secrets, w1.phase.lab, EX05);
    AllBatches(Document(tools, w1.phase.lab, w1.phase.value));
  }

  // ----- A committed run leaves all three flags -----

  /** How many rows a lab has for an exercise. */
  function RowsOf(secrets: seq<Secret>, lab: Lab, e: Exercise): nat {
    if secrets == [] then 0
    else (if secrets[0].lab == lab && secrets[0].exercise == e then 1 else 0) + RowsOf(secrets[1..], lab, e)
  }

  ghost predicate AllThree(secrets: seq<Secret>, lab: Lab) {
    RowsOf(secrets, lab, EX03) == 1 && RowsOf(secrets, lab, EX04) == 1 && RowsOf(secrets, lab, EX05) == 1
  }

  lemma OneFlagTail(secrets: seq<Secret>)
    requires OneFlagEach(secrets) && secrets != []
    ensures OneFlagEach(secrets[1..])
    ensures forall row <- secrets[1..] :: !(row.lab == secrets[0].lab && row.exercise == secrets[0].exercise)
  {
    var tail := secrets[1..];
    assert forall i :: 0 <= i < |tail| ==> tail[i] == secrets[i + 1];
  }

  /** Where no exercise has two rows, it has one exactly if it is seeded. */
  lemma {:induction false} OneRowIfSeeded(secrets: seq<Secret>, lab: Lab, e: Exercise)
    requires OneFlagEach(secrets)
    ensures RowsOf(secrets, lab, e) == if Seeded(secrets, lab, e) then 1 else 0
  {
    if secrets != [] {
      OneFlagTail(secrets);
      OneRowIfSeeded(secrets[1..], lab, e);
      assert secrets == [secrets[0]] + secrets[1..];
      assert Seeded(secrets, lab, e) <==>
             (secrets[0].lab == lab && secrets[0].exercise == e) || Seeded(secrets[1..], lab, e);
    }
  }

  lemma SeededStays(secrets: seq<Secret>, later: seq<Secret>, lab: Lab, e: Exercise)
    requires secrets <= later && Seeded(secrets, lab, e)
    ensures Seeded(later, lab, e)
  {
    var row :| row in secrets && row.lab == lab && row.exercise == e;
    assert row in later;
  }

  lemma NewRowSeeds(secrets: seq<Secret>, lab: Lab, e: Exercise, flag: Flag)
    ensures Seeded(secrets, lab, e) || Seeded(NewRow(secrets, lab, e, flag), lab, e)
  {
    if !Seeded(secrets, lab, e) {
      assert NewRow(secrets, lab, e, flag)[0] in NewRow(secrets, lab, e, flag);
    }
  }

  lemma SeededInParts(a: seq<Secret>, b: seq<Secret>, lab: Lab, e: Exercise)
    requires Seeded(a, lab, e) || Seeded(b, lab, e)
    ensures Seeded(a + b, lab, e)
  {
    var row :| (row in a || row in b) && row.lab == lab && row.exercise == e;
    assert row in a + b;
  }

  lemma StageSeedsAll(secrets: seq<Secret>, lab: Lab, f3: Flag, f4: Flag, f5: Flag, e: Exercise)
    ensures Seeded(secrets + MissingRows(secrets, lab, f3, f4, f5), lab, e)
  {
    var r3, r4, r5 := NewRow(secrets, lab, EX03, f3), NewRow(secrets, lab, EX04, f4), NewRow(secrets, lab, EX05, f5);
    NewRowSeeds(secrets, lab, e, match e case EX03 => f3 case EX04 => f4 case EX05 => f5);
    if !Seeded(secrets, lab, e) {
      if e != EX05 {
        SeededInParts(r3, r4, lab, e);
      }
      SeededInParts(r3 + r4, r5, lab, e);
    }
    SeededInParts(secrets, MissingRows(secrets, lab, f3, f4, f5), lab, e);
  }

  lemma SeededAreAllThree(secrets: seq<Secret>, lab: Lab)
    requires OneFlagEach(secrets) && forall e: Exercise :: Seeded(secrets, lab, e)
    ensures AllThree(secrets, lab)
  {
    OneRowIfSeeded(secrets, lab, EX03);
    OneRowIfSeeded(secrets, lab, EX04);
    OneRowIfSeeded(secrets, lab, EX05);
  }

  /** From staging on, the lab of the run has every flag, as staged or as committed. */
  ghost predicate StagedAll(w: World) {
    match w.phase
    case Staged(lab, rows) => forall e: Exercise :: Seeded(w.secrets + rows, lab, e)
    case _ => true
  }

  lemma StepKeepsStaged(w: World, e: Event, tools: Tools)
    requires StagedAll(w) && Enabled(w, e, tools)
    ensures StagedAll(Step(w, e, tools))
  {
    match e
    case Stage(f3, f4, f5) =>
      forall x: Exercise
        ensures Seeded(w.secrets + MissingRows(w.secrets, w.phase.lab, f3, f4, f5), w.phase.lab, x)
      {
        StageSeedsAll(w.secrets, w.phase.lab, f3, f4, f5, x);
      }
    case _ =>
  }

  lemma {:induction false} RunKeepsStaged(w: World, es: seq<Event>, tools: Tools)
    requires StagedAll(w) && LegalRun(w, es, tools)
    ensures StagedAll(Final(w, es, tools))
    decreases |es|
  {
    if |es| > 0 {
      StepKeepsStaged(w, es[0], tools);
      RunKeepsStaged(Step(w, es[0], tools), es[1..], tools);
    }
  }

  /** Once a run has committed its flags, its lab has exactly one row for each exercise, whatever happens afterwards. */
  lemma CommittedLabsHaveAllFlags(w: World, es: seq<Event>, later: seq<Event>, tools: Tools)
    requires CleanStart(w) && LegalRun(w, es, tools) && Enabled(Final(w, es, tools), CommitFlags, tools)
    requires LegalRun(Step(Final(w, es, tools), CommitFlags, tools), later, tools)
    ensures var w1 := Final(w, es, tools);
            AllThree(Final(Step(w1, CommitFlags, tools), later, tools).secrets, w1.phase.lab)
  {
    CleanStartIsRight(w, tools);
    RunKeepsInv(w, es, tools);
    RunKeepsStaged(w, es, tools);
    var w1 := Final(w, es, tools);
    var lab, w2 := w1.phase.lab, Step(w1, CommitFlags, tools);
    StepKeepsInv(w1, CommitFlags, tools);
    RunKeepsInv(w2, later, tools);
    var w3 := Final(w2, later, tools);
    forall e: Exercise
      ensures Seeded(w3.secrets, lab, e)
    {
      SeededStays(w2.secrets, w3.secrets, lab, e);
    }
    SeededAreAllThree(w3.secrets, lab);
  }

  /** A row that is new for its lab and exercise, with the flag drawn for that exercise. */
  ghost predicate DrawnRow(row: Secret, secrets: seq<Secret>, lab: Lab, f3: Flag, f4: Flag, f5: Flag) {
    && row.lab == lab && RowsOf(secrets, lab, row.exercise) == 0
    && row.flag == (match row.exercise case EX03 => f3 case EX04 => f4 case EX05 => f5)
    && row.value == (match row.exercise case EX03 => Some(row.flag) case EX04 => None case EX05 => Some(row.flag))
  }

  lemma MissingRowsAreDrawn(secrets: seq<Secret>, lab: Lab, f3: Flag, f4: Flag, f5: Flag)
    requires OneFlagEach(secrets)
    ensures forall row <- MissingRows(secrets, lab, f3, f4, f5) :: DrawnRow(row, secrets, lab, f3, f4, f5)
  {
    OneRowIfSeeded(secrets, lab, EX03);
    OneRowIfSeeded(secrets, lab, EX04);
    OneRowIfSeeded(secrets, lab, EX05);
  }

  lemma {:induction false} UploadsLeaveFlags(w: World, es: seq<Event>, tools: Tools)
    requires LegalRun(w, es, tools) && forall e <- es :: e.Upload?
    ensures Final(w, es, tools).secrets == w.secrets && Final(w, es, tools).phase == w.phase
    decreases |es|
  {
    if |es| > 0 {
      assert es[0] in es && forall e <- es[1..] :: e in es;
      UploadsLeaveFlags(Step(w, es[0], tools), es[1..], tools);
    }
  }

  lemma {:induction false} RowsOfOthers(secrets: seq<Secret>, rows: seq<Secret>, lab: Lab, e: Exercise)
    requires forall row <- rows :: row.lab != lab
    ensures RowsOf(secrets + rows, lab, e) == RowsOf(secrets, lab, e)
    decreases |secrets| + |rows|
  {
    if secrets != [] {
      RowsOfOthers(secrets[1..], rows, lab, e);
      assert (secrets + rows)[1..] == secrets[1..] + rows;
    } else if rows != [] {
      RowsOfOthers([], rows[1..], lab, e);
      assert [] + rows == rows && [] + rows[1..] == rows[1..];
    }
  }

  /**
   What one run commits: the earlier rows as they were, behind them a row for each exercise that the lab
   lacked, with the flag drawn for it, and nothing for any other lab.
  */
  lemma CommitAddsDrawnFlags(w: World, f3: Flag, f4: Flag, f5: Flag, uploads: seq<Event>, tools: Tools)
    requires Inv(w, tools) && Enabled(w, Stage(f3, f4, f5), tools) && forall e <- uploads :: e.Upload?
    requires LegalRun(Step(w, Stage(f3, f4, f5), tools), uploads, tools)
    ensures var w1, lab := Final(Step(w, Stage(f3, f4, f5), tools), uploads, tools), w.phase.lab;
            && Enabled(w1, CommitFlags, tools)
            && var after := Step(w1, CommitFlags, tools).secrets;
               && w.secrets <= after && AllThree(after, lab)
               && (forall i :: |w.secrets| <= i < |after| ==> DrawnRow(after[i], w.secrets, lab, f3, f4, f5))
               && (forall other: Lab, e: Exercise :: other != lab ==> RowsOf(after, other, e) == RowsOf(w.secrets, other, e))
  {
    var lab, rows := w.phase.lab, MissingRows(w.secrets, w.phase.lab, f3, f4, f5);
    UploadsLeaveFlags(Step(w, Stage(f3, f4, f5), tools), uploads, tools);
    MissingRowsAreDrawn(w.secrets, lab, f3, f4, f5);
    StageKeepsOneFlag(w.secrets, lab, f3, f4, f5);
    forall e: Exercise
      ensures Seeded(w.secrets + rows, lab, e)
    {
      StageSeedsAll(w.secrets, lab, f3, f4, f5, e);
    }
    SeededAreAllThree(w.secrets + rows, lab);
    forall other: Lab, e: Exercise | other != lab
      ensures RowsOf(w.secrets + rows, other, e) == RowsOf(w.secrets, other, e)
    {
      RowsOfOthers(w.secrets, rows, other, e);
    }
    assert forall i :: |w.secrets| <= i < |w.secrets + rows| ==> (w.secrets + rows)[i] in rows;
  }

  // ----- The rest of the index -----

  lemma {:induction false} WithoutKeeps(index: seq<Record>, lab: Lab, r: Record)
    ensures r in Without(index, lab) <==> r in index && !(r.lab == lab && r.source == PRIVATE_PDF_NAME)
  {
    if index != [] {
      WithoutKeeps(index[1..], lab, r);
    }
  }

  /** Rebuilding a private document removes no chunk of any other document. */
  lemma {:induction false} OtherDocumentsStay(w: World, es: seq<Event>, tools: Tools, r: Record)
    requires LegalRun(w, es, tools) && r in w.index && r.source != "staff_handbook_confidential.pdf"
    ensures r in Final(w, es, tools).index
    decreases |es|
  {
    if |es| > 0 {
      if es[0].RemoveOld? {
        WithoutKeeps(w.index, w.phase.lab, r);
      }
      OtherDocumentsStay(Step(w, es[0], tools), es[1..], tools, r);
    }
  }

  // ----- Repeating the command recovers -----

  lemma {:induction false} SeededHasSecret(secrets: seq<Secret>, lab: Lab, e: Exercise)
    requires Seeded(secrets, lab, e) && KeepsPlaintext(e)
    requires forall row <- secrets :: row.value == if KeepsPlaintext(row.exercise) then Some(row.flag) else None
    ensures SecretOf(secrets, lab, e).Some?
  {
    if !(secrets[0].lab == lab && secrets[0].exercise == e) {
      assert forall row <- secrets[1..] :: row in secrets;
      SeededHasSecret(secrets[1..], lab, e);
    } else {
      assert secrets[0] in secrets;
    }
  }

  /** From the middle of the indexing the remaining batches and `Finish` go through. */
  lemma {:induction false} IndexingFinishes(w: World, tools: Tools) returns (es: seq<Event>)
    requires w.phase.Indexing? && tools.chunksOf(w.phase.value) != []
    requires w.phase.done <= Batches(|Document(tools, w.phase.lab, w.phase.value)|)
    ensures LegalRun(w, es, tools)
    ensures var w1 := Final(w, es, tools);
            w1.phase == w.phase.(done := Batches(|Document(tools, w.phase.lab, w.phase.value)|)) && Enabled(w1, Finish, tools)
    decreases Batches(|Document(tools, w.phase.lab, w.phase.value)|) - w.phase.done
  {
    es := [];
    if w.phase.done < Batches(|Document(tools, w.phase.lab, w.phase.value)|) {
      var rest := IndexingFinishes(Step(w, InsertNext, tools), tools);
      es := [InsertNext] + rest;
      assert es[1..] == rest;
    }
  }

  /** One event in front of a run. */
  lemma Prepend(w: World, e: Event, es: seq<Event>, tools: Tools)
    requires Enabled(w, e, tools) && LegalRun(Step(w, e, tools), es, tools)
    ensures LegalRun(w, [e] + es, tools) && Final(w, [e] + es, tools) == Final(Step(w, e, tools), es, tools)
  {
    assert ([e] + es)[1..] == es;
  }

  /** Whatever earlier runs left behind, repeating the command on a lab with a session can reach `Finish`. */
  lemma RepeatingRecovers(w: World, lab: Lab, f3: Flag, f4: Flag, f5: Flag, tools: Tools) returns (es: seq<Event>)
    requires Inv(w, tools) && w.phase.Idle? && lab in w.labs && forall flag :: tools.chunksOf(flag) != []
    ensures LegalRun(w, es, tools)
    ensures Enabled(Final(w, es, tools), Finish, tools) && Final(w, es, tools).phase.lab == lab
  {
    var w1 := Step(w, Start(lab), tools);
    StepKeepsInv(w, Start(lab), tools);
    var w2 := Step(w1, Stage(f3, f4, f5), tools);
    StepKeepsInv(w1, Stage(f3, f4, f5), tools);
    var w3 := Step(w2, CommitFlags, tools);
    StepKeepsInv(w2, CommitFlags, tools);
    assert Seeded(w3.secrets, lab, EX05) by {
      if !Seeded(w.secrets, lab, EX05) {
        assert w3.secrets[|w3.secrets| - 1] == NewRow(w.secrets, lab, EX05, f5)[0];
        assert w3.secrets[|w3.secrets| - 1] in w3.secrets;
      } else {
        assert forall row <- w.secrets :: row in w3.secrets;
      }
    }
    SeededHasSecret(w3.secrets, lab, EX05);
    var w4 := Step(w3, ReadSecret, tools);
    var w5 := Step(w4, RemoveOld, tools);
    es := IndexingFinishes(w5, tools);
    Prepend(w4, RemoveOld, es, tools);
    es := [RemoveOld] + es;
    Prepend(w3, ReadSecret, es, tools);
    es := [ReadSecret] + es;
    Prepend(w2, CommitFlags, es, tools);
    es := [CommitFlags] + es;
    Prepend(w1, Stage(f3, f4, f5), es, tools);
    es := [Stage(f3, f4, f5)] + es;
    Prepend(w, Start(lab), es, tools);
    es := [Start(lab)] + es;
  }
}
