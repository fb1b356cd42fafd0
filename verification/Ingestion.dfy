/** Storing the chunks of one document in whole batches, with a job status that clients follow. */
module Ingestion {
  import opened Options

  const BATCH_SIZE := 100

  /** One stored chunk with the metadata that the worker gives it. */
  datatype Record = Record(text: string, source: string, lab: nat, isPrivate: bool, chunkId: nat, tokenLength: nat)

  datatype Status = Failed | Finished

  function Records(chunks: seq<string>, tok: string -> nat, source: string, lab: nat, isPrivate: bool): (rs: seq<Record>)
    ensures |rs| == |chunks|
    ensures forall i :: 0 <= i < |rs| ==>
              rs[i] == Record(chunks[i], source, lab, isPrivate, i, tok(chunks[i]))
  {
    seq(|chunks|, i requires 0 <= i < |chunks| => Record(chunks[i], source, lab, isPrivate, i, tok(chunks[i])))
  }

  /** The number of batches of `range(0, n, batch_size)`. */
  function Batches(n: nat): nat { (n + BATCH_SIZE - 1) / BATCH_SIZE }

  /** A slice bound past the end is the end. */
  function Clip(i: nat, n: nat): nat { if i <= n then i else n }

  /** The first `k` whole batches. */
  function BatchPrefix<T>(items: seq<T>, k: nat): seq<T> { items[..Clip(k * BATCH_SIZE, |items|)] }

  /** The batch after `k` batches, as the slice `[i : i + batch_size]` gives it. */
  function NextBatch<T>(items: seq<T>, k: nat): seq<T>
    requires k < Batches(|items|)
  {
    if (k + 1) * BATCH_SIZE <= |items| then items[k * BATCH_SIZE..(k + 1) * BATCH_SIZE] else items[k * BATCH_SIZE..]
  }

  /** Batch by batch the whole list is stored, nothing twice. */
  lemma BatchesAddUp<T>(items: seq<T>, k: nat)
    requires k < Batches(|items|)
    ensures BatchPrefix(items, k + 1) == BatchPrefix(items, k) + NextBatch(items, k)
    ensures NextBatch(items, k) != []
  {
    assert k * BATCH_SIZE < |items|;
  }

  lemma AllBatches<T>(items: seq<T>)
    ensures BatchPrefix(items, 0) == [] && BatchPrefix(items, Batches(|items|)) == items
  {
  }

  // ----- Progress -----

  /** `30 + int((i + 1) / n * 30)` after chunk `i` was counted. */
  function TokenizeProgress(i: nat, n: nat): int
    requires n > 0
  {
    30 + (i + 1) * 30 / n
  }

  /** `60 + int((total_inserted + 1) / n * 30)` after a batch. */
  function InsertProgress(inserted: nat, n: nat): int
    requires n > 0
  {
    60 + (inserted + 1) * 30 / n
  }

  /** The number of stored chunks after batch `k`. */
  function InsertedAfter(k: nat, n: nat): nat { if (k + 1) * BATCH_SIZE <= n then (k + 1) * BATCH_SIZE else n }

  lemma DivBound(a: nat, b: nat, n: nat)
    requires n > 0 && a <= b * n
    ensures a / n <= b
  {
    var q := a / n;
    assert q * n <= a;
    assert (b - q) * n == b * n - q * n >= 0;
  }

  /** A job shows 100 percent before it is finished exactly for documents of at most three chunks. */
  lemma EarlyHundred(n: nat)
    requires n > 0
    ensures (exists k: nat :: k < Batches(n) && InsertProgress(InsertedAfter(k, n), n) >= 100) <==> n <= 3
  {
    if n <= 3 {
      assert Batches(n) == 1;
      assert InsertProgress(InsertedAfter(0, n), n) >= 100;
    } else {
      forall k: nat | k < Batches(n)
        ensures InsertProgress(InsertedAfter(k, n), n) < 100
      {
        var inserted := InsertedAfter(k, n);
        assert (inserted + 1) * 30 <= 39 * n;
        DivBound((inserted + 1) * 30, 39, n);
      }
    }
  }

  lemma MultiplesGrow(a: nat, b: nat, n: nat)
    requires a <= b
    ensures a * n <= b * n
  {
  }

  lemma WholeQuotient(k: nat, n: nat)
    requires n > 0
    ensures n * k / n == k
  {
    var q := n * k / n;
    DivBound(n * k, k, n);
    assert n * k < (q + 1) * n;
    if q < k {
      MultiplesGrow(q + 1, k, n);
    }
  }

  /** The tokenizing phase never leaves its range, and ends at 60 percent. */
  lemma TokenizeStaysBelow60(i: nat, n: nat)
    requires i < n
    ensures 30 <= TokenizeProgress(i, n) <= 60
    ensures i == n - 1 ==> TokenizeProgress(i, n) == 60
  {
    DivBound((i + 1) * 30, 30, n);
    assert i == n - 1 ==> (i + 1) * 30 / n == 30 by {
      WholeQuotient(30, n);
    }
  }

  // ----- The loops of `process_pdf` after the text is extracted -----

  class VectorStore {
    var collection: seq<Record>

    constructor ()
      ensures collection == []
    {
      collection := [];
    }

    /** `add_documents`: all of the batch is added, or the call raises and nothing is. */
    method AddDocuments(batch: seq<Record>, fails: bool) returns (ok: bool)
      modifies this
      ensures ok == !fails
      ensures collection == if fails then old(collection) else old(collection) + batch
    {
      if fails {
        return false;
      }
      collection := collection + batch;
      return true;
    }
  }

  /** The metadata loop: a chunk's number is its position. */
  method DescribeChunks(chunks: seq<string>, tok: string -> nat, source: string, lab: nat, isPrivate: bool)
    returns (metadatas: seq<Record>, progress: int)
    ensures metadatas == Records(chunks, tok, source, lab, isPrivate)
    ensures 30 <= progress <= 60
  {
    ghost var records := Records(chunks, tok, source, lab, isPrivate);
    metadatas, progress := [], 30;
    for i := 0 to |chunks|
      invariant metadatas == records[..i]
      invariant 30 <= progress <= 60
    {
      metadatas := metadatas + [Record(chunks[i], source, lab, isPrivate, i, tok(chunks[i]))];
      TokenizeStaysBelow60(i, |chunks|);
      progress := TokenizeProgress(i, |chunks|);
    }
  }

  /** Where an exception ends the job: a batch insertion, or one of the progress writes to Redis. */
  datatype Fault = NoFault | Describing | Adding(batch: nat) | Reporting(batch: nat) | Finishing

  /** Whether a job with `n` chunks gets to its fault; one without chunks has no batches and describes nothing. */
  predicate Stops(fault: Fault, n: nat) {
    match fault
    case NoFault => false
    case Describing => n > 0
    case Adding(k) => k < Batches(n)
    case Reporting(k) => k < Batches(n)
    case Finishing => true
  }

  /** How many whole batches are stored when the job ends. */
  function StoredBatches(fault: Fault, n: nat): nat {
    if !Stops(fault, n) then Batches(n)
    else match fault
         case Describing => 0
         case Adding(k) => k
         case Reporting(k) => k + 1
         case _ => Batches(n)
  }

  /** The insertion loop: a progress write follows each batch. */
  method InsertBatches(store: VectorStore, records: seq<Record>, fault: Fault) returns (ok: bool)
    requires !fault.Describing?
    modifies store
    ensures ok <==> fault.Finishing? || !Stops(fault, |records|)
    ensures store.collection == old(store.collection) + BatchPrefix(records, StoredBatches(fault, |records|))
    ensures var n := 100 * StoredBatches(fault, |records|);
            store.collection == old(store.collection) + if n <= |records| then records[..n] else records
  {
    var i, k := 0, 0;
    assert store.collection == old(store.collection) + records[..0];
    while i < |records|
      invariant k <= Batches(|records|) && i == k * BATCH_SIZE
      invariant (fault.Adding? || fault.Reporting?) && Stops(fault, |records|) ==> k <= fault.batch
      invariant store.collection == old(store.collection) + records[..Clip(i, |records|)]
    {
      var end := Clip(i + BATCH_SIZE, |records|);
      ok := store.AddDocuments(records[i..end], fault == Adding(k));
      if !ok {
        return;
      }
      assert records[..i] + records[i..end] == records[..end];
      if fault == Reporting(k) {
        return false;
      }
      i, k := i + BATCH_SIZE, k + 1;
    }
    return true;
  }

  /**
   The result is the return value and the job status.  Whatever fails, whole batches from the front are
   stored; a job whose last progress write fails returns 0 with the whole document stored.
  */
  method InsertChunks(store: VectorStore, chunks: seq<string>, tok: string -> nat, source: string, lab: nat,
                      isPrivate: bool, fault: Fault) returns (result: nat, status: Status)
    modifies store
    ensures store.collection == old(store.collection)
                              + BatchPrefix(Records(chunks, tok, source, lab, isPrivate), StoredBatches(fault, |chunks|))
    ensures if Stops(fault, |chunks|) then result == 0 && status == Failed else result == |chunks| && status == Finished
    ensures status == Finished ==>
              store.collection == old(store.collection) + Records(chunks, tok, source, lab, isPrivate)
  {
    if fault.Describing? && chunks != [] {
      assert old(store.collection) + [] == old(store.collection);
      return 0, Failed;
    }
    var metadatas, progress := DescribeChunks(chunks, tok, source, lab, isPrivate);
    AllBatches(metadatas);
    var ok := InsertBatches(store, metadatas, if fault.Describing? then NoFault else fault);
    if ok && !fault.Finishing? {
      return |chunks|, Finished;
    }
    return 0, Failed;
  }
}
