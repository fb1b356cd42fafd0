/** Telling an unreachable model server from any other error, through wrapped and even cyclic exceptions. */
module ExceptionChain {
  import opened Options

  /** What an exception object says of itself; others are named by their identity. */
  datatype Exc = Exc(isNetworkError: bool, cause: Option<nat>, context: Option<nat>)

  type Heap = map<nat, Exc>

  ghost predicate Closed(h: Heap) {
    forall id :: id in h ==> Known(h, h[id].cause) && Known(h, h[id].context)
  }

  predicate Known(h: Heap, e: Option<nat>) { e.Some? ==> e.value in h }

  /** `error.__cause__ or error.__context__` */
  function Behind(h: Heap, id: nat): Option<nat>
    requires id in h
  {
    if h[id].cause.Some? then h[id].cause else h[id].context
  }

  /** The exception after `k` steps along the chain, if the chain is that long. */
  ghost function Nth(h: Heap, e: Option<nat>, k: nat): (r: Option<nat>)
    requires Closed(h) && Known(h, e)
    ensures Known(h, r)
  {
    if k == 0 then e
    else match Nth(h, e, k - 1)
         case None => None
         case Some(id) => Behind(h, id)
  }

  ghost predicate NetworkErrorAt(h: Heap, e: Option<nat>, k: nat)
    requires Closed(h) && Known(h, e)
  {
    Nth(h, e, k).Some? && h[Nth(h, e, k).value].isNetworkError
  }

  ghost predicate HasNetworkError(h: Heap, e: Option<nat>)
    requires Closed(h) && Known(h, e)
  {
    exists k: nat :: NetworkErrorAt(h, e, k)
  }

  ghost predicate Follows(h: Heap, seen: set<nat>, e: Option<nat>) {
    forall id :: id in seen ==> id in h && (Behind(h, id).Some? ==> Behind(h, id).value in seen || Behind(h, id) == e)
  }

  /** Once the chain returns to a seen exception, or ends, it has nothing new. */
  lemma {:induction false} NothingNew(h: Heap, start: Option<nat>, seen: set<nat>, e: Option<nat>, k: nat)
    requires Closed(h) && Known(h, start) && Follows(h, seen, e)
    requires start.Some? ==> start.value in seen || start == e
    requires e.Some? ==> e.value in seen
    ensures Nth(h, start, k).Some? ==> Nth(h, start, k).value in seen
  {
    if k > 0 {
      NothingNew(h, start, seen, e, k - 1);
    }
  }

  lemma NthFromNext(h: Heap, id: nat, k: nat)
    requires Closed(h) && id in h
    ensures Nth(h, Some(id), k + 1) == Nth(h, Behind(h, id), k)
  {
    if k > 0 {
      NthFromNext(h, id, k - 1);
    } else {
      assert Nth(h, Some(id), 0) == Some(id);
    }
  }

  /** The chain in the terms of `raise`: a cause hides the context, and without either the chain ends. */
  lemma ChainByCause(h: Heap, id: nat)
    requires Closed(h) && id in h
    ensures HasNetworkError(h, Some(id)) <==>
            || h[id].isNetworkError
            || (if h[id].cause.Some? then HasNetworkError(h, h[id].cause) else HasNetworkError(h, h[id].context))
    ensures !HasNetworkError(h, None)
  {
    var next := Behind(h, id);
    forall k: nat
      ensures NetworkErrorAt(h, Some(id), k + 1) <==> NetworkErrorAt(h, next, k)
      ensures Nth(h, None, k).None?
    {
      NthFromNext(h, id, k);
      EndStays(h, k);
    }
    assert NetworkErrorAt(h, Some(id), 0) <==> h[id].isNetworkError;
    if k: nat :| NetworkErrorAt(h, Some(id), k) {
      assert k > 0 ==> NetworkErrorAt(h, next, k - 1) by {
        if k > 0 {
          NthFromNext(h, id, k - 1);
        }
      }
    }
  }

  lemma {:induction false} EndStays(h: Heap, k: nat)
    requires Closed(h)
    ensures Nth(h, None, k).None?
  {
    if k > 0 {
      EndStays(h, k - 1);
    }
  }

  /** The whole chain decides, and no cycle makes the search endless. */
  method IsConnectionError(h: Heap, start: Option<nat>) returns (found: bool)
    requires Closed(h) && Known(h, start)
    ensures found <==> HasNetworkError(h, start)
  {
    var seen: set<nat> := {};
    var error := start;
    ghost var k: nat := 0;
    while error.Some? && error.value !in seen
      invariant error == Nth(h, start, k)
      invariant seen <= h.Keys && Follows(h, seen, error)
      invariant start.Some? ==> start.value in seen || start == error
      invariant forall id :: id in seen ==> !h[id].isNetworkError
      decreases h.Keys - seen
    {
      if h[error.value].isNetworkError {
        assert NetworkErrorAt(h, start, k);
        return true;
      }
      seen := seen + {error.value};
      error := Behind(h, error.value);
      k := k + 1;
    }
    forall n: nat
      ensures !NetworkErrorAt(h, start, n)
    {
      NothingNew(h, start, seen, error, n);
    }
    found := false;
  }
}
