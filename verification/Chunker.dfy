/** Splitting a document into overlapping chunks of whole sentences. */
module Chunker {
  import opened Sequences

  const MAX_TOKENS := 250
  const OVERLAP_TOKENS := 50

  /** Sentences `lo` up to but not including `hi`. */
  datatype Window = Window(lo: nat, hi: nat)

  function Sum(t: seq<nat>, lo: nat, hi: nat): nat
    requires lo <= hi <= |t|
    decreases hi - lo
  {
    if lo == hi then 0 else t[lo] + Sum(t, lo + 1, hi)
  }

  lemma {:induction false} SumSplit(t: seq<nat>, lo: nat, mid: nat, hi: nat)
    requires lo <= mid <= hi <= |t|
    ensures Sum(t, lo, hi) == Sum(t, lo, mid) + Sum(t, mid, hi)
    decreases mid - lo
  {
    if lo < mid {
      SumSplit(t, lo + 1, mid, hi);
    }
  }

  /** One more sentence on the right. */
  lemma SumRight(t: seq<nat>, lo: nat, hi: nat)
    requires lo <= hi < |t|
    ensures Sum(t, lo, hi + 1) == Sum(t, lo, hi) + t[hi]
  {
    SumSplit(t, lo, hi, hi + 1);
    assert Sum(t, hi, hi + 1) == t[hi] + Sum(t, hi + 1, hi + 1);
  }

  /** Where the next chunk starts: the longest suffix of at most 50 tokens, or else the last sentence. */
  ghost predicate CarriesLongestSuffix(t: seq<nat>, lo: nat, hi: nat, k: nat) {
    && lo <= k < hi <= |t|
    && (Sum(t, k, hi) <= 50 || k == hi - 1)
    && forall j :: lo <= j < k ==> Sum(t, j, hi) > 50
  }

  /** The inner loop: drop sentences from the front while the rest is too long. */
  function Trim(t: seq<nat>, lo: nat, hi: nat): (k: nat)
    requires lo < hi <= |t|
    ensures CarriesLongestSuffix(t, lo, hi, k)
    decreases hi - lo
  {
    if Sum(t, lo, hi) > OVERLAP_TOKENS && hi - lo > 1 then Trim(t, lo + 1, hi) else lo
  }

  /** The outer loop: sentences `lo..hi` are in the current chunk and `hi` is the next one. */
  function Windows(t: seq<nat>, lo: nat, hi: nat): seq<Window>
    requires lo <= hi <= |t|
    decreases |t| - hi
  {
    if hi == |t| then (if lo < hi then [Window(lo, hi)] else [])
    else if Sum(t, lo, hi) + t[hi] > MAX_TOKENS && lo < hi then
      [Window(lo, hi)] + Windows(t, Trim(t, lo, hi), hi + 1)
    else
      Windows(t, lo, hi + 1)
  }

  function Chunks(t: seq<nat>): seq<Window> { Windows(t, 0, 0) }

  // ----- What the windows must satisfy, said without the loops -----

  /** Chunk `b` follows chunk `a`: one more sentence would not fit in `a`, and all but one of its own fit in `b`. */
  ghost predicate Follows(t: seq<nat>, a: Window, b: Window) {
    && CarriesLongestSuffix(t, a.lo, a.hi, b.lo)
    && a.hi < b.hi <= |t|
    && Sum(t, a.lo, a.hi + 1) > 250
    && forall j :: a.hi + 1 < j <= b.hi ==> Sum(t, b.lo, j) <= 250
  }

  /** A chunking of the sentences from `lo` on, whose first chunk holds at least `lo..least`. */
  ghost predicate ChunkingFrom(t: seq<nat>, lo: nat, least: nat, ws: seq<Window>) {
    && lo < least && ws != [] && ws[0].lo == lo && least <= ws[0].hi <= |t|
    && (forall j :: least < j <= ws[0].hi ==> Sum(t, lo, j) <= 250)
    && (forall i :: 0 <= i < |ws| - 1 ==> Follows(t, ws[i], ws[i + 1]))
    && ws[|ws| - 1].hi == |t|
  }

  /** Every first chunk takes at least its first sentence, however long that is. */
  ghost predicate Chunking(t: seq<nat>, ws: seq<Window>) {
    if t == [] then ws == [] else ChunkingFrom(t, 0, 1, ws)
  }

  lemma ChunkThenRest(t: seq<nat>, lo: nat, hi: nat, k: nat, rest: seq<Window>)
    requires lo < hi < |t| && CarriesLongestSuffix(t, lo, hi, k) && Sum(t, lo, hi + 1) > 250
    requires ChunkingFrom(t, k, hi + 1, rest)
    ensures ChunkingFrom(t, lo, hi, [Window(lo, hi)] + rest)
  {
    var ws := [Window(lo, hi)] + rest;
    assert forall i :: 0 < i < |ws| ==> ws[i] == rest[i - 1];
    assert Follows(t, ws[0], ws[1]);
  }

  lemma {:induction false} WindowsChunk(t: seq<nat>, lo: nat, hi: nat)
    requires lo < hi <= |t|
    ensures ChunkingFrom(t, lo, hi, Windows(t, lo, hi))
    decreases |t| - hi
  {
    if hi < |t| {
      SumRight(t, lo, hi);
      if Sum(t, lo, hi) + t[hi] > MAX_TOKENS {
        var k := Trim(t, lo, hi);
        WindowsChunk(t, k, hi + 1);
        ChunkThenRest(t, lo, hi, k, Windows(t, k, hi + 1));
      } else {
        WindowsChunk(t, lo, hi + 1);
      }
    }
  }

  /** The two loops produce a chunking of every document. */
  lemma ChunksAreChunking(t: seq<nat>)
    ensures Chunking(t, Chunks(t))
  {
    if t != [] {
      WindowsChunk(t, 0, 1);
      assert Sum(t, 0, 0) == 0;
    }
  }

  /** There is only one chunking, so the description leaves the loops no choice. */
  lemma {:induction false} ChunkingIsUnique(t: seq<nat>, lo: nat, least: nat, a: seq<Window>, b: seq<Window>)
    requires ChunkingFrom(t, lo, least, a) && ChunkingFrom(t, lo, least, b)
    ensures a == b
    decreases |a|
  {
    FirstEndsDoNotDiffer(t, lo, least, a, b);
    FirstEndsDoNotDiffer(t, lo, least, b, a);
    assert a[0] == b[0];
    OnlyTheLastReachesTheEnd(t, lo, least, a);
    OnlyTheLastReachesTheEnd(t, lo, least, b);
    if |a| > 1 {
      assert Follows(t, a[0], a[1]) && Follows(t, b[0], b[1]);
      assert a[1].lo == b[1].lo;
      TailIsChunking(t, lo, least, a);
      TailIsChunking(t, lo, least, b);
      ChunkingIsUnique(t, a[1].lo, a[0].hi + 1, a[1..], b[1..]);
      assert a == [a[0]] + a[1..] && b == [b[0]] + b[1..];
    }
  }

  lemma OnlyTheLastReachesTheEnd(t: seq<nat>, lo: nat, least: nat, ws: seq<Window>)
    requires ChunkingFrom(t, lo, least, ws)
    ensures |ws| == 1 <==> ws[0].hi == |t|
  {
    if |ws| > 1 {
      assert Follows(t, ws[0], ws[1]);
    }
  }

  lemma FirstEndsDoNotDiffer(t: seq<nat>, lo: nat, least: nat, a: seq<Window>, b: seq<Window>)
    requires ChunkingFrom(t, lo, least, a) && ChunkingFrom(t, lo, least, b)
    ensures a[0].hi >= b[0].hi
  {
    if |a| > 1 {
      assert Follows(t, a[0], a[1]);
    }
  }

  lemma TailIsChunking(t: seq<nat>, lo: nat, least: nat, ws: seq<Window>)
    requires ChunkingFrom(t, lo, least, ws) && |ws| > 1
    ensures ChunkingFrom(t, ws[1].lo, ws[0].hi + 1, ws[1..])
  {
    assert Follows(t, ws[0], ws[1]);
    var rest := ws[1..];
    forall i | 0 <= i < |rest| - 1
      ensures Follows(t, rest[i], rest[i + 1])
    {
      assert Follows(t, ws[i + 1], ws[i + 2]);
    }
  }

  lemma ChunksAreTheOnlyChunking(t: seq<nat>, ws: seq<Window>)
    ensures Chunking(t, ws) <==> ws == Chunks(t)
  {
    ChunksAreChunking(t);
    if t != [] && Chunking(t, ws) {
      ChunkingIsUnique(t, 0, 1, ws, Chunks(t));
    }
  }

  // ----- Consequences: order, coverage, size, number -----

  /** Ends strictly increase, starts never decrease, and each chunk overlaps the one before it. */
  lemma ChunksAdvance(t: seq<nat>, i: nat)
    requires i < |Chunks(t)|
    ensures var ws := Chunks(t);
            && ws[i].lo < ws[i].hi <= |t|
            && (i == 0 ==> ws[i].lo == 0)
            && (i == |ws| - 1 ==> ws[i].hi == |t|)
            && (i + 1 < |ws| ==> ws[i].lo <= ws[i + 1].lo < ws[i].hi < ws[i + 1].hi)
  {
    ChunksAreChunking(t);
    var ws := Chunks(t);
    assert i + 1 < |ws| ==> Follows(t, ws[i], ws[i + 1]);
    assert i > 0 ==> Follows(t, ws[i - 1], ws[i]);
  }

  /** Each chunk without the part that the previous chunk, which ended at `from`, already holds. */
  function DropOverlaps<S>(s: seq<S>, ws: seq<Window>, from: nat): seq<S> {
    if ws == [] then []
    else
      (if ws[0].lo <= from <= ws[0].hi <= |s| then s[ws[0].lo..ws[0].hi][from - ws[0].lo..] else [])
      + DropOverlaps(s, ws[1..], ws[0].hi)
  }

  lemma {:induction false} DropOverlapsFrom<S>(s: seq<S>, t: seq<nat>, lo: nat, least: nat, from: nat, ws: seq<Window>)
    requires |s| == |t| && ChunkingFrom(t, lo, least, ws) && lo <= from <= least
    ensures DropOverlaps(s, ws, from) == s[from..]
    decreases |ws|
  {
    var w := ws[0];
    assert s[w.lo..w.hi][from - w.lo..] == s[from..w.hi];
    if |ws| > 1 {
      assert Follows(t, ws[0], ws[1]);
      TailIsChunking(t, lo, least, ws);
      DropOverlapsFrom(s, t, ws[1].lo, w.hi + 1, w.hi, ws[1..]);
      assert s[from..w.hi] + s[w.hi..] == s[from..];
    } else {
      assert ws[1..] == [];
      assert DropOverlaps(s, ws[1..], w.hi) == [];
      assert s[from..w.hi] == s[from..];
    }
  }

  /** Dropping each overlap and concatenating gives back the sentence list exactly. */
  lemma ChunksRebuildTheText<S>(s: seq<S>, t: seq<nat>)
    requires |s| == |t|
    ensures DropOverlaps(s, Chunks(t), 0) == s
  {
    ChunksAreChunking(t);
    if t != [] {
      DropOverlapsFrom(s, t, 0, 1, 0, Chunks(t));
    }
  }

  function Max(a: int, b: int): int { if a < b then b else a }

  ghost predicate AtMost(t: seq<nat>, m: nat) {
    forall i :: 0 <= i < |t| ==> t[i] <= m
  }

  /** What a chunk carries over, and so what it holds after its first new sentence. */
  lemma CarryIsBounded(t: seq<nat>, m: nat, lo: nat, hi: nat, k: nat)
    requires AtMost(t, m) && CarriesLongestSuffix(t, lo, hi, k)
    ensures Sum(t, k, hi) <= Max(OVERLAP_TOKENS, m)
  {
    if k == hi - 1 {
      assert Sum(t, k, hi) == t[k] + Sum(t, hi, hi);
    }
  }

  /** No chunk is longer than max(250, 50 + m, 2m), where m bounds the sentences. */
  lemma ChunkSize(t: seq<nat>, m: nat, i: nat)
    requires AtMost(t, m) && i < |Chunks(t)|
    ensures Chunks(t)[i].lo <= Chunks(t)[i].hi <= |t|
    ensures Sum(t, Chunks(t)[i].lo, Chunks(t)[i].hi) <= Max(250, Max(50 + m, 2 * m))
  {
    ChunksAreChunking(t);
    ChunksAdvance(t, i);
    var ws := Chunks(t);
    var w := ws[i];
    var least := if i == 0 then 1 else ws[i - 1].hi + 1;
    if i > 0 {
      assert Follows(t, ws[i - 1], w);
      CarryIsBounded(t, m, ws[i - 1].lo, ws[i - 1].hi, w.lo);
    }
    if w.hi == least {
      SumRight(t, w.lo, least - 1);
    } else {
      assert Sum(t, w.lo, w.hi) <= MAX_TOKENS;
    }
  }

  /** The limit of 250 tokens holds for every document exactly when no sentence can exceed 125 tokens. */
  lemma LimitHoldsUpTo125(m: nat)
    ensures m <= 125 <==> forall t, i :: AtMost(t, m) && 0 <= i < |Chunks(t)| ==> SumOf(t, Chunks(t)[i]) <= 250
  {
    if m <= 125 {
      forall t, i | AtMost(t, m) && 0 <= i < |Chunks(t)|
        ensures SumOf(t, Chunks(t)[i]) <= 250
      {
        ChunkSize(t, m, i);
      }
    } else {
      var t := [m, m];
      assert Sum(t, 0, 1) == m + Sum(t, 1, 1);
      assert Sum(t, 0, 2) == m + Sum(t, 1, 2) == m + m + Sum(t, 2, 2);
      assert Windows(t, 0, 2) == [Window(0, 2)];
      assert Windows(t, 0, 1) == [Window(0, 1)] + Windows(t, 0, 2);
      assert Chunks(t) == Windows(t, 0, 1);
      assert SumOf(t, Chunks(t)[1]) == 2 * m;
    }
  }

  function SumOf(t: seq<nat>, w: Window): nat {
    if w.lo <= w.hi <= |t| then Sum(t, w.lo, w.hi) else 0
  }

  /** What a chunk that is not the last must bring: it was full but for one sentence, and carried little over. */
  function NewTokens(m: nat): int { 250 - Max(50, m) - m + 1 }

  lemma FullChunkGain(t: seq<nat>, m: nat, least: nat, a: Window, b: Window)
    requires AtMost(t, m) && a.lo < least <= a.hi && Follows(t, a, b)
    requires Sum(t, a.lo, least - 1) <= Max(OVERLAP_TOKENS, m)
    ensures Sum(t, least - 1, a.hi) >= NewTokens(m)
  {
    SumRight(t, a.lo, a.hi);
    SumSplit(t, a.lo, least - 1, a.hi);
  }

  lemma OneMoreGain(n: nat, gain: int)
    requires n > 0
    ensures n * gain == (n - 1) * gain + gain
  {
  }

  lemma {:induction false} NewTokensPerChunk(t: seq<nat>, m: nat, lo: nat, least: nat, ws: seq<Window>)
    requires AtMost(t, m) && ChunkingFrom(t, lo, least, ws) && Sum(t, lo, least - 1) <= Max(OVERLAP_TOKENS, m)
    ensures (|ws| - 1) * NewTokens(m) <= Sum(t, least - 1, |t|)
    decreases |ws|
  {
    if |ws| > 1 {
      var w := ws[0];
      assert Follows(t, w, ws[1]);
      CarryIsBounded(t, m, w.lo, w.hi, ws[1].lo);
      TailIsChunking(t, lo, least, ws);
      NewTokensPerChunk(t, m, ws[1].lo, w.hi + 1, ws[1..]);
      FullChunkGain(t, m, least, w, ws[1]);
      SumSplit(t, least - 1, w.hi, |t|);
      OneMoreGain(|ws| - 1, NewTokens(m));
    }
  }

  /** The number of chunks is bounded by the length of the document, and the factor is positive for m <= 125. */
  lemma ChunkCount(t: seq<nat>, m: nat)
    requires AtMost(t, m)
    ensures t == [] <==> Chunks(t) == []
    ensures t != [] ==> (|Chunks(t)| - 1) * NewTokens(m) <= Sum(t, 0, |t|)
  {
    ChunksAreChunking(t);
    if t != [] {
      NewTokensPerChunk(t, m, 0, 1, Chunks(t));
    }
  }

  // ----- The worker's loops -----

  /** `" ".join(...)` */
  function Join(parts: seq<string>): string {
    if parts == [] then ""
    else if |parts| == 1 then parts[0]
    else parts[0] + " " + Join(parts[1..])
  }

  /** The text of a chunk: its sentences in order with one space between neighbours, and nothing else. */
  lemma {:induction false} JoinedText(a: seq<string>, b: seq<string>)
    requires a != [] && b != []
    ensures Join(a + b) == Join(a) + " " + Join(b)
    ensures Join([a[0]]) == a[0]
  {
    if |a| == 1 {
      assert (a + b)[1..] == b && (a + b)[0] == a[0];
    } else {
      JoinedText(a[1..], b);
      assert (a + b)[1..] == a[1..] + b && (a + b)[0] == a[0];
      Assoc(a[0] + " ", Join(a[1..]), " ");
      Assoc(a[0] + " ", Join(a[1..]) + " ", Join(b));
    }
  }

  function Tokens(sentences: seq<string>, tok: string -> nat): seq<nat> {
    seq(|sentences|, i requires 0 <= i < |sentences| => tok(sentences[i]))
  }

  function TextOf(sentences: seq<string>, w: Window): string {
    if w.lo <= w.hi <= |sentences| then Join(sentences[w.lo..w.hi]) else ""
  }

  /** The chunk texts that belong to windows of the sentence list. */
  function Texts(sentences: seq<string>, ws: seq<Window>): seq<string> {
    if ws == [] then []
    else [TextOf(sentences, ws[0])] + Texts(sentences, ws[1..])
  }

  lemma {:induction false} TextsConcat(sentences: seq<string>, a: seq<Window>, b: seq<Window>)
    ensures Texts(sentences, a + b) == Texts(sentences, a) + Texts(sentences, b)
  {
    if a == [] {
      assert a + b == b;
    } else {
      TextsConcat(sentences, a[1..], b);
      assert (a + b)[1..] == a[1..] + b && (a + b)[0] == a[0];
      Assoc([TextOf(sentences, a[0])], Texts(sentences, a[1..]), Texts(sentences, b));
    }
  }

  lemma EmittedText(sentences: seq<string>, w: Window, more: seq<Window>, chunks: seq<string>)
    requires w.lo <= w.hi <= |sentences|
    ensures chunks + Texts(sentences, [w] + more)
         == chunks + [Join(sentences[w.lo..w.hi])] + Texts(sentences, more)
  {
    assert ([w] + more)[1..] == more;
    Assoc(chunks, [Join(sentences[w.lo..w.hi])], Texts(sentences, more));
  }

  /** What one pass of the outer loop does to the rest of the work. */
  lemma OuterStep(t: seq<nat>, lo: nat, i: nat)
    requires lo <= i < |t| && (lo < i || i == 0)
    ensures Sum(t, lo, i) + t[i] > MAX_TOKENS && lo < i ==>
              Windows(t, lo, i) == [Window(lo, i)] + Windows(t, Trim(t, lo, i), i + 1)
    ensures !(Sum(t, lo, i) + t[i] > MAX_TOKENS && lo < i) ==> Windows(t, lo, i) == Windows(t, lo, i + 1)
    ensures forall k :: lo <= k <= i ==> Sum(t, k, i + 1) == Sum(t, k, i) + t[i]
  {
    forall k | lo <= k <= i
      ensures Sum(t, k, i + 1) == Sum(t, k, i) + t[i]
    {
      SumRight(t, k, i);
    }
  }

  /** The inner loop: pop sentences while the chunk is above the overlap and not a single sentence. */
  method CarryOver(sentences: seq<string>, tok: string -> nat, ghost lo: nat, i: nat, chunk: seq<string>, tokens: nat)
    returns (current: seq<string>, currentTokens: int)
    requires lo < i <= |sentences| && chunk == sentences[lo..i]
    requires tokens == Sum(Tokens(sentences, tok), lo, i)
    ensures var k := Trim(Tokens(sentences, tok), lo, i);
            current == sentences[k..i] && currentTokens == Sum(Tokens(sentences, tok), k, i)
  {
    ghost var t := Tokens(sentences, tok);
    ghost var from := lo;
    current, currentTokens := chunk, tokens;
    while currentTokens > OVERLAP_TOKENS && |current| > 1
      invariant lo <= from < i && current == sentences[from..i] && currentTokens == Sum(t, from, i)
      invariant Trim(t, from, i) == Trim(t, lo, i)
      decreases |current|
    {
      currentTokens := currentTokens - tok(current[0]);
      current := current[1..];
      from := from + 1;
    }
  }

  /** The emitted chunks and those still to come are all the chunks. */
  ghost predicate OnTrack(sentences: seq<string>, t: seq<nat>, lo: nat, i: nat, chunks: seq<string>)
    requires lo <= i <= |t|
  {
    chunks + Texts(sentences, Windows(t, lo, i)) == Texts(sentences, Chunks(t))
  }

  lemma StaysOnTrack(sentences: seq<string>, t: seq<nat>, lo: nat, i: nat, chunks: seq<string>)
    requires |t| == |sentences| && lo <= i < |t| && (lo < i || i == 0) && OnTrack(sentences, t, lo, i, chunks)
    ensures forall k :: lo <= k <= i ==> Sum(t, k, i + 1) == Sum(t, k, i) + t[i]
    ensures if Sum(t, lo, i) + t[i] > MAX_TOKENS && lo < i
            then OnTrack(sentences, t, Trim(t, lo, i), i + 1, chunks + [Join(sentences[lo..i])])
            else OnTrack(sentences, t, lo, i + 1, chunks)
  {
    OuterStep(t, lo, i);
    if Sum(t, lo, i) + t[i] > MAX_TOKENS && lo < i {
      EmittedText(sentences, Window(lo, i), Windows(t, Trim(t, lo, i), i + 1), chunks);
    }
  }

  lemma EndsOnTrack(sentences: seq<string>, t: seq<nat>, lo: nat, chunks: seq<string>)
    requires |t| == |sentences| && lo <= |t| && (lo < |t| || |t| == 0) && OnTrack(sentences, t, lo, |t|, chunks)
    ensures Texts(sentences, Chunks(t)) == if lo < |t| then chunks + [Join(sentences[lo..])] else chunks
  {
    if lo < |t| {
      EmittedText(sentences, Window(lo, |t|), [], chunks);
      assert sentences[lo..|t|] == sentences[lo..];
      assert [Window(lo, |t|)] + [] == [Window(lo, |t|)];
      assert chunks + [Join(sentences[lo..])] + [] == chunks + [Join(sentences[lo..])];
    } else {
      assert chunks + [] == chunks;
    }
  }

  lemma SliceGrows(sentences: seq<string>, lo: nat, i: nat)
    requires lo <= i < |sentences|
    ensures sentences[lo..i] + [sentences[i]] == sentences[lo..i + 1]
  {
  }

  /** `_chunk_text_with_overlap` after sentence splitting; `tok` is the token counter. */
  method ChunkTextWithOverlap(sentences: seq<string>, tok: string -> nat) returns (chunks: seq<string>)
    ensures chunks == Texts(sentences, Chunks(Tokens(sentences, tok)))
  {
    ghost var t := Tokens(sentences, tok);
    ghost var lo: nat := 0;
    var current: seq<string> := [];
    var currentTokens := 0;
    chunks := [];
    for i := 0 to |sentences|
      invariant lo <= i && (lo < i || i == 0)
      invariant current == sentences[lo..i] && currentTokens == Sum(t, lo, i)
      invariant OnTrack(sentences, t, lo, i, chunks)
    {
      var sentenceTokens := tok(sentences[i]);
      StaysOnTrack(sentences, t, lo, i, chunks);
      if currentTokens + sentenceTokens > MAX_TOKENS && current != [] {
        chunks := chunks + [Join(current)];
        ghost var k := Trim(t, lo, i);
        current, currentTokens := CarryOver(sentences, tok, lo, i, current, currentTokens);
        lo := k;
      }
      SliceGrows(sentences, lo, i);
      current := current + [sentences[i]];
      currentTokens := currentTokens + sentenceTokens;
    }
    EndsOnTrack(sentences, t, lo, chunks);
    if current != [] {
      assert current == sentences[lo..];
      chunks := chunks + [Join(current)];
    }
  }
}
