/** How a file of `total` bytes is cut into chunks of `size` bytes, and that the
    pieces are disjoint and add up to the file. */
module ChunkArithmetic {

  /** `u64::div_ceil`. */
  function DivCeil(total: nat, size: nat): nat
    requires size > 0
  {
    (total + size - 1) / size
  }

  /** The offset of chunk `i`, the product `i * size`, built up by addition so that
      most proofs need no multiplication. */
  function ChunkStart(size: nat, i: nat): nat {
    if i == 0 then 0 else ChunkStart(size, i - 1) + size
  }

  lemma {:induction false} ChunkStartIsProduct(size: nat, i: nat)
    ensures ChunkStart(size, i) == i * size
  {
    if i > 0 {
      ChunkStartIsProduct(size, i - 1);
      assert i * size == (i - 1) * size + size;
    }
  }

  lemma {:induction false} ChunkStartMonotone(size: nat, i: nat, j: nat)
    requires i <= j
    ensures ChunkStart(size, i) <= ChunkStart(size, j)
    decreases j
  {
    if i < j { ChunkStartMonotone(size, i, j - 1); }
  }

  /** `expected_chunk_size`: a saturating subtraction, then a minimum. */
  function ChunkLength(total: nat, size: nat, i: nat): (n: nat)
    ensures n <= size
  {
    var start := ChunkStart(size, i);
    var left := if total >= start then total - start else 0;
    if left <= size then left else size
  }

  /** `n` chunks cover the file and none of them is empty. */
  predicate Covers(total: nat, size: nat, n: nat) {
    n > 0 && ChunkStart(size, n - 1) < total <= ChunkStart(size, n)
  }

  /** `div_ceil` computes the one number of chunks that covers the file. */
  lemma DivCeilCovers(total: nat, size: nat, n: nat)
    requires total > 0 && size > 0
    ensures Covers(total, size, n) <==> n == DivCeil(total, size)
  {
    var q := DivCeil(total, size);
    var r := (total + size - 1) % size;
    assert total + size - 1 == q * size + r;
    ChunkStartIsProduct(size, q);
    assert q > 0;
    if n == q {
      assert ChunkStart(size, q) == ChunkStart(size, q - 1) + size;
    } else if n > 0 && n < q {
      ChunkStartMonotone(size, n, q - 1);
    } else if n > q {
      ChunkStartMonotone(size, q, n - 1);
    }
  }

  /** A chunk index in range starts inside the file and its chunk is not empty:
      neither its offset nor its end can exceed the file size, so the machine
      arithmetic of the handlers cannot overflow. */
  lemma ChunkInside(total: nat, size: nat, n: nat, i: nat)
    requires Covers(total, size, n) && i < n
    ensures 0 < ChunkLength(total, size, i)
    ensures ChunkStart(size, i) + ChunkLength(total, size, i) <= total
    ensures ChunkStart(size, i) + ChunkLength(total, size, i)
         == if ChunkStart(size, i + 1) <= total then ChunkStart(size, i + 1) else total
  {
    ChunkStartMonotone(size, i, n - 1);
  }

  /** Different chunks occupy disjoint ranges of the file. */
  lemma ChunksDisjoint(total: nat, size: nat, i: nat, j: nat)
    requires i < j
    ensures ChunkStart(size, i) + ChunkLength(total, size, i) <= ChunkStart(size, j)
  {
    ChunkStartMonotone(size, i + 1, j);
  }

  /** Bytes in the first `n` chunks, counting only those in `received`. */
  function BytesIn(total: nat, size: nat, received: set<nat>, n: nat): nat {
    if n == 0 then 0
    else BytesIn(total, size, received, n - 1)
         + (if n - 1 in received then ChunkLength(total, size, n - 1) else 0)
  }

  lemma {:induction false} AddChunk(total: nat, size: nat, received: set<nat>, i: nat, n: nat)
    requires i !in received
    ensures BytesIn(total, size, received + {i}, n)
         == BytesIn(total, size, received, n) + (if i < n then ChunkLength(total, size, i) else 0)
  {
    if n > 0 { AddChunk(total, size, received, i, n - 1); }
  }

  lemma {:induction false} BytesInNone(total: nat, size: nat, n: nat)
    ensures BytesIn(total, size, {}, n) == 0
  {
    if n > 0 { BytesInNone(total, size, n - 1); }
  }

  lemma {:induction false} FullPrefix(total: nat, size: nat, received: set<nat>, n: nat, all: nat)
    requires Covers(total, size, all) && n <= all
    requires forall i :: 0 <= i < n ==> i in received
    ensures BytesIn(total, size, received, n) == if ChunkStart(size, n) <= total then ChunkStart(size, n) else total
  {
    if n > 0 {
      FullPrefix(total, size, received, n - 1, all);
      ChunkInside(total, size, all, n - 1);
    }
  }

  /** The indices of a file of `n` chunks. */
  function Indices(n: nat): (s: set<nat>)
    ensures forall i: nat :: i in s <==> i < n
  {
    if n == 0 then {} else Indices(n - 1) + {n - 1}
  }

  lemma {:induction false} IndicesSize(n: nat)
    ensures |Indices(n)| == n
  {
    if n > 0 { IndicesSize(n - 1); }
  }

  lemma CountedAll(received: set<nat>, n: nat)
    requires forall i :: i in received ==> i < n
    ensures |received| <= n
    ensures |received| == n <==> received == Indices(n)
  {
    IndicesSize(n);
    var missing := Indices(n) - received;
    assert received + missing == Indices(n) && received !! missing;
    assert |Indices(n)| == |received| + |missing|;
  }

  /** The sizes of all chunks add up to the file: counting the chunks decides
      completeness, and the byte count then follows. */
  lemma AllChunksMakeFile(total: nat, size: nat, received: set<nat>, n: nat)
    requires Covers(total, size, n)
    requires forall i :: i in received ==> i < n
    requires |received| == n
    ensures received == Indices(n)
    ensures BytesIn(total, size, received, n) == total
  {
    CountedAll(received, n);
    FullPrefix(total, size, received, n, n);
  }
}
