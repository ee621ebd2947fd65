/** The browser's side of an upload: a pool of workers shares the list of missing
    chunks, the set of received chunks and a byte counter. Code between two awaits
    runs without interruption, so each such piece is one step, and the workers'
    steps interleave freely. */
module UploadClient {
  import opened Options
  import opened ChunkArithmetic

  type WorkerId = nat

  /** `inHand` holds the chunk each busy worker is sending. */
  datatype Pool = Pool(
    fileSize: nat,
    chunkSize: nat,
    totalChunks: nat,
    missing: seq<nat>,
    nextWork: nat,
    inHand: map<WorkerId, nat>,
    received: set<nat>,
    uploadedBytes: nat,
    failed: bool)

  /** A rejected worker's request failed for good, or the upload was cancelled. */
  datatype Move = Take(worker: WorkerId) | Sent(worker: WorkerId) | Rejected(worker: WorkerId)

  function Missing(received: set<nat>, from: nat, total: nat): (r: seq<nat>)
    decreases total - from
  {
    if from >= total then []
    else (if from in received then [] else [from]) + Missing(received, from + 1, total)
  }

  function Begin(fileSize: nat, chunkSize: nat, totalChunks: nat, received: set<nat>): Pool {
    Pool(fileSize, chunkSize, totalChunks, Missing(received, 0, totalChunks), 0, map[],
         received, BytesIn(fileSize, chunkSize, received, totalChunks), false)
  }

  function Make(p: Pool, m: Move): Pool {
    match m
    case Take(w) =>
      if w in p.inHand || p.nextWork >= |p.missing| then p
      else p.(nextWork := p.nextWork + 1, inHand := p.inHand[w := p.missing[p.nextWork]])
    case Sent(w) =>
      if w !in p.inHand then p
      else
        var i := p.inHand[w];
        var q := p.(inHand := p.inHand - {w});
        if i in p.received then q
        else q.(received := p.received + {i},
                uploadedBytes := p.uploadedBytes + ChunkLength(p.fileSize, p.chunkSize, i))
    case Rejected(w) =>
      p.(inHand := p.inHand - {w}, failed := true)
  }

  function Play(p: Pool, moves: seq<Move>): Pool {
    if moves == [] then p else Make(Play(p, moves[..|moves| - 1]), moves[|moves| - 1])
  }

  /** Every missing chunk is listed once, in order. */
  lemma {:induction false} MissingIsExact(received: set<nat>, from: nat, total: nat)
    ensures var r := Missing(received, from, total);
      && (forall i: nat :: i in r <==> from <= i < total && i !in received)
      && (forall a, b :: 0 <= a < b < |r| ==> r[a] < r[b])
    decreases total - from
  {
    if from < total {
      MissingIsExact(received, from + 1, total);
      var rest := Missing(received, from + 1, total);
      forall b | 0 <= b < |rest| ensures rest[b] > from { assert rest[b] in rest; }
    }
  }

  /** The loop that lists the chunks the server does not have yet. */
  method ListMissing(received: set<nat>, totalChunks: nat) returns (missing: seq<nat>)
    ensures missing == Missing(received, 0, totalChunks)
  {
    missing := [];
    for i := 0 to totalChunks
      invariant missing + Missing(received, i, totalChunks) == Missing(received, 0, totalChunks)
    {
      if i !in received { missing := missing + [i]; }
    }
  }

  /** `bytesForReceivedChunks`: whatever the set holds, only chunks of the file count. */
  method BytesForReceivedChunks(fileSize: nat, totalChunks: nat, chunkSize: nat, received: set<nat>)
    returns (bytes: nat)
    ensures bytes == BytesIn(fileSize, chunkSize, received, totalChunks)
  {
    bytes := 0;
    var todo := received;
    BytesInNone(fileSize, chunkSize, totalChunks);
    assert received - todo == {};
    while todo != {}
      invariant todo <= received
      invariant bytes == BytesIn(fileSize, chunkSize, received - todo, totalChunks)
      decreases todo
    {
      var i :| i in todo;
      ChunkStartIsProduct(chunkSize, i);
      AddChunk(fileSize, chunkSize, received - todo, i, totalChunks);
      assert received - (todo - {i}) == received - todo + {i};
      var start := i * chunkSize;
      var end := if start + chunkSize <= fileSize then start + chunkSize else fileSize;
      if i < totalChunks && end > start { bytes := bytes + (end - start); }
      todo := todo - {i};
    }
    assert received - {} == received;
  }

  /** The shared variables of `uploadSingleFile`. */
  class WorkerPool {
    var pool: Pool

    constructor (fileSize: nat, chunkSize: nat, totalChunks: nat, received: set<nat>)
      ensures pool == Begin(fileSize, chunkSize, totalChunks, received)
    {
      var missing := ListMissing(received, totalChunks);
      var bytes := BytesForReceivedChunks(fileSize, totalChunks, chunkSize, received);
      pool := Pool(fileSize, chunkSize, totalChunks, missing, 0, map[], received, bytes, false);
    }

    /** A worker leaves its loop (none) or takes the next chunk to send. */
    method Next(worker: WorkerId) returns (chunk: Option<nat>)
      requires worker !in pool.inHand
      modifies this
      ensures pool == Make(old(pool), Take(worker))
      ensures chunk
        == if old(pool).nextWork < |old(pool).missing| then Some(old(pool).missing[old(pool).nextWork]) else None
    {
      if pool.nextWork >= |pool.missing| { return None; }
      var i := pool.missing[pool.nextWork];
      pool := pool.(nextWork := pool.nextWork + 1);
      pool := pool.(inHand := pool.inHand[worker := i]);
      return Some(i);
    }

    /** The worker's request was answered with success; module UploadDialogue says what
        that means on the server. */
    method Stored(worker: WorkerId)
      requires worker in pool.inHand
      modifies this
      ensures pool == Make(old(pool), Sent(worker))
      ensures old(pool).inHand[worker] in old(pool).received ==> pool.uploadedBytes == old(pool).uploadedBytes
    {
      var i := pool.inHand[worker];
      ChunkStartIsProduct(pool.chunkSize, i);
      pool := pool.(inHand := pool.inHand - {worker});
      if i !in pool.received {
        var start := i * pool.chunkSize;
        var end := if start + pool.chunkSize <= pool.fileSize then start + pool.chunkSize else pool.fileSize;
        pool := pool.(received := pool.received + {i});
        pool := pool.(uploadedBytes := pool.uploadedBytes + (if end >= start then end - start else 0));
      }
    }
  }

  /** The list of missing chunks and the set of received ones, with the bytes counted. */
  ghost predicate ListOk(p: Pool) {
    && p.nextWork <= |p.missing|
    && (forall a, b :: 0 <= a < b < |p.missing| ==> p.missing[a] != p.missing[b])
    && (forall a :: 0 <= a < |p.missing| ==> p.missing[a] < p.totalChunks)
    && (forall i :: i in p.received ==> i < p.totalChunks)
    && (forall a :: p.nextWork <= a < |p.missing| ==> p.missing[a] !in p.received)
    && p.uploadedBytes == BytesIn(p.fileSize, p.chunkSize, p.received, p.totalChunks)
  }

  ghost predicate HandOk(p: Pool, i: nat) {
    p.nextWork <= |p.missing| && i in p.missing[..p.nextWork] && i !in p.received
  }

  /** Workers send chunks they took from the list, and no two send the same. */
  ghost predicate HandsOk(p: Pool) {
    && (forall w :: w in p.inHand ==> HandOk(p, p.inHand[w]))
    && (forall v, w :: v in p.inHand && w in p.inHand && v != w ==> p.inHand[v] != p.inHand[w])
  }

  /** Every chunk of the file is received, in one worker's hand, or still to be taken;
      no two workers send the same chunk; the counter is the sum of received chunks. */
  ghost predicate PoolOk(p: Pool) { ListOk(p) && HandsOk(p) }

  ghost predicate IsCovered(p: Pool, i: nat) {
    p.nextWork <= |p.missing| && (i in p.received || i in p.inHand.Values || i in p.missing[p.nextWork..])
  }

  ghost predicate Covered(p: Pool) {
    p.nextWork <= |p.missing| && (!p.failed ==> forall i: nat :: i < p.totalChunks ==> IsCovered(p, i))
  }

  lemma BeginOk(fileSize: nat, chunkSize: nat, totalChunks: nat, received: set<nat>)
    requires forall i :: i in received ==> i < totalChunks
    ensures PoolOk(Begin(fileSize, chunkSize, totalChunks, received))
    ensures Covered(Begin(fileSize, chunkSize, totalChunks, received))
  {
    var p := Begin(fileSize, chunkSize, totalChunks, received);
    MissingIsExact(received, 0, totalChunks);
    forall a | 0 <= a < |p.missing| ensures p.missing[a] < totalChunks && p.missing[a] !in received {
      assert p.missing[a] in p.missing;
    }
    assert p.missing[0..] == p.missing;
  }

  lemma TakeHands(p: Pool, w: WorkerId)
    requires ListOk(p) && HandsOk(p) && w !in p.inHand && p.nextWork < |p.missing|
    ensures HandsOk(Make(p, Take(w)))
  {
    var q, i := Make(p, Take(w)), p.missing[p.nextWork];
    assert q.missing[..q.nextWork] == p.missing[..p.nextWork] + [i];
    forall v | v in p.inHand ensures p.inHand[v] != i && HandOk(q, p.inHand[v]) { assert HandOk(p, p.inHand[v]); }
    assert HandOk(q, i);
  }

  lemma TakeOk(p: Pool, w: WorkerId)
    requires PoolOk(p)
    ensures PoolOk(Make(p, Take(w)))
  {
    if w !in p.inHand && p.nextWork < |p.missing| { TakeHands(p, w); }
  }

  lemma TakeCovers(p: Pool, w: WorkerId, i: nat)
    requires IsCovered(p, i)
    ensures IsCovered(Make(p, Take(w)), i)
  {
    var q := Make(p, Take(w));
    if q != p {
      assert p.missing[p.nextWork..] == [p.missing[p.nextWork]] + q.missing[q.nextWork..];
      if i in p.inHand.Values {
        var v :| v in p.inHand && p.inHand[v] == i;
        assert q.inHand[v] == i;
      } else if i == p.missing[p.nextWork] {
        assert q.inHand[w] == i;
      }
    }
  }

  lemma TakeCovered(p: Pool, w: WorkerId)
    requires Covered(p)
    ensures Covered(Make(p, Take(w)))
  {
    if !p.failed {
      forall i: nat | i < p.totalChunks ensures IsCovered(Make(p, Take(w)), i) { TakeCovers(p, w, i); }
    }
  }

  lemma SentOk(p: Pool, w: WorkerId)
    requires PoolOk(p)
    ensures PoolOk(Make(p, Sent(w)))
  {
    if w in p.inHand {
      var q := Make(p, Sent(w));
      AddChunk(p.fileSize, p.chunkSize, p.received, p.inHand[w], p.totalChunks);
      assert HandOk(p, p.inHand[w]);
      forall v | v in q.inHand ensures HandOk(q, q.inHand[v]) { assert HandOk(p, p.inHand[v]); }
    }
  }

  lemma SentCovers(p: Pool, w: WorkerId, i: nat)
    requires IsCovered(p, i)
    ensures IsCovered(Make(p, Sent(w)), i)
  {
    var q := Make(p, Sent(w));
    if w in p.inHand && i in p.inHand.Values && i != p.inHand[w] {
      var v :| v in p.inHand && p.inHand[v] == i;
      assert q.inHand[v] == i;
    }
  }

  lemma SentCovered(p: Pool, w: WorkerId)
    requires Covered(p)
    ensures Covered(Make(p, Sent(w)))
  {
    if !p.failed {
      forall i: nat | i < p.totalChunks ensures IsCovered(Make(p, Sent(w)), i) { SentCovers(p, w, i); }
    }
  }

  lemma {:induction false} PlayOk(p: Pool, moves: seq<Move>)
    requires PoolOk(p) && Covered(p)
    ensures PoolOk(Play(p, moves)) && Covered(Play(p, moves))
  {
    if moves != [] {
      var before, m := moves[..|moves| - 1], moves[|moves| - 1];
      PlayOk(p, before);
      match m {
        case Take(w) => TakeOk(Play(p, before), w); TakeCovered(Play(p, before), w);
        case Sent(w) => SentOk(Play(p, before), w); SentCovered(Play(p, before), w);
        case Rejected(w) =>
      }
    }
  }

  /** However the workers interleave, when all of them have returned without an error the
      client counts every chunk as received and its counter shows the size of the file;
      at all times no two workers are sending the same chunk. This speaks of the client's
      own set only. */
  lemma PoolFinishes(fileSize: nat, chunkSize: nat, totalChunks: nat, received: set<nat>, moves: seq<Move>)
    requires Covers(fileSize, chunkSize, totalChunks) && forall i :: i in received ==> i < totalChunks
    ensures var p := Play(Begin(fileSize, chunkSize, totalChunks, received), moves);
      && (forall v, w :: v in p.inHand && w in p.inHand && v != w ==> p.inHand[v] != p.inHand[w])
      && p.uploadedBytes == BytesIn(fileSize, chunkSize, p.received, totalChunks)
      && (p.nextWork == |p.missing| && p.inHand == map[] && !p.failed ==>
            p.received == Indices(totalChunks) && p.uploadedBytes == fileSize)
  {
    var start := Begin(fileSize, chunkSize, totalChunks, received);
    BeginOk(fileSize, chunkSize, totalChunks, received);
    PlayOk(start, moves);
    PlayConstants(start, moves);
    var p := Play(start, moves);
    if p.nextWork == |p.missing| && p.inHand == map[] && !p.failed {
      forall i: nat | i < totalChunks ensures i in p.received { assert IsCovered(p, i); }
      assert p.received == Indices(totalChunks);
      FullPrefix(fileSize, chunkSize, p.received, totalChunks, totalChunks);
    }
  }

  lemma {:induction false} PlayConstants(p: Pool, moves: seq<Move>)
    ensures var q := Play(p, moves);
      q.fileSize == p.fileSize && q.chunkSize == p.chunkSize && q.totalChunks == p.totalChunks && q.missing == p.missing
  {
    if moves != [] { PlayConstants(p, moves[..|moves| - 1]); }
  }
}
