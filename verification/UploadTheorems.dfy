/** What the invariant means for whole runs of the upload protocol: the books balance,
    a finalized upload is the client's file, and no upload is enqueued twice. */
module UploadTheorems {
  import opened Options
  import opened Bits
  import opened ChunkArithmetic
  import opened UploadTable
  import opened UploadProtocol
  import opened UploadInvariant

  /** The chunk books of one pending upload: received and in-flight chunks are disjoint
      and in range, the byte counter is the sum of the received chunks, and no two
      requests own overlapping bytes. */
  ghost predicate BooksBalance(x: Session, u: Upload) {
    && u.received !! u.inFlight
    && (forall i :: i in u.received ==> i < u.totalChunks)
    && (forall i :: i in u.inFlight ==> i < u.totalChunks)
    && u.receivedBytes == BytesIn(u.totalSize, u.chunkSize, u.received, u.totalChunks)
    && (forall q, r :: q in x.writers && r in x.writers && q != r ==>
          || x.writers[q].offset + |x.writers[q].body| <= x.writers[r].offset
          || x.writers[r].offset + |x.writers[r].body| <= x.writers[q].offset)
  }

  /** The body accepted for chunk `i` has the chunk's length, and its bytes are in place. */
  ghost predicate InPlace(u: Upload, x: Session, i: nat) {
    && x.file.Some? && |x.file.value| == u.totalSize && i in x.bodies
    && |x.bodies[i]| == Expected(u, i)
    && i * u.chunkSize + |x.bodies[i]| <= u.totalSize
    && x.file.value[i * u.chunkSize..i * u.chunkSize + |x.bodies[i]|] == x.bodies[i]
  }

  lemma SessionBooks(x: Session)
    requires SessionOk(x) && x.entry.Some?
    ensures BooksBalance(x, x.entry.value)
  {
    var u := x.entry.value;
    forall q, r | q in x.writers && r in x.writers && q != r
      ensures || x.writers[q].offset + |x.writers[q].body| <= x.writers[r].offset
              || x.writers[r].offset + |x.writers[r].body| <= x.writers[q].offset
    {
      WritersDisjoint(u, x.writers[q], x.writers[r]);
    }
  }

  lemma SessionInPlace(x: Session, i: nat)
    requires SessionOk(x) && x.entry.Some? && x.enqueued == 0 && i in x.entry.value.received
    ensures InPlace(x.entry.value, x, i)
  {
    ChunkStartIsProduct(x.entry.value.chunkSize, i);
    assert ChunkStored(x.entry.value, x.file.value, x.bodies, i);
  }

  lemma WritersDisjoint(u: Upload, v: Writer, w: Writer)
    requires WriterOk(u, v) && WriterOk(u, w) && v.index != w.index
    ensures v.offset + |v.body| <= w.offset || w.offset + |w.body| <= v.offset
  {
    if v.index < w.index { ChunksDisjoint(u.totalSize, u.chunkSize, v.index, w.index); }
    else { ChunksDisjoint(u.totalSize, u.chunkSize, w.index, v.index); }
  }

  /** In every state that any interleaving reaches, the books of every pending upload
      balance, and until its job is queued every received chunk is in place. */
  lemma Accounting(steps: seq<Step>, id: UploadId)
    requires id in Run(map[], steps) && Run(map[], steps)[id].entry.Some?
    ensures var x := Run(map[], steps)[id]; BooksBalance(x, x.entry.value)
    ensures var x := Run(map[], steps)[id];
            x.enqueued == 0 ==> forall i :: i in x.entry.value.received ==> InPlace(x.entry.value, x, i)
  {
    RunKeeps(map[], steps);
    var x := Run(map[], steps)[id];
    SessionBooks(x);
    if x.enqueued == 0 {
      forall i | i in x.entry.value.received ensures InPlace(x.entry.value, x, i) { SessionInPlace(x, i); }
    }
  }

  /** Having as many chunks as expected means having all of them, with no write in
      flight, and implies the byte-count half of the test in finalize. */
  lemma CountDecides(u: Upload)
    requires UploadOk(u)
    ensures |u.received| == u.totalChunks <==> u.received == Indices(u.totalChunks)
    ensures |u.received| == u.totalChunks ==> u.receivedBytes == u.totalSize && u.inFlight == {}
  {
    CountedAll(u.received, u.totalChunks);
    if |u.received| == u.totalChunks {
      AllChunksMakeFile(u.totalSize, u.chunkSize, u.received, u.totalChunks);
      assert u.inFlight <= u.received;
    }
  }

  /** `body` is chunk `i` of the file `f`. */
  predicate IsPiece(f: seq<Byte>, size: nat, i: nat, body: seq<Byte>) {
    var start := ChunkStart(size, i);
    start <= |f| && body == f[start..if start + size <= |f| then start + size else |f|]
  }

  /** A piece is what the browser cuts: bytes `[i*cs, min(i*cs + cs, size))`. */
  lemma PieceIsSlice(f: seq<Byte>, size: nat, i: nat, body: seq<Byte>)
    ensures IsPiece(f, size, i, body) <==>
      i * size <= |f| && body == f[i * size..if i * size + size <= |f| then i * size + size else |f|]
  {
    ChunkStartIsProduct(size, i);
  }

  /** The bodies accepted so far are pieces of the client's file. */
  ghost predicate CutFrom(x: Session, f: seq<Byte>)
    requires x.entry.Some?
  {
    && |f| == x.entry.value.totalSize
    && forall i :: i in x.bodies ==> IsPiece(f, x.entry.value.chunkSize, i, x.bodies[i])
  }

  lemma StoredByte(u: Upload, g: seq<Byte>, body: seq<Byte>, f: seq<Byte>, i: nat, k: nat)
    requires |f| == |g| && Holds(g, ChunkStart(u.chunkSize, i), body) && IsPiece(f, u.chunkSize, i, body)
    requires ChunkStart(u.chunkSize, i) <= k < ChunkStart(u.chunkSize, i) + |body|
    ensures g[k] == f[k]
  {
    var start := ChunkStart(u.chunkSize, i);
    assert g[start..start + |body|][k - start] == body[k - start];
  }

  lemma WholeFile(u: Upload, g: seq<Byte>, bodies: map<nat, seq<Byte>>, f: seq<Byte>)
    requires Covers(u.totalSize, u.chunkSize, u.totalChunks) && |f| == |g| == u.totalSize
    requires forall i :: i in Indices(u.totalChunks) ==> ChunkStored(u, g, bodies, i)
    requires forall i :: i in bodies ==> IsPiece(f, u.chunkSize, i, bodies[i])
    ensures g == f
  {
    forall k | 0 <= k < |f| ensures g[k] == f[k] {
      var i := ChunkOf(u, k);
      assert i in Indices(u.totalChunks);
      StoredByte(u, g, bodies[i], f, i, k);
    }
  }

  /** A complete upload whose job is not queued yet is the client's file, byte for byte. */
  lemma CompleteIsWhole(x: Session, f: seq<Byte>)
    requires EntryOk(x) && StoredOk(x) && x.entry.Some? && x.enqueued == 0
    requires IsComplete(x.entry.value) && CutFrom(x, f)
    ensures x.file == Some(f)
  {
    CountDecides(x.entry.value);
    WholeFile(x.entry.value, x.file.value, x.bodies, f);
  }

  /** The chunk that holds byte `k`. */
  lemma ChunkOf(u: Upload, k: nat) returns (i: nat)
    requires Covers(u.totalSize, u.chunkSize, u.totalChunks) && k < u.totalSize
    ensures i < u.totalChunks
    ensures ChunkStart(u.chunkSize, i) <= k < ChunkStart(u.chunkSize, i) + Expected(u, i)
  {
    i := 0;
    while ChunkStart(u.chunkSize, i + 1) <= k
      invariant i < u.totalChunks && ChunkStart(u.chunkSize, i) <= k
      decreases u.totalChunks - i
    {
      if i + 1 == u.totalChunks { assert false; }
      i := i + 1;
    }
  }

  /** When the lock region of finalize succeeds, in any reachable state, the upload
      is complete, nothing is being written, and the file is the client's file.
      The same holds as long as a finalize request is waiting for the job queue and
      the upload is still pending, so the job is enqueued with the whole file. */
  lemma FinalizeSeesWholeFile(steps: seq<Step>, id: UploadId, ip: Ip, f: seq<Byte>)
    requires id in Run(map[], steps) && Run(map[], steps)[id].entry.Some?
    requires var x := Run(map[], steps)[id];
      FinalizeOutcomeOf(x.entry, ip).Finalizing? || (exists r :: r in x.finalizers && !x.finalizers[r])
    requires CutFrom(Run(map[], steps)[id], f)
    ensures var x := Run(map[], steps)[id]; var u := x.entry.value;
      && u.received == Indices(u.totalChunks) && u.inFlight == {} && u.receivedBytes == u.totalSize
      && x.writers == map[]
      && x.file == Some(f)
  {
    RunKeeps(map[], steps);
    var x := Run(map[], steps)[id];
    assert QueueOk(x);
    CountDecides(x.entry.value);
    CompleteIsWhole(x, f);
    assert x.writers.Keys == {};
  }

  /** A chunk request for upload `id` carries the piece of `f` its index names. */
  predicate SendsPiece(st: Step, id: UploadId, f: seq<Byte>, size: nat) {
    st.Act? && st.id == id ==> ActsOnPiece(st.action, f, size)
  }

  predicate ActsOnPiece(a: Action, f: seq<Byte>, size: nat) {
    a.ChunkBegin? ==> IsPiece(f, size, a.index, a.body)
  }

  ghost predicate OnlyPieces(x: Session, f: seq<Byte>, size: nat) {
    && (x.entry.Some? ==> x.entry.value.totalSize == |f| && x.entry.value.chunkSize == size)
    && (forall r :: r in x.writers ==> IsPiece(f, size, x.writers[r].index, x.writers[r].body))
    && (forall i :: i in x.bodies ==> IsPiece(f, size, i, x.bodies[i]))
  }

  // Requests keep their index and body, accepted bodies come from requests, and the sizes
  // of an upload never change.

  lemma WriterProvenance(x: Session, a: Action, r: RequestId)
    requires r in Do(x, a).writers
    ensures var w := Do(x, a).writers[r];
      || (r in x.writers && w.index == x.writers[r].index && w.body == x.writers[r].body)
      || (a.ChunkBegin? && w.index == a.index && w.body == a.body)
  {
  }

  lemma BodyProvenance(x: Session, a: Action, i: nat)
    requires i in Do(x, a).bodies
    ensures var body := Do(x, a).bodies[i];
      || (i in x.bodies && body == x.bodies[i])
      || (exists r :: r in x.writers && x.writers[r].index == i && x.writers[r].body == body)
  {
    if a.ChunkCommit? && a.rid in x.writers { assert x.writers[a.rid].index == x.writers[a.rid].index; }
  }

  lemma SizeProvenance(x: Session, a: Action)
    requires Do(x, a).entry.Some?
    ensures x.entry.Some? && Do(x, a).entry.value.totalSize == x.entry.value.totalSize
    ensures Do(x, a).entry.value.chunkSize == x.entry.value.chunkSize
  {
  }

  lemma PiecesStay(x: Session, a: Action, f: seq<Byte>, size: nat)
    requires OnlyPieces(x, f, size) && ActsOnPiece(a, f, size)
    ensures OnlyPieces(Do(x, a), f, size)
  {
    var y := Do(x, a);
    if y.entry.Some? { SizeProvenance(x, a); }
    forall r | r in y.writers ensures IsPiece(f, size, y.writers[r].index, y.writers[r].body) {
      WriterProvenance(x, a, r);
    }
    forall i | i in y.bodies ensures IsPiece(f, size, i, y.bodies[i]) { BodyProvenance(x, a, i); }
  }

  lemma {:induction false} PiecesRun(s: State, steps: seq<Step>, id: UploadId, f: seq<Byte>, size: nat)
    requires id in s && OnlyPieces(s[id], f, size)
    requires forall k :: 0 <= k < |steps| ==> SendsPiece(steps[k], id, f, size)
    ensures id in Run(s, steps) && OnlyPieces(Run(s, steps)[id], f, size)
  {
    if steps != [] {
      var before, st := steps[..|steps| - 1], steps[|steps| - 1];
      PiecesRun(s, before, id, f, size);
      if st.Act? && st.id == id { PiecesStay(Run(s, before)[id], st.action, f, size); }
    }
  }

  /** End to end: start an upload of the right size, let any number of requests run in
      any order, all chunk requests sending the pieces the browser cuts; if a finalize
      succeeds, the server's file is the client's file. */
  lemma UploadDelivers(s: State, init: Step, steps: seq<Step>, ip: Ip, f: seq<Byte>)
    requires Inv(s) && init.Init? && init.id !in s && init.id in Next(s, init) && init.totalSize == |f|
    requires forall k :: 0 <= k < |steps| ==> SendsPiece(steps[k], init.id, f, init.chunkSize)
    requires init.id in Run(Next(s, init), steps)
    requires FinalizeOutcomeOf(Run(Next(s, init), steps)[init.id].entry, ip).Finalizing?
    ensures Run(Next(s, init), steps)[init.id].file == Some(f)
  {
    NextKeeps(s, init);
    RunKeeps(Next(s, init), steps);
    PiecesRun(Next(s, init), steps, init.id, f, init.chunkSize);
    var x := Run(Next(s, init), steps)[init.id];
    assert QueueOk(x);
    CompleteIsWhole(x, f);
  }

  /** No run enqueues two jobs for one upload id, however many finalize requests are
      made, fail, are repeated or are dropped. */
  lemma EnqueuedOnce(steps: seq<Step>, id: UploadId)
    requires id in Run(map[], steps)
    ensures Run(map[], steps)[id].enqueued <= 1
    ensures Run(map[], steps)[id].enqueued == 1 && Run(map[], steps)[id].entry.Some? ==>
      Run(map[], steps)[id].entry.value.finalizing
  {
    RunKeeps(map[], steps);
  }

  lemma ActionKeepsBodies(x: Session, a: Action, i: nat)
    requires (x.entry.Some? ==> x.bodies.Keys == x.entry.value.received) && i in x.bodies
    ensures i in Do(x, a).bodies && Do(x, a).bodies[i] == x.bodies[i]
  {
  }

  /** The body accepted for a chunk is never replaced. */
  lemma {:induction false} BodiesStay(s: State, steps: seq<Step>, id: UploadId, i: nat)
    requires Inv(s) && id in s && i in s[id].bodies
    ensures id in Run(s, steps) && i in Run(s, steps)[id].bodies && Run(s, steps)[id].bodies[i] == s[id].bodies[i]
  {
    if steps != [] {
      var before, st := steps[..|steps| - 1], steps[|steps| - 1];
      BodiesStay(s, before, id, i);
      RunKeeps(s, before);
      assert EntryOk(Run(s, before)[id]);
      if st.Act? && st.id == id { ActionKeepsBodies(Run(s, before)[id], st.action, i); }
    }
  }

  /** `st` is a step of the finalize request `rid` of upload `id`. */
  predicate FinalizerMoves(st: Step, id: UploadId, rid: RequestId) {
    st.Act? && st.id == id && OfFinalizer(st.action, rid)
  }

  predicate OfFinalizer(a: Action, rid: RequestId) {
    a == EnqueueOk(rid) || a == EnqueueFail(rid) || a == FinalizeDone(rid) || a == FinalizeAbandon(rid)
  }

  /** Finalize request `rid` waits for the queue, and the entry, while it is there, is `u` marked as finalizing. */
  ghost predicate Waiting(x: Session, rid: RequestId, u: Upload) {
    && rid in x.finalizers && !x.finalizers[rid]
    && (x.entry.Some? ==> x.entry.value == u.(finalizing := true, lastActivity := x.entry.value.lastActivity))
  }

  lemma CompleteIsIdle(x: Session)
    requires SessionOk(x) && x.entry.Some? && IsComplete(x.entry.value)
    ensures x.writers == map[] && x.entry.value.received == Indices(x.entry.value.totalChunks)
  {
    CountDecides(x.entry.value);
    assert x.writers.Keys == {};
  }

  predicate OfChunk(a: Action) {
    a.ChunkBegin? || a.ChunkWrite? || a.ChunkCommit? || a.ChunkFail? || a.ChunkAbandon?
  }

  lemma ChunkKeepsFinalizers(x: Session, a: Action)
    requires OfChunk(a)
    ensures Do(x, a).finalizers == x.finalizers
  {
  }

  lemma BeginKeepsComplete(x: Session, a: Action)
    requires a.ChunkBegin? && DoChunkBegin(x, a).entry.Some?
    requires x.entry.Some? ==> x.entry.value.received == Indices(x.entry.value.totalChunks)
    ensures x.entry.Some?
    ensures DoChunkBegin(x, a).entry.value
      == x.entry.value.(lastActivity := DoChunkBegin(x, a).entry.value.lastActivity)
  {
  }

  /** Chunk requests can only renew the activity time of an upload that has all chunks. */
  lemma ChunkKeepsComplete(x: Session, a: Action)
    requires OfChunk(a) && Do(x, a).entry.Some?
    requires x.entry.Some? ==> x.writers == map[] && x.entry.value.received == Indices(x.entry.value.totalChunks)
    ensures x.entry.Some?
    ensures Do(x, a).entry.value == x.entry.value.(lastActivity := Do(x, a).entry.value.lastActivity)
  {
    if a.ChunkBegin? { BeginKeepsComplete(x, a); }
  }

  lemma WaitingDuringChunk(x: Session, a: Action, rid: RequestId, u: Upload)
    requires Waiting(x, rid, u) && OfChunk(a)
    requires x.entry.Some? ==> x.writers == map[] && u.received == Indices(u.totalChunks)
    ensures Waiting(Do(x, a), rid, u)
  {
    ChunkKeepsFinalizers(x, a);
    if Do(x, a).entry.Some? { ChunkKeepsComplete(x, a); }
  }

  lemma WaitingStays(x: Session, a: Action, rid: RequestId, u: Upload)
    requires Waiting(x, rid, u) && !OfFinalizer(a, rid)
    requires x.entry.Some? ==> x.writers == map[] && u.received == Indices(u.totalChunks)
    requires forall r :: r in x.finalizers ==> r == rid
    ensures Waiting(Do(x, a), rid, u)
  {
    if OfChunk(a) { WaitingDuringChunk(x, a, rid, u); }
  }

  lemma WaitingNext(s: State, st: Step, id: UploadId, rid: RequestId, u: Upload)
    requires id in s && SessionOk(s[id]) && Waiting(s[id], rid, u) && IsComplete(u) && !FinalizerMoves(st, id, rid)
    ensures id in Next(s, st) && Waiting(Next(s, st)[id], rid, u)
  {
    if st.Act? && st.id == id {
      if s[id].entry.Some? { CompleteIsIdle(s[id]); }
      assert QueueOk(s[id]);
      WaitingStays(s[id], st.action, rid, u);
    }
  }

  lemma {:induction false} WaitingRun(s: State, steps: seq<Step>, id: UploadId, rid: RequestId, u: Upload)
    requires Inv(s) && id in s && Waiting(s[id], rid, u) && IsComplete(u)
    requires forall k :: 0 <= k < |steps| ==> !FinalizerMoves(steps[k], id, rid)
    ensures id in Run(s, steps) && Waiting(Run(s, steps)[id], rid, u)
  {
    if steps != [] {
      var before, st := steps[..|steps| - 1], steps[|steps| - 1];
      WaitingRun(s, before, id, rid, u);
      RunKeeps(s, before);
      WaitingNext(Run(s, before), st, id, rid, u);
    }
  }

  lemma FinalizeBeginWaits(x: Session, rid: RequestId, ip: Ip)
    requires SessionOk(x) && rid !in x.finalizers && FinalizeOutcomeOf(x.entry, ip).Finalizing?
    ensures Waiting(Do(x, FinalizeBegin(rid, ip)), rid, x.entry.value)
  {
  }

  lemma EnqueueFailRestores(x: Session, rid: RequestId, u: Upload)
    requires Waiting(x, rid, u) && !u.finalizing
    ensures var y := Do(x, EnqueueFail(rid));
            rid !in y.finalizers && y.enqueued == x.enqueued
            && (y.entry.Some? ==> x.entry.Some? && y.entry.value == u.(lastActivity := x.entry.value.lastActivity))
  {
  }

  /** `a` is a new chunk request that finds its chunk already there, which renews the activity time. */
  predicate FindsChunk(x: Session, a: Action) {
    && a.ChunkBegin? && a.rid !in x.writers
    && ChunkOutcomeOf(x.entry, a.ip, a.index, |a.body|, a.now, a.ttl).AlreadyHere?
  }

  predicate Renews(s: State, st: Step, id: UploadId) {
    st.Act? && st.id == id && id in s && FindsChunk(s[id], st.action)
  }

  /** The time of the last such request of the upload in a run, or `earlier` if there is none. */
  function LastRenewal(s: State, steps: seq<Step>, id: UploadId, earlier: Time): Time {
    if steps == [] then earlier
    else
      var before, st := steps[..|steps| - 1], steps[|steps| - 1];
      if Renews(Run(s, before), st, id) then st.action.now else LastRenewal(s, before, id, earlier)
  }

  lemma ActivityStep(x: Session, a: Action)
    requires x.entry.Some? && x.writers == map[] && x.entry.value.received == Indices(x.entry.value.totalChunks)
    requires Do(x, a).entry.Some?
    ensures Do(x, a).entry.value.lastActivity == if FindsChunk(x, a) then a.now else x.entry.value.lastActivity
  {
  }

  lemma EntryIsOld(x: Session, a: Action)
    requires Do(x, a).entry.Some?
    ensures x.entry.Some?
  {
  }

  lemma IdleActivity(x: Session, a: Action)
    requires SessionOk(x) && Do(x, a).entry.Some? && (x.entry.Some? ==> IsComplete(x.entry.value))
    ensures x.entry.Some?
    ensures Do(x, a).entry.value.lastActivity == if FindsChunk(x, a) then a.now else x.entry.value.lastActivity
  {
    EntryIsOld(x, a);
    CompleteIsIdle(x);
    ActivityStep(x, a);
  }

  lemma NextActivity(s: State, st: Step, id: UploadId)
    requires id in s && SessionOk(s[id]) && id in Next(s, st) && Next(s, st)[id].entry.Some?
    requires s[id].entry.Some? ==> IsComplete(s[id].entry.value)
    ensures s[id].entry.Some?
    ensures Next(s, st)[id].entry.value.lastActivity
      == if Renews(s, st, id) then st.action.now else s[id].entry.value.lastActivity
  {
    if st.Act? && st.id == id { IdleActivity(s[id], st.action); }
  }

  /** While the request waits, exactly such chunk requests renew the activity time. */
  lemma {:induction false} ActivityRun(s: State, steps: seq<Step>, id: UploadId, rid: RequestId, u: Upload)
    requires Inv(s) && id in s && Waiting(s[id], rid, u) && IsComplete(u)
    requires s[id].entry.Some? ==> s[id].entry.value.lastActivity == u.lastActivity
    requires forall k :: 0 <= k < |steps| ==> !FinalizerMoves(steps[k], id, rid)
    ensures id in Run(s, steps)
    ensures var e := Run(s, steps)[id].entry;
      e.Some? ==> e.value.lastActivity == LastRenewal(s, steps, id, u.lastActivity)
  {
    WaitingRun(s, steps, id, rid, u);
    if steps != [] {
      var before, st := steps[..|steps| - 1], steps[|steps| - 1];
      ActivityRun(s, before, id, rid, u);
      WaitingRun(s, before, id, rid, u);
      RunKeeps(s, before);
      if Run(s, steps)[id].entry.Some? { NextActivity(Run(s, before), st, id); }
    }
  }

  lemma FinalizeBegun(s: State, id: UploadId, rid: RequestId, ip: Ip) returns (s1: State)
    requires Inv(s) && id in s && rid !in s[id].finalizers && FinalizeOutcomeOf(s[id].entry, ip).Finalizing?
    ensures s1 == Next(s, Act(id, FinalizeBegin(rid, ip))) && Inv(s1) && id in s1
    ensures Waiting(s1[id], rid, s[id].entry.value)
    ensures s1[id].entry.Some? && s1[id].entry.value.lastActivity == s[id].entry.value.lastActivity
  {
    s1 := Next(s, Act(id, FinalizeBegin(rid, ip)));
    NextKeeps(s, Act(id, FinalizeBegin(rid, ip)));
    FinalizeBeginWaits(s[id], rid, ip);
  }

  /** The state in which the enqueue fails. */
  lemma WhileWaiting(s: State, id: UploadId, rid: RequestId, u: Upload, steps: seq<Step>)
    requires Inv(s) && id in s && Waiting(s[id], rid, u) && IsComplete(u)
    requires s[id].entry.Some? ==> s[id].entry.value.lastActivity == u.lastActivity
    requires forall k :: 0 <= k < |steps| ==> !FinalizerMoves(steps[k], id, rid)
    ensures var t := Run(s, steps);
            && id in t && Waiting(t[id], rid, u) && t[id].enqueued == 0
            && (t[id].entry.Some? ==>
                  t[id].entry.value.lastActivity == LastRenewal(s, steps, id, u.lastActivity))
  {
    WaitingRun(s, steps, id, rid, u);
    ActivityRun(s, steps, id, rid, u);
    RunKeeps(s, steps);
    assert QueueOk(Run(s, steps)[id]);
  }

  /** A failed enqueue undoes its finalize: if the upload is still pending, its entry
      is what it was before, whatever ran in between, except that its activity time is
      that of the last chunk request in between that found its chunk already there. So it
      is restored completely exactly when there was none, or the last came at the same time. */
  lemma FailedEnqueueRestores(s: State, id: UploadId, rid: RequestId, ip: Ip, between: seq<Step>)
    requires Inv(s) && id in s && rid !in s[id].finalizers && FinalizeOutcomeOf(s[id].entry, ip).Finalizing?
    requires forall k :: 0 <= k < |between| ==> !FinalizerMoves(between[k], id, rid)
    ensures var s1 := Next(s, Act(id, FinalizeBegin(rid, ip)));
            var s3 := Next(Run(s1, between), Act(id, EnqueueFail(rid)));
            && id in s3 && rid !in s3[id].finalizers && s3[id].enqueued == 0
            && (s3[id].entry.Some? ==>
                  var u, renewed := s[id].entry.value, LastRenewal(s1, between, id, s[id].entry.value.lastActivity);
                  && s3[id].entry.value == u.(lastActivity := renewed)
                  && (s3[id].entry == s[id].entry <==> renewed == u.lastActivity))
  {
    var s1 := FinalizeBegun(s, id, rid, ip);
    WhileWaiting(s1, id, rid, s[id].entry.value, between);
    EnqueueFailRestores(Run(s1, between)[id], rid, s[id].entry.value);
  }

  /** A request of the client itself for the stored chunk 0, one tick after the last activity. */
  function LateChunk(u: Upload): Action {
    ChunkBegin(0, u.ip, 0, Zeros(Expected(u, 0)), u.lastActivity + 1, 1)
  }

  lemma LateChunkRenews(x: Session)
    requires x.entry.Some? && 0 in x.entry.value.received && 0 < x.entry.value.totalChunks && 0 !in x.writers
    ensures Do(x, LateChunk(x.entry.value))
      == x.(entry := Some(x.entry.value.(lastActivity := x.entry.value.lastActivity + 1)))
  {
  }

  lemma CompleteHasFirst(x: Session)
    requires SessionOk(x) && x.entry.Some? && IsComplete(x.entry.value)
    ensures 0 in x.entry.value.received && 0 < x.entry.value.totalChunks && 0 !in x.writers
  {
    CompleteIsIdle(x);
  }

  lemma LateChunkWaits(x: Session, rid: RequestId, u: Upload)
    requires SessionOk(x) && Waiting(x, rid, u) && x.entry.Some? && IsComplete(u)
    ensures var y := Do(x, LateChunk(x.entry.value));
      Waiting(y, rid, u) && y.entry.Some? && y.entry.value.lastActivity == x.entry.value.lastActivity + 1
  {
    CompleteHasFirst(x);
    LateChunkRenews(x);
  }

  lemma LateNext(s: State, id: UploadId, rid: RequestId, u: Upload)
    requires id in s && SessionOk(s[id]) && Waiting(s[id], rid, u) && s[id].entry.Some? && IsComplete(u)
    ensures var t := Next(s, Act(id, LateChunk(s[id].entry.value)));
      && id in t && Waiting(t[id], rid, u) && t[id].entry.Some?
      && t[id].entry.value.lastActivity == s[id].entry.value.lastActivity + 1
  {
    LateChunkWaits(s[id], rid, u);
  }

  lemma LateRestored(y: Session, rid: RequestId, u: Upload)
    requires Waiting(y, rid, u) && y.entry.Some? && !u.finalizing && y.entry.value.lastActivity == u.lastActivity + 1
    ensures Do(y, EnqueueFail(rid)).entry == Some(u.(lastActivity := u.lastActivity + 1))
    ensures u.(lastActivity := u.lastActivity + 1) != u
  {
    assert u.(lastActivity := u.lastActivity + 1).lastActivity != u.lastActivity;
  }

  lemma LateThenFailed(s: State, id: UploadId, rid: RequestId, u: Upload)
    requires id in s && SessionOk(s[id]) && Waiting(s[id], rid, u) && s[id].entry.Some? && IsComplete(u)
    requires !u.finalizing
    requires s[id].entry.value.lastActivity == u.lastActivity
    ensures EndsLater(Next(s, Act(id, LateChunk(s[id].entry.value))), id, rid, u)
  {
    LateNext(s, id, rid, u);
    LateRestored(Next(s, Act(id, LateChunk(s[id].entry.value)))[id], rid, u);
  }

  /** A failing enqueue leaves `u` with a later activity time. */
  ghost predicate EndsLater(s: State, id: UploadId, rid: RequestId, u: Upload) {
    var t := Next(s, Act(id, EnqueueFail(rid)));
    id in t && t[id].entry == Some(u.(lastActivity := u.lastActivity + 1)) && t[id].entry.value != u
  }

  /** Restoring can be incomplete whenever a finalize passes: a chunk request that arrives
      while the job waits for the queue leaves a later activity time behind. */
  lemma FailedEnqueueCanRenew(s: State, id: UploadId, rid: RequestId, ip: Ip) returns (st: Step)
    requires Inv(s) && id in s && rid !in s[id].finalizers && FinalizeOutcomeOf(s[id].entry, ip).Finalizing?
    ensures !FinalizerMoves(st, id, rid)
    ensures EndsLater(Next(Next(s, Act(id, FinalizeBegin(rid, ip))), st), id, rid, s[id].entry.value)
  {
    var s1 := FinalizeBegun(s, id, rid, ip);
    LateThenFailed(s1, id, rid, s[id].entry.value);
    st := Act(id, LateChunk(s1[id].entry.value));
  }

  // --- Expiry --------------------------------------------------------------------------

  /** A sweep leaves every upload alone that was active within the last `ttl` ticks, and
      removes entry and file of every other; it touches nothing else of a session. */
  lemma SweepIsExact(s: State, now: Time, ttl: Time, id: UploadId)
    requires id in s
    ensures id in Next(s, Sweep(now, ttl))
    ensures var x, y := s[id], Next(s, Sweep(now, ttl))[id];
      && (x.entry.Some? && now <= x.entry.value.lastActivity + ttl ==> y == x)
      && (x.entry.Some? && now > x.entry.value.lastActivity + ttl ==> y == x.(entry := None, file := None))
      && (x.entry.None? ==> y == x)
  {
  }

  /** A chunk request is allowed to write exactly when the upload belongs to its address,
      was active within the last `ttl` ticks, has such a chunk, the body is as long as that
      chunk, and nobody has stored or is writing it. Its place in the file is then that of
      the slice. */
  lemma WritesExactly(u: Upload, ip: Ip, i: nat, length: nat, now: Time, ttl: Time)
    requires UploadOk(u)
    ensures var r := ChunkOutcomeOf(Some(u), ip, i, length, now, ttl);
      var end := if (i + 1) * u.chunkSize <= u.totalSize then (i + 1) * u.chunkSize else u.totalSize;
      && (r.Writing? <==>
            && u.ip == ip && now <= u.lastActivity + ttl && i < u.totalChunks
            && i * u.chunkSize + length == end && i !in u.received && i !in u.inFlight)
      && (r.Writing? ==> r.offset == i * u.chunkSize)
      && (r.NotFound? <==> u.ip != ip)
      && (r.Expired? <==> u.ip == ip && now > u.lastActivity + ttl)
      && (r.OutOfRange? <==> u.ip == ip && now <= u.lastActivity + ttl && i >= u.totalChunks)
      && (r.WrongSize? <==>
            u.ip == ip && now <= u.lastActivity + ttl && i < u.totalChunks && i * u.chunkSize + length != end)
  {
    ChunkStartIsProduct(u.chunkSize, i);
    ChunkStartIsProduct(u.chunkSize, i + 1);
    if i < u.totalChunks { ChunkInside(u.totalSize, u.chunkSize, u.totalChunks, i); }
  }

  /** The other answers: an upload of another address looks as if it did not exist, an expired
      one is removed with its file, and a chunk that is stored or in flight only renews the
      activity time. */
  lemma AnswersExactly(x: Session, a: Action)
    requires a.ChunkBegin? && a.rid !in x.writers
    ensures var y := DoChunkBegin(x, a); var e := x.entry;
      && (e.None? || e.value.ip != a.ip ==> y == x)
      && (e.Some? && e.value.ip == a.ip ==>
            && (a.now > e.value.lastActivity + a.ttl ==> y == x.(entry := None, file := None))
            && (a.now <= e.value.lastActivity + a.ttl && a.index >= e.value.totalChunks ==> y == x)
            && (a.now <= e.value.lastActivity + a.ttl && a.index < e.value.totalChunks
                && |a.body| == Expected(e.value, a.index)
                && (a.index in e.value.received || a.index in e.value.inFlight) ==>
                  && y == x.(entry := Some(e.value.(lastActivity := a.now)))
                  && ChunkOutcomeOf(e, a.ip, a.index, |a.body|, a.now, a.ttl)
                    == AlreadyHere(e.value.receivedBytes, |e.value.received|)))
  {
  }

  /** A write puts the next bytes of the request's body at their place in the file and changes
      no other byte, whatever has become of the upload in the meantime. */
  lemma WritesBytes(x: Session, rid: RequestId, count: nat, k: nat)
    requires rid in x.writers && x.writers[rid].written + count <= |x.writers[rid].body|
    requires x.file.Some? && x.writers[rid].offset + |x.writers[rid].body| <= |x.file.value| && k < |x.file.value|
    ensures var w, y := x.writers[rid], DoChunkWrite(x, rid, count);
      && y.file.Some? && |y.file.value| == |x.file.value|
      && y.writers[rid] == w.(written := w.written + count) && y.entry == x.entry
      && y.file.value[k] == (if w.offset + w.written <= k < w.offset + w.written + count then w.body[k - w.offset]
                             else x.file.value[k])
  {
  }

  /** What finalize answers: an upload of another address looks as if it did not exist, one
      that is being finalized is refused even if it is incomplete, and one that lacks a chunk
      or a byte is incomplete. */
  lemma FinalizeAnswersExactly(u: Upload, ip: Ip)
    ensures var r := FinalizeOutcomeOf(Some(u), ip);
      && (r.NoUpload? <==> u.ip != ip)
      && (r.AlreadyFinalizing? <==> u.ip == ip && u.finalizing)
      && (r.Incomplete? <==>
            u.ip == ip && !u.finalizing && (|u.received| != u.totalChunks || u.receivedBytes != u.totalSize))
      && (r.Finalizing? ==> r.filename == u.filename)
    ensures FinalizeOutcomeOf(None, ip) == NoUpload
  {
  }

  /** What becomes of the upload and its file: a queued job ends the upload, a failed one
      gives it back, a dropped request leaves it as it is, and the job takes the file away. */
  lemma QueueExactly(x: Session, rid: RequestId)
    ensures rid in x.finalizers && x.finalizers[rid] ==> Do(x, FinalizeDone(rid)).entry == None
    ensures rid in x.finalizers && !x.finalizers[rid] && x.entry.Some? ==>
      Do(x, EnqueueFail(rid)).entry == Some(x.entry.value.(finalizing := false))
    ensures Do(x, FinalizeDone(rid)).file == x.file && Do(x, EnqueueFail(rid)).file == x.file
    ensures Do(x, EnqueueOk(rid)).entry == x.entry && Do(x, EnqueueOk(rid)).file == x.file
    ensures Do(x, EnqueueOk(rid)).enqueued
      == x.enqueued + if rid in x.finalizers && !x.finalizers[rid] then 1 else 0
    ensures Do(x, FinalizeAbandon(rid)).entry == x.entry && Do(x, FinalizeAbandon(rid)).file == x.file
    ensures x.enqueued > 0 ==> Do(x, JobTakesFile) == x.(file := None)
  {
  }

  /** Init accepts a file exactly when it is not empty, not larger than allowed, no chunk
      count of zero was asked for, and some number of chunks below 2^32 covers it. */
  lemma AcceptedExactly(totalSize: nat, asked: Option<nat>, maxSize: nat, chunkSize: nat)
    requires chunkSize > 0
    ensures InitOutcomeOf(totalSize, asked, maxSize, chunkSize).Accepted? <==>
      0 < totalSize <= maxSize && asked != Some(0) && totalSize <= 0xFFFF_FFFF * chunkSize
  {
    var n := DivCeil(totalSize, chunkSize);
    var r := (totalSize + chunkSize - 1) % chunkSize;
    assert totalSize + chunkSize - 1 == n * chunkSize + r;
    if n > 0xFFFF_FFFF {
      assert n * chunkSize >= 0x1_0000_0000 * chunkSize;
    } else {
      assert n * chunkSize <= 0xFFFF_FFFF * chunkSize;
    }
  }

  /** The refusals, in their order. */
  lemma RefusalsExactly(totalSize: nat, asked: Option<nat>, maxSize: nat, chunkSize: nat)
    requires chunkSize > 0
    ensures var r := InitOutcomeOf(totalSize, asked, maxSize, chunkSize);
      && (r.EmptyFile? <==> totalSize == 0)
      && (r.ZeroChunks? <==> totalSize > 0 && asked == Some(0))
      && (r.TooLarge? <==> totalSize > maxSize && totalSize > 0 && asked != Some(0))
      && (r.Accepted? ==> (r.totalChunks - 1) * chunkSize < totalSize <= r.totalChunks * chunkSize)
  {
    if totalSize > 0 {
      var n := DivCeil(totalSize, chunkSize);
      DivCeilCovers(totalSize, chunkSize, n);
      ChunkStartIsProduct(chunkSize, n);
      ChunkStartIsProduct(chunkSize, n - 1);
    }
  }

  lemma {:induction false} NameStays(s: State, steps: seq<Step>, id: UploadId)
    requires id in s
    ensures id in Run(s, steps)
    ensures var e := Run(s, steps)[id].entry;
      e.Some? ==>
        && s[id].entry.Some? && e.value.filename == s[id].entry.value.filename
        && e.value.ip == s[id].entry.value.ip
  {
    if steps != [] {
      var before, st := steps[..|steps| - 1], steps[|steps| - 1];
      NameStays(s, before, id);
      if st.Act? && st.id == id && Do(Run(s, before)[id], st.action).entry.Some? {
        ActionKeepsName(Run(s, before)[id], st.action);
      }
    }
  }

  lemma ActionKeepsName(x: Session, a: Action)
    requires Do(x, a).entry.Some?
    ensures x.entry.Some? && Do(x, a).entry.value.filename == x.entry.value.filename
    ensures Do(x, a).entry.value.ip == x.entry.value.ip
  {
  }

  /** A finalize that passes names the file as init did, and only the address that called
      init gets it to pass. */
  lemma FinalizeNamesFile(s: State, init: Step, steps: seq<Step>, ip: Ip)
    requires init.Init? && init.id !in s && init.id in Next(s, init)
    requires init.id in Run(Next(s, init), steps)
    requires FinalizeOutcomeOf(Run(Next(s, init), steps)[init.id].entry, ip).Finalizing?
    ensures FinalizeOutcomeOf(Run(Next(s, init), steps)[init.id].entry, ip) == Finalizing(init.filename)
    ensures ip == init.ip
  {
    NameStays(Next(s, init), steps, init.id);
  }
}
