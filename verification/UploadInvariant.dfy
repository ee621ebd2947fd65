/** The invariant of the upload protocol, and that every step of every run keeps it. */
module UploadInvariant {
  import opened Options
  import opened Bits
  import opened ChunkArithmetic
  import opened UploadTable
  import opened UploadProtocol

  ghost predicate UploadOk(u: Upload) {
    && Covers(u.totalSize, u.chunkSize, u.totalChunks)
    && u.received !! u.inFlight
    && (forall i :: i in u.received ==> i < u.totalChunks)
    && (forall i :: i in u.inFlight ==> i < u.totalChunks)
    && u.receivedBytes == BytesIn(u.totalSize, u.chunkSize, u.received, u.totalChunks)
    && (u.finalizing ==> IsComplete(u))
  }

  ghost predicate WriterOk(u: Upload, w: Writer) {
    && w.ip == u.ip && w.index in u.inFlight
    && |w.body| == Expected(u, w.index) && w.offset == ChunkStart(u.chunkSize, w.index)
  }

  ghost predicate WritersOk(x: Session) {
    && (forall r :: r in x.writers ==> x.writers[r].written <= |x.writers[r].body|)
    && (x.entry.Some? ==>
          && (forall r :: r in x.writers ==> WriterOk(x.entry.value, x.writers[r]))
          && (forall q, r :: q in x.writers && r in x.writers && q != r ==> x.writers[q].index != x.writers[r].index))
  }

  /** The bytes of `file` at `offset` are `data`. */
  ghost predicate Holds(file: seq<Byte>, offset: nat, data: seq<Byte>) {
    offset + |data| <= |file| && file[offset..offset + |data|] == data
  }

  ghost predicate ChunkStored(u: Upload, file: seq<Byte>, bodies: map<nat, seq<Byte>>, i: nat) {
    i in bodies && |bodies[i]| == Expected(u, i) && Holds(file, ChunkStart(u.chunkSize, i), bodies[i])
  }

  ghost predicate Progress(file: seq<Byte>, w: Writer) {
    w.written <= |w.body| && Holds(file, w.offset, w.body[..w.written])
  }

  ghost predicate EntryOk(x: Session) {
    x.entry.Some? ==> UploadOk(x.entry.value) && x.bodies.Keys == x.entry.value.received
  }

  ghost predicate StoredOk(x: Session) {
    x.entry.Some? && x.enqueued == 0 ==>
      && x.file.Some? && |x.file.value| == x.entry.value.totalSize
      && forall i :: i in x.entry.value.received ==> ChunkStored(x.entry.value, x.file.value, x.bodies, i)
  }

  ghost predicate ProgressOk(x: Session) {
    x.entry.Some? && x.enqueued == 0 ==>
      x.file.Some? && forall r :: r in x.writers ==> Progress(x.file.value, x.writers[r])
  }

  ghost predicate QueueOk(x: Session) {
    && x.enqueued <= 1
    && (forall q, r :: q in x.finalizers && r in x.finalizers ==> q == r)
    && (forall r :: r in x.finalizers ==> (x.finalizers[r] <==> x.enqueued == 1))
    && (x.entry.Some? && (x.finalizers != map[] || x.enqueued > 0) ==> x.entry.value.finalizing)
  }

  ghost predicate SessionOk(x: Session) {
    EntryOk(x) && WritersOk(x) && StoredOk(x) && ProgressOk(x) && QueueOk(x)
  }

  ghost predicate Inv(s: State) {
    forall id :: id in s ==> SessionOk(s[id])
  }

  // --- Every step keeps the invariant --------------------------------------------

  lemma CreatedOk(st: Step)
    requires st.Init? && st.chunkSize > 0 && st.totalSize > 0
    ensures SessionOk(Created(st))
  {
    BytesInNone(st.totalSize, st.chunkSize, DivCeil(st.totalSize, st.chunkSize));
    DivCeilCovers(st.totalSize, st.chunkSize, DivCeil(st.totalSize, st.chunkSize));
  }

  function StartWriter(x: Session, a: Action): Session
    requires a.ChunkBegin? && x.entry.Some?
  {
    x.(entry := AfterChunkBegin(x.entry, a.index, a.now, Writing(ChunkStart(x.entry.value.chunkSize, a.index))),
       writers := x.writers[a.rid :=
         Writer(a.ip, a.index, ChunkStart(x.entry.value.chunkSize, a.index), a.body, 0, false)])
  }

  lemma StartWriterEntry(x: Session, a: Action)
    requires EntryOk(x) && a.ChunkBegin? && x.entry.Some?
    requires a.index < x.entry.value.totalChunks && a.index !in x.entry.value.received
    ensures EntryOk(StartWriter(x, a))
  {
  }

  lemma StartWriterWriters(x: Session, a: Action)
    requires WritersOk(x) && a.ChunkBegin? && x.entry.Some? && a.rid !in x.writers
    requires x.entry.value.ip == a.ip && |a.body| == Expected(x.entry.value, a.index)
    requires a.index !in x.entry.value.inFlight
    ensures WritersOk(StartWriter(x, a))
  {
  }

  lemma StartWriterFile(x: Session, a: Action)
    requires StoredOk(x) && ProgressOk(x) && a.ChunkBegin? && x.entry.Some?
    requires ChunkStart(x.entry.value.chunkSize, a.index) <= x.entry.value.totalSize
    ensures StoredOk(StartWriter(x, a)) && ProgressOk(StartWriter(x, a))
  {
    var y := StartWriter(x, a);
    if x.enqueued == 0 {
      forall i | i in x.entry.value.received ensures ChunkStored(y.entry.value, y.file.value, y.bodies, i) {
        assert ChunkStored(x.entry.value, x.file.value, x.bodies, i);
      }
    }
  }

  /** Both membership tests of the first lock region are needed: the new writer's
      chunk is neither stored nor being written by anyone else. */
  lemma StartWriterKeeps(x: Session, a: Action)
    requires SessionOk(x) && a.ChunkBegin? && a.rid !in x.writers
    requires ChunkOutcomeOf(x.entry, a.ip, a.index, |a.body|, a.now, a.ttl).Writing?
    ensures SessionOk(StartWriter(x, a))
  {
    var u := x.entry.value;
    ChunkInside(u.totalSize, u.chunkSize, u.totalChunks, a.index);
    StartWriterEntry(x, a);
    StartWriterWriters(x, a);
    StartWriterFile(x, a);
  }

  /** A change of the entry that the file contents do not depend on. */
  lemma SameStored(x: Session, y: Session)
    requires StoredOk(x) && y.file == x.file && y.bodies == x.bodies && y.enqueued == x.enqueued
    requires x.entry.Some? && y.entry.Some?
    requires y.entry.value.received == x.entry.value.received && y.entry.value.totalSize == x.entry.value.totalSize
    requires y.entry.value.chunkSize == x.entry.value.chunkSize
    ensures StoredOk(y)
  {
    if x.enqueued == 0 {
      forall i | i in y.entry.value.received ensures ChunkStored(y.entry.value, y.file.value, y.bodies, i) {
        assert ChunkStored(x.entry.value, x.file.value, x.bodies, i);
      }
    }
  }

  lemma TouchKeeps(x: Session, now: Time)
    requires SessionOk(x) && x.entry.Some?
    ensures SessionOk(x.(entry := Some(x.entry.value.(lastActivity := now))))
  {
    SameStored(x, x.(entry := Some(x.entry.value.(lastActivity := now))));
  }

  lemma ChunkBeginKeeps(x: Session, a: Action)
    requires SessionOk(x) && a.ChunkBegin?
    ensures SessionOk(DoChunkBegin(x, a))
  {
    var y := DoChunkBegin(x, a);
    if a.rid !in x.writers {
      match ChunkOutcomeOf(x.entry, a.ip, a.index, |a.body|, a.now, a.ttl) {
        case Writing(_) => StartWriterKeeps(x, a);
        case AlreadyHere(_, _) => TouchKeeps(x, a.now);
        case _ =>
      }
    }
  }

  lemma ChunkFailKeeps(x: Session, rid: RequestId)
    requires SessionOk(x)
    ensures SessionOk(DoChunkFail(x, rid))
  {
    if x.entry.Some? { SameStored(x, x.(entry := DoChunkFail(x, rid).entry)); }
  }

  lemma CommitUpload(u: Upload, ip: Ip, i: nat, now: Time)
    requires UploadOk(u) && i in u.inFlight
    ensures UploadOk(AfterCommit(Some(u), ip, i, Expected(u, i), now).value)
  {
    CountedAll(u.received, u.totalChunks);
    AddChunk(u.totalSize, u.chunkSize, u.received, i, u.totalChunks);
  }

  lemma CommitEntry(x: Session, rid: RequestId, now: Time)
    requires EntryOk(x) && WritersOk(x)
    ensures EntryOk(DoChunkCommit(x, rid, now))
  {
    if rid in x.writers && x.entry.Some? {
      var u, w := x.entry.value, x.writers[rid];
      assert WriterOk(u, w);
      CommitUpload(u, w.ip, w.index, now);
    }
  }

  lemma CommitWriters(x: Session, rid: RequestId, now: Time)
    requires WritersOk(x)
    ensures WritersOk(DoChunkCommit(x, rid, now))
  {
    if rid in x.writers && x.entry.Some? { assert WriterOk(x.entry.value, x.writers[rid]); }
  }

  lemma CommitFile(x: Session, rid: RequestId, now: Time)
    requires EntryOk(x) && WritersOk(x) && StoredOk(x) && ProgressOk(x)
    ensures StoredOk(DoChunkCommit(x, rid, now))
  {
    var y := DoChunkCommit(x, rid, now);
    if y != x && x.entry.Some? && x.enqueued == 0 {
      var u, v, w := x.entry.value, y.entry.value, x.writers[rid];
      assert WriterOk(u, w) && Progress(x.file.value, w);
      assert w.body[..w.written] == w.body;
      forall i | i in v.received ensures ChunkStored(v, y.file.value, y.bodies, i) {
        if i != w.index { assert ChunkStored(u, x.file.value, x.bodies, i); }
      }
    }
  }

  lemma ChunkCommitKeeps(x: Session, rid: RequestId, now: Time)
    requires SessionOk(x)
    ensures SessionOk(DoChunkCommit(x, rid, now))
  {
    CommitEntry(x, rid, now);
    CommitWriters(x, rid, now);
    CommitFile(x, rid, now);
    CommitQueue(x, rid, now);
  }

  lemma CommitQueue(x: Session, rid: RequestId, now: Time)
    requires QueueOk(x) && ProgressOk(x)
    ensures QueueOk(DoChunkCommit(x, rid, now)) && ProgressOk(DoChunkCommit(x, rid, now))
  {
  }

  lemma PatchElsewhere(file: seq<Byte>, offset: nat, data: seq<Byte>, at: nat, held: seq<Byte>)
    requires offset + |data| <= |file| && Holds(file, at, held)
    requires at + |held| <= offset || offset + |data| <= at
    ensures Holds(Patch(file, offset, data), at, held)
  {
    var p := Patch(file, offset, data);
    forall k | 0 <= k < |held| ensures p[at + k] == held[k] {
      assert file[at..at + |held|][k] == held[k];
    }
    assert p[at..at + |held|] == held;
  }

  lemma PatchHere(file: seq<Byte>, offset: nat, body: seq<Byte>, written: nat, count: nat)
    requires written + count <= |body| && offset + |body| <= |file|
    requires Holds(file, offset, body[..written])
    ensures Holds(Patch(file, offset + written, body[written..written + count]), offset, body[..written + count])
  {
    var p := Patch(file, offset + written, body[written..written + count]);
    forall k | 0 <= k < written + count ensures p[offset + k] == body[k] {
      if k < written { assert file[offset..offset + written][k] == body[..written][k]; }
    }
    assert p[offset..offset + (written + count)] == body[..written + count];
  }

  lemma RangesApart(u: Upload, w: Writer, i: nat)
    requires UploadOk(u) && WriterOk(u, w) && i != w.index
    ensures w.offset + |w.body| <= u.totalSize
    ensures || w.offset + |w.body| <= ChunkStart(u.chunkSize, i)
            || ChunkStart(u.chunkSize, i) + Expected(u, i) <= w.offset
  {
    ChunkInside(u.totalSize, u.chunkSize, u.totalChunks, w.index);
    if i < w.index { ChunksDisjoint(u.totalSize, u.chunkSize, i, w.index); }
    else { ChunksDisjoint(u.totalSize, u.chunkSize, w.index, i); }
  }

  /** A write leaves every other chunk of the file alone, stored or in progress. */
  lemma WriteDisjoint(u: Upload, w: Writer, file: seq<Byte>, count: nat, i: nat, held: seq<Byte>)
    requires UploadOk(u) && WriterOk(u, w) && |file| == u.totalSize
    requires w.written + count <= |w.body|
    requires i != w.index && |held| <= Expected(u, i) && Holds(file, ChunkStart(u.chunkSize, i), held)
    ensures Holds(Written(w, file, count), ChunkStart(u.chunkSize, i), held)
  {
    RangesApart(u, w, i);
    PatchElsewhere(file, w.offset + w.written, w.body[w.written..w.written + count], ChunkStart(u.chunkSize, i), held);
  }

  lemma WriteStored(x: Session, rid: RequestId, count: nat)
    requires EntryOk(x) && WritersOk(x) && StoredOk(x)
    ensures StoredOk(DoChunkWrite(x, rid, count))
  {
    var y := DoChunkWrite(x, rid, count);
    if y != x && x.entry.Some? && x.enqueued == 0 {
      var u, w, file := x.entry.value, x.writers[rid], x.file.value;
      assert WriterOk(u, w);
      ChunkInside(u.totalSize, u.chunkSize, u.totalChunks, w.index);
      forall i | i in u.received ensures ChunkStored(u, y.file.value, y.bodies, i) {
        assert ChunkStored(u, file, x.bodies, i);
        WriteDisjoint(u, w, file, count, i, x.bodies[i]);
      }
    }
  }

  lemma OwnProgress(u: Upload, w: Writer, file: seq<Byte>, count: nat)
    requires UploadOk(u) && WriterOk(u, w) && |file| == u.totalSize && Progress(file, w)
    requires w.written + count <= |w.body|
    ensures Progress(Written(w, file, count), w.(written := w.written + count))
  {
    ChunkInside(u.totalSize, u.chunkSize, u.totalChunks, w.index);
    PatchHere(file, w.offset, w.body, w.written, count);
  }

  lemma OtherProgress(u: Upload, w: Writer, v: Writer, file: seq<Byte>, count: nat)
    requires UploadOk(u) && WriterOk(u, w) && WriterOk(u, v) && |file| == u.totalSize && Progress(file, v)
    requires w.written + count <= |w.body| && v.index != w.index
    ensures Progress(Written(w, file, count), v)
  {
    WriteDisjoint(u, w, file, count, v.index, v.body[..v.written]);
  }

  lemma WriteWriters(x: Session, rid: RequestId, count: nat)
    requires WritersOk(x)
    ensures WritersOk(DoChunkWrite(x, rid, count))
  {
  }

  lemma WriteOther(x: Session, rid: RequestId, count: nat)
    requires EntryOk(x) && QueueOk(x)
    ensures EntryOk(DoChunkWrite(x, rid, count)) && QueueOk(DoChunkWrite(x, rid, count))
  {
  }

  lemma WriteProgress(x: Session, rid: RequestId, count: nat)
    requires EntryOk(x) && WritersOk(x) && StoredOk(x) && ProgressOk(x)
    ensures ProgressOk(DoChunkWrite(x, rid, count))
  {
    var y := DoChunkWrite(x, rid, count);
    if y != x && x.entry.Some? && x.enqueued == 0 {
      var u, w, file := x.entry.value, x.writers[rid], x.file.value;
      forall r | r in y.writers ensures Progress(y.file.value, y.writers[r]) {
        if r == rid { OwnProgress(u, w, file, count); } else { OtherProgress(u, w, x.writers[r], file, count); }
      }
    }
  }

  lemma ChunkWriteKeeps(x: Session, rid: RequestId, count: nat)
    requires SessionOk(x)
    ensures SessionOk(DoChunkWrite(x, rid, count))
  {
    WriteWriters(x, rid, count);
    WriteOther(x, rid, count);
    WriteStored(x, rid, count);
    WriteProgress(x, rid, count);
  }

  lemma FinalizeBeginKeeps(x: Session, rid: RequestId, ip: Ip)
    requires SessionOk(x)
    ensures SessionOk(Do(x, FinalizeBegin(rid, ip)))
  {
    if x.entry.Some? { SameStored(x, x.(entry := Do(x, FinalizeBegin(rid, ip)).entry)); }
  }

  lemma EnqueueFailKeeps(x: Session, rid: RequestId)
    requires SessionOk(x)
    ensures SessionOk(Do(x, EnqueueFail(rid)))
  {
    if x.entry.Some? { SameStored(x, x.(entry := Do(x, EnqueueFail(rid)).entry)); }
  }

  lemma ChunkAbandonKeeps(x: Session, rid: RequestId)
    requires SessionOk(x)
    ensures SessionOk(Do(x, ChunkAbandon(rid)))
  {
  }

  /** The steps behind the queue, and a dropped finalize request. */
  lemma QueueKeeps(x: Session, a: Action)
    requires SessionOk(x) && (a.EnqueueOk? || a.FinalizeDone? || a.FinalizeAbandon? || a.JobTakesFile?)
    ensures SessionOk(Do(x, a))
  {
  }

  lemma ActionKeeps(x: Session, a: Action)
    requires SessionOk(x)
    ensures SessionOk(Do(x, a))
  {
    match a {
      case ChunkBegin(_, _, _, _, _, _) => ChunkBeginKeeps(x, a);
      case ChunkWrite(rid, count) => ChunkWriteKeeps(x, rid, count);
      case ChunkCommit(rid, now) => ChunkCommitKeeps(x, rid, now);
      case ChunkFail(rid) => ChunkFailKeeps(x, rid);
      case FinalizeBegin(rid, ip) => FinalizeBeginKeeps(x, rid, ip);
      case EnqueueFail(rid) => EnqueueFailKeeps(x, rid);
      case ChunkAbandon(rid) => ChunkAbandonKeeps(x, rid);
      case _ => QueueKeeps(x, a);
    }
  }

  lemma NextKeeps(s: State, st: Step)
    requires Inv(s)
    ensures Inv(Next(s, st))
  {
    match st {
      case Init(id, _, totalSize, _, _, chunkSize, _, _) =>
        if chunkSize > 0 && totalSize > 0 { CreatedOk(st); }
      case Act(id, a) => if id in s { ActionKeeps(s[id], a); }
      case Sweep(_, _) =>
    }
  }

  /** Every reachable state satisfies the invariant, under every interleaving. */
  lemma {:induction false} RunKeeps(s: State, steps: seq<Step>)
    requires Inv(s)
    ensures Inv(Run(s, steps))
  {
    if steps != [] {
      RunKeeps(s, steps[..|steps| - 1]);
      NextKeeps(Run(s, steps[..|steps| - 1]), steps[|steps| - 1]);
    }
  }
}
