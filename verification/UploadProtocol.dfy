/** The resumable upload as a protocol. Requests run concurrently; each lock region
    of a handler (module UploadTable), each piece of a file write and each move of
    the job queue is one atomic step, and a run is any sequence of steps. A step
    that is not possible in a state leaves the state as it is, so every sequence
    of steps is a run.
    Upload ids are never issued twice and each upload has its own file, so the
    state is kept as one session per upload id. */
module UploadProtocol {
  import opened Options
  import opened Bits
  import opened UploadTable

  type RequestId = nat

  /** A chunk request between its two lock regions. An abandoned request was dropped
      while writing: its bytes may still reach the file, but it never commits. */
  datatype Writer = Writer(ip: Ip, index: nat, offset: nat, body: seq<Byte>, written: nat, abandoned: bool)

  /** Everything about one upload id: its table entry while it is pending, its file,
      the chunk requests in progress, the body accepted for each received chunk,
      the finalize requests in progress (true once their job is queued), and how
      often a job was enqueued for it. */
  datatype Session = Session(
    entry: Option<Upload>,
    file: Option<seq<Byte>>,
    writers: map<RequestId, Writer>,
    bodies: map<nat, seq<Byte>>,
    finalizers: map<RequestId, bool>,
    enqueued: nat)

  datatype Action =
    | ChunkBegin(rid: RequestId, ip: Ip, index: nat, body: seq<Byte>, now: Time, ttl: Time)
    | ChunkWrite(rid: RequestId, count: nat)
    | ChunkCommit(rid: RequestId, now: Time)
    | ChunkFail(rid: RequestId)
    | ChunkAbandon(rid: RequestId)
    | FinalizeBegin(rid: RequestId, ip: Ip)
    | EnqueueOk(rid: RequestId)
    | EnqueueFail(rid: RequestId)
    | FinalizeDone(rid: RequestId)
    | FinalizeAbandon(rid: RequestId)
    | JobTakesFile

  datatype Step =
    | Init(id: UploadId, filename: string, totalSize: nat, askedChunks: Option<nat>, maxSize: nat, chunkSize: nat,
           ip: Ip, now: Time)
    | Act(id: UploadId, action: Action)
    | Sweep(now: Time, ttl: Time)

  type State = map<UploadId, Session>

  function Zeros(n: nat): seq<Byte> { seq(n, _ => 0) }

  /** The file after `data` is written at `offset`, inside its length. */
  function Patch(file: seq<Byte>, offset: nat, data: seq<Byte>): seq<Byte> {
    if offset + |data| <= |file| then file[..offset] + data + file[offset + |data|..] else file
  }

  /** The file after a request has written its next `count` bytes. */
  function Written(w: Writer, file: seq<Byte>, count: nat): seq<Byte>
    requires w.written + count <= |w.body|
  {
    Patch(file, w.offset + w.written, w.body[w.written..w.written + count])
  }

  function Created(st: Step): Session
    requires st.Init? && st.chunkSize > 0
  {
    Session(Some(NewUpload(st.filename, st.totalSize, st.chunkSize, st.ip, st.now)), Some(Zeros(st.totalSize)), map[],
            map[], map[], 0)
  }

  function DoChunkBegin(x: Session, a: Action): Session
    requires a.ChunkBegin?
  {
    if a.rid in x.writers then x
    else
      var r := ChunkOutcomeOf(x.entry, a.ip, a.index, |a.body|, a.now, a.ttl);
      var y := x.(entry := AfterChunkBegin(x.entry, a.index, a.now, r));
      match r
      case Expired => y.(file := None)
      case Writing(offset) => y.(writers := x.writers[a.rid := Writer(a.ip, a.index, offset, a.body, 0, false)])
      case _ => y
  }

  function DoChunkWrite(x: Session, rid: RequestId, count: nat): Session {
    if rid !in x.writers || x.writers[rid].written + count > |x.writers[rid].body| then x
    else
      var w := x.writers[rid];
      var y := x.(writers := x.writers[rid := w.(written := w.written + count)]);
      if x.file.None? then y
      else y.(file := Some(Written(w, x.file.value, count)))
  }

  function DoChunkCommit(x: Session, rid: RequestId, now: Time): Session {
    if rid !in x.writers || x.writers[rid].abandoned || x.writers[rid].written < |x.writers[rid].body| then x
    else
      var w := x.writers[rid];
      var y := x.(entry := AfterCommit(x.entry, w.ip, w.index, |w.body|, now), writers := x.writers - {rid});
      if x.entry.Some? && x.entry.value.ip == w.ip && w.index !in x.entry.value.received
      then y.(bodies := x.bodies[w.index := w.body]) else y
  }

  function DoChunkFail(x: Session, rid: RequestId): Session {
    if rid !in x.writers || x.writers[rid].abandoned then x
    else x.(entry := AfterWriteFailed(x.entry, x.writers[rid].index), writers := x.writers - {rid})
  }

  function Do(x: Session, a: Action): Session {
    match a
    case ChunkBegin(_, _, _, _, _, _) => DoChunkBegin(x, a)
    case ChunkWrite(rid, count) => DoChunkWrite(x, rid, count)
    case ChunkCommit(rid, now) => DoChunkCommit(x, rid, now)
    case ChunkFail(rid) => DoChunkFail(x, rid)
    case ChunkAbandon(rid) =>
      if rid !in x.writers then x else x.(writers := x.writers[rid := x.writers[rid].(abandoned := true)])
    case FinalizeBegin(rid, ip) =>
      if rid in x.finalizers || !FinalizeOutcomeOf(x.entry, ip).Finalizing? then x
      else x.(entry := WithFinalizing(x.entry, true), finalizers := x.finalizers[rid := false])
    case EnqueueOk(rid) =>
      if rid !in x.finalizers || x.finalizers[rid] then x
      else x.(finalizers := x.finalizers[rid := true], enqueued := x.enqueued + 1)
    case EnqueueFail(rid) =>
      if rid !in x.finalizers || x.finalizers[rid] then x
      else x.(entry := WithFinalizing(x.entry, false), finalizers := x.finalizers - {rid})
    case FinalizeDone(rid) =>
      if rid !in x.finalizers || !x.finalizers[rid] then x
      else x.(entry := None, finalizers := x.finalizers - {rid})
    case FinalizeAbandon(rid) => x.(finalizers := x.finalizers - {rid})
    case JobTakesFile => if x.enqueued > 0 then x.(file := None) else x
  }

  function Swept(x: Session, now: Time, ttl: Time): Session {
    var e := AfterSweep(x.entry, now, ttl);
    if e == x.entry then x else x.(entry := e, file := None)
  }

  function Next(s: State, st: Step): State {
    match st
    case Init(id, _, totalSize, askedChunks, maxSize, chunkSize, _, _) =>
      if id in s || chunkSize == 0 || !InitOutcomeOf(totalSize, askedChunks, maxSize, chunkSize).Accepted? then s
      else s[id := Created(st)]
    case Act(id, a) => if id in s then s[id := Do(s[id], a)] else s
    case Sweep(now, ttl) => map id | id in s :: Swept(s[id], now, ttl)
  }

  function Run(s: State, steps: seq<Step>): State {
    if steps == [] then s else Next(Run(s, steps[..|steps| - 1]), steps[|steps| - 1])
  }
}
