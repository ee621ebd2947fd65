/** The table of pending uploads. Every lock region of the upload handlers is one
    method of `PendingUploads`, specified by a function on the table's contents; the
    interleavings of these regions are studied in module UploadProtocol.
    A pending upload is owned by the table (nothing else refers to it), so it is a
    value, and changing one of its fields replaces the table's entry. */
module UploadTable {
  import opened Options
  import opened ChunkArithmetic
  import opened Decimal

  type UploadId = string
  type Ip = string
  type Time = nat

  datatype Upload = Upload(
    filename: string,
    totalSize: nat,
    totalChunks: nat,
    chunkSize: nat,
    received: set<nat>,
    inFlight: set<nat>,
    receivedBytes: nat,
    ip: Ip,
    lastActivity: Time,
    finalizing: bool)

  type Table = map<UploadId, Upload>

  datatype InitOutcome = EmptyFile | ZeroChunks | TooLarge | TooManyChunks | Accepted(totalChunks: nat)

  datatype ChunkOutcome =
    | NotFound | Expired | OutOfRange | WrongSize(expected: nat)
    | AlreadyHere(receivedBytes: nat, receivedChunks: nat)
    | Writing(offset: nat)

  datatype CommitOutcome = Gone | Stored(receivedBytes: nat, receivedChunks: nat, isRetry: bool)

  datatype FinalizeOutcome = NoUpload | AlreadyFinalizing | Incomplete | Finalizing(filename: string)

  function Expected(u: Upload, i: nat): nat {
    ChunkLength(u.totalSize, u.chunkSize, i)
  }

  predicate IsExpired(u: Upload, now: Time, ttl: Time) {
    now > u.lastActivity + ttl
  }

  predicate IsComplete(u: Upload) {
    |u.received| == u.totalChunks && u.receivedBytes == u.totalSize
  }

  /** `handle_upload_init`: what is answered, and the upload that is entered. */
  function InitOutcomeOf(totalSize: nat, askedChunks: Option<nat>, maxSize: nat, chunkSize: nat): InitOutcome
    requires chunkSize > 0
  {
    if totalSize == 0 then EmptyFile
    else if askedChunks == Some(0) then ZeroChunks
    else if totalSize > maxSize then TooLarge
    else if DivCeil(totalSize, chunkSize) > U32_MAX then TooManyChunks
    else Accepted(DivCeil(totalSize, chunkSize))
  }

  function NewUpload(filename: string, totalSize: nat, chunkSize: nat, ip: Ip, now: Time): Upload
    requires chunkSize > 0
  {
    Upload(filename, totalSize, DivCeil(totalSize, chunkSize), chunkSize, {}, {}, 0, ip, now, false)
  }

  function Get(t: Table, id: UploadId): Option<Upload> {
    if id in t then Some(t[id]) else None
  }

  function Put(t: Table, id: UploadId, entry: Option<Upload>): Table {
    if entry.Some? then t[id := entry.value] else t - {id}
  }

  /** First lock region of `handle_upload_chunk`. */
  function ChunkOutcomeOf(e: Option<Upload>, ip: Ip, i: nat, length: nat, now: Time, ttl: Time): ChunkOutcome {
    if e.None? || e.value.ip != ip then NotFound
    else
      var u := e.value;
      if IsExpired(u, now, ttl) then Expired
      else if i >= u.totalChunks then OutOfRange
      else if length != Expected(u, i) then WrongSize(Expected(u, i))
      else if i in u.received || i in u.inFlight then AlreadyHere(u.receivedBytes, |u.received|)
      else Writing(ChunkStart(u.chunkSize, i))
  }

  function AfterChunkBegin(e: Option<Upload>, i: nat, now: Time, outcome: ChunkOutcome): Option<Upload>
    requires outcome.AlreadyHere? || outcome.Writing? ==> e.Some?
  {
    match outcome
    case Expired => None
    case AlreadyHere(_, _) => Some(e.value.(lastActivity := now))
    case Writing(_) => Some(e.value.(lastActivity := now, inFlight := e.value.inFlight + {i}))
    case _ => e
  }

  /** Last lock region of `handle_upload_chunk`, after the body was written. */
  function AfterCommit(e: Option<Upload>, ip: Ip, i: nat, length: nat, now: Time): Option<Upload> {
    if e.None? || e.value.ip != ip then e
    else
      var v := e.value.(inFlight := e.value.inFlight - {i}, lastActivity := now);
      Some(if i in v.received then v else v.(received := v.received + {i}, receivedBytes := v.receivedBytes + length))
  }

  /** Lock region of the three error paths: opening, seeking or writing failed. */
  function AfterWriteFailed(e: Option<Upload>, i: nat): Option<Upload> {
    if e.None? then e else Some(e.value.(inFlight := e.value.inFlight - {i}))
  }

  function FinalizeOutcomeOf(e: Option<Upload>, ip: Ip): FinalizeOutcome {
    if e.None? || e.value.ip != ip then NoUpload
    else if e.value.finalizing then AlreadyFinalizing
    else if !IsComplete(e.value) then Incomplete
    else Finalizing(e.value.filename)
  }

  function WithFinalizing(e: Option<Upload>, flag: bool): Option<Upload> {
    if e.None? then e else Some(e.value.(finalizing := flag))
  }

  /** `cleanup_expired_uploads`, for one entry. It does not look at `finalizing`. */
  function AfterSweep(e: Option<Upload>, now: Time, ttl: Time): Option<Upload> {
    if e.Some? && IsExpired(e.value, now, ttl) then None else e
  }

  class PendingUploads {
    var pending: Table

    constructor ()
      ensures pending == map[]
    {
      pending := map[];
    }

    /** `handle_upload_init`, for a fresh upload id. */
    method Init(id: UploadId, filename: string, totalSize: nat, askedChunks: Option<nat>,
                maxSize: nat, chunkSize: nat, ip: Ip, now: Time) returns (r: InitOutcome)
      requires chunkSize > 0
      modifies this
      ensures r == InitOutcomeOf(totalSize, askedChunks, maxSize, chunkSize)
      ensures pending == if r.Accepted? then old(pending)[id := NewUpload(filename, totalSize, chunkSize, ip, now)]
                         else old(pending)
    {
      if totalSize == 0 { return EmptyFile; }
      if askedChunks == Some(0) { return ZeroChunks; }
      if totalSize > maxSize { return TooLarge; }
      var totalChunks := (totalSize + chunkSize - 1) / chunkSize;
      if totalChunks > U32_MAX { return TooManyChunks; }
      pending := pending[id := Upload(filename, totalSize, totalChunks, chunkSize, {}, {}, 0, ip, now, false)];
      return Accepted(totalChunks);
    }

    method ChunkBegin(id: UploadId, ip: Ip, i: nat, length: nat, now: Time, ttl: Time) returns (r: ChunkOutcome)
      modifies this
      ensures r == ChunkOutcomeOf(Get(old(pending), id), ip, i, length, now, ttl)
      ensures pending == Put(old(pending), id, AfterChunkBegin(Get(old(pending), id), i, now, r))
    {
      if id !in pending { return NotFound; }
      var u := pending[id];
      if u.ip != ip { return NotFound; }
      if now > u.lastActivity + ttl {
        pending := pending - {id};
        return Expired;
      }
      if i >= u.totalChunks { return OutOfRange; }
      ChunkStartIsProduct(u.chunkSize, i);
      var left := if u.totalSize >= i * u.chunkSize then u.totalSize - i * u.chunkSize else 0;
      var expected := if left <= u.chunkSize then left else u.chunkSize;
      if length != expected { return WrongSize(expected); }
      pending := pending[id := u.(lastActivity := now)];
      if i in u.received || i in u.inFlight {
        return AlreadyHere(u.receivedBytes, |u.received|);
      }
      pending := pending[id := pending[id].(inFlight := u.inFlight + {i})];
      return Writing(i * u.chunkSize);
    }

    method ChunkCommit(id: UploadId, ip: Ip, i: nat, length: nat, now: Time) returns (r: CommitOutcome)
      modifies this
      ensures pending == Put(old(pending), id, AfterCommit(Get(old(pending), id), ip, i, length, now))
      ensures r.Gone? <==> id !in old(pending) || old(pending)[id].ip != ip
      ensures r.Gone? ==> pending == old(pending)
      ensures r.Stored? ==>
        r == Stored(pending[id].receivedBytes, |pending[id].received|, i in old(pending)[id].received)
    {
      if id !in pending || pending[id].ip != ip { return Gone; }
      var u := pending[id];
      u := u.(inFlight := u.inFlight - {i});
      var isRetry := i in u.received;
      if !isRetry {
        u := u.(received := u.received + {i}, receivedBytes := u.receivedBytes + length);
      }
      u := u.(lastActivity := now);
      pending := pending[id := u];
      return Stored(u.receivedBytes, |u.received|, isRetry);
    }

    method ChunkFailed(id: UploadId, i: nat)
      modifies this
      ensures pending == Put(old(pending), id, AfterWriteFailed(Get(old(pending), id), i))
    {
      if id in pending {
        pending := pending[id := pending[id].(inFlight := pending[id].inFlight - {i})];
      }
    }

    method FinalizeBegin(id: UploadId, ip: Ip) returns (r: FinalizeOutcome)
      modifies this
      ensures r == FinalizeOutcomeOf(Get(old(pending), id), ip)
      ensures pending == if r.Finalizing? then Put(old(pending), id, WithFinalizing(Get(old(pending), id), true))
                         else old(pending)
    {
      if id !in pending || pending[id].ip != ip { return NoUpload; }
      var u := pending[id];
      if u.finalizing { return AlreadyFinalizing; }
      if |u.received| != u.totalChunks || u.receivedBytes != u.totalSize { return Incomplete; }
      pending := pending[id := u.(finalizing := true)];
      return Finalizing(u.filename);
    }

    method EnqueueFailed(id: UploadId)
      modifies this
      ensures pending == Put(old(pending), id, WithFinalizing(Get(old(pending), id), false))
    {
      if id in pending { pending := pending[id := pending[id].(finalizing := false)]; }
    }

    method Enqueued(id: UploadId)
      modifies this
      ensures pending == Put(old(pending), id, None)
    {
      pending := pending - {id};
    }

    /** `cleanup_expired_uploads`: returns the uploads whose files are to be deleted. */
    method Sweep(now: Time, ttl: Time) returns (removed: set<UploadId>)
      modifies this
      ensures forall k :: k in pending <==> k in old(pending) && now <= old(pending)[k].lastActivity + ttl
      ensures forall k :: k in pending ==> pending[k] == old(pending)[k]
      ensures removed == old(pending).Keys - pending.Keys
      ensures forall k :: Get(pending, k) == AfterSweep(Get(old(pending), k), now, ttl)
    {
      var todo := pending.Keys;
      removed := {};
      while todo != {}
        invariant todo <= pending.Keys
        invariant pending.Keys + removed == old(pending).Keys && pending.Keys !! removed
        invariant forall id :: id in pending ==> pending[id] == old(pending)[id]
        invariant forall id :: id in pending && id !in todo ==> !IsExpired(pending[id], now, ttl)
        invariant forall id :: id in removed ==> IsExpired(old(pending)[id], now, ttl)
        decreases todo
      {
        var id :| id in todo;
        if now > pending[id].lastActivity + ttl {
          pending := pending - {id};
          removed := removed + {id};
        }
        todo := todo - {id};
      }
    }
  }
}
