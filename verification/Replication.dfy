/** Replicating a database snapshot: cutting it into parts below the size limit and
    sending every part through every bot, whatever fails. */
module Replication {
  import opened Options
  import opened Bits
  import opened Crypto

  // --- Cutting -----------------------------------------------------------------------

  /** `slice::chunks`, on more than one chunk's worth of bytes; otherwise the whole. */
  function Chunks(bytes: seq<Byte>, size: nat): (r: seq<seq<Byte>>)
    requires size > 0
    ensures r != []
    ensures forall i :: 0 <= i < |r| ==> |r[i]| <= size
    ensures forall i :: 0 <= i < |r| - 1 ==> |r[i]| == size
    ensures bytes != [] ==> r[|r| - 1] != []
    decreases |bytes|
  {
    if |bytes| <= size then [bytes] else [bytes[..size]] + Chunks(bytes[size..], size)
  }

  function Concat(parts: seq<seq<Byte>>): seq<Byte> {
    if parts == [] then [] else Concat(parts[..|parts| - 1]) + parts[|parts| - 1]
  }

  lemma {:induction false} ConcatCons(first: seq<Byte>, rest: seq<seq<Byte>>)
    ensures Concat([first] + rest) == first + Concat(rest)
    decreases |rest|
  {
    var all := [first] + rest;
    if rest == [] {
      assert all[..0] == [];
    } else {
      ConcatCons(first, rest[..|rest| - 1]);
      assert all[..|all| - 1] == [first] + rest[..|rest| - 1];
    }
  }

  /** Cutting loses nothing. */
  lemma {:induction false} ChunksConcat(bytes: seq<Byte>, size: nat)
    requires size > 0
    ensures Concat(Chunks(bytes, size)) == bytes
    decreases |bytes|
  {
    if |bytes| <= size {
      assert [bytes][..0] == [];
    } else {
      ChunksConcat(bytes[size..], size);
      ConcatCons(bytes[..size], Chunks(bytes[size..], size));
    }
  }

  function SnapshotParts(bytes: seq<Byte>, maxSize: nat, encrypted: bool): Result<seq<seq<Byte>>, SizeError> {
    if maxSize == 0 then Err(ZeroSize)
    else
      match MaxPlaintextSize(maxSize, encrypted)
      case Err(e) => Err(e)
      case Ok(size) => Ok(Chunks(bytes, size))
  }

  /** `snapshot_upload_paths`. */
  method SnapshotUploadPaths(bytes: seq<Byte>, maxSize: nat, encrypted: bool)
    returns (r: Result<seq<seq<Byte>>, SizeError>)
    ensures r == SnapshotParts(bytes, maxSize, encrypted)
  {
    if maxSize == 0 { return Err(ZeroSize); }
    var limit := MaxPlaintextSize(maxSize, encrypted);
    if limit.Err? { return Err(limit.error); }
    var size := limit.value;
    if |bytes| <= size { return Ok([bytes]); }
    var paths: seq<seq<Byte>> := [];
    var rest := bytes;
    while |rest| > size
      invariant Chunks(bytes, size) == paths + Chunks(rest, size)
    {
      paths := paths + [rest[..size]];
      rest := rest[size..];
    }
    return Ok(paths + [rest]);
  }

  // --- Sending -----------------------------------------------------------------------

  /** A file kept by Telegram: file ids belong to the bot that sent the file. */
  datatype FileRef = FileRef(bot: int, id: string)

  /** What comes of one attempt to send a part: its file id, and the random nonce used if
      the payload is encrypted. */
  datatype Receipt = Receipt(fileId: string, nonce: seq<Byte>)

  /** The outcome of sending each part through each bot; `None` is any failure. */
  type World = (int, int) -> Option<Receipt>

  datatype Setup = Setup(cipher: Cipher, key: Option<EncryptionKey>, snapshotId: string, maxSize: nat)

  /** An entry of the descriptor's `uploads` array, as JSON: any field may be missing. */
  datatype Upload = Upload(botIndex: Option<int>, partIndex: Option<int>, fileId: Option<string>, nonce: Option<string>)

  function Payload(setup: Setup, part: int, nonce: seq<Byte>, plain: seq<Byte>): seq<Byte> {
    if setup.key.None? then plain
    else setup.cipher.seal(setup.key.value, nonce, DbSyncAad(setup.snapshotId, part), plain)
  }

  function NonceText(setup: Setup, nonce: seq<Byte>): Option<string> {
    if setup.key.None? then None else Some(HexEncoded(nonce))
  }

  predicate SentAll(world: World, bot: int, n: nat) {
    forall p :: 0 <= p < n ==> world(bot, p).Some?
  }

  /** The first part that a bot fails to send. */
  function FirstFailure(world: World, bot: int, n: nat): (r: nat)
    requires !SentAll(world, bot, n)
    ensures r < n && world(bot, r).None? && SentAll(world, bot, r)
  {
    if SentAll(world, bot, n - 1) then n - 1 else FirstFailure(world, bot, n - 1)
  }

  function Entry(setup: Setup, world: World, bot: int, p: int): seq<Upload> {
    match world(bot, p)
    case None => []
    case Some(receipt) => [Upload(Some(bot), Some(p), Some(receipt.fileId), NonceText(setup, receipt.nonce))]
  }

  function BotUploads(setup: Setup, world: World, bot: int, n: nat): seq<Upload> {
    if n == 0 then [] else BotUploads(setup, world, bot, n - 1) + Entry(setup, world, bot, n - 1)
  }

  /** What a bot adds to the descriptor: nothing, unless it sent every part. */
  function Committed(setup: Setup, world: World, bot: int, n: nat): seq<Upload> {
    if SentAll(world, bot, n) then BotUploads(setup, world, bot, n) else []
  }

  function AllUploads(setup: Setup, world: World, bots: nat, n: nat): seq<Upload> {
    if bots == 0 then [] else AllUploads(setup, world, bots - 1, n) + Committed(setup, world, bots - 1, n)
  }

  datatype Failure = Failure(bot: int, part: int)

  function Failures(world: World, bots: nat, n: nat): seq<Failure> {
    if bots == 0 then []
    else
      Failures(world, bots - 1, n)
      + (if SentAll(world, bots - 1, n) then [] else [Failure(bots - 1, FirstFailure(world, bots - 1, n))])
  }

  /** What Telegram promises: every file sent by a bot gets an id of its own. */
  ghost predicate GoodReceipts(world: World) {
    && (forall b, p :: world(b, p).Some? ==> world(b, p).value.fileId != "" && |world(b, p).value.nonce| == NONCE_LEN)
    && (forall b, p, q :: world(b, p).Some? && world(b, q).Some? && p != q ==>
          world(b, p).value.fileId != world(b, q).value.fileId)
  }

  ghost predicate UnusedFrom(world: World, files: map<FileRef, seq<Byte>>, bot: int) {
    forall b, p :: b >= bot && world(b, p).Some? ==> FileRef(b, world(b, p).value.fileId) !in files
  }

  ghost predicate StoredPart(files: map<FileRef, seq<Byte>>, setup: Setup, world: World, parts: seq<seq<Byte>>,
                             bot: int, p: int)
    requires 0 <= p < |parts|
  {
    world(bot, p).Some? ==>
      var ref := FileRef(bot, world(bot, p).value.fileId);
      ref in files && files[ref] == Payload(setup, p, world(bot, p).value.nonce, parts[p])
  }

  /** Telegram holds the first `n` parts of a bot. */
  ghost predicate Stored(files: map<FileRef, seq<Byte>>, setup: Setup, world: World, parts: seq<seq<Byte>>,
                         bot: int, n: nat)
    requires n <= |parts|
  {
    forall p :: 0 <= p < n ==> StoredPart(files, setup, world, parts, bot, p)
  }

  ghost predicate Fits(setup: Setup, plain: seq<Byte>) {
    |plain| + Overhead(setup.key.Some?) <= setup.maxSize
  }

  ghost predicate Kept(before: map<FileRef, seq<Byte>>, after: map<FileRef, seq<Byte>>) {
    forall ref :: ref in before ==> ref in after && after[ref] == before[ref]
  }

  /** What is new belongs to one of the bots and is no larger than allowed. */
  ghost predicate NewFiles(before: map<FileRef, seq<Byte>>, after: map<FileRef, seq<Byte>>, low: int, high: int,
                           maxSize: nat) {
    forall ref :: ref in after && ref !in before ==> low <= ref.bot < high && |after[ref]| <= maxSize
  }

  lemma PayloadFits(setup: Setup, part: int, nonce: seq<Byte>, plain: seq<Byte>)
    requires Lawful(setup.cipher) && Fits(setup, plain)
    ensures |Payload(setup, part, nonce, plain)| <= setup.maxSize
  {
  }

  datatype UploadedFile = UploadedFile(fileId: string, nonce: Option<string>)

  class Telegram {
    var files: map<FileRef, seq<Byte>>

    constructor ()
      ensures files == map[]
    {
      files := map[];
    }

    /** `upload_document`: encrypts, refuses what is too large, and sends. */
    method UploadDocument(setup: Setup, bot: int, part: int, plain: seq<Byte>, outcome: Option<Receipt>)
      returns (r: Option<UploadedFile>)
      modifies this
      ensures r.Some? <==> outcome.Some? && |Payload(setup, part, outcome.value.nonce, plain)| <= setup.maxSize
      ensures r.None? ==> files == old(files)
      ensures r.Some? ==>
        && r.value == UploadedFile(outcome.value.fileId, NonceText(setup, outcome.value.nonce))
        && files == old(files)[FileRef(bot, outcome.value.fileId) := Payload(setup, part, outcome.value.nonce, plain)]
    {
      if outcome.None? { return None; }
      var nonce: Option<string> := None;
      var payload := plain;
      if setup.key.Some? {
        var text := HexEncode(outcome.value.nonce);
        payload := setup.cipher.seal(setup.key.value, outcome.value.nonce, DbSyncAad(setup.snapshotId, part), plain);
        nonce := Some(text);
      }
      if |payload| > setup.maxSize { return None; }
      files := files[FileRef(bot, outcome.value.fileId) := payload];
      return Some(UploadedFile(outcome.value.fileId, nonce));
    }

    /** The inner loop of `upload_snapshot_to_all_bots`: one bot's parts are buffered
        until all of them are sent, or one fails. */
    method UploadToBot(setup: Setup, parts: seq<seq<Byte>>, bot: int, world: World)
      returns (buffer: seq<Upload>, failedPart: Option<int>)
      requires Lawful(setup.cipher) && forall p :: 0 <= p < |parts| ==> Fits(setup, parts[p])
      requires GoodReceipts(world) && UnusedFrom(world, files, bot)
      modifies this
      ensures failedPart == if SentAll(world, bot, |parts|) then None else Some(FirstFailure(world, bot, |parts|))
      ensures failedPart.None? ==> buffer == BotUploads(setup, world, bot, |parts|)
      ensures failedPart.None? ==> Stored(files, setup, world, parts, bot, |parts|)
      ensures Kept(old(files), files) && NewFiles(old(files), files, bot, bot + 1, setup.maxSize)
    {
      buffer := [];
      for p := 0 to |parts|
        invariant SentAll(world, bot, p) && buffer == BotUploads(setup, world, bot, p)
        invariant Stored(files, setup, world, parts, bot, p)
        invariant Kept(old(files), files) && NewFiles(old(files), files, bot, bot + 1, setup.maxSize)
        invariant forall q :: q >= p && world(bot, q).Some? ==> FileRef(bot, world(bot, q).value.fileId) !in files
      {
        ghost var before := files;
        if world(bot, p).Some? { PayloadFits(setup, p, world(bot, p).value.nonce, parts[p]); }
        var uploaded := UploadDocument(setup, bot, p, parts[p], world(bot, p));
        if uploaded.None? {
          FailsFirstAt(world, bot, p, |parts|);
          return buffer, Some(p);
        }
        StoredStep(before, files, setup, world, parts, bot, p);
        buffer := buffer + [Upload(Some(bot), Some(p), Some(uploaded.value.fileId), uploaded.value.nonce)];
      }
      return buffer, None;
    }

    /** `upload_snapshot_to_all_bots`: the report, and the descriptor if any bot got all
        the parts. */
    method UploadSnapshotToAllBots(setup: Setup, content: seq<Byte>, bots: nat, world: World)
      returns (r: Result<Report, UploadError>)
      requires Lawful(setup.cipher)
      requires GoodReceipts(world) && UnusedFrom(world, files, 0)
      modifies this
      ensures r.Err? <==> bots == 0 || SnapshotParts(content, setup.maxSize, setup.key.Some?).Err?
      ensures r.Err? ==> files == old(files)
      ensures r.Ok? ==>
        var parts := SnapshotParts(content, setup.maxSize, setup.key.Some?).value;
        && r.value.uploads == AllUploads(setup, world, bots, |parts|)
        && r.value.failures == Failures(world, bots, |parts|)
        && AllStored(files, setup, world, parts, bots)
      ensures r.Ok? ==>
        var n := |SnapshotParts(content, setup.maxSize, setup.key.Some?).value|;
        && (r.value.status == CompleteUpload <==> EverySent(world, bots, n))
        && (r.value.status == FailedUpload <==> EveryFailed(world, bots, n))
        && forall f :: f in r.value.failures <==> IsFirstFailure(world, bots, n, f)
      ensures Kept(old(files), files) && NewFiles(old(files), files, 0, bots, setup.maxSize)
    {
      if bots == 0 { return Err(NoBot); }
      var split := SnapshotUploadPaths(content, setup.maxSize, setup.key.Some?);
      if split.Err? { return Err(BadSize(split.error)); }
      var parts := split.value;
      PartsFit(setup, content);
      var uploads: seq<Upload>, failures: seq<Failure> := [], [];
      for bot := 0 to bots
        invariant uploads == AllUploads(setup, world, bot, |parts|)
        invariant failures == Failures(world, bot, |parts|)
        invariant AllStored(files, setup, world, parts, bot)
        invariant Kept(old(files), files) && NewFiles(old(files), files, 0, bot, setup.maxSize)
      {
        ghost var before := files;
        StillUnused(world, old(files), before, bot, setup.maxSize);
        var buffer, failedPart := UploadToBot(setup, parts, bot, world);
        NewFilesTransitive(old(files), before, files, bot, setup.maxSize);
        AllStoredStep(before, files, setup, world, parts, bot);
        if failedPart.None? {
          uploads := uploads + buffer;
        } else {
          failures := failures + [Failure(bot, failedPart.value)];
        }
      }
      StatusMeans(setup, world, bots, |parts|);
      forall f ensures f in failures <==> IsFirstFailure(world, bots, |parts|, f) {
        FailuresExactly(world, bots, |parts|, f);
      }
      return Ok(Report(uploads, failures, StatusOf(uploads, failures)));
    }
  }

  datatype UploadStatus = FailedUpload | PartialUpload | CompleteUpload

  function StatusOf(uploads: seq<Upload>, failures: seq<Failure>): UploadStatus {
    if uploads == [] then FailedUpload else if failures == [] then CompleteUpload else PartialUpload
  }

  /** Every bot sent every part. */
  ghost predicate EverySent(world: World, bots: nat, n: nat) {
    forall b, p :: 0 <= b < bots && 0 <= p < n ==> world(b, p).Some?
  }

  ghost predicate Fails(world: World, b: int, n: nat) { exists p :: 0 <= p < n && world(b, p).None? }

  /** Every bot failed to send some part. */
  ghost predicate EveryFailed(world: World, bots: nat, n: nat) { forall b :: 0 <= b < bots ==> Fails(world, b, n) }

  /** The failure names a bot and the first part that it did not send. */
  ghost predicate IsFirstFailure(world: World, bots: nat, n: nat, f: Failure) {
    && 0 <= f.bot < bots && 0 <= f.part < n && world(f.bot, f.part).None?
    && forall p :: 0 <= p < f.part ==> world(f.bot, p).Some?
  }

  lemma FirstIsFirst(world: World, bot: int, n: nat, part: int)
    ensures 0 <= part < n && world(bot, part).None? && (forall p :: 0 <= p < part ==> world(bot, p).Some?)
      <==> !SentAll(world, bot, n) && part == FirstFailure(world, bot, n)
  {
    if !SentAll(world, bot, n) {
      var r := FirstFailure(world, bot, n);
      assert forall p :: 0 <= p < r ==> world(bot, p).Some?;
    }
  }

  lemma {:induction false} FailuresExactly(world: World, bots: nat, n: nat, f: Failure)
    ensures f in Failures(world, bots, n) <==> IsFirstFailure(world, bots, n, f)
  {
    if bots > 0 {
      var before, last := Failures(world, bots - 1, n), bots - 1;
      FailuresExactly(world, last, n, f);
      FirstIsFirst(world, last, n, f.part);
      assert f in Failures(world, bots, n) <==>
        f in before || (!SentAll(world, last, n) && f == Failure(last, FirstFailure(world, last, n)));
    }
  }

  lemma {:induction false} BotUploadsCount(setup: Setup, world: World, bot: int, n: nat)
    requires SentAll(world, bot, n)
    ensures |BotUploads(setup, world, bot, n)| == n
  {
    if n > 0 { BotUploadsCount(setup, world, bot, n - 1); }
  }

  lemma {:induction false} NothingUploaded(setup: Setup, world: World, bots: nat, n: nat)
    requires n > 0
    ensures AllUploads(setup, world, bots, n) == [] <==> EveryFailed(world, bots, n)
  {
    if bots > 0 {
      NothingUploaded(setup, world, bots - 1, n);
      assert Fails(world, bots - 1, n) <==> !SentAll(world, bots - 1, n);
      if SentAll(world, bots - 1, n) { BotUploadsCount(setup, world, bots - 1, n); }
    }
  }

  lemma StatusMeans(setup: Setup, world: World, bots: nat, n: nat)
    requires bots > 0 && n > 0
    ensures var status := StatusOf(AllUploads(setup, world, bots, n), Failures(world, bots, n));
      && (status == CompleteUpload <==> EverySent(world, bots, n))
      && (status == FailedUpload <==> EveryFailed(world, bots, n))
  {
    NothingUploaded(setup, world, bots, n);
    NoFailures(world, bots, n);
    if EverySent(world, bots, n) { assert !Fails(world, 0, n); }
  }

  lemma {:induction false} NoFailures(world: World, bots: nat, n: nat)
    ensures Failures(world, bots, n) == [] <==> EverySent(world, bots, n)
  {
    if bots > 0 { NoFailures(world, bots - 1, n); }
  }

  datatype Report = Report(uploads: seq<Upload>, failures: seq<Failure>, status: UploadStatus)

  datatype UploadError = NoBot | BadSize(error: SizeError)

  /** Every bot that sent all the parts has all of them stored. */
  ghost predicate AllStored(files: map<FileRef, seq<Byte>>, setup: Setup, world: World, parts: seq<seq<Byte>>,
                            bots: nat) {
    forall b :: 0 <= b < bots && SentAll(world, b, |parts|) ==> Stored(files, setup, world, parts, b, |parts|)
  }

  lemma PartsFit(setup: Setup, content: seq<Byte>)
    requires SnapshotParts(content, setup.maxSize, setup.key.Some?).Ok?
    ensures var parts := SnapshotParts(content, setup.maxSize, setup.key.Some?).value;
      forall p :: 0 <= p < |parts| ==> Fits(setup, parts[p])
  {
  }

  lemma StillUnused(world: World, start: map<FileRef, seq<Byte>>, files: map<FileRef, seq<Byte>>, bot: nat,
                    maxSize: nat)
    requires UnusedFrom(world, start, 0) && NewFiles(start, files, 0, bot, maxSize)
    ensures UnusedFrom(world, files, bot)
  {
  }

  lemma NewFilesTransitive(start: map<FileRef, seq<Byte>>, before: map<FileRef, seq<Byte>>,
                           after: map<FileRef, seq<Byte>>,
                           bot: nat, maxSize: nat)
    requires Kept(start, before) && Kept(before, after)
    requires NewFiles(start, before, 0, bot, maxSize) && NewFiles(before, after, bot, bot + 1, maxSize)
    ensures Kept(start, after) && NewFiles(start, after, 0, bot + 1, maxSize)
  {
  }

  lemma AllStoredStep(before: map<FileRef, seq<Byte>>, after: map<FileRef, seq<Byte>>, setup: Setup, world: World,
                      parts: seq<seq<Byte>>, bot: nat)
    requires Kept(before, after) && AllStored(before, setup, world, parts, bot)
    requires SentAll(world, bot, |parts|) ==> Stored(after, setup, world, parts, bot, |parts|)
    ensures AllStored(after, setup, world, parts, bot + 1)
  {
    forall b | 0 <= b < bot && SentAll(world, b, |parts|) ensures Stored(after, setup, world, parts, b, |parts|) {
      forall p | 0 <= p < |parts| ensures StoredPart(after, setup, world, parts, b, p) {
        assert StoredPart(before, setup, world, parts, b, p);
      }
    }
  }

  lemma {:induction false} FailsFirstAt(world: World, bot: int, p: nat, n: nat)
    requires p < n && SentAll(world, bot, p) && world(bot, p).None?
    ensures !SentAll(world, bot, n) && FirstFailure(world, bot, n) == p
  {
    if n > p + 1 { FailsFirstAt(world, bot, p, n - 1); }
  }

  lemma StoredStep(before: map<FileRef, seq<Byte>>, after: map<FileRef, seq<Byte>>, setup: Setup, world: World,
                   parts: seq<seq<Byte>>, bot: int, p: nat)
    requires p < |parts| && world(bot, p).Some? && GoodReceipts(world)
    requires Stored(before, setup, world, parts, bot, p)
    requires var receipt := world(bot, p).value;
      after == before[FileRef(bot, receipt.fileId) := Payload(setup, p, receipt.nonce, parts[p])]
    ensures Stored(after, setup, world, parts, bot, p + 1)
  {
    forall q | 0 <= q < p + 1 ensures StoredPart(after, setup, world, parts, bot, q) {
      if q < p { assert StoredPart(before, setup, world, parts, bot, q); }
    }
  }
}
