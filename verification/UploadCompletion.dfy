/** Which uploads can still be finalized: exactly those without a mark that a dropped
    request has left behind, on a chunk or on the upload as a whole. */
module UploadCompletion {
  import opened Options
  import opened Bits
  import opened ChunkArithmetic
  import opened Folds
  import opened UploadTable
  import opened UploadProtocol
  import opened UploadInvariant
  import opened UploadTheorems

  // --- What can block an upload ------------------------------------------------------

  /** Every chunk that is marked as in flight is still being written by some request. */
  ghost predicate Live(x: Session) {
    x.entry.Some? ==> forall i :: i in x.entry.value.inFlight ==> HasWriter(x, i)
  }

  ghost predicate HasWriter(x: Session, i: nat) {
    exists r :: r in x.writers && x.writers[r].index == i && !x.writers[r].abandoned
  }

  /** Chunk `i` is marked as in flight, but every request that writes it was dropped. */
  ghost predicate Stuck(x: Session, i: nat) {
    x.entry.Some? ==> i in x.entry.value.inFlight && !HasWriter(x, i)
  }

  /** Some finalize request still waits for the job queue. */
  ghost predicate HasFinalizer(x: Session) {
    exists r :: r in x.finalizers && !x.finalizers[r]
  }

  /** The upload is marked as finalizing, but its finalize request is past the queue or
      was dropped: nothing will clear the mark. */
  ghost predicate Claimed(x: Session) {
    x.entry.Some? ==> x.entry.value.finalizing && !HasFinalizer(x)
  }

  /** The upload belongs to another address. */
  ghost predicate Foreign(x: Session, ip: Ip) {
    x.entry.Some? ==> x.entry.value.ip != ip
  }

  /** The condition for a finalize request from `ip` to pass at some time. */
  ghost predicate Completable(x: Session, ip: Ip) {
    && x.entry.Some? && x.entry.value.ip == ip
    && Live(x)
    && (x.entry.value.finalizing ==> HasFinalizer(x))
  }

  // Being stuck, claimed or foreign is permanent.

  lemma StuckMark(x: Session, a: Action, i: nat)
    requires Stuck(x, i) && Do(x, a).entry.Some?
    ensures x.entry.Some? && i in Do(x, a).entry.value.inFlight
  {
    if x.entry.Some? && a.ChunkCommit? && a.rid in x.writers && x.writers[a.rid].index == i {
      assert x.writers[a.rid].abandoned;
    }
  }

  lemma StuckWriter(x: Session, a: Action, i: nat, r: RequestId)
    requires Stuck(x, i) && x.entry.Some? && r in Do(x, a).writers && Do(x, a).writers[r].index == i
    ensures Do(x, a).writers[r].abandoned
  {
    assert r in x.writers ==> x.writers[r].index == i ==> x.writers[r].abandoned;
  }

  lemma StuckStays(x: Session, a: Action, i: nat)
    requires Stuck(x, i)
    ensures Stuck(Do(x, a), i)
  {
    var y := Do(x, a);
    if y.entry.Some? {
      StuckMark(x, a, i);
      forall r | r in y.writers && y.writers[r].index == i ensures y.writers[r].abandoned { StuckWriter(x, a, i, r); }
    }
  }

  lemma ClaimedStays(x: Session, a: Action)
    requires Claimed(x)
    ensures Claimed(Do(x, a))
  {
    var y := Do(x, a);
    if y.entry.Some? {
      forall r | r in y.finalizers ensures y.finalizers[r] { assert r in x.finalizers ==> x.finalizers[r]; }
    }
  }

  lemma ForeignStays(x: Session, a: Action, ip: Ip)
    requires Foreign(x, ip)
    ensures Foreign(Do(x, a), ip)
  {
  }

  ghost predicate Blocked(x: Session, ip: Ip) {
    (exists i :: Stuck(x, i)) || Claimed(x) || Foreign(x, ip)
  }

  lemma BlockedStays(x: Session, a: Action, ip: Ip)
    requires Blocked(x, ip)
    ensures Blocked(Do(x, a), ip)
  {
    if i :| Stuck(x, i) { StuckStays(x, a, i); }
    if Claimed(x) { ClaimedStays(x, a); }
    if Foreign(x, ip) { ForeignStays(x, a, ip); }
  }

  lemma BlockedRefuses(x: Session, ip: Ip)
    requires SessionOk(x) && Blocked(x, ip)
    ensures !FinalizeOutcomeOf(x.entry, ip).Finalizing?
  {
    if x.entry.Some? { CountDecides(x.entry.value); }
  }

  lemma SweptBlocked(x: Session, ip: Ip, now: Time, ttl: Time)
    requires Blocked(x, ip)
    ensures Blocked(Swept(x, now, ttl), ip)
  {
    if i :| Stuck(x, i) { assert Stuck(Swept(x, now, ttl), i); }
  }

  /** A blocked upload stays blocked in every run, and no finalize passes. */
  lemma {:induction false} BlockedForever(s: State, steps: seq<Step>, id: UploadId, ip: Ip)
    requires Inv(s) && id in s && Blocked(s[id], ip)
    ensures id in Run(s, steps) && Blocked(Run(s, steps)[id], ip)
    ensures !FinalizeOutcomeOf(Run(s, steps)[id].entry, ip).Finalizing?
  {
    if steps != [] {
      var before, st := steps[..|steps| - 1], steps[|steps| - 1];
      BlockedForever(s, before, id, ip);
      var x := Run(s, before)[id];
      match st {
        case Init(_, _, _, _, _, _, _, _) =>
        case Act(other, a) => if other == id { BlockedStays(x, a, ip); }
        case Sweep(now, ttl) => SweptBlocked(x, ip, now, ttl);
      }
    }
    RunKeeps(s, steps);
    BlockedRefuses(Run(s, steps)[id], ip);
  }

  // --- How an upload is completed ----------------------------------------------------

  function Doing(): (Session, Action) -> Session { (x: Session, a: Action) => Do(x, a) }

  function DoAll(x: Session, actions: seq<Action>): Session { Fold(Doing(), x, actions) }

  /** Slice `i` of the file, as the browser cuts it. */
  function Piece(f: seq<Byte>, size: nat, i: nat): (body: seq<Byte>)
    requires ChunkStart(size, i) <= |f|
    ensures IsPiece(f, size, i, body)
  {
    var start := ChunkStart(size, i);
    f[start..if start + size <= |f| then start + size else |f|]
  }

  lemma PieceLength(u: Upload, f: seq<Byte>, i: nat)
    requires Covers(u.totalSize, u.chunkSize, u.totalChunks) && i < u.totalChunks && |f| == u.totalSize
    ensures ChunkStart(u.chunkSize, i) <= |f| && |Piece(f, u.chunkSize, i)| == Expected(u, i)
  {
    ChunkInside(u.totalSize, u.chunkSize, u.totalChunks, i);
  }

  /** A step of the plan: at time `now`, and chunk requests send their slice. */
  predicate OnPlan(a: Action, f: seq<Byte>, size: nat, now: Time) {
    match a
    case ChunkBegin(_, _, _, _, t, _) => t == now && ActsOnPiece(a, f, size)
    case ChunkWrite(_, _) => true
    case ChunkCommit(_, t) => t == now
    case EnqueueFail(_) => true
    case _ => false
  }

  ghost predicate AllOnPlan(actions: seq<Action>, f: seq<Byte>, size: nat, now: Time) {
    forall k :: 0 <= k < |actions| ==> OnPlan(actions[k], f, size, now)
  }

  /** The entry after chunk `i` was stored at time `now`. */
  function WithChunk(u: Upload, i: nat, now: Time): Upload {
    u.(received := u.received + {i}, inFlight := u.inFlight - {i}, receivedBytes := u.receivedBytes + Expected(u, i),
       lastActivity := now)
  }

  lemma WithChunkCounts(u: Upload, i: nat, now: Time)
    requires i !in u.received
    ensures |WithChunk(u, i, now).received| == |u.received| + 1
  {
  }

  /** A live request writes the rest of its body and commits. */
  function Finish(x: Session, rid: RequestId, now: Time): seq<Action>
    requires rid in x.writers && x.writers[rid].written <= |x.writers[rid].body|
  {
    [ChunkWrite(rid, |x.writers[rid].body| - x.writers[rid].written), ChunkCommit(rid, now)]
  }

  lemma WriteRest(x: Session, rid: RequestId)
    requires rid in x.writers && x.writers[rid].written <= |x.writers[rid].body|
    ensures var w, y := x.writers[rid], DoChunkWrite(x, rid, |x.writers[rid].body| - x.writers[rid].written);
      y.entry == x.entry && y.writers == x.writers[rid := w.(written := |w.body|)]
  {
  }

  lemma CommitStores(x: Session, rid: RequestId, now: Time)
    requires x.entry.Some? && UploadOk(x.entry.value) && rid in x.writers && WriterOk(x.entry.value, x.writers[rid])
    requires !x.writers[rid].abandoned && x.writers[rid].written == |x.writers[rid].body|
    ensures var y := DoChunkCommit(x, rid, now);
      y.entry == Some(WithChunk(x.entry.value, x.writers[rid].index, now)) && y.writers == x.writers - {rid}
  {
    assert x.writers[rid].index !in x.entry.value.received;
  }

  /** After the rest of the body is written, the commit finds the writer complete. */
  lemma WrittenOut(x: Session, rid: RequestId, mid: Session)
    requires SessionOk(x) && x.entry.Some? && rid in x.writers
    requires mid.entry == x.entry && mid.writers == x.writers[rid := x.writers[rid].(written := |x.writers[rid].body|)]
    ensures mid.entry.Some? && UploadOk(mid.entry.value) && WriterOk(mid.entry.value, mid.writers[rid])
    ensures mid.writers - {rid} == x.writers - {rid}
  {
    assert WriterOk(x.entry.value, x.writers[rid]);
  }

  lemma FinishIs(x: Session, rid: RequestId, now: Time)
    requires rid in x.writers && x.writers[rid].written <= |x.writers[rid].body|
    ensures DoAll(x, Finish(x, rid, now))
      == DoChunkCommit(DoChunkWrite(x, rid, |x.writers[rid].body| - x.writers[rid].written), rid, now)
  {
    FoldTwo(Doing(), x, ChunkWrite(rid, |x.writers[rid].body| - x.writers[rid].written), ChunkCommit(rid, now));
  }

  lemma FinishStores(x: Session, rid: RequestId, now: Time)
    requires SessionOk(x) && x.entry.Some? && rid in x.writers && !x.writers[rid].abandoned
    ensures var y, i := DoAll(x, Finish(x, rid, now)), x.writers[rid].index;
      y.entry == Some(WithChunk(x.entry.value, i, now)) && y.writers == x.writers - {rid}
  {
    FinishIs(x, rid, now);
    WriteRest(x, rid);
    var mid := DoChunkWrite(x, rid, |x.writers[rid].body| - x.writers[rid].written);
    WrittenOut(x, rid, mid);
    CommitStores(mid, rid, now);
  }

  lemma FreshRequest(x: Session) returns (rid: RequestId)
    ensures rid !in x.writers
  {
    rid := 0;
    var below: set<nat> := {};
    while rid in x.writers
      invariant below <= x.writers.Keys && forall r :: r in below ==> r < rid
      decreases |x.writers.Keys - below|
    {
      var rest := x.writers.Keys - below;
      assert x.writers.Keys - (below + {rid}) == rest - {rid};
      below := below + {rid};
      rid := rid + 1;
    }
  }

  /** A request begins a chunk that nobody has and nobody is writing. */
  lemma BeginOpens(x: Session, rid: RequestId, i: nat, f: seq<Byte>, now: Time, ttl: Time)
    requires SessionOk(x) && x.entry.Some? && rid !in x.writers && |f| == x.entry.value.totalSize
    requires i < x.entry.value.totalChunks && i !in x.entry.value.received && i !in x.entry.value.inFlight
    requires !IsExpired(x.entry.value, now, ttl)
    requires ChunkStart(x.entry.value.chunkSize, i) <= |f|
    ensures var u := x.entry.value;
      var y := Do(x, ChunkBegin(rid, u.ip, i, Piece(f, u.chunkSize, i), now, ttl));
      && y.entry == Some(u.(inFlight := u.inFlight + {i}, lastActivity := now))
      && rid in y.writers && y.writers - {rid} == x.writers
      && y.writers[rid].index == i && !y.writers[rid].abandoned
  {
    PieceLength(x.entry.value, f, i);
  }

  /** A chunk to work on next: one that a live request is writing, or one nobody has. */
  lemma NextChunk(x: Session) returns (i: nat)
    requires SessionOk(x) && x.entry.Some? && |x.entry.value.received| < x.entry.value.totalChunks
    ensures i < x.entry.value.totalChunks && i !in x.entry.value.received
  {
    var u := x.entry.value;
    CountedAll(u.received, u.totalChunks);
    i :| i in Indices(u.totalChunks) && i !in u.received;
  }

  /** Writers of other chunks are untouched. */
  lemma OthersStayLive(x: Session, y: Session, i: nat, rid: RequestId)
    requires Live(x) && x.entry.Some? && y.entry.Some?
    requires y.entry.value.inFlight == x.entry.value.inFlight - {i}
    requires y.writers == x.writers - {rid} && (rid in x.writers ==> x.writers[rid].index == i)
    ensures Live(y)
  {
    forall j | j in y.entry.value.inFlight ensures HasWriter(y, j) {
      assert HasWriter(x, j);
      var r :| r in x.writers && x.writers[r].index == j && !x.writers[r].abandoned;
      assert r in y.writers;
    }
  }

  /** The chunk that a live request is writing is stored by that request. */
  lemma StoreBegun(x: Session, i: nat, f: seq<Byte>, now: Time) returns (actions: seq<Action>)
    requires SessionOk(x) && x.entry.Some? && Live(x) && i in x.entry.value.inFlight
    ensures AllOnPlan(actions, f, x.entry.value.chunkSize, now)
    ensures DoAll(x, actions).entry == Some(WithChunk(x.entry.value, i, now)) && Live(DoAll(x, actions))
  {
    assert HasWriter(x, i);
    var rid :| rid in x.writers && x.writers[rid].index == i && !x.writers[rid].abandoned;
    actions := Finish(x, rid, now);
    FinishStores(x, rid, now);
    OthersStayLive(x, DoAll(x, actions), i, rid);
  }

  /** A chunk that nobody is writing is begun by a new request. */
  lemma Open(x: Session, rid: RequestId, i: nat, f: seq<Byte>, now: Time, ttl: Time) returns (begin: Action, y: Session)
    requires SessionOk(x) && x.entry.Some? && |f| == x.entry.value.totalSize
    requires !IsExpired(x.entry.value, now, ttl) && rid !in x.writers
    requires i < x.entry.value.totalChunks && i !in x.entry.value.received && i !in x.entry.value.inFlight
    ensures OnPlan(begin, f, x.entry.value.chunkSize, now) && DoAll(x, [begin]) == y && SessionOk(y)
    ensures y.entry == Some(x.entry.value.(inFlight := x.entry.value.inFlight + {i}, lastActivity := now))
    ensures rid in y.writers && y.writers - {rid} == x.writers && y.writers[rid].index == i && !y.writers[rid].abandoned
  {
    var u := x.entry.value;
    PieceLength(u, f, i);
    begin := ChunkBegin(rid, u.ip, i, Piece(f, u.chunkSize, i), now, ttl);
    y := Do(x, begin);
    BeginOpens(x, rid, i, f, now, ttl);
    ActionKeeps(x, begin);
    FoldOne(Doing(), x, begin);
  }

  /** And stored by it. */
  lemma StoreOpened(x: Session, y: Session, rid: RequestId, i: nat, now: Time)
    requires x.entry.Some? && Live(x) && i !in x.entry.value.inFlight && SessionOk(y)
    requires y.entry == Some(x.entry.value.(inFlight := x.entry.value.inFlight + {i}, lastActivity := now))
    requires rid in y.writers && rid !in x.writers && y.writers - {rid} == x.writers
    requires y.writers[rid].index == i && !y.writers[rid].abandoned && y.writers[rid].written <= |y.writers[rid].body|
    ensures DoAll(y, Finish(y, rid, now)).entry == Some(WithChunk(x.entry.value, i, now))
    ensures Live(DoAll(y, Finish(y, rid, now)))
  {
    FinishStores(y, rid, now);
    OpenedThenStored(x.entry.value, i, now);
    assert x.writers - {rid} == x.writers;
    OthersStayLive(x, DoAll(y, Finish(y, rid, now)), i, rid);
  }

  lemma PlanGoesOn(begin: Action, x: Session, rid: RequestId, f: seq<Byte>, size: nat, now: Time)
    requires OnPlan(begin, f, size, now) && rid in x.writers && x.writers[rid].written <= |x.writers[rid].body|
    ensures AllOnPlan([begin] + Finish(x, rid, now), f, size, now)
  {
  }

  lemma StoreFresh(x: Session, i: nat, f: seq<Byte>, now: Time, ttl: Time) returns (actions: seq<Action>)
    requires SessionOk(x) && x.entry.Some? && Live(x) && |f| == x.entry.value.totalSize
    requires !IsExpired(x.entry.value, now, ttl)
    requires i < x.entry.value.totalChunks && i !in x.entry.value.received && i !in x.entry.value.inFlight
    ensures AllOnPlan(actions, f, x.entry.value.chunkSize, now)
    ensures DoAll(x, actions).entry == Some(WithChunk(x.entry.value, i, now)) && Live(DoAll(x, actions))
  {
    var rid := FreshRequest(x);
    var begin, y := Open(x, rid, i, f, now, ttl);
    assert WritersOk(y);
    StoreOpened(x, y, rid, i, now);
    var rest := Finish(y, rid, now);
    FoldAppend(Doing(), x, [begin], rest);
    actions := [begin] + rest;
    PlanGoesOn(begin, y, rid, f, x.entry.value.chunkSize, now);
    assert DoAll(x, actions) == DoAll(y, rest);
  }

  lemma OpenedThenStored(u: Upload, i: nat, now: Time)
    requires i !in u.inFlight
    ensures WithChunk(u.(inFlight := u.inFlight + {i}, lastActivity := now), i, now) == WithChunk(u, i, now)
    ensures u.inFlight + {i} - {i} == u.inFlight - {i}
  {
  }

  /** Storing one more chunk, whoever writes it, at a time when the upload has not expired. */
  lemma StoreOne(x: Session, f: seq<Byte>, now: Time, ttl: Time) returns (actions: seq<Action>, i: nat)
    requires SessionOk(x) && x.entry.Some? && Live(x) && |f| == x.entry.value.totalSize
    requires !IsExpired(x.entry.value, now, ttl)
    requires |x.entry.value.received| < x.entry.value.totalChunks
    ensures i !in x.entry.value.received && i < x.entry.value.totalChunks
    ensures AllOnPlan(actions, f, x.entry.value.chunkSize, now)
    ensures DoAll(x, actions).entry == Some(WithChunk(x.entry.value, i, now)) && Live(DoAll(x, actions))
  {
    i := NextChunk(x);
    if i in x.entry.value.inFlight {
      actions := StoreBegun(x, i, f, now);
    } else {
      actions := StoreFresh(x, i, f, now, ttl);
    }
  }

  lemma {:induction false} ActionsKeep(x: Session, actions: seq<Action>)
    requires SessionOk(x)
    ensures SessionOk(DoAll(x, actions))
  {
    if actions != [] {
      var init, last := actions[..|actions| - 1], actions[|actions| - 1];
      ActionsKeep(x, init);
      ActionKeeps(DoAll(x, init), last);
    }
  }

  /** As long as it has not expired, an upload that is not finalizing and has no stuck
      chunk can be completed on the spot. */
  lemma {:induction false} Complete(x: Session, f: seq<Byte>, now: Time, ttl: Time) returns (actions: seq<Action>)
    requires SessionOk(x) && x.entry.Some? && Live(x) && !x.entry.value.finalizing && |f| == x.entry.value.totalSize
    requires !IsExpired(x.entry.value, now, ttl)
    ensures AllOnPlan(actions, f, x.entry.value.chunkSize, now)
    ensures FinalizeOutcomeOf(DoAll(x, actions).entry, x.entry.value.ip).Finalizing?
    decreases x.entry.value.totalChunks - |x.entry.value.received|
  {
    var u := x.entry.value;
    CountDecides(u);
    CountedAll(u.received, u.totalChunks);
    if |u.received| == u.totalChunks { return []; }
    var first, i := StoreOne(x, f, now, ttl);
    ActionsKeep(x, first);
    var y := DoAll(x, first);
    WithChunkCounts(u, i, now);
    var rest := Complete(y, f, now, ttl);
    FoldAppend(Doing(), x, first, rest);
    actions := first + rest;
  }

  lemma {:induction false} PlanSendsPieces(x: Session, actions: seq<Action>, f: seq<Byte>, size: nat, now: Time)
    requires OnlyPieces(x, f, size) && AllOnPlan(actions, f, size, now)
    ensures OnlyPieces(DoAll(x, actions), f, size)
  {
    if actions != [] {
      var init, last := actions[..|actions| - 1], actions[|actions| - 1];
      PlanSendsPieces(x, init, f, size, now);
      assert OnPlan(last, f, size, now);
      PiecesStay(DoAll(x, init), last, f, size);
    }
  }

  /** A finalize request that still waits for the queue can fail, and then the upload is
      complete and free again. */
  lemma ReleaseFinalizer(x: Session, rid: RequestId)
    requires SessionOk(x) && x.entry.Some? && rid in x.finalizers && !x.finalizers[rid]
    ensures DoAll(x, [EnqueueFail(rid)]).entry == Some(x.entry.value.(finalizing := false))
    ensures IsComplete(x.entry.value)
  {
    FoldOne(Doing(), x, EnqueueFail(rid));
    assert QueueOk(x);
  }

  lemma ReachFinalize(x: Session, ip: Ip, f: seq<Byte>, now: Time, ttl: Time) returns (actions: seq<Action>)
    requires SessionOk(x) && Completable(x, ip) && |f| == x.entry.value.totalSize
    requires !IsExpired(x.entry.value, now, ttl)
    ensures AllOnPlan(actions, f, x.entry.value.chunkSize, now)
    ensures FinalizeOutcomeOf(DoAll(x, actions).entry, ip).Finalizing?
  {
    if x.entry.value.finalizing {
      assert HasFinalizer(x);
      var rid :| rid in x.finalizers && !x.finalizers[rid];
      ReleaseFinalizer(x, rid);
      actions := [EnqueueFail(rid)];
    } else {
      actions := Complete(x, f, now, ttl);
    }
  }

  lemma PassedIsWhole(x: Session, ip: Ip, f: seq<Byte>, size: nat)
    requires SessionOk(x) && FinalizeOutcomeOf(x.entry, ip).Finalizing? && OnlyPieces(x, f, size)
    ensures x.file == Some(f)
  {
    assert QueueOk(x);
    CompleteIsWhole(x, f);
  }

  /** The client can always finish what it started: as long as the upload is completable
      and has not expired, requests that send the missing slices lead to a finalize that
      passes, with the client's file on the server. */
  lemma ClientCanFinish(x: Session, ip: Ip, f: seq<Byte>, now: Time, ttl: Time) returns (actions: seq<Action>)
    requires SessionOk(x) && Completable(x, ip) && OnlyPieces(x, f, x.entry.value.chunkSize)
    requires !IsExpired(x.entry.value, now, ttl)
    ensures AllOnPlan(actions, f, x.entry.value.chunkSize, now)
    ensures FinalizeOutcomeOf(DoAll(x, actions).entry, ip).Finalizing?
    ensures DoAll(x, actions).file == Some(f)
  {
    var size := x.entry.value.chunkSize;
    actions := ReachFinalize(x, ip, f, now, ttl);
    ActionsKeep(x, actions);
    PlanSendsPieces(x, actions, f, size, now);
    PassedIsWhole(DoAll(x, actions), ip, f, size);
  }

  // --- Runs --------------------------------------------------------------------------

  function StepsOf(id: UploadId, actions: seq<Action>): (steps: seq<Step>)
    ensures |steps| == |actions|
  {
    seq(|actions|, k requires 0 <= k < |actions| => Act(id, actions[k]))
  }

  lemma {:induction false} RunActions(s: State, id: UploadId, actions: seq<Action>)
    requires id in s
    ensures id in Run(s, StepsOf(id, actions)) && Run(s, StepsOf(id, actions))[id] == DoAll(s[id], actions)
  {
    if actions != [] {
      var init, steps := actions[..|actions| - 1], StepsOf(id, actions);
      RunActions(s, id, init);
      assert steps[..|steps| - 1] == StepsOf(id, init);
    }
  }

  /** After `steps`, a finalize request from `ip` passes. */
  ghost predicate LeadsToFinalize(s: State, steps: seq<Step>, id: UploadId, ip: Ip) {
    id in Run(s, steps) && FinalizeOutcomeOf(Run(s, steps)[id].entry, ip).Finalizing?
  }

  lemma NotCompletableBlocks(x: Session, ip: Ip)
    requires !Completable(x, ip)
    ensures Blocked(x, ip)
  {
    if x.entry.Some? && !Live(x) {
      var i :| i in x.entry.value.inFlight && !HasWriter(x, i);
      assert Stuck(x, i);
    }
    if x.entry.None? { assert Claimed(x); }
  }

  /** Some run leads to a finalize that passes exactly when the upload is pending for that
      address, every chunk in flight still has a live request, and, if it is marked as
      finalizing, a finalize request still waits for the queue. */
  lemma CompletableExactly(s: State, id: UploadId, ip: Ip)
    requires Inv(s) && id in s
    ensures (exists steps :: LeadsToFinalize(s, steps, id, ip)) <==> Completable(s[id], ip)
  {
    if Completable(s[id], ip) {
      var u := s[id].entry.value;
      var actions := ReachFinalize(s[id], ip, Zeros(u.totalSize), u.lastActivity, 0);
      RunActions(s, id, actions);
      assert LeadsToFinalize(s, StepsOf(id, actions), id, ip);
    } else {
      NotCompletableBlocks(s[id], ip);
      forall steps ensures !LeadsToFinalize(s, steps, id, ip) { BlockedForever(s, steps, id, ip); }
    }
  }

  // --- How uploads get blocked ---------------------------------------------------------

  /** Dropping a request that is still writing makes its chunk stuck. */
  lemma AbandonSticks(x: Session, rid: RequestId)
    requires SessionOk(x) && x.entry.Some? && rid in x.writers
    ensures Stuck(Do(x, ChunkAbandon(rid)), x.writers[rid].index)
  {
    assert WriterOk(x.entry.value, x.writers[rid]);
  }

  /** Dropping a finalize request leaves the finalizing mark with nobody to clear it. */
  lemma FinalizeAbandonClaims(x: Session, rid: RequestId)
    requires SessionOk(x) && x.entry.Some? && rid in x.finalizers
    ensures Claimed(Do(x, FinalizeAbandon(rid))) && Do(x, FinalizeAbandon(rid)).entry.Some?
    ensures Do(x, FinalizeAbandon(rid)).enqueued == x.enqueued
  {
    assert QueueOk(x);
  }

  lemma DropWhileWriting(x: Session, i: nat, now: Time) returns (actions: seq<Action>)
    requires SessionOk(x) && x.entry.Some? && !IsExpired(x.entry.value, now, 0)
    requires i < x.entry.value.totalChunks && i !in x.entry.value.received && i !in x.entry.value.inFlight
    ensures DoAll(x, actions).entry.Some? && Stuck(DoAll(x, actions), i)
  {
    var rid := FreshRequest(x);
    var begin, y := Open(x, rid, i, Zeros(x.entry.value.totalSize), now, 0);
    AbandonSticks(y, rid);
    FoldAppend(Doing(), x, [begin], [ChunkAbandon(rid)]);
    FoldOne(Doing(), y, ChunkAbandon(rid));
    actions := [begin] + [ChunkAbandon(rid)];
  }

  lemma DropFinalize(x: Session, ip: Ip)
    requires SessionOk(x) && FinalizeOutcomeOf(x.entry, ip).Finalizing?
    ensures var y := DoAll(x, [FinalizeBegin(0, ip), FinalizeAbandon(0)]);
      y.entry.Some? && Claimed(y) && y.enqueued == 0
  {
    FoldTwo(Doing(), x, FinalizeBegin(0, ip), FinalizeAbandon(0));
    assert QueueOk(x);
    FinalizeBeginKeeps(x, 0, ip);
    FinalizeAbandonClaims(Do(x, FinalizeBegin(0, ip)), 0);
  }

  lemma {:induction false} RunAppend(s: State, a: seq<Step>, b: seq<Step>)
    ensures Run(s, a + b) == Run(Run(s, a), b)
    decreases |b|
  {
    if b == [] {
      assert a + b == a;
    } else {
      var init := b[..|b| - 1];
      RunAppend(s, a, init);
      assert (a + b)[..|a + b| - 1] == a + init;
    }
  }

  lemma RunFromInit(init: Step, actions: seq<Action>)
    requires init.Init? && init.id in Next(map[], init)
    ensures var s := Run(map[], [init] + StepsOf(init.id, actions));
      init.id in s && s[init.id] == DoAll(Created(init), actions)
  {
    RunAppend(map[], [init], StepsOf(init.id, actions));
    assert [init][..0] == [];
    assert Run(map[], [init]) == Next(map[], init);
    RunActions(Next(map[], init), init.id, actions);
  }

  /** After init and these steps, the upload is pending and its first chunk is stuck. */
  ghost predicate LeavesStuck(init: Step, steps: seq<Step>)
    requires init.Init?
  {
    var s := Run(map[], [init] + steps);
    init.id in s && s[init.id].entry.Some? && Stuck(s[init.id], 0)
  }

  /** After init and these steps, the upload is pending and claimed, with no job enqueued. */
  ghost predicate LeavesClaimed(init: Step, steps: seq<Step>)
    requires init.Init?
  {
    var s := Run(map[], [init] + steps);
    init.id in s && s[init.id].entry.Some? && Claimed(s[init.id]) && s[init.id].enqueued == 0
  }

  /** Every upload that init accepts can be blocked by a chunk request that is dropped
      while writing. */
  lemma StuckIsReachable(init: Step) returns (steps: seq<Step>)
    requires init.Init? && init.id in Next(map[], init)
    ensures LeavesStuck(init, steps)
  {
    CreatedOk(init);
    var drop := DropWhileWriting(Created(init), 0, init.now);
    RunFromInit(init, drop);
    steps := StepsOf(init.id, drop);
  }

  /** And by a finalize request that is dropped before its job is enqueued. */
  lemma ClaimedIsReachable(init: Step) returns (steps: seq<Step>)
    requires init.Init? && init.id in Next(map[], init)
    ensures LeavesClaimed(init, steps)
  {
    var x := Created(init);
    CreatedOk(init);
    var fill := Complete(x, Zeros(init.totalSize), init.now, 0);
    ActionsKeep(x, fill);
    DropFinalize(DoAll(x, fill), init.ip);
    var last := [FinalizeBegin(0, init.ip), FinalizeAbandon(0)];
    FoldAppend(Doing(), x, fill, last);
    RunFromInit(init, fill + last);
    steps := StepsOf(init.id, fill + last);
  }
}
