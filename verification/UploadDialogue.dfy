/** The browser's pool and the server's upload in one machine: what the client may
    conclude from the answers to its chunk requests. The server also answers with success
    when it finds the chunk in flight, so the client's set of received chunks can be ahead
    of the server's. */
module UploadDialogue {
  import opened Options
  import opened Bits
  import opened ChunkArithmetic
  import opened UploadTable
  import opened UploadProtocol
  import opened UploadInvariant
  import opened UploadTheorems
  import opened UploadCompletion
  import opened UploadClient

  /** `asked` holds the request that a worker waits for, `ok` the workers whose request was
      answered with success. `promised` holds the chunks that the server answered for while
      they were only in flight, `lost` those of them whose write failed afterwards. */
  datatype Link = Link(
    pool: Pool,
    server: Session,
    file: seq<Byte>,
    asked: map<WorkerId, RequestId>,
    ok: set<WorkerId>,
    promised: set<nat>,
    lost: set<nat>)

  /** A worker may ask again at any time: its last answer was an error, or got lost. The
      server's steps are those of any request, also of other pages and clients. */
  datatype Event =
    | Takes(worker: WorkerId)
    | Asks(worker: WorkerId, rid: RequestId, ip: Ip, now: Time, ttl: Time)
    | Returns(worker: WorkerId)
    | GivesUp(worker: WorkerId)
    | Serves(action: Action)
    | Expires(now: Time, ttl: Time)

  /** `file.slice(start, end)`: empty when the slice starts behind the end. */
  function Slice(f: seq<Byte>, size: nat, i: nat): seq<Byte> {
    if ChunkStart(size, i) <= |f| then Piece(f, size, i) else []
  }

  /** The page reads the server's received chunks and starts its workers. */
  function Connect(x: Session, f: seq<Byte>): Link
    requires x.entry.Some?
  {
    var u := x.entry.value;
    Link(Begin(|f|, u.chunkSize, u.totalChunks, u.received), x, f, map[], {}, {}, {})
  }

  function Asking(l: Link, e: Event): Action
    requires e.Asks? && e.worker in l.pool.inHand
  {
    var i := l.pool.inHand[e.worker];
    ChunkBegin(e.rid, e.ip, i, Slice(l.file, l.pool.chunkSize, i), e.now, e.ttl)
  }

  function Ask(l: Link, e: Event): Link
    requires e.Asks?
  {
    if e.worker !in l.pool.inHand || e.rid in l.server.writers then l
    else
      var a := Asking(l, e);
      var l2 := l.(server := DoChunkBegin(l.server, a), asked := l.asked - {e.worker});
      match ChunkOutcomeOf(l.server.entry, a.ip, a.index, |a.body|, a.now, a.ttl)
      case AlreadyHere(_, _) =>
        l2.(ok := l.ok + {e.worker},
            promised := if a.index in l.server.entry.value.inFlight then l.promised + {a.index} else l.promised)
      case Writing(_) => l2.(asked := l.asked[e.worker := e.rid])
      case _ => l2
  }

  /** The workers whose chunk this step stores: their request is answered with success. */
  function Answered(l: Link, a: Action): set<WorkerId> {
    if a.ChunkCommit? && a.rid in l.server.writers && a.rid !in DoChunkCommit(l.server, a.rid, a.now).writers
       && l.server.entry.Some? && l.server.entry.value.ip == l.server.writers[a.rid].ip
    then set w | w in l.asked && l.asked[w] == a.rid else {}
  }

  function Losing(l: Link, a: Action): set<nat> {
    if a.ChunkFail? && a.rid in l.server.writers && !l.server.writers[a.rid].abandoned
       && l.server.writers[a.rid].index in l.promised
    then {l.server.writers[a.rid].index} else {}
  }

  function Serve(l: Link, a: Action): Link {
    var y := Do(l.server, a);
    l.(server := y,
       asked := map w | w in l.asked && l.asked[w] in y.writers :: l.asked[w],
       ok := l.ok + Answered(l, a),
       lost := l.lost + Losing(l, a))
  }

  function Happen(l: Link, e: Event): Link {
    match e
    case Takes(w) => l.(pool := Make(l.pool, Take(w)))
    case Asks(_, _, _, _, _) => Ask(l, e)
    case Returns(w) =>
      if w !in l.ok then l
      else l.(pool := Make(l.pool, Sent(w)), ok := l.ok - {w}, asked := l.asked - {w})
    case GivesUp(w) => l.(pool := Make(l.pool, Rejected(w)), ok := l.ok - {w}, asked := l.asked - {w})
    case Serves(a) => Serve(l, a)
    case Expires(now, ttl) => l.(server := Swept(l.server, now, ttl))
  }

  function Talk(l: Link, events: seq<Event>): Link {
    if events == [] then l else Happen(Talk(l, events[..|events| - 1]), events[|events| - 1])
  }

  // --- The invariant -------------------------------------------------------------------

  /** The entry belongs to the file the client is sending. */
  ghost predicate SameUpload(l: Link) {
    l.server.entry.Some? ==>
      var u := l.server.entry.value;
      u.totalChunks == l.pool.totalChunks && u.chunkSize == l.pool.chunkSize && u.totalSize == |l.file|
  }

  /** Workers that wait or may return have a chunk in hand, and wait for that chunk. */
  ghost predicate WaitersOk(l: Link) {
    && l.ok <= l.pool.inHand.Keys
    && (forall w :: w in l.asked ==> Waits(l.pool, l.server, w, l.asked[w]))
  }

  ghost predicate Waits(p: Pool, x: Session, w: WorkerId, r: RequestId) {
    w in p.inHand && r in x.writers && x.writers[r].index == p.inHand[w]
  }

  /** What the client counts as received, or is about to, is stored or was promised. */
  ghost predicate Backed(received: set<nat>, promised: set<nat>, p: Pool, ok: set<WorkerId>) {
    && p.received <= received + promised
    && (forall w :: w in ok && w in p.inHand ==> p.inHand[w] in received + promised)
  }

  /** A promised chunk is stored or still in flight, unless its write failed. */
  ghost predicate Kept(u: Upload, promised: set<nat>, lost: set<nat>) {
    && promised <= u.received + u.inFlight + lost && lost <= promised
    && forall i :: i in promised ==> i < u.totalChunks
  }

  ghost predicate PromisesOk(l: Link) {
    l.server.entry.Some? ==>
      && Backed(l.server.entry.value.received, l.promised, l.pool, l.ok)
      && Kept(l.server.entry.value, l.promised, l.lost)
  }

  ghost predicate LinkOk(l: Link) {
    && SessionOk(l.server) && PoolOk(l.pool) && Covered(l.pool)
    && SameUpload(l) && WaitersOk(l) && PromisesOk(l)
  }

  lemma ConnectOk(x: Session, f: seq<Byte>)
    requires SessionOk(x) && x.entry.Some? && |f| == x.entry.value.totalSize
    ensures LinkOk(Connect(x, f))
  {
    BeginOk(|f|, x.entry.value.chunkSize, x.entry.value.totalChunks, x.entry.value.received);
  }

  // --- Every event keeps it ------------------------------------------------------------

  lemma SizesStay(x: Session, a: Action)
    ensures var y := Do(x, a); y.entry.Some? ==>
      && x.entry.Some?
      && y.entry.value.totalChunks == x.entry.value.totalChunks && y.entry.value.chunkSize == x.entry.value.chunkSize
      && y.entry.value.totalSize == x.entry.value.totalSize
      && x.entry.value.received <= y.entry.value.received
  {
  }

  /** A chunk leaves the in-flight set only by being stored or by failing. */
  lemma InFlightMoves(x: Session, a: Action, i: nat)
    requires Do(x, a).entry.Some? && x.entry.Some? && i in x.entry.value.inFlight
    ensures var u := Do(x, a).entry.value;
      || i in u.received || i in u.inFlight
      || (a.ChunkFail? && a.rid in x.writers && !x.writers[a.rid].abandoned && x.writers[a.rid].index == i)
  {
  }

  lemma WritersKeepIndex(x: Session, a: Action, r: RequestId)
    requires r in x.writers && r in Do(x, a).writers
    ensures Do(x, a).writers[r].index == x.writers[r].index
  {
  }

  lemma ServeKept(l: Link, a: Action)
    requires PromisesOk(l) && l.server.entry.Some? && Do(l.server, a).entry.Some?
    ensures Kept(Do(l.server, a).entry.value, l.promised, l.lost + Losing(l, a))
  {
    var u, v := l.server.entry.value, Do(l.server, a).entry.value;
    SizesStay(l.server, a);
    forall i | i in l.promised ensures i in v.received + v.inFlight + (l.lost + Losing(l, a)) {
      if i in u.inFlight { InFlightMoves(l.server, a, i); }
    }
  }

  /** Success is answered when the worker's own chunk is stored. */
  lemma AnsweredStored(l: Link, a: Action, w: WorkerId)
    requires WaitersOk(l) && w in Answered(l, a)
    ensures Do(l.server, a).entry.Some? && w in l.pool.inHand
    ensures l.pool.inHand[w] in Do(l.server, a).entry.value.received
  {
    assert Waits(l.pool, l.server, w, l.asked[w]);
  }

  lemma ServeBacked(l: Link, a: Action)
    requires WaitersOk(l) && PromisesOk(l) && l.server.entry.Some? && Do(l.server, a).entry.Some?
    ensures Backed(Do(l.server, a).entry.value.received, l.promised, l.pool, l.ok + Answered(l, a))
  {
    SizesStay(l.server, a);
    forall w | w in Answered(l, a)
      ensures w in l.pool.inHand && l.pool.inHand[w] in Do(l.server, a).entry.value.received
    {
      AnsweredStored(l, a, w);
    }
  }

  lemma ServeWaiters(l: Link, a: Action)
    requires WaitersOk(l)
    ensures WaitersOk(Serve(l, a))
  {
    var m := Serve(l, a);
    forall w | w in Answered(l, a) ensures w in l.pool.inHand { assert Waits(l.pool, l.server, w, l.asked[w]); }
    forall w | w in m.asked ensures Waits(m.pool, m.server, w, m.asked[w]) {
      assert Waits(l.pool, l.server, w, l.asked[w]);
      WritersKeepIndex(l.server, a, l.asked[w]);
    }
  }

  lemma ServeKeeps(l: Link, a: Action)
    requires LinkOk(l)
    ensures LinkOk(Serve(l, a))
  {
    ActionKeeps(l.server, a);
    SizesStay(l.server, a);
    ServeWaiters(l, a);
    if Do(l.server, a).entry.Some? {
      ServeKept(l, a);
      ServeBacked(l, a);
    }
  }

  lemma AskWaiters(l: Link, e: Event)
    requires e.Asks? && WaitersOk(l) && e.worker in l.pool.inHand
    ensures WaitersOk(Ask(l, e))
  {
    var m := Ask(l, e);
    forall w | w in m.asked ensures Waits(m.pool, m.server, w, m.asked[w]) {
      if w != e.worker { assert Waits(l.pool, l.server, w, l.asked[w]); }
    }
  }

  lemma AskShape(l: Link, e: Event)
    requires e.Asks? && e.worker in l.pool.inHand
    ensures var m := Ask(l, e);
      m.server == DoChunkBegin(l.server, Asking(l, e)) && m.pool == l.pool && m.file == l.file && m.lost == l.lost
  {
  }

  function Answer(l: Link, e: Event): ChunkOutcome
    requires e.Asks? && e.worker in l.pool.inHand
  {
    var a := Asking(l, e);
    ChunkOutcomeOf(l.server.entry, a.ip, a.index, |a.body|, a.now, a.ttl)
  }

  lemma KeptMore(u: Upload, promised: set<nat>, lost: set<nat>, i: nat, now: Time)
    requires Kept(u, promised, lost) && UploadOk(u)
    ensures Kept(u.(lastActivity := now), promised, lost)
    ensures i in u.inFlight ==> Kept(u.(lastActivity := now), promised + {i}, lost)
  {
  }

  lemma BackedMore(received: set<nat>, promised: set<nat>, more: set<nat>, p: Pool, ok: set<WorkerId>, w: WorkerId)
    requires Backed(received, promised, p, ok) && promised <= more && w in p.inHand && p.inHand[w] in received + more
    ensures Backed(received, more, p, ok + {w})
  {
  }

  /** The chunk is already there: stored, or in flight and then promised. */
  lemma AskedAgain(l: Link, e: Event)
    requires e.Asks? && e.worker in l.pool.inHand && e.rid !in l.server.writers && Answer(l, e).AlreadyHere?
    requires PromisesOk(l) && EntryOk(l.server)
    ensures PromisesOk(Ask(l, e))
  {
    var u, i, m := l.server.entry.value, l.pool.inHand[e.worker], Ask(l, e);
    assert m.server.entry == Some(u.(lastActivity := e.now)) && m.ok == l.ok + {e.worker};
    assert m.promised == if i in u.inFlight then l.promised + {i} else l.promised;
    KeptMore(u, l.promised, l.lost, i, e.now);
    BackedMore(u.received, l.promised, m.promised, l.pool, l.ok, e.worker);
  }

  lemma AskedAnew(l: Link, e: Event)
    requires e.Asks? && e.worker in l.pool.inHand && e.rid !in l.server.writers && !Answer(l, e).AlreadyHere?
    requires PromisesOk(l)
    ensures PromisesOk(Ask(l, e))
  {
    var m := Ask(l, e);
    assert m.promised == l.promised && m.ok == l.ok;
  }

  lemma AskPromises(l: Link, e: Event)
    requires e.Asks? && PromisesOk(l) && EntryOk(l.server) && e.worker in l.pool.inHand
    ensures PromisesOk(Ask(l, e))
  {
    if e.rid !in l.server.writers {
      if Answer(l, e).AlreadyHere? { AskedAgain(l, e); } else { AskedAnew(l, e); }
    }
  }

  lemma AskSame(l: Link, e: Event)
    requires e.Asks? && SameUpload(l) && e.worker in l.pool.inHand
    ensures SameUpload(Ask(l, e))
  {
    AskShape(l, e);
    SizesStay(l.server, Asking(l, e));
  }

  lemma AskKeeps(l: Link, e: Event)
    requires e.Asks? && LinkOk(l)
    ensures LinkOk(Ask(l, e))
  {
    if e.worker in l.pool.inHand {
      ChunkBeginKeeps(l.server, Asking(l, e));
      AskShape(l, e);
      AskSame(l, e);
      AskWaiters(l, e);
      AskPromises(l, e);
    }
  }

  lemma TakeWaiters(l: Link, w: WorkerId)
    requires WaitersOk(l) && PromisesOk(l)
    ensures WaitersOk(Happen(l, Takes(w))) && PromisesOk(Happen(l, Takes(w)))
  {
    var m := Happen(l, Takes(w));
    forall v | v in l.pool.inHand ensures v in m.pool.inHand && m.pool.inHand[v] == l.pool.inHand[v] {}
    forall v | v in m.asked ensures Waits(m.pool, m.server, v, m.asked[v]) {
      assert Waits(l.pool, l.server, v, l.asked[v]);
    }
  }

  lemma TakeKeeps(l: Link, w: WorkerId)
    requires LinkOk(l)
    ensures LinkOk(Happen(l, Takes(w)))
  {
    TakeOk(l.pool, w);
    TakeCovered(l.pool, w);
    TakeWaiters(l, w);
  }

  /** A worker that leaves or goes on to its next chunk no longer waits. */
  lemma ReleasedWaiters(l: Link, w: WorkerId, p: Pool)
    requires WaitersOk(l) && p.inHand == l.pool.inHand - {w}
    ensures WaitersOk(l.(pool := p, ok := l.ok - {w}, asked := l.asked - {w}))
  {
    forall v | v in l.asked - {w} ensures Waits(p, l.server, v, l.asked[v]) {
      assert Waits(l.pool, l.server, v, l.asked[v]);
    }
  }

  lemma ReturnKeeps(l: Link, w: WorkerId)
    requires LinkOk(l)
    ensures LinkOk(Happen(l, Returns(w)))
  {
    SentOk(l.pool, w);
    SentCovered(l.pool, w);
    if w in l.ok { ReleasedWaiters(l, w, Make(l.pool, Sent(w))); }
  }

  lemma GiveUpKeeps(l: Link, w: WorkerId)
    requires LinkOk(l)
    ensures LinkOk(Happen(l, GivesUp(w)))
  {
    ReleasedWaiters(l, w, Make(l.pool, Rejected(w)));
  }

  lemma HappenKeeps(l: Link, e: Event)
    requires LinkOk(l)
    ensures LinkOk(Happen(l, e))
  {
    match e {
      case Takes(w) => TakeKeeps(l, w);
      case Asks(_, _, _, _, _) => AskKeeps(l, e);
      case Returns(w) => ReturnKeeps(l, w);
      case GivesUp(w) => GiveUpKeeps(l, w);
      case Serves(a) => ServeKeeps(l, a);
      case Expires(_, _) =>
    }
  }

  lemma {:induction false} TalkKeeps(l: Link, events: seq<Event>)
    requires LinkOk(l)
    ensures LinkOk(Talk(l, events))
  {
    if events != [] {
      TalkKeeps(l, events[..|events| - 1]);
      HappenKeeps(Talk(l, events[..|events| - 1]), events[|events| - 1]);
    }
  }

  // --- What the client may conclude ------------------------------------------------------

  /** All workers have returned and none with an error: the browser now asks to finalize. */
  predicate AllReturned(p: Pool) {
    p.nextWork == |p.missing| && p.inHand == map[] && !p.failed
  }

  lemma ReturnedIsFull(p: Pool)
    requires PoolOk(p) && Covered(p) && AllReturned(p)
    ensures p.received == Indices(p.totalChunks)
  {
    forall i: nat | i < p.totalChunks ensures i in p.received { assert IsCovered(p, i); }
  }

  lemma PromisesDecide(all: set<nat>, received: set<nat>, inFlight: set<nat>, promised: set<nat>, lost: set<nat>)
    requires received <= all && promised <= all <= received + promised
    requires lost <= promised <= received + inFlight + lost
    requires received == all ==> inFlight == {}
    ensures received == all <==> promised <= received
    ensures received == all <==> inFlight == {} && lost <= received
  {
    if promised <= received { assert all <= received; }
    if inFlight == {} && lost <= received { assert promised <= received; }
  }

  lemma CompleteWhenCounted(u: Upload, ip: Ip)
    requires UploadOk(u) && u.ip == ip && !u.finalizing
    ensures FinalizeOutcomeOf(Some(u), ip).Finalizing? <==> u.received == Indices(u.totalChunks)
    ensures u.received <= Indices(u.totalChunks)
    ensures u.received == Indices(u.totalChunks) ==> u.inFlight == {}
  {
    CountDecides(u);
  }

  /** Finalize passes exactly when every promised chunk has been stored; that is, when
      nothing is in flight and every lost chunk was stored again. */
  lemma PassesExactly(l: Link, ip: Ip)
    requires LinkOk(l) && AllReturned(l.pool)
    requires l.server.entry.Some? && l.server.entry.value.ip == ip && !l.server.entry.value.finalizing
    ensures var u := l.server.entry.value;
      && (FinalizeOutcomeOf(l.server.entry, ip).Finalizing? <==> l.promised <= u.received)
      && (FinalizeOutcomeOf(l.server.entry, ip).Finalizing? <==> u.inFlight == {} && l.lost <= u.received)
  {
    var u := l.server.entry.value;
    ReturnedIsFull(l.pool);
    CompleteWhenCounted(u, ip);
    PromisesDecide(Indices(u.totalChunks), u.received, u.inFlight, l.promised, l.lost);
  }

  /** Whatever the workers, other requests and the sweeper do in between: what the client
      counts as received is stored or was promised, and what was promised is stored, in
      flight or lost. When all workers have returned without an error and the upload is
      still pending, finalize passes exactly when every promise was kept. */
  lemma DialogueDecides(x: Session, f: seq<Byte>, events: seq<Event>, ip: Ip)
    requires SessionOk(x) && x.entry.Some? && |f| == x.entry.value.totalSize
    requires Talk(Connect(x, f), events).server.entry.Some?
    ensures var l := Talk(Connect(x, f), events); var u := l.server.entry.value;
      && l.pool.received <= u.received + l.promised && l.promised <= u.received + u.inFlight + l.lost
      && (AllReturned(l.pool) && u.ip == ip && !u.finalizing ==>
            && (FinalizeOutcomeOf(l.server.entry, ip).Finalizing? <==> l.promised <= u.received)
            && (FinalizeOutcomeOf(l.server.entry, ip).Finalizing? <==> u.inFlight == {} && l.lost <= u.received))
  {
    ConnectOk(x, f);
    TalkKeeps(Connect(x, f), events);
    var l := Talk(Connect(x, f), events);
    var u := l.server.entry.value;
    if AllReturned(l.pool) && u.ip == ip && !u.finalizing { PassesExactly(l, ip); }
  }

  // --- The client's file ---------------------------------------------------------------

  /** Requests of other pages send the same file. */
  predicate ServesPieces(e: Event, f: seq<Byte>, size: nat) {
    e.Serves? ==> ActsOnPiece(e.action, f, size)
  }

  lemma AskPieces(l: Link, e: Event)
    requires e.Asks? && LinkOk(l) && OnlyPieces(l.server, l.file, l.pool.chunkSize)
    ensures OnlyPieces(Ask(l, e).server, l.file, l.pool.chunkSize)
  {
    if e.worker in l.pool.inHand {
      AskShape(l, e);
      if l.server.entry.Some? {
        PieceLength(l.server.entry.value, l.file, l.pool.inHand[e.worker]);
        PiecesStay(l.server, Asking(l, e), l.file, l.pool.chunkSize);
      }
    }
  }

  lemma HappenPieces(l: Link, e: Event)
    requires LinkOk(l) && OnlyPieces(l.server, l.file, l.pool.chunkSize) && ServesPieces(e, l.file, l.pool.chunkSize)
    ensures var m := Happen(l, e);
      m.file == l.file && m.pool.chunkSize == l.pool.chunkSize && OnlyPieces(m.server, l.file, l.pool.chunkSize)
  {
    match e {
      case Asks(_, _, _, _, _) => AskPieces(l, e);
      case Serves(a) => PiecesStay(l.server, a, l.file, l.pool.chunkSize);
      case _ =>
    }
  }

  lemma {:induction false} TalkPieces(l: Link, events: seq<Event>)
    requires LinkOk(l) && OnlyPieces(l.server, l.file, l.pool.chunkSize)
    requires forall k :: 0 <= k < |events| ==> ServesPieces(events[k], l.file, l.pool.chunkSize)
    ensures var m := Talk(l, events);
      m.file == l.file && m.pool.chunkSize == l.pool.chunkSize && OnlyPieces(m.server, l.file, l.pool.chunkSize)
  {
    if events != [] {
      var init, last := events[..|events| - 1], events[|events| - 1];
      TalkKeeps(l, init);
      TalkPieces(l, init);
      HappenPieces(Talk(l, init), last);
    }
  }

  /** If a finalize passes after the dialogue, the server holds the client's file. */
  lemma DialogueDelivers(x: Session, f: seq<Byte>, events: seq<Event>, ip: Ip)
    requires SessionOk(x) && x.entry.Some? && OnlyPieces(x, f, x.entry.value.chunkSize)
    requires forall k :: 0 <= k < |events| ==> ServesPieces(events[k], f, x.entry.value.chunkSize)
    requires FinalizeOutcomeOf(Talk(Connect(x, f), events).server.entry, ip).Finalizing?
    ensures Talk(Connect(x, f), events).server.file == Some(f)
  {
    var l := Connect(x, f);
    ConnectOk(x, f);
    TalkKeeps(l, events);
    TalkPieces(l, events);
    PassedIsWhole(Talk(l, events).server, ip, f, l.pool.chunkSize);
  }

  // --- Promises that are not kept ------------------------------------------------------

  lemma TalkSnoc(l: Link, events: seq<Event>, e: Event)
    ensures Talk(l, events + [e]) == Happen(Talk(l, events), e)
  {
    assert (events + [e])[..|events|] == events;
  }

  lemma TalkThree(l: Link, a: Event, b: Event, c: Event)
    ensures Talk(l, [a, b, c]) == Happen(Happen(Happen(l, a), b), c)
  {
    TalkSnoc(l, [], a);
    TalkSnoc(l, [a], b);
    TalkSnoc(l, [a, b], c);
    assert [] + [a] == [a] && [a] + [b] == [a, b] && [a, b] + [c] == [a, b, c];
  }

  /** The pool of a page that starts on a one-chunk upload whose chunk is in flight. */
  lemma OneChunkPool(x: Session, f: seq<Byte>)
    requires SessionOk(x) && x.entry.Some? && |f| == x.entry.value.totalSize
    requires x.entry.value.totalChunks == 1 && 0 in x.entry.value.inFlight
    ensures var p := Connect(x, f).pool; p.missing == [0] && p.received == {} && p.uploadedBytes == 0
    ensures ChunkLength(|f|, x.entry.value.chunkSize, 0) == |f| && Slice(f, x.entry.value.chunkSize, 0) == f
  {
    assert x.entry.value.received == {};
    BytesInNone(|f|, x.entry.value.chunkSize, 1);
    ChunkInside(|f|, x.entry.value.chunkSize, 1, 0);
  }

  /** While the only chunk is in flight, the page sends it, is told that it is there, and
      shows the upload as complete; the server still has nothing of it. */
  lemma PromisedOnly(x: Session, f: seq<Byte>) returns (events: seq<Event>)
    requires SessionOk(x) && x.entry.Some? && |f| == x.entry.value.totalSize
    requires x.entry.value.totalChunks == 1 && 0 in x.entry.value.inFlight
    ensures var l := Talk(Connect(x, f), events);
      && AllReturned(l.pool) && l.pool.uploadedBytes == |f| && l.server == x && l.promised == {0} && l.lost == {}
      && x.entry.value.received == {} && FinalizeOutcomeOf(x.entry, x.entry.value.ip) == Incomplete
  {
    var u := x.entry.value;
    var rid := FreshRequest(x);
    var ask := Asks(0, rid, u.ip, u.lastActivity, 0);
    OneChunkPool(x, f);
    var l0 := Connect(x, f);
    var l1 := Happen(l0, Takes(0));
    assert l1.pool.inHand == map[0 := 0];
    var l2 := Happen(l1, ask);
    assert Answer(l1, ask).AlreadyHere?;
    assert u.(lastActivity := u.lastActivity) == u;
    assert l2.server == x && l2.ok == {0} && l2.promised == {0};
    TalkThree(l0, Takes(0), ask, Returns(0));
    events := [Takes(0), ask, Returns(0)];
  }

  lemma OnlyWriteFails(x: Session, r: RequestId)
    requires EntryOk(x) && WritersOk(x) && x.entry.Some? && x.entry.value.totalChunks == 1
    requires r in x.writers && !x.writers[r].abandoned
    ensures x.writers[r].index == 0 && 0 in x.entry.value.inFlight
    ensures Do(x, ChunkFail(r)).entry == Some(x.entry.value.(inFlight := {}))
  {
    assert WriterOk(x.entry.value, x.writers[r]);
    assert x.entry.value.inFlight - {0} == {};
  }

  /** The link after that write has failed. */
  lemma FailureServed(l: Link, r: RequestId)
    requires EntryOk(l.server) && WritersOk(l.server) && l.server.entry.Some? && l.server.entry.value.totalChunks == 1
    requires r in l.server.writers && !l.server.writers[r].abandoned && l.promised == {0} && l.lost == {}
    ensures var m := Happen(l, Serves(ChunkFail(r)));
      m.pool == l.pool && m.lost == {0} && m.server.entry == Some(l.server.entry.value.(inFlight := {}))
  {
    OnlyWriteFails(l.server, r);
    assert Losing(l, ChunkFail(r)) == {0};
  }

  /** If the write in flight fails afterwards, nothing is in flight any more, and the page
      still shows the upload as complete. */
  lemma PromiseLost(x: Session, f: seq<Byte>, r: RequestId) returns (events: seq<Event>)
    requires SessionOk(x) && x.entry.Some? && |f| == x.entry.value.totalSize && x.entry.value.totalChunks == 1
    requires r in x.writers && !x.writers[r].abandoned
    ensures var l := Talk(Connect(x, f), events);
      && AllReturned(l.pool) && l.pool.uploadedBytes == |f| && l.lost == {0}
      && l.server.entry == Some(x.entry.value.(inFlight := {})) && x.entry.value.received == {}
      && FinalizeOutcomeOf(l.server.entry, x.entry.value.ip) == Incomplete
  {
    assert WriterOk(x.entry.value, x.writers[r]);
    var before := PromisedOnly(x, f);
    FailureServed(Talk(Connect(x, f), before), r);
    events := before + [Serves(ChunkFail(r))];
    TalkSnoc(Connect(x, f), before, Serves(ChunkFail(r)));
  }

  lemma {:induction false} SizesRun(s: State, steps: seq<Step>, id: UploadId)
    requires id in s
    ensures id in Run(s, steps)
    ensures var e := Run(s, steps)[id].entry; e.Some? ==>
      && s[id].entry.Some? && e.value.totalSize == s[id].entry.value.totalSize
      && e.value.totalChunks == s[id].entry.value.totalChunks
  {
    if steps != [] {
      var before, st := steps[..|steps| - 1], steps[|steps| - 1];
      SizesRun(s, before, id);
      if st.Act? && st.id == id { SizesStay(Run(s, before)[id], st.action); }
    }
  }

  lemma OneChunkInit(init: Step)
    requires init.Init? && init.totalSize <= init.chunkSize && init.id in Next(map[], init)
    ensures Next(map[], init) == map[init.id := Created(init)]
    ensures Created(init).entry.value.totalSize == init.totalSize && Created(init).entry.value.totalChunks == 1
  {
    DivCeilCovers(init.totalSize, init.chunkSize, 1);
  }

  /** An upload of one chunk whose request was dropped. */
  lemma StuckFromStart(init: Step) returns (steps: seq<Step>)
    requires init.Init? && init.totalSize <= init.chunkSize && init.id in Next(map[], init)
    ensures var s := Run(map[], [init] + steps);
      && Inv(s) && init.id in s && s[init.id].entry.Some? && Stuck(s[init.id], 0)
      && s[init.id].entry.value.totalSize == init.totalSize && s[init.id].entry.value.totalChunks == 1
  {
    steps := StuckIsReachable(init);
    RunKeeps(map[], [init] + steps);
    RunAppend(map[], [init], steps);
    assert [init][..0] == [] && Run(map[], [init]) == Next(map[], init);
    OneChunkInit(init);
    SizesRun(Next(map[], init), steps, init.id);
  }

  /** From the start: a chunk request is dropped, the page sends the chunk again, counts it
      and shows the whole file as sent, and no finalize of that upload ever passes. */
  lemma FullBarForever(init: Step) returns (steps: seq<Step>, events: seq<Event>)
    requires init.Init? && init.totalSize <= init.chunkSize && init.id in Next(map[], init)
    ensures var s := Run(map[], [init] + steps); init.id in s && s[init.id].entry.Some?
    ensures var s := Run(map[], [init] + steps); var l := Talk(Connect(s[init.id], Zeros(init.totalSize)), events);
      && AllReturned(l.pool) && l.pool.uploadedBytes == init.totalSize
      && l.server == s[init.id] && forall ip, more :: !LeadsToFinalize(s, more, init.id, ip)
  {
    steps := StuckFromStart(init);
    var s := Run(map[], [init] + steps);
    events := PromisedOnly(s[init.id], Zeros(init.totalSize));
    forall ip, more ensures !LeadsToFinalize(s, more, init.id, ip) { BlockedForever(s, more, init.id, ip); }
  }
}
