/** Restoring a snapshot on another server from the descriptor, and why it succeeds. */
module Restore {
  import opened Options
  import opened Bits
  import opened Folds
  import opened OrderedKeys
  import opened Sorting
  import opened Crypto
  import opened Replication

  // --- Reading the descriptor --------------------------------------------------------

  datatype Part = Part(index: int, fileId: string, nonce: Option<string>)

  /** The part an entry gives to a bot, if any. */
  function PartFor(bot: int): Upload -> Option<Part> {
    (u: Upload) =>
      if u.botIndex != Some(bot) || NonEmpty(u.fileId).None? then None
      else Some(Part(if u.partIndex.Some? then u.partIndex.value else 0, u.fileId.value, NonEmpty(u.nonce)))
  }

  function PartsOf(uploads: seq<Upload>, bot: int): seq<Part> { Keep(PartFor(bot), uploads) }

  predicate ByIndex(x: Part, y: Part) { x.index <= y.index }

  ghost predicate Groups(byBot: map<int, seq<Part>>, uploads: seq<Upload>) {
    && (forall b :: b in byBot ==> byBot[b] == PartsOf(uploads, b))
    && (forall b :: b in byBot <==> PartsOf(uploads, b) != [])
  }

  lemma PartsOfSnoc(uploads: seq<Upload>, u: Upload, b: int)
    ensures PartsOf(uploads + [u], b) == PartsOf(uploads, b) + One(PartFor(b), u)
  {
    KeepAppend(PartFor(b), uploads, [u]);
    assert [u][1..] == [];
  }

  function Added(byBot: map<int, seq<Part>>, u: Upload): map<int, seq<Part>> {
    if u.botIndex.None? || PartFor(u.botIndex.value)(u).None? then byBot
    else
      var b := u.botIndex.value;
      byBot[b := (if b in byBot then byBot[b] else []) + [PartFor(b)(u).value]]
  }

  lemma GroupsSnoc(byBot: map<int, seq<Part>>, uploads: seq<Upload>, u: Upload)
    requires Groups(byBot, uploads)
    ensures Groups(Added(byBot, u), uploads + [u])
  {
    var after := Added(byBot, u);
    forall b
      ensures b in after <==> PartsOf(uploads + [u], b) != []
      ensures b in after ==> after[b] == PartsOf(uploads + [u], b)
    {
      PartsOfSnoc(uploads, u, b);
    }
  }

  /** An entry names a part of a bot: it has the bot and a file; a missing part index counts
      as 0, and an empty nonce as none. */
  ghost predicate Names(u: Upload, bot: int, part: Part) {
    && u.botIndex == Some(bot) && u.fileId == Some(part.fileId) && part.fileId != ""
    && (u.partIndex.Some? ==> part.index == u.partIndex.value) && (u.partIndex.None? ==> part.index == 0)
    && (u.nonce == Some("") || u.nonce == None ==> part.nonce == None)
    && (u.nonce.Some? && u.nonce.value != "" ==> part.nonce == u.nonce)
  }

  ghost predicate IsNamed(uploads: seq<Upload>, bot: int, part: Part) {
    exists u :: u in uploads && Names(u, bot, part)
  }

  ghost predicate HasPart(byBot: map<int, seq<Part>>, bot: int, part: Part) { bot in byBot && part in byBot[bot] }

  lemma NamesOne(u: Upload, bot: int, part: Part)
    ensures PartFor(bot)(u) == Some(part) <==> Names(u, bot, part)
  {
    if Names(u, bot, part) { assert part == Part(part.index, part.fileId, part.nonce); }
  }

  lemma PartsAreNamed(uploads: seq<Upload>, bot: int, part: Part)
    ensures part in PartsOf(uploads, bot) <==> IsNamed(uploads, bot, part)
  {
    KeepHolds(PartFor(bot), uploads, part);
    if u :| u in uploads && PartFor(bot)(u) == Some(part) { NamesOne(u, bot, part); }
    if u :| u in uploads && Names(u, bot, part) { NamesOne(u, bot, part); }
  }

  /** In the groups a bot has exactly the parts that entries name for it. */
  lemma GroupsName(byBot: map<int, seq<Part>>, uploads: seq<Upload>, b: int, part: Part)
    requires Groups(byBot, uploads)
    ensures HasPart(byBot, b, part) <==> IsNamed(uploads, b, part)
  {
    PartsAreNamed(uploads, b, part);
    if part in PartsOf(uploads, b) { assert PartsOf(uploads, b) != []; }
  }

  /** One turn of the grouping loop. */
  method AddEntry(byBot: map<int, seq<Part>>, u: Upload) returns (r: map<int, seq<Part>>)
    ensures r == Added(byBot, u)
  {
    if u.botIndex.None? { return byBot; }
    var partIndex := if u.partIndex.Some? then u.partIndex.value else 0;
    if u.fileId.None? || u.fileId.value == "" { return byBot; }
    var bot := u.botIndex.value;
    var entry := if bot in byBot then byBot[bot] else [];
    return byBot[bot := entry + [Part(partIndex, u.fileId.value, NonEmpty(u.nonce))]];
  }

  /** The first loop of `bootstrap_db_sync_if_configured`: entries grouped by bot. */
  method GroupByBot(uploads: seq<Upload>) returns (byBot: map<int, seq<Part>>)
    ensures Groups(byBot, uploads)
  {
    byBot := map[];
    for i := 0 to |uploads|
      invariant Groups(byBot, uploads[..i])
    {
      GroupsSnoc(byBot, uploads[..i], uploads[i]);
      assert uploads[..i + 1] == uploads[..i] + [uploads[i]];
      byBot := AddEntry(byBot, uploads[i]);
    }
    assert uploads[..|uploads|] == uploads;
  }

  // --- Downloading -------------------------------------------------------------------

  /** The restoring server: its cipher and key, its number of bots, and what Telegram
      still holds for them. */
  datatype Server = Server(cipher: Cipher, key: Option<EncryptionKey>, bots: nat, store: map<FileRef, seq<Byte>>)

  function Fetch(server: Server, bot: int, fileId: string): Option<seq<Byte>> {
    if bot < 0 || bot >= server.bots || FileRef(bot, fileId) !in server.store then None
    else Some(server.store[FileRef(bot, fileId)])
  }

  function PartBytes(server: Server, snapshotId: string, bot: int, part: Part): Option<seq<Byte>> {
    match Fetch(server, bot, part.fileId)
    case None => None
    case Some(bytes) => DecryptOptional(server.cipher, server.key, part.nonce, DbSyncAad(snapshotId, part.index), bytes)
  }

  function Downloaded(server: Server, snapshotId: string, bot: int, parts: seq<Part>): Option<seq<Byte>> {
    if parts == [] then Some([])
    else
      match Downloaded(server, snapshotId, bot, parts[..|parts| - 1])
      case None => None
      case Some(before) =>
        match PartBytes(server, snapshotId, bot, parts[|parts| - 1])
        case None => None
        case Some(bytes) => Some(before + bytes)
  }

  lemma {:induction false} DownloadFails(server: Server, snapshotId: string, bot: int, parts: seq<Part>, i: nat)
    requires i < |parts| && PartBytes(server, snapshotId, bot, parts[i]).None?
    ensures Downloaded(server, snapshotId, bot, parts).None?
    decreases |parts|
  {
    if i < |parts| - 1 { DownloadFails(server, snapshotId, bot, parts[..|parts| - 1], i); }
  }

  /** `download_bootstrap_parts`. */
  method DownloadBootstrapParts(server: Server, snapshotId: string, bot: int, parts: seq<Part>)
    returns (r: Option<seq<Byte>>)
    ensures r == Downloaded(server, snapshotId, bot, parts)
  {
    var out: seq<Byte> := [];
    for i := 0 to |parts|
      invariant Downloaded(server, snapshotId, bot, parts[..i]) == Some(out)
    {
      assert parts[..i + 1][..i] == parts[..i];
      var fetched := Fetch(server, bot, parts[i].fileId);
      if fetched.None? {
        DownloadFails(server, snapshotId, bot, parts, i);
        return None;
      }
      var aad := DbSyncAad(snapshotId, parts[i].index);
      var bytes := DecryptOptional(server.cipher, server.key, parts[i].nonce, aad, fetched.value);
      if bytes.None? {
        DownloadFails(server, snapshotId, bot, parts, i);
        return None;
      }
      out := out + bytes.value;
    }
    assert parts[..|parts|] == parts;
    return Some(out);
  }

  function Restored(server: Server, snapshotId: string, uploads: seq<Upload>, bot: int): Option<seq<Byte>> {
    Downloaded(server, snapshotId, bot, StableSort(PartsOf(uploads, bot), ByIndex))
  }

  ghost predicate Works(server: Server, snapshotId: string, uploads: seq<Upload>,
                        accepts: (int, seq<Byte>) -> bool, bot: int) {
    && PartsOf(uploads, bot) != []
    && Restored(server, snapshotId, uploads, bot).Some?
    && accepts(bot, Restored(server, snapshotId, uploads, bot).value)
  }

  /** `r` is the least bot whose snapshot can be restored and is accepted, with its bytes. */
  ghost predicate FirstWorking(server: Server, snapshotId: string, uploads: seq<Upload>,
                               accepts: (int, seq<Byte>) -> bool, r: Option<(int, seq<Byte>)>) {
    match r
    case Some(found) =>
      && Works(server, snapshotId, uploads, accepts, found.0)
      && Restored(server, snapshotId, uploads, found.0) == Some(found.1)
      && forall b :: b < found.0 ==> !Works(server, snapshotId, uploads, accepts, b)
    case None => forall b :: !Works(server, snapshotId, uploads, accepts, b)
  }

  lemma TriedBot(server: Server, snapshotId: string, uploads: seq<Upload>, accepts: (int, seq<Byte>) -> bool,
                 byBot: map<int, seq<Part>>, bot: int)
    requires Groups(byBot, uploads) && bot in byBot
    ensures var bytes := Downloaded(server, snapshotId, bot, StableSort(byBot[bot], ByIndex));
      && bytes == Restored(server, snapshotId, uploads, bot)
      && (Works(server, snapshotId, uploads, accepts, bot) <==> bytes.Some? && accepts(bot, bytes.value))
  {
  }

  /** The second loop of `bootstrap_db_sync_if_configured`: the bots in ascending order,
      until one snapshot can be downloaded, staged and merged. `accepts` tells whether
      staging and merging succeed. */
  method Bootstrap(server: Server, snapshotId: string, uploads: seq<Upload>, accepts: (int, seq<Byte>) -> bool)
    returns (r: Option<(int, seq<Byte>)>)
    ensures FirstWorking(server, snapshotId, uploads, accepts, r)
  {
    var byBot := GroupByBot(uploads);
    var rest := byBot.Keys;
    while rest != {}
      invariant rest <= byBot.Keys
      invariant forall b :: b in byBot.Keys && b !in rest ==> !Works(server, snapshotId, uploads, accepts, b)
      invariant forall b, c :: b in byBot.Keys && b !in rest && c in rest ==> b < c
      decreases |rest|
    {
      var bot := Least(rest);
      var parts := StableSort(byBot[bot], ByIndex);
      var bytes := DownloadBootstrapParts(server, snapshotId, bot, parts);
      TriedBot(server, snapshotId, uploads, accepts, byBot, bot);
      if bytes.Some? && accepts(bot, bytes.value) {
        return Some((bot, bytes.value));
      }
      rest := rest - {bot};
    }
    return None;
  }

  // --- Why restoring succeeds --------------------------------------------------------

  ghost function ExpectedPart(setup: Setup, world: World, bot: int, p: int): Part
    requires world(bot, p).Some?
  {
    Part(p, world(bot, p).value.fileId, NonceText(setup, world(bot, p).value.nonce))
  }

  ghost function ExpectedParts(setup: Setup, world: World, bot: int, n: nat): (r: seq<Part>)
    requires SentAll(world, bot, n)
    ensures |r| == n
    ensures forall i :: 0 <= i < n ==> r[i] == ExpectedPart(setup, world, bot, i)
  {
    if n == 0 then [] else ExpectedParts(setup, world, bot, n - 1) + [ExpectedPart(setup, world, bot, n - 1)]
  }

  lemma EntryParts(setup: Setup, world: World, bot: int, p: int, b: int)
    requires GoodReceipts(world) && world(bot, p).Some?
    ensures Keep(PartFor(b), Entry(setup, world, bot, p))
      == if b == bot then [ExpectedPart(setup, world, bot, p)] else []
  {
    var receipt := world(bot, p).value;
    ParseEncoded(receipt.nonce);
    var entry := Entry(setup, world, bot, p);
    assert entry[1..] == [];
    assert Keep(PartFor(b), entry) == One(PartFor(b), entry[0]);
  }

  lemma PartsOfBoth(before: seq<Upload>, own: seq<Upload>, b: int)
    ensures PartsOf(before + own, b) == PartsOf(before, b) + PartsOf(own, b)
  {
    KeepAppend(PartFor(b), before, own);
  }

  /** A bot's own entries give it its parts in order. */
  lemma {:induction false} PartsOfBot(setup: Setup, world: World, bot: int, n: nat)
    requires GoodReceipts(world) && SentAll(world, bot, n)
    ensures PartsOf(BotUploads(setup, world, bot, n), bot) == ExpectedParts(setup, world, bot, n)
  {
    if n > 0 {
      PartsOfBot(setup, world, bot, n - 1);
      EntryParts(setup, world, bot, n - 1, bot);
      PartsOfBoth(BotUploads(setup, world, bot, n - 1), Entry(setup, world, bot, n - 1), bot);
    }
  }

  lemma {:induction false} PartsOfNoEntry(setup: Setup, world: World, bot: int, n: nat, b: int)
    requires forall p :: 0 <= p < n ==> PartsOf(Entry(setup, world, bot, p), b) == []
    ensures PartsOf(BotUploads(setup, world, bot, n), b) == []
  {
    if n > 0 {
      PartsOfNoEntry(setup, world, bot, n - 1, b);
      PartsOfBoth(BotUploads(setup, world, bot, n - 1), Entry(setup, world, bot, n - 1), b);
    }
  }

  /** They give no other bot anything. */
  lemma PartsOfOther(setup: Setup, world: World, bot: int, n: nat, b: int)
    requires GoodReceipts(world) && SentAll(world, bot, n) && b != bot
    ensures PartsOf(BotUploads(setup, world, bot, n), b) == []
  {
    forall p | 0 <= p < n ensures PartsOf(Entry(setup, world, bot, p), b) == [] { EntryParts(setup, world, bot, p, b); }
    PartsOfNoEntry(setup, world, bot, n, b);
  }

  ghost predicate Named(world: World, bots: nat, n: nat, b: int) { 0 <= b < bots && SentAll(world, b, n) }

  lemma PartsOfCommitted(setup: Setup, world: World, bot: int, n: nat, b: int)
    requires GoodReceipts(world)
    ensures b == bot && SentAll(world, bot, n) ==>
      PartsOf(Committed(setup, world, bot, n), b) == ExpectedParts(setup, world, bot, n)
    ensures b != bot || !SentAll(world, bot, n) ==> PartsOf(Committed(setup, world, bot, n), b) == []
  {
    if SentAll(world, bot, n) {
      if b == bot { PartsOfBot(setup, world, bot, n); } else { PartsOfOther(setup, world, bot, n, b); }
    }
  }

  lemma PartsOfNextBot(setup: Setup, world: World, last: nat, n: nat, b: int)
    ensures PartsOf(AllUploads(setup, world, last + 1, n), b)
      == PartsOf(AllUploads(setup, world, last, n), b) + PartsOf(Committed(setup, world, last, n), b)
  {
    PartsOfBoth(AllUploads(setup, world, last, n), Committed(setup, world, last, n), b);
  }

  lemma NextBotAddsNothing(setup: Setup, world: World, last: nat, n: nat, b: int)
    requires GoodReceipts(world) && (b != last || !SentAll(world, last, n))
    ensures PartsOf(AllUploads(setup, world, last + 1, n), b) == PartsOf(AllUploads(setup, world, last, n), b)
  {
    PartsOfCommitted(setup, world, last, n, b);
    PartsOfNextBot(setup, world, last, n, b);
  }

  lemma NoBots(setup: Setup, world: World, n: nat, b: int)
    ensures PartsOf(AllUploads(setup, world, 0, n), b) == []
  {
  }

  lemma {:induction false} PartsOfNone(setup: Setup, world: World, bots: nat, n: nat, b: int)
    requires GoodReceipts(world) && !Named(world, bots, n, b)
    ensures PartsOf(AllUploads(setup, world, bots, n), b) == []
  {
    if bots == 0 {
      NoBots(setup, world, n, b);
    } else {
      var last := bots - 1;
      assert last + 1 == bots;
      PartsOfNone(setup, world, last, n, b);
      NextBotAddsNothing(setup, world, last, n, b);
    }
  }

  lemma {:induction false} PartsOfNamed(setup: Setup, world: World, bots: nat, n: nat, b: int)
    requires GoodReceipts(world) && Named(world, bots, n, b)
    ensures PartsOf(AllUploads(setup, world, bots, n), b) == ExpectedParts(setup, world, b, n)
  {
    var last := bots - 1;
    PartsOfCommitted(setup, world, last, n, b);
    PartsOfNextBot(setup, world, last, n, b);
    if b == last { PartsOfNone(setup, world, last, n, b); } else { PartsOfNamed(setup, world, last, n, b); }
  }

  /** Parts already in strict order are what sorting any permutation of them yields. */
  lemma SortPermutation(ordered: seq<Part>, shuffled: seq<Part>)
    requires forall i, j :: 0 <= i < j < |ordered| ==> ordered[i].index < ordered[j].index
    requires multiset(shuffled) == multiset(ordered)
    ensures StableSort(shuffled, ByIndex) == ordered
    ensures shuffled == [] <==> ordered == []
  {
    assert TotalPreorder(ByIndex);
    StableSortCorrect(shuffled, ByIndex);
    StrictlySortedUnique(ordered, StableSort(shuffled, ByIndex), ByIndex);
    assert |shuffled| == |multiset(shuffled)| && |ordered| == |multiset(ordered)|;
  }

  /** In whatever order the entries stand, sorting brings the parts into order. */
  lemma SortedParts(setup: Setup, world: World, bots: nat, n: nat, uploads: seq<Upload>, b: int)
    requires GoodReceipts(world)
    requires multiset(uploads) == multiset(AllUploads(setup, world, bots, n))
    ensures Named(world, bots, n, b) ==> StableSort(PartsOf(uploads, b), ByIndex) == ExpectedParts(setup, world, b, n)
    ensures n > 0 ==> (PartsOf(uploads, b) != [] <==> Named(world, bots, n, b))
  {
    if Named(world, bots, n, b) {
      PartsOfNamed(setup, world, bots, n, b);
    } else {
      PartsOfNone(setup, world, bots, n, b);
    }
    KeepPermutation(PartFor(b), uploads, AllUploads(setup, world, bots, n));
    SortPermutation(PartsOf(AllUploads(setup, world, bots, n), b), PartsOf(uploads, b));
  }

  ghost predicate SameKeys(server: Server, setup: Setup) {
    server.cipher == setup.cipher && (setup.key.Some? ==> server.key == setup.key)
  }

  /** A stored payload opens to the part it was made from. */
  lemma PayloadOpens(server: Server, setup: Setup, world: World, bot: int, p: int, plain: seq<Byte>)
    requires Lawful(setup.cipher) && GoodReceipts(world) && SameKeys(server, setup) && world(bot, p).Some?
    ensures var receipt := world(bot, p).value;
      DecryptOptional(server.cipher, server.key, NonceText(setup, receipt.nonce), DbSyncAad(setup.snapshotId, p),
                      Payload(setup, p, receipt.nonce, plain)) == Some(plain)
  {
    ParseEncoded(world(bot, p).value.nonce);
  }

  /** Every part the bot sent can still be fetched. */
  ghost predicate Available(server: Server, world: World, bot: int, n: nat) {
    forall p :: 0 <= p < n && world(bot, p).Some? ==>
      0 <= bot < server.bots && FileRef(bot, world(bot, p).value.fileId) in server.store
  }

  lemma AvailableStep(server: Server, world: World, bot: int, p: nat)
    requires world(bot, p).Some?
    ensures Available(server, world, bot, p + 1)
      <==> Available(server, world, bot, p) && Fetch(server, bot, world(bot, p).value.fileId).Some?
  {
  }

  /** Telegram may lose files, but it does not change them. */
  ghost predicate Unchanged(store: map<FileRef, seq<Byte>>, files: map<FileRef, seq<Byte>>) {
    forall ref :: ref in store && ref in files ==> store[ref] == files[ref]
  }

  lemma PartDownloads(server: Server, setup: Setup, world: World, files: map<FileRef, seq<Byte>>,
                      parts: seq<seq<Byte>>, bot: int, p: nat)
    requires Lawful(setup.cipher) && GoodReceipts(world) && SameKeys(server, setup)
    requires p < |parts| && world(bot, p).Some?
    requires StoredPart(files, setup, world, parts, bot, p) && Unchanged(server.store, files)
    ensures PartBytes(server, setup.snapshotId, bot, ExpectedPart(setup, world, bot, p))
      == if Fetch(server, bot, world(bot, p).value.fileId).Some? then Some(parts[p]) else None
  {
    PayloadOpens(server, setup, world, bot, p, parts[p]);
  }

  lemma DownloadStep(server: Server, snapshotId: string, bot: int, init: seq<Part>, part: Part)
    ensures Downloaded(server, snapshotId, bot, init + [part])
      == match (Downloaded(server, snapshotId, bot, init), PartBytes(server, snapshotId, bot, part))
         case (Some(before), Some(bytes)) => Some(before + bytes)
         case _ => None
  {
    assert (init + [part])[..|init|] == init;
  }

  lemma ConcatSnoc(parts: seq<seq<Byte>>, n: nat)
    requires n < |parts|
    ensures Concat(parts[..n + 1]) == Concat(parts[..n]) + parts[n]
  {
    assert parts[..n + 1][..n] == parts[..n];
  }

  /** A sent part downloads as what was sent, if it can still be fetched. */
  ghost predicate Opens(server: Server, setup: Setup, world: World, parts: seq<seq<Byte>>, bot: int, p: nat)
    requires p < |parts| && world(bot, p).Some?
  {
    PartBytes(server, setup.snapshotId, bot, ExpectedPart(setup, world, bot, p))
      == if Fetch(server, bot, world(bot, p).value.fileId).Some? then Some(parts[p]) else None
  }

  /** The first `n` parts download as their concatenation, or not at all. */
  ghost predicate AllOpen(server: Server, setup: Setup, world: World, parts: seq<seq<Byte>>, bot: int, n: nat)
    requires n <= |parts| && SentAll(world, bot, n)
  {
    Downloaded(server, setup.snapshotId, bot, ExpectedParts(setup, world, bot, n))
      == if Available(server, world, bot, n) then Some(Concat(parts[..n])) else None
  }

  lemma NoPartOpens(server: Server, setup: Setup, world: World, parts: seq<seq<Byte>>, bot: int)
    ensures AllOpen(server, setup, world, parts, bot, 0)
  {
    assert parts[..0] == [];
  }

  lemma ExpectedStep(server: Server, setup: Setup, world: World, parts: seq<seq<Byte>>, bot: int, p: nat)
    requires p < |parts| && SentAll(world, bot, p + 1) && Opens(server, setup, world, parts, bot, p)
    requires AllOpen(server, setup, world, parts, bot, p)
    ensures AllOpen(server, setup, world, parts, bot, p + 1)
  {
    AvailableStep(server, world, bot, p);
    ConcatSnoc(parts, p);
    DownloadStep(server, setup.snapshotId, bot, ExpectedParts(setup, world, bot, p),
                 ExpectedPart(setup, world, bot, p));
  }

  lemma {:induction false} ExpectedDownload(server: Server, setup: Setup, world: World, parts: seq<seq<Byte>>,
                                            bot: int, n: nat)
    requires n <= |parts| && SentAll(world, bot, n)
    requires forall p :: 0 <= p < n ==> Opens(server, setup, world, parts, bot, p)
    ensures AllOpen(server, setup, world, parts, bot, n)
  {
    if n == 0 {
      NoPartOpens(server, setup, world, parts, bot);
    } else {
      var p := n - 1;
      assert p + 1 == n && SentAll(world, bot, p) && Opens(server, setup, world, parts, bot, p);
      ExpectedDownload(server, setup, world, parts, bot, p);
      ExpectedStep(server, setup, world, parts, bot, p);
    }
  }

  lemma NamedDownload(server: Server, setup: Setup, world: World, files: map<FileRef, seq<Byte>>,
                      parts: seq<seq<Byte>>, bot: int)
    requires Lawful(setup.cipher) && GoodReceipts(world) && SameKeys(server, setup) && SentAll(world, bot, |parts|)
    requires Stored(files, setup, world, parts, bot, |parts|) && Unchanged(server.store, files)
    ensures Downloaded(server, setup.snapshotId, bot, ExpectedParts(setup, world, bot, |parts|))
      == if Available(server, world, bot, |parts|) then Some(Concat(parts)) else None
  {
    forall p | 0 <= p < |parts| ensures Opens(server, setup, world, parts, bot, p) {
      assert StoredPart(files, setup, world, parts, bot, p);
      PartDownloads(server, setup, world, files, parts, bot, p);
    }
    ExpectedDownload(server, setup, world, parts, bot, |parts|);
    assert parts[..|parts|] == parts;
  }

  /** Whatever failed while sending, and in whatever order the descriptor lists its
      entries: exactly the bots that sent every part are named, and a named bot restores
      the snapshot if its files are all there, and nothing otherwise. */
  lemma RestoreIsExact(setup: Setup, world: World, bots: nat, content: seq<Byte>, files: map<FileRef, seq<Byte>>,
                       uploads: seq<Upload>, server: Server, b: int)
    requires Lawful(setup.cipher) && GoodReceipts(world) && SameKeys(server, setup)
    requires SnapshotParts(content, setup.maxSize, setup.key.Some?).Ok?
    requires var parts := SnapshotParts(content, setup.maxSize, setup.key.Some?).value;
      && AllStored(files, setup, world, parts, bots)
      && multiset(uploads) == multiset(AllUploads(setup, world, bots, |parts|))
    requires Unchanged(server.store, files)
    ensures var n := |SnapshotParts(content, setup.maxSize, setup.key.Some?).value|;
      && (PartsOf(uploads, b) != [] <==> Named(world, bots, n, b))
      && (Named(world, bots, n, b) ==>
            Restored(server, setup.snapshotId, uploads, b)
              == if Available(server, world, b, n) then Some(content) else None)
  {
    var parts := SnapshotParts(content, setup.maxSize, setup.key.Some?).value;
    SortedParts(setup, world, bots, |parts|, uploads, b);
    if Named(world, bots, |parts|, b) {
      NamedDownload(server, setup, world, files, parts, b);
      ChunksConcat(content, MaxPlaintextSize(setup.maxSize, setup.key.Some?).value);
    }
  }

  /** The bot sent all parts, they can still be fetched, and the snapshot is accepted. */
  ghost predicate Eligible(world: World, bots: nat, n: nat, server: Server, accepts: (int, seq<Byte>) -> bool,
                           content: seq<Byte>, b: int) {
    Named(world, bots, n, b) && Available(server, world, b, n) && accepts(b, content)
  }

  /** From one server to the other: upload a snapshot with any failures, let Telegram lose
      any files, and bootstrap from the entries in any order. The result is the snapshot,
      from the first eligible bot, or nothing when no bot is eligible. */
  lemma BootstrapIsExact(setup: Setup, world: World, bots: nat, content: seq<Byte>, files: map<FileRef, seq<Byte>>,
                         uploads: seq<Upload>, server: Server, accepts: (int, seq<Byte>) -> bool,
                         r: Option<(int, seq<Byte>)>)
    requires Lawful(setup.cipher) && GoodReceipts(world) && SameKeys(server, setup)
    requires SnapshotParts(content, setup.maxSize, setup.key.Some?).Ok?
    requires var parts := SnapshotParts(content, setup.maxSize, setup.key.Some?).value;
      && AllStored(files, setup, world, parts, bots)
      && multiset(uploads) == multiset(AllUploads(setup, world, bots, |parts|))
    requires Unchanged(server.store, files)
    requires FirstWorking(server, setup.snapshotId, uploads, accepts, r)
    ensures var n := |SnapshotParts(content, setup.maxSize, setup.key.Some?).value|;
      match r
      case Some(found) =>
        && found.1 == content && Eligible(world, bots, n, server, accepts, content, found.0)
        && forall b :: Eligible(world, bots, n, server, accepts, content, b) ==> found.0 <= b
      case None => forall b :: !Eligible(world, bots, n, server, accepts, content, b)
  {
    var n := |SnapshotParts(content, setup.maxSize, setup.key.Some?).value|;
    forall b
      ensures Works(server, setup.snapshotId, uploads, accepts, b) <==>
        Eligible(world, bots, n, server, accepts, content, b)
      ensures Works(server, setup.snapshotId, uploads, accepts, b) ==>
        Restored(server, setup.snapshotId, uploads, b) == Some(content)
    {
      RestoreIsExact(setup, world, bots, content, files, uploads, server, b);
    }
  }
}
