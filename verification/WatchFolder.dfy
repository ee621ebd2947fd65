/** The watch-folder poller. A small map remembers, per file, the size and time last
    seen and since when they have not changed; files that stay unchanged long enough
    are claimed. The map has to summarise the whole history of scans. */
module WatchFolder {
  import opened Options

  type Path = string
  type Time = nat

  /** Size and modification time, as one scan finds them. */
  datatype Observation = Observation(size: nat, modified: Option<nat>)

  datatype FileState = FileState(seen: Observation, stableSince: Time)

  datatype Candidate = Candidate(path: Path, found: Observation)

  function Lookup(seen: map<Path, FileState>, p: Path): Option<FileState> {
    if p in seen then Some(seen[p]) else None
  }

  function Found(candidates: seq<Candidate>, p: Path): Option<Observation> {
    if candidates == [] then None
    else if candidates[|candidates| - 1].path == p then Some(candidates[|candidates| - 1].found)
    else Found(candidates[..|candidates| - 1], p)
  }

  function AtLeastOne(seconds: nat): nat { if seconds == 0 then 1 else seconds }

  /** Whether one scan declares a file ready. */
  predicate BecomesReady(prev: Option<FileState>, found: Option<Observation>, now: Time, seconds: nat) {
    prev.Some? && found.Some? && prev.value.seen == found.value && now >= prev.value.stableSince + AtLeastOne(seconds)
  }

  /** What one scan leaves in the map for a file: nothing if it is gone or claimed. */
  function AfterScan(prev: Option<FileState>, found: Option<Observation>, now: Time, seconds: nat): Option<FileState> {
    if found.None? || BecomesReady(prev, found, now, seconds) then None
    else if prev.Some? && prev.value.seen == found.value then prev
    else Some(FileState(found.value, now))
  }

  ghost predicate DistinctPaths(candidates: seq<Candidate>) {
    forall i, j :: 0 <= i < j < |candidates| ==> candidates[i].path != candidates[j].path
  }

  class Watcher {
    var seen: map<Path, FileState>

    constructor ()
      ensures seen == map[]
    {
      seen := map[];
    }

    method Clear()
      modifies this
      ensures seen == map[]
    {
      seen := map[];
    }

    /** One candidate of a scan; true when the file is ready to be claimed. */
    method Observe(c: Candidate, now: Time, seconds: nat) returns (isReady: bool)
      modifies this
      ensures isReady <==> BecomesReady(Lookup(old(seen), c.path), Some(c.found), now, seconds)
      ensures isReady ==> seen == old(seen)
      ensures !isReady ==> Lookup(seen, c.path) == AfterScan(Lookup(old(seen), c.path), Some(c.found), now, seconds)
      ensures forall p :: p != c.path ==> Lookup(seen, p) == Lookup(old(seen), p)
    {
      isReady := false;
      if c.path in seen {
        var prev := seen[c.path];
        if prev.seen == c.found {
          isReady := now >= prev.stableSince + AtLeastOne(seconds);
        } else {
          seen := seen[c.path := FileState(c.found, now)];
        }
      } else {
        seen := seen[c.path := FileState(c.found, now)];
      }
    }

    /** The claimed paths are forgotten, whether or not claiming them worked. */
    method Forget(ready: seq<Path>)
      modifies this
      ensures forall p :: Lookup(seen, p) == if p in ready then None else Lookup(old(seen), p)
    {
      for i := 0 to |ready|
        invariant forall p :: Lookup(seen, p) == if p in ready[..i] then None else Lookup(old(seen), p)
      {
        assert ready[..i + 1] == ready[..i] + [ready[i]];
        seen := seen - {ready[i]};
      }
    }

    /** `scan_watch_folder`. */
    method Scan(candidates: seq<Candidate>, now: Time, seconds: nat) returns (ready: seq<Path>)
      requires DistinctPaths(candidates)
      modifies this
      ensures forall p :: Lookup(seen, p) == AfterScan(Lookup(old(seen), p), Found(candidates, p), now, seconds)
      ensures forall p :: p in ready <==> BecomesReady(Lookup(old(seen), p), Found(candidates, p), now, seconds)
    {
      var current: set<Path> := {};
      ready := [];
      for i := 0 to |candidates|
        invariant forall p :: p in current <==> Found(candidates[..i], p).Some?
        invariant forall p :: p in ready <==>
          BecomesReady(Lookup(old(seen), p), Found(candidates[..i], p), now, seconds)
        invariant forall p :: p !in current || p in ready ==> Lookup(seen, p) == Lookup(old(seen), p)
        invariant forall p :: p in current && p !in ready ==>
          Lookup(seen, p) == AfterScan(Lookup(old(seen), p), Found(candidates[..i], p), now, seconds)
      {
        FoundNext(candidates, i);
        var isReady := Observe(candidates[i], now, seconds);
        current := current + {candidates[i].path};
        if isReady { ready := ready + [candidates[i].path]; }
      }
      assert candidates[..|candidates|] == candidates;
      seen := map p | p in seen && p in current :: seen[p];
      Forget(ready);
    }
  }

  lemma {:induction false} FoundIsMember(candidates: seq<Candidate>, p: Path)
    ensures Found(candidates, p).Some? ==> exists k :: 0 <= k < |candidates| && candidates[k].path == p
  {
    if candidates != [] && candidates[|candidates| - 1].path != p { FoundIsMember(candidates[..|candidates| - 1], p); }
  }

  lemma FoundNext(candidates: seq<Candidate>, i: nat)
    requires DistinctPaths(candidates) && i < |candidates|
    ensures Found(candidates[..i], candidates[i].path).None?
    ensures forall p :: Found(candidates[..i + 1], p)
                     == if p == candidates[i].path then Some(candidates[i].found) else Found(candidates[..i], p)
  {
    FoundIsMember(candidates[..i], candidates[i].path);
    assert candidates[..i + 1][..i] == candidates[..i];
  }

  // --- Whole histories -------------------------------------------------------------

  /** A scan with what it found, or the reset after a change of settings. */
  datatype Event = Scanned(now: Time, found: map<Path, Observation>, seconds: nat) | Cleared

  function Seen(e: Event, p: Path): Option<Observation> {
    if e.Scanned? && p in e.found then Some(e.found[p]) else None
  }

  /** What the map holds for `p` after the events in `h`. */
  function Tracked(h: seq<Event>, p: Path): Option<FileState> {
    if h == [] then None
    else
      var e := h[|h| - 1];
      if e.Cleared? then None else AfterScan(Tracked(h[..|h| - 1], p), Seen(e, p), e.now, e.seconds)
  }

  /** The last event of `h` is a scan that claims `p`. */
  predicate Claimed(h: seq<Event>, p: Path) {
    h != [] && h[|h| - 1].Scanned?
    && BecomesReady(Tracked(h[..|h| - 1], p), Seen(h[|h| - 1], p), h[|h| - 1].now, h[|h| - 1].seconds)
  }

  ghost predicate Ordered(h: seq<Event>) {
    forall i, j :: 0 <= i < j < |h| && h[i].Scanned? && h[j].Scanned? ==> h[i].now <= h[j].now
  }

  /** Event `j` of `h` is a scan that claims `p`. */
  predicate ClaimedAt(h: seq<Event>, p: Path, j: nat)
    requires j < |h|
  {
    Claimed(h[..j + 1], p)
  }

  /** From event `k` to the last one, every event is a scan that found `p` just as the
      last one did, and none before the last claimed it. */
  ghost predicate Unbroken(h: seq<Event>, p: Path, k: nat) {
    && k < |h|
    && Seen(h[|h| - 1], p).Some?
    && (forall j :: k <= j < |h| ==> Seen(h[j], p) == Seen(h[|h| - 1], p))
    && (forall j :: k <= j < |h| - 1 ==> !ClaimedAt(h, p, j))
  }

  ghost predicate RunStartsAt(h: seq<Event>, p: Path, k: nat) {
    Unbroken(h, p, k) && (k == 0 || !Unbroken(h, p, k - 1))
  }

  lemma ClaimedAtPrefix(h: seq<Event>, p: Path, j: nat)
    requires j + 1 < |h|
    ensures ClaimedAt(h, p, j) == ClaimedAt(h[..|h| - 1], p, j)
  {
    assert h[..|h| - 1][..j + 1] == h[..j + 1];
  }

  /** What leaving out the last event changes: nothing about the events before it. */
  lemma SameBefore(h: seq<Event>, p: Path, j: nat)
    requires j + 1 < |h|
    ensures h[..|h| - 1][j] == h[j] && ClaimedAt(h[..|h| - 1], p, j) == ClaimedAt(h, p, j)
    ensures j == |h| - 2 ==> ClaimedAt(h, p, j) == Claimed(h[..|h| - 1], p)
  {
    ClaimedAtPrefix(h, p, j);
    if j == |h| - 2 { assert h[..j + 1] == h[..|h| - 1]; }
  }

  lemma UnbrokenShortens(h: seq<Event>, p: Path, k: nat)
    requires k + 1 < |h| && Unbroken(h, p, k)
    ensures Unbroken(h[..|h| - 1], p, k) && !Claimed(h[..|h| - 1], p) && Seen(h[|h| - 2], p) == Seen(h[|h| - 1], p)
  {
    var g := h[..|h| - 1];
    SameBefore(h, p, |h| - 2);
    forall j | k <= j < |g| ensures Seen(g[j], p) == Seen(g[|g| - 1], p) { SameBefore(h, p, j); }
    forall j | k <= j < |g| - 1 ensures !ClaimedAt(g, p, j) { SameBefore(h, p, j); }
  }

  lemma UnbrokenLengthens(h: seq<Event>, p: Path, k: nat)
    requires k + 1 < |h| && Unbroken(h[..|h| - 1], p, k)
    requires !Claimed(h[..|h| - 1], p) && Seen(h[|h| - 2], p) == Seen(h[|h| - 1], p)
    ensures Unbroken(h, p, k)
  {
    forall j | k <= j < |h| ensures Seen(h[j], p) == Seen(h[|h| - 1], p) { if j + 1 < |h| { SameBefore(h, p, j); } }
    forall j | k <= j < |h| - 1 ensures !ClaimedAt(h, p, j) { SameBefore(h, p, j); }
  }

  lemma UnbrokenBefore(h: seq<Event>, p: Path, k: nat)
    requires |h| >= 2 && k < |h| - 1
    ensures Unbroken(h, p, k) <==>
      Unbroken(h[..|h| - 1], p, k) && !Claimed(h[..|h| - 1], p) && Seen(h[|h| - 2], p) == Seen(h[|h| - 1], p)
  {
    if Unbroken(h, p, k) { UnbrokenShortens(h, p, k); }
    if Unbroken(h[..|h| - 1], p, k) && !Claimed(h[..|h| - 1], p) && Seen(h[|h| - 2], p) == Seen(h[|h| - 1], p) {
      UnbrokenLengthens(h, p, k);
    }
  }

  /** What the map should hold: the last observation, since the run of scans began. */
  ghost predicate Summarises(h: seq<Event>, p: Path, s: FileState, k: nat) {
    RunStartsAt(h, p, k) && h[k].Scanned? && Some(s.seen) == Seen(h[|h| - 1], p) && s.stableSince == h[k].now
  }

  /** A file is remembered exactly when the last event saw it and did not claim it, and
      `stableSince` is then the time of the first scan of the unbroken run of scans
      that found it unchanged since the last claim, reset or change. */
  lemma {:induction false} StableSinceIsRunStart(h: seq<Event>, p: Path)
    requires h != []
    ensures Tracked(h, p).Some? <==> Seen(h[|h| - 1], p).Some? && !Claimed(h, p)
    ensures Tracked(h, p).Some? ==> exists k: nat :: Summarises(h, p, Tracked(h, p).value, k)
  {
    var g, e := h[..|h| - 1], h[|h| - 1];
    if Tracked(h, p).Some? {
      var before := Tracked(g, p);
      assert Unbroken(h, p, |h| - 1);
      if g != [] && before.Some? && before.value.seen == Seen(e, p).value {
        StableSinceIsRunStart(g, p);
        var k: nat :| Summarises(g, p, before.value, k);
        UnbrokenBefore(h, p, k);
        if k > 0 { UnbrokenBefore(h, p, k - 1); }
        assert Summarises(h, p, before.value, k);
      } else {
        if g != [] {
          StableSinceIsRunStart(g, p);
          UnbrokenBefore(h, p, |h| - 2);
        }
        assert Summarises(h, p, Tracked(h, p).value, |h| - 1);
      }
    }
  }

  lemma RunStartEarliest(h: seq<Event>, p: Path, start: nat, k: nat)
    requires RunStartsAt(h, p, start) && Unbroken(h, p, k)
    ensures start <= k
  {
    if k < start {
      assert Unbroken(h, p, start - 1);
    }
  }

  /** From scan `k` on the file was found, and found the same, and the last scan came at
      least the configured seconds, and at least one, after scan `k`. */
  ghost predicate StableSince(h: seq<Event>, p: Path, k: nat) {
    && Unbroken(h, p, k) && h[k].Scanned? && h[|h| - 1].Scanned?
    && h[|h| - 1].now >= h[k].now + h[|h| - 1].seconds && h[|h| - 1].now > h[k].now
  }

  /** A file is claimed exactly when it was seen unchanged at every scan across at
      least the configured time. */
  lemma ClaimedIffStable(h: seq<Event>, p: Path)
    requires Ordered(h) && h != []
    ensures Claimed(h, p) <==> exists k: nat :: StableSince(h, p, k)
  {
    var g, e := h[..|h| - 1], h[|h| - 1];
    if g != [] { StableSinceIsRunStart(g, p); }
    if Claimed(h, p) {
      var k: nat :| Summarises(g, p, Tracked(g, p).value, k);
      UnbrokenBefore(h, p, k);
      assert StableSince(h, p, k);
    }
    if k: nat :| StableSince(h, p, k) {
      assert k < |h| - 1;
      UnbrokenBefore(h, p, k);
      var start: nat :| Summarises(g, p, Tracked(g, p).value, start);
      RunStartEarliest(g, p, start, k);
      assert h[start] == g[start] && h[start].now <= h[k].now;
    }
  }
}
