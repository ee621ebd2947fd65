/** The sliding-window limiter in front of the upload handlers. It keeps, per client
    address, the times of recent requests, and prunes every address on every call. */
module RateLimit {

  type Ip = string
  type Time = nat

  /** The pruning loop on one deque: drop entries from the front while they are stale. */
  function Prune(dq: seq<Time>, now: Time, window: Time): seq<Time> {
    if dq != [] && dq[0] + window < now then Prune(dq[1..], now, window) else dq
  }

  function Lookup(limits: map<Ip, seq<Time>>, ip: Ip): seq<Time> {
    if ip in limits then limits[ip] else []
  }

  class Limiter {
    var limits: map<Ip, seq<Time>>

    constructor ()
      ensures limits == map[]
    {
      limits := map[];
    }

    /** `check_upload_rate_limit`: true when the request is refused. */
    method Check(ip: Ip, now: Time, window: Time, max: nat) returns (limited: bool)
      modifies this
      ensures Lookup(limits, ip) == Prune(Lookup(old(limits), ip), now, window) + [now]
      ensures forall other :: other != ip ==> Lookup(limits, other) == Prune(Lookup(old(limits), other), now, window)
      ensures forall other :: other in limits ==> limits[other] != []
      ensures limited <==> |Lookup(limits, ip)| > max
    {
      var todo := limits.Keys;
      while todo != {}
        invariant todo <= limits.Keys <= old(limits).Keys
        invariant forall k :: k in todo ==> limits[k] == old(limits)[k]
        invariant forall k :: k !in todo ==> Lookup(limits, k) == Prune(Lookup(old(limits), k), now, window)
        invariant forall k :: k in limits && k !in todo ==> limits[k] != []
        decreases todo
      {
        var k :| k in todo;
        var dq := limits[k];
        while dq != [] && dq[0] + window < now
          invariant Prune(dq, now, window) == Prune(old(limits)[k], now, window)
          decreases |dq|
        {
          dq := dq[1..];
        }
        limits := if dq == [] then limits - {k} else limits[k := dq];
        todo := todo - {k};
      }
      var requests := Lookup(limits, ip);
      requests := requests + [now];
      limits := limits[ip := requests];
      return |requests| > max;
    }
  }

  // --- Whole histories -------------------------------------------------------------

  datatype Request = Request(ip: Ip, time: Time)

  ghost predicate Ordered(h: seq<Request>) {
    forall i, j :: 0 <= i < j < |h| ==> h[i].time <= h[j].time
  }

  /** The deque of `ip` after the calls in `h`: the effect of `Check`, call by call. */
  function Deque(h: seq<Request>, ip: Ip, window: Time): seq<Time> {
    if h == [] then []
    else
      var last := h[|h| - 1];
      var kept := Prune(Deque(h[..|h| - 1], ip, window), last.time, window);
      if last.ip == ip then kept + [last.time] else kept
  }

  /** The requests of `ip` in `h` that are at most `window` old at time `now`. */
  function Recent(h: seq<Request>, ip: Ip, now: Time, window: Time): seq<Time> {
    if h == [] then []
    else
      var rest := Recent(h[..|h| - 1], ip, now, window);
      var last := h[|h| - 1];
      if last.ip == ip && last.time + window >= now then rest + [last.time] else rest
  }

  predicate Admitted(h: seq<Request>, window: Time, max: nat)
    requires h != []
  {
    |Deque(h, h[|h| - 1].ip, window)| <= max
  }

  /** Accepted requests of `ip` with times in `[from, to]`. */
  function AcceptedBetween(h: seq<Request>, ip: Ip, from: Time, to: Time, window: Time, max: nat): nat {
    if h == [] then 0
    else
      var last := h[|h| - 1];
      AcceptedBetween(h[..|h| - 1], ip, from, to, window, max)
      + (if last.ip == ip && from <= last.time <= to && Admitted(h, window, max) then 1 else 0)
  }

  lemma {:induction false} PruneAppend(dq: seq<Time>, t: Time, now: Time, window: Time)
    requires t + window >= now
    ensures Prune(dq + [t], now, window) == Prune(dq, now, window) + [t]
  {
    if dq != [] && dq[0] + window < now {
      PruneAppend(dq[1..], t, now, window);
      assert (dq + [t])[1..] == dq[1..] + [t];
    }
  }

  lemma {:induction false} PruneAll(dq: seq<Time>, now: Time, window: Time)
    requires forall i :: 0 <= i < |dq| ==> dq[i] + window < now
    ensures Prune(dq, now, window) == []
  {
    if dq != [] { PruneAll(dq[1..], now, window); }
  }

  lemma {:induction false} RecentTimes(h: seq<Request>, ip: Ip, now: Time, window: Time, bound: Time)
    requires forall i :: 0 <= i < |h| ==> h[i].time <= bound
    ensures forall i :: 0 <= i < |Recent(h, ip, now, window)| ==> Recent(h, ip, now, window)[i] <= bound
  {
    if h != [] { RecentTimes(h[..|h| - 1], ip, now, window, bound); }
  }

  /** Pruning a deque of recent requests at a later time keeps the ones still recent. */
  lemma {:induction false} PruneRecent(h: seq<Request>, ip: Ip, now: Time, later: Time, window: Time)
    requires Ordered(h) && now <= later
    ensures Prune(Recent(h, ip, now, window), later, window) == Recent(h, ip, later, window)
  {
    if h != [] {
      var before, last := h[..|h| - 1], h[|h| - 1];
      PruneRecent(before, ip, now, later, window);
      if last.ip == ip && last.time + window >= now {
        if last.time + window >= later {
          PruneAppend(Recent(before, ip, now, window), last.time, later, window);
        } else {
          RecentTimes(h, ip, now, window, last.time);
          PruneAll(Recent(h, ip, now, window), later, window);
          RecentTimes(before, ip, later, window, last.time);
          StaleIsEmpty(before, ip, later, window);
        }
      }
    }
  }

  lemma {:induction false} StaleIsEmpty(h: seq<Request>, ip: Ip, now: Time, window: Time)
    requires forall i :: 0 <= i < |h| ==> h[i].time + window < now
    ensures Recent(h, ip, now, window) == []
  {
    if h != [] { StaleIsEmpty(h[..|h| - 1], ip, now, window); }
  }

  /** After any history, every deque is exactly that address's requests, accepted and
      refused, inside the window that ends at the latest request. */
  lemma {:induction false} DequeIsRecent(h: seq<Request>, ip: Ip, window: Time)
    requires Ordered(h) && h != []
    ensures Deque(h, ip, window) == Recent(h, ip, h[|h| - 1].time, window)
  {
    var before, last := h[..|h| - 1], h[|h| - 1];
    if before != [] {
      DequeIsRecent(before, ip, window);
      PruneRecent(before, ip, before[|before| - 1].time, last.time, window);
    }
  }

  lemma {:induction false} AcceptedAreRecent(h: seq<Request>, ip: Ip, from: Time, to: Time, now: Time,
                                             window: Time, max: nat)
    requires now <= from + window
    ensures AcceptedBetween(h, ip, from, to, window, max) <= |Recent(h, ip, now, window)|
  {
    if h != [] { AcceptedAreRecent(h[..|h| - 1], ip, from, to, now, window, max); }
  }

  /** Whatever the history, no address has more than `max` requests accepted within
      any interval of the window's length. */
  lemma {:induction false} AtMostMaxAccepted(h: seq<Request>, ip: Ip, from: Time, window: Time, max: nat)
    requires Ordered(h)
    ensures AcceptedBetween(h, ip, from, from + window, window, max) <= max
  {
    if h != [] {
      var last := h[|h| - 1];
      AtMostMaxAccepted(h[..|h| - 1], ip, from, window, max);
      if last.ip == ip && from <= last.time <= from + window && Admitted(h, window, max) {
        DequeIsRecent(h, ip, window);
        AcceptedAreRecent(h, ip, from, from + window, last.time, window, max);
      }
    }
  }

  /** The requests of an address, up to the k-th one, that are no older than the window. */
  ghost function RecentRequests(h: seq<Request>, ip: Ip, now: Time, window: Time): set<int> {
    set j | 0 <= j < |h| && h[j].ip == ip && now <= h[j].time + window
  }

  lemma RecentSnoc(before: seq<Request>, last: Request, ip: Ip, now: Time, window: Time)
    ensures RecentRequests(before + [last], ip, now, window)
      == RecentRequests(before, ip, now, window)
        + if last.ip == ip && now <= last.time + window then {|before|} else {}
  {
    var h := before + [last];
    assert forall j :: 0 <= j < |before| ==> h[j] == before[j];
    assert h[|before|] == last;
  }

  lemma {:induction false} RecentCount(h: seq<Request>, ip: Ip, now: Time, window: Time)
    ensures |Recent(h, ip, now, window)| == |RecentRequests(h, ip, now, window)|
  {
    if h == [] {
      assert RecentRequests(h, ip, now, window) == {};
    } else {
      var before, last := h[..|h| - 1], h[|h| - 1];
      assert h == before + [last];
      RecentCount(before, ip, now, window);
      RecentSnoc(before, last, ip, now, window);
    }
  }

  /** A request is refused exactly when its address has made more than `max` requests, this
      one included, in the window that ends with it. */
  lemma RefusedExactly(h: seq<Request>, window: Time, max: nat)
    requires Ordered(h) && h != []
    ensures Admitted(h, window, max) <==> |RecentRequests(h, h[|h| - 1].ip, h[|h| - 1].time, window)| <= max
  {
    DequeIsRecent(h, h[|h| - 1].ip, window);
    RecentCount(h, h[|h| - 1].ip, h[|h| - 1].time, window);
  }

  /** A driver that runs a history through the limiter: what the class holds after
      each call is what the functions above say. */
  method Replay(l: Limiter, h: seq<Request>, window: Time, max: nat) returns (refused: seq<bool>)
    requires l.limits == map[]
    modifies l
    ensures forall ip :: Lookup(l.limits, ip) == Deque(h, ip, window)
    ensures |refused| == |h| && forall k :: 0 <= k < |h| ==> (refused[k] <==> !Admitted(h[..k + 1], window, max))
  {
    refused := [];
    for k := 0 to |h|
      invariant forall ip :: Lookup(l.limits, ip) == Deque(h[..k], ip, window)
      invariant |refused| == k
      invariant forall j :: 0 <= j < k ==> (refused[j] <==> !Admitted(h[..j + 1], window, max))
    {
      assert h[..k + 1][..k] == h[..k];
      var r := l.Check(h[k].ip, h[k].time, window, max);
      refused := refused + [r];
    }
    assert h[..|h|] == h;
  }
}
