/** Matching two audio fingerprints: the longest run of nearly equal points over all
    alignments of the two sequences. Times are real numbers; a point stands for
    0.1238 seconds. */
module FingerprintMatch {
  import opened Options
  import opened Bits

  type Point = n: nat | n < 0x1_0000_0000

  const HAMMING_THRESHOLD: nat := 6
  const MIN_MATCH_POINTS: nat := 100
  const MAX_OFFSET_POINTS: int := 400
  const SECONDS_PER_POINT: real := 0.1238

  datatype Window = Window(kind: string, start: real)

  datatype Marker = Marker(kind: string, start: real, end: real, source: string, confidence: real)

  predicate Near(x: Point, y: Point) {
    CountOnes(Xor(x, y)) <= HAMMING_THRESHOLD
  }

  predicate ValidDuration(kind: string, duration: real) {
    if kind == "intro" || kind == "recap" || kind == "preview" then 15.0 <= duration <= 120.0
    else if kind == "outro" || kind == "credits" then 15.0 <= duration <= 300.0
    else true
  }

  function Clamp(x: real, low: real, high: real): real {
    if x < low then low else if x > high then high else x
  }

  // --- Runs of matching points -------------------------------------------------------

  /** `n` consecutive points of `a` from `s` are near the points of `b` that are
      `offset` places further on. */
  ghost predicate IsRun(a: seq<Point>, b: seq<Point>, offset: int, s: nat, n: nat) {
    && s + n <= |a| && 0 <= s + offset && s + n + offset <= |b|
    && forall k :: s <= k < s + n ==> Near(a[k], b[k + offset])
  }

  predicate Allowed(offset: int) {
    -MAX_OFFSET_POINTS <= offset <= MAX_OFFSET_POINTS
  }

  /** The longest run over all allowed alignments, and the first of its length: least
      offset, then least start. */
  ghost predicate IsBest(a: seq<Point>, b: seq<Point>, offset: int, s: nat, n: nat) {
    && Allowed(offset) && IsRun(a, b, offset, s, n)
    && (forall o, t: nat, m: nat :: Allowed(o) && IsRun(a, b, o, t, m) ==> m <= n)
    && (forall o, t: nat :: Allowed(o) && IsRun(a, b, o, t, n) ==> offset < o || (offset == o && s <= t))
  }

  /** The marker for the run of `n` points at `s`, unless its duration is out of range. */
  function MarkerOf(w: Window, s: nat, n: nat, points: nat): Option<Marker>
    requires points > 0
  {
    var start := w.start + s as real * SECONDS_PER_POINT;
    var end := w.start + (s + n) as real * SECONDS_PER_POINT;
    if !ValidDuration(w.kind, end - start) then None
    else Some(Marker(w.kind, start, end, "chromaprint", Clamp(n as real / points as real * 2.0, 0.5, 1.0)))
  }

  /** What `find_best_match` must answer. */
  ghost predicate IsMatch(w: Window, a: seq<Point>, b: seq<Point>, r: Option<Marker>) {
    || (r == None && forall o, t: nat, m: nat :: Allowed(o) && IsRun(a, b, o, t, m) ==> m < MIN_MATCH_POINTS)
    || (exists o, s: nat, n: nat ::
          n >= MIN_MATCH_POINTS && IsBest(a, b, o, s, n) && |a| > 0 && r == MarkerOf(w, s, n, |a|))
  }

  /** The answer is determined. */
  lemma MatchUnique(w: Window, a: seq<Point>, b: seq<Point>, r: Option<Marker>, q: Option<Marker>)
    requires IsMatch(w, a, b, r) && IsMatch(w, a, b, q)
    ensures r == q
  {
  }

  lemma Scaled(x: real, y: real, p: real)
    requires p > 0.0
    ensures x <= y <==> x * p <= y * p
  {
    if x <= y { assert (y - x) * p >= 0.0; } else { assert (x - y) * p > 0.0; }
  }

  lemma ScaledTo(c: real, q: real, p: real, n: real)
    requires p > 0.0 && q * p == n
    ensures c <= q <==> c * p <= n
    ensures q <= c <==> n <= c * p
  {
    Scaled(c, q, p);
    Scaled(q, c, p);
  }

  lemma Quarter(n: nat, points: nat)
    ensures 0.25 * points as real <= n as real <==> points <= 4 * n
    ensures n as real <= 0.25 * points as real <==> 4 * n <= points
  {
    var x, y := points as real, n as real;
    assert (4 * n) as real == 4.0 * y;
    assert 0.25 * x <= y <==> x <= 4.0 * y;
    assert y <= 0.25 * x <==> 4.0 * y <= x;
  }

  lemma Regroup(q: real, p: real)
    ensures q * 2.0 * p == 2.0 * (q * p)
  {
  }

  /** A share, compared with one half and one quarter. */
  lemma ShareOf(q: real, n: nat, points: nat)
    requires 0 < points && q * points as real == n as real
    ensures 0.5 <= q <==> points <= 2 * n
    ensures 0.25 <= q <==> points <= 4 * n
    ensures q <= 0.25 <==> 4 * n <= points
    ensures q * 2.0 * points as real == (2 * n) as real
  {
    ScaledTo(0.5, q, points as real, n as real);
    ScaledTo(0.25, q, points as real, n as real);
    Regroup(q, points as real);
    Quarter(n, points);
  }

  lemma ShareTimes(n: nat, points: nat)
    requires 0 < points
    ensures (n as real / points as real) * points as real == n as real
  {
  }

  lemma ClampExactly(n: nat, points: nat)
    requires 0 < n <= points
    ensures var c := Clamp(n as real / points as real * 2.0, 0.5, 1.0);
      && 0.5 <= c <= 1.0 && (c == 1.0 <==> 2 * n >= points) && (c == 0.5 <==> 4 * n <= points)
      && (points <= 4 * n && 2 * n <= points ==> c * points as real == (2 * n) as real)
  {
    var q := n as real / points as real;
    ShareTimes(n, points);
    ShareOf(q, n, points);
    ClampShare(q, n, points);
  }

  lemma ClampShare(q: real, n: nat, points: nat)
    requires 0.5 <= q <==> points <= 2 * n
    requires 0.25 <= q <==> points <= 4 * n
    requires q <= 0.25 <==> 4 * n <= points
    requires q * 2.0 * points as real == (2 * n) as real
    ensures var c := Clamp(q * 2.0, 0.5, 1.0);
      && 0.5 <= c <= 1.0 && (c == 1.0 <==> 2 * n >= points) && (c == 0.5 <==> 4 * n <= points)
      && (points <= 4 * n && 2 * n <= points ==> c * points as real == (2 * n) as real)
  {
  }

  /** A duration that a marker of the kind may have. */
  ghost predicate FitsKind(kind: string, seconds: real) {
    && (kind in ["intro", "recap", "preview"] ==> 15.0 <= seconds <= 120.0)
    && (kind in ["outro", "credits"] ==> 15.0 <= seconds <= 300.0)
  }

  /** The marker `m` stands for the run of `n` points of `a` that starts at point `s`. */
  ghost predicate StandsFor(w: Window, a: seq<Point>, m: Marker, s: nat, n: nat) {
    && m.kind == w.kind && m.source == "chromaprint"
    && m.start - w.start == s as real * 0.1238 && m.end - m.start == n as real * 0.1238
    && w.start <= m.start < m.end <= w.start + |a| as real * 0.1238
    && FitsKind(w.kind, m.end - m.start)
    && 0.5 <= m.confidence <= 1.0 && (m.confidence == 1.0 <==> 2 * n >= |a|)
    && (m.confidence == 0.5 <==> 4 * n <= |a|)
    && (0.5 < m.confidence < 1.0 ==> m.confidence * |a| as real == (2 * n) as real)
  }

  lemma RunStandsFor(w: Window, a: seq<Point>, s: nat, n: nat)
    requires 0 < n && s + n <= |a|
    ensures match MarkerOf(w, s, n, |a|)
      case Some(m) => StandsFor(w, a, m, s, n)
      case None => !FitsKind(w.kind, n as real * 0.1238)
  {
    ClampExactly(n, |a|);
    var x, y, all := s as real * 0.1238, n as real * 0.1238, |a| as real * 0.1238;
    assert (s + n) as real * 0.1238 == x + y && x + y <= all;
  }

  /** Two points are near when at most six of their 32 bits differ. */
  lemma NearExactly(x: Point, y: Point)
    ensures Near(x, y) <==> |Differing(x, y, 32)| <= 6
  {
    ShiftedWord();
    OnesDiffer(x, y, 32);
  }

  /** A stretch of `n` points of `a` from `s`, each of which differs in at most six bits from
      the point of `b` at most 400 places before or after it, the same number for all. */
  ghost predicate IsStretch(a: seq<Point>, b: seq<Point>, offset: int, s: nat, n: nat) {
    && -400 <= offset <= 400 && s + n <= |a| && 0 <= s + offset && s + n + offset <= |b|
    && forall k :: s <= k < s + n ==> |Differing(a[k], b[k + offset], 32)| <= 6
  }

  /** None is longer; and of those of its length it has the least offset, then the least start. */
  ghost predicate IsLongest(a: seq<Point>, b: seq<Point>, offset: int, s: nat, n: nat) {
    && IsStretch(a, b, offset, s, n)
    && forall o, t: nat, m: nat :: IsStretch(a, b, o, t, m) ==>
        m < n || (m == n && (offset < o || (offset == o && s <= t)))
  }

  lemma StretchIsRun(a: seq<Point>, b: seq<Point>, offset: int, s: nat, n: nat)
    ensures IsStretch(a, b, offset, s, n) <==> Allowed(offset) && IsRun(a, b, offset, s, n)
  {
    if Allowed(offset) && IsRun(a, b, offset, s, n) {
      forall k | s <= k < s + n ensures |Differing(a[k], b[k + offset], 32)| <= 6 { NearExactly(a[k], b[k + offset]); }
    }
    if IsStretch(a, b, offset, s, n) {
      forall k | s <= k < s + n ensures Near(a[k], b[k + offset]) { NearExactly(a[k], b[k + offset]); }
    }
  }

  lemma BestIsLongest(a: seq<Point>, b: seq<Point>, offset: int, s: nat, n: nat)
    requires IsBest(a, b, offset, s, n)
    ensures IsLongest(a, b, offset, s, n)
  {
    StretchIsRun(a, b, offset, s, n);
    forall o, t: nat, m: nat | IsStretch(a, b, o, t, m)
      ensures m < n || (m == n && (offset < o || (offset == o && s <= t)))
    {
      StretchIsRun(a, b, o, t, m);
    }
  }

  /** What an answer says: a marker lies inside the window where the longest stretch lies, has
      the window's kind, a fitting duration and a confidence that grows with the share of the
      fingerprint it covers; no answer means that there is no stretch of 100 points, or that
      the longest one has no fitting duration. */
  lemma AnswerMeans(w: Window, a: seq<Point>, b: seq<Point>, r: Option<Marker>)
    requires IsMatch(w, a, b, r)
    ensures r.Some? ==>
      exists o, s: nat, n: nat :: n >= 100 && IsLongest(a, b, o, s, n) && StandsFor(w, a, r.value, s, n)
    ensures r.None? ==>
      || (forall o, t: nat, m: nat :: IsStretch(a, b, o, t, m) ==> m < 100)
      || (exists o, s: nat, n: nat :: n >= 100 && IsLongest(a, b, o, s, n) && !FitsKind(w.kind, n as real * 0.1238))
  {
    if exists o, s: nat, n: nat ::
      n >= MIN_MATCH_POINTS && IsBest(a, b, o, s, n) && |a| > 0 && r == MarkerOf(w, s, n, |a|)
    {
      var o, s: nat, n: nat :| n >= MIN_MATCH_POINTS && IsBest(a, b, o, s, n) && |a| > 0 && r == MarkerOf(w, s, n, |a|);
      assert IsRun(a, b, o, s, n);
      RunStandsFor(w, a, s, n);
      BestIsLongest(a, b, o, s, n);
    } else {
      forall o, t: nat, m: nat | IsStretch(a, b, o, t, m) ensures m < 100 { StretchIsRun(a, b, o, t, m); }
    }
  }

  // --- One alignment -----------------------------------------------------------------

  /** Positions `s .. s + n` of the match sequence `m` are all true. */
  ghost predicate AllTrue(m: seq<bool>, s: nat, n: nat) {
    s + n <= |m| && forall k :: s <= k < s + n ==> m[k]
  }

  /** The longest stretch of `m[..i]`, first of its length. */
  ghost predicate LongestIn(m: seq<bool>, i: nat, s: nat, n: nat) {
    && s + n <= i <= |m| && AllTrue(m, s, n)
    && (forall t: nat, k: nat :: t + k <= i && AllTrue(m, t, k) ==> k <= n)
    && (forall t: nat :: t + n <= i && AllTrue(m, t, n) && n > 0 ==> s <= t)
  }

  /** The stretch of `m[..i]` that ends at `i`. */
  ghost predicate TailRun(m: seq<bool>, i: nat, n: nat) {
    n <= i <= |m| && AllTrue(m, i - n, n) && (n < i ==> !m[i - n - 1])
  }

  lemma TailExtends(m: seq<bool>, i: nat, s: nat, n: nat, tail: nat)
    requires i < |m| && LongestIn(m, i, s, n) && TailRun(m, i, tail)
    ensures m[i] && tail + 1 > n ==> LongestIn(m, i + 1, i - tail, tail + 1)
    ensures !m[i] || tail + 1 <= n ==> LongestIn(m, i + 1, s, n)
  {
    forall t: nat, k: nat | t + k == i + 1 && AllTrue(m, t, k) && k > 0
      ensures m[i] && k <= tail + 1
    {
      assert m[i];
    }
  }

  /** The inner loop of `find_best_match`: the longest run of one alignment. */
  method LongestRun(a: seq<Point>, b: seq<Point>, aStart: nat, bStart: nat, len: nat, ghost m: seq<bool>)
    returns (start: nat, runLen: nat)
    requires aStart + len <= |a| && bStart + len <= |b|
    requires |m| == len && forall i :: 0 <= i < len ==> m[i] == Near(a[aStart + i], b[bStart + i])
    ensures start >= aStart && LongestIn(m, len, start - aStart, runLen)
  {
    var runStart := aStart;
    var run := 0;
    start := aStart;
    runLen := 0;
    for i := 0 to len
      invariant TailRun(m, i, run) && (run > 0 ==> runStart == aStart + i - run)
      invariant start >= aStart && LongestIn(m, i, start - aStart, runLen)
    {
      TailExtends(m, i, start - aStart, runLen, run);
      if Near(a[aStart + i], b[bStart + i]) {
        if run == 0 { runStart := aStart + i; }
        run := run + 1;
        if run > runLen {
          runLen := run;
          start := runStart;
        }
      } else {
        run := 0;
      }
    }
  }

  // --- All alignments ----------------------------------------------------------------

  function AStart(offset: int): nat { if offset < 0 then -offset else 0 }
  function BStart(offset: int): nat { if offset > 0 then offset else 0 }

  function Overlap(a: seq<Point>, b: seq<Point>, offset: int): int {
    var la := |a| - AStart(offset);
    var lb := |b| - BStart(offset);
    if la <= lb then la else lb
  }

  predicate NearAt(a: seq<Point>, b: seq<Point>, offset: int, i: nat)
    requires i < Overlap(a, b, offset)
  {
    Near(a[AStart(offset) + i], b[BStart(offset) + i])
  }

  /** Which points of an alignment match. */
  function Matches(a: seq<Point>, b: seq<Point>, offset: int): (m: seq<bool>)
    ensures |m| == if Overlap(a, b, offset) > 0 then Overlap(a, b, offset) else 0
    ensures forall i :: 0 <= i < |m| ==> m[i] == NearAt(a, b, offset, i)
  {
    if Overlap(a, b, offset) <= 0 then []
    else seq(Overlap(a, b, offset), i requires 0 <= i < Overlap(a, b, offset) => NearAt(a, b, offset, i))
  }

  /** Runs of the two sequences are stretches of an alignment's match sequence, so an
      alignment that overlaps in fewer points than a match needs cannot hold one. */
  lemma RunsAreStretches(a: seq<Point>, b: seq<Point>, offset: int, s: nat, n: nat)
    requires n > 0
    ensures IsRun(a, b, offset, s, n) <==> s >= AStart(offset) && AllTrue(Matches(a, b, offset), s - AStart(offset), n)
    ensures IsRun(a, b, offset, s, n) ==> n <= Overlap(a, b, offset)
  {
    var m := Matches(a, b, offset);
    var d := AStart(offset);
    assert BStart(offset) - d == offset;
    if s >= d && AllTrue(m, s - d, n) {
      forall k | s <= k < s + n ensures Near(a[k], b[k + offset]) { assert m[k - d]; }
    }
    if IsRun(a, b, offset, s, n) {
      forall k | s - d <= k < s - d + n ensures m[k] { assert Near(a[k + d], b[k + d + offset]); }
    }
  }

  /** Best run over the alignments with offset below `limit`; length zero if none. */
  ghost predicate BestBelow(a: seq<Point>, b: seq<Point>, limit: int, offset: int, s: nat, n: nat) {
    && (n > 0 ==> Allowed(offset) && offset < limit && IsRun(a, b, offset, s, n))
    && (forall o, t: nat, m: nat :: Allowed(o) && o < limit && IsRun(a, b, o, t, m) && m >= MIN_MATCH_POINTS ==> m <= n)
    && (n > 0 ==> forall o, t: nat :: Allowed(o) && o < limit && IsRun(a, b, o, t, n) && n >= MIN_MATCH_POINTS ==>
          offset < o || (offset == o && s <= t))
  }

  ghost predicate BestOfAll(a: seq<Point>, b: seq<Point>, offset: int, s: nat, n: nat) {
    BestBelow(a, b, MAX_OFFSET_POINTS + 1, offset, s, n)
  }

  lemma AlignmentSkipped(a: seq<Point>, b: seq<Point>, o: int, offset: int, s: nat, n: nat)
    requires BestBelow(a, b, o, offset, s, n) && Overlap(a, b, o) < MIN_MATCH_POINTS
    ensures BestBelow(a, b, o + 1, offset, s, n)
  {
    forall t: nat, m: nat | IsRun(a, b, o, t, m) ensures m < MIN_MATCH_POINTS {
      if m > 0 { RunsAreStretches(a, b, o, t, m); }
    }
  }

  lemma AlignmentSearched(a: seq<Point>, b: seq<Point>, o: int, offset: int, s: nat, n: nat, local: nat, len: nat)
    requires Allowed(o) && BestBelow(a, b, o, offset, s, n)
    requires local >= AStart(o) && LongestIn(Matches(a, b, o), |Matches(a, b, o)|, local - AStart(o), len)
    ensures len > n ==> BestBelow(a, b, o + 1, o, local, len)
    ensures len <= n ==> BestBelow(a, b, o + 1, offset, s, n)
  {
    forall t: nat, m: nat | m > 0 && IsRun(a, b, o, t, m)
      ensures m <= len && (m == len ==> local <= t)
    {
      RunsAreStretches(a, b, o, t, m);
    }
    if len > 0 { RunsAreStretches(a, b, o, local, len); }
  }

  /** The two outer loops of `find_best_match`. */
  method BestRun(a: seq<Point>, b: seq<Point>) returns (start: nat, len: nat)
    ensures exists offset :: BestOfAll(a, b, offset, start, len)
  {
    start, len := 0, 0;
    ghost var offset := 0;
    var o := -MAX_OFFSET_POINTS;
    while o <= MAX_OFFSET_POINTS
      invariant -MAX_OFFSET_POINTS <= o <= MAX_OFFSET_POINTS + 1
      invariant BestBelow(a, b, o, offset, start, len)
      decreases MAX_OFFSET_POINTS + 1 - o
    {
      var aStart := if o < 0 then -o else 0;
      var bStart := if o > 0 then o else 0;
      var overlap := if |a| - aStart <= |b| - bStart then |a| - aStart else |b| - bStart;
      if aStart >= |a| || bStart >= |b| || overlap < MIN_MATCH_POINTS {
        AlignmentSkipped(a, b, o, offset, start, len);
        o := o + 1;
        continue;
      }
      var localStart, localLen := LongestRun(a, b, aStart, bStart, overlap, Matches(a, b, o));
      AlignmentSearched(a, b, o, offset, start, len, localStart, localLen);
      if localLen > len {
        start, len, offset := localStart, localLen, o;
      }
      o := o + 1;
    }
    assert BestOfAll(a, b, offset, start, len);
  }

  /** `find_best_match`: a near-matching run is returned exactly when one of at least
      100 points exists and its duration is in range, and it is the longest and first. */
  method FindBestMatch(w: Window, a: seq<Point>, b: seq<Point>) returns (r: Option<Marker>)
    ensures IsMatch(w, a, b, r)
  {
    var start, len := BestRun(a, b);
    ghost var offset :| BestOfAll(a, b, offset, start, len);
    if len < MIN_MATCH_POINTS { return None; }
    assert IsBest(a, b, offset, start, len);
    var startSecs := w.start + start as real * SECONDS_PER_POINT;
    var endSecs := w.start + (start + len) as real * SECONDS_PER_POINT;
    if !ValidDuration(w.kind, endSecs - startSecs) { return None; }
    return Some(Marker(w.kind, startSecs, endSecs, "chromaprint", Clamp(len as real / |a| as real * 2.0, 0.5, 1.0)));
  }

  /** The markers of the answers that found something, in order. */
  function Somes(answers: seq<Option<Marker>>): seq<Marker> {
    if answers == [] then []
    else Somes(answers[..|answers| - 1])
         + (if answers[|answers| - 1].Some? then [answers[|answers| - 1].value] else [])
  }

  /** The answer for every stored fingerprint. */
  ghost predicate Answers(w: Window, points: seq<Point>, existing: seq<seq<Point>>, answers: seq<Option<Marker>>) {
    |answers| == |existing| && forall i :: 0 <= i < |existing| ==> IsMatch(w, points, existing[i], answers[i])
  }

  /** `compare_fingerprints`, on parsed fingerprints: the best match of every stored
      fingerprint, in order. Skipping short ones loses no match. */
  method CompareFingerprints(w: Window, points: seq<Point>, existing: seq<seq<Point>>) returns (markers: seq<Marker>)
    ensures exists answers :: Answers(w, points, existing, answers) && markers == Somes(answers)
  {
    markers := [];
    if |points| < MIN_MATCH_POINTS {
      ghost var none := ShortHasNoMatches(w, points, existing);
      return;
    }
    ghost var answers: seq<Option<Marker>> := [];
    for i := 0 to |existing|
      invariant Answers(w, points, existing[..i], answers)
      invariant markers == Somes(answers)
    {
      if |existing[i]| < MIN_MATCH_POINTS {
        ShortHasNoMatch(w, points, existing[i]);
        AnswersSnoc(w, points, existing, i, answers, None);
        answers := answers + [None];
      } else {
        var m := FindBestMatch(w, points, existing[i]);
        AnswersSnoc(w, points, existing, i, answers, m);
        if m.Some? { markers := markers + [m.value]; }
        answers := answers + [m];
      }
    }
    assert existing[..|existing|] == existing;
  }

  lemma ShortHasNoMatches(w: Window, points: seq<Point>, existing: seq<seq<Point>>) returns (none: seq<Option<Marker>>)
    requires |points| < MIN_MATCH_POINTS
    ensures Answers(w, points, existing, none) && Somes(none) == []
  {
    none := seq(|existing|, _ => None);
    SomesOfNone(|existing|);
    forall i | 0 <= i < |existing| ensures IsMatch(w, points, existing[i], none[i]) {
      ShortHasNoMatch(w, points, existing[i]);
    }
  }

  lemma AnswersSnoc(w: Window, points: seq<Point>, existing: seq<seq<Point>>, i: nat, answers: seq<Option<Marker>>,
                    m: Option<Marker>)
    requires i < |existing| && Answers(w, points, existing[..i], answers) && IsMatch(w, points, existing[i], m)
    ensures Answers(w, points, existing[..i + 1], answers + [m])
    ensures Somes(answers + [m]) == Somes(answers) + (if m.Some? then [m.value] else [])
  {
    assert (answers + [m])[..|answers|] == answers;
  }

  lemma {:induction false} SomesOfNone(n: nat)
    ensures Somes(seq(n, _ => None)) == []
  {
    if n > 0 {
      SomesOfNone(n - 1);
      var s: seq<Option<Marker>> := seq(n, _ => None);
      assert s[..n - 1] == seq(n - 1, _ => None);
    }
  }

  lemma ShortHasNoMatch(w: Window, a: seq<Point>, b: seq<Point>)
    requires |a| < MIN_MATCH_POINTS || |b| < MIN_MATCH_POINTS
    ensures IsMatch(w, a, b, None)
  {
  }
}
