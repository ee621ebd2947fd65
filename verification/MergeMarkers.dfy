/** Markers and the order of merges: near-equality is not transitive, so how many markers
    remain can depend on the order, and does so exactly when transitivity fails. */
module MergeMarkers {
  import opened Options
  import opened Folds
  import opened LibraryTables
  import opened LibraryMerge
  import opened MergeTheorems
  import opened MergeOrder

  // --- Merging markers is folding --------------------------------------------------------

  /** What a merge does with one marker, once it passes the checks. */
  function AddIfNew(): (seq<MediaMarker>, MediaMarker) -> seq<MediaMarker> {
    (table: seq<MediaMarker>, m: MediaMarker) => if HasNear(table, m) then table else table + [m]
  }

  function Gathered(table: seq<MediaMarker>, rows: seq<MediaMarker>): seq<MediaMarker> { Fold(AddIfNew(), table, rows) }

  lemma {:induction false} AddAllIsFold<J>(table: seq<MediaMarker>, jobs: map<string, J>, rows: seq<MediaMarker>)
    requires AddAllMarkers(table, jobs, rows).Ok?
    ensures AddAllMarkers(table, jobs, rows).value == Gathered(table, rows)
  {
    if rows != [] { AddAllIsFold(table, jobs, rows[..|rows| - 1]); }
  }

  function MarkersOf(): Run -> seq<MediaMarker> { (run: Run) => run.library.markers }

  /** All merges together fold all exported markers, in order. */
  lemma {:induction false} RunsFoldMarkers(t: Tables, runs: seq<Run>)
    requires MergedRuns(t, runs).Ok?
    ensures MergedRuns(t, runs).value.markers == Gathered(t.markers, FlatMap(MarkersOf(), runs))
  {
    if runs != [] {
      var init, run := runs[..|runs| - 1], runs[|runs| - 1];
      RunsFoldMarkers(t, init);
      var before := MergedRuns(t, init).value;
      var r, ids := MergedStages(before, run.library, run.bots, run.now);
      AddAllIsFold(before.markers, r.jobs, run.library.markers);
      FoldAppend(AddIfNew(), t.markers, FlatMap(MarkersOf(), init), run.library.markers);
    }
  }

  // --- What is gathered ------------------------------------------------------------------

  /** `news` are rows that were near nothing in the table, pairwise apart. */
  ghost predicate Apart(table: seq<MediaMarker>, news: seq<MediaMarker>) {
    && (forall i :: 0 <= i < |news| ==> !HasNear(table, news[i]))
    && (forall i, j :: 0 <= i < j < |news| ==> !NearEqual(news[i], news[j]))
  }

  ghost predicate Gathers(table: seq<MediaMarker>, rows: seq<MediaMarker>, news: seq<MediaMarker>) {
    && Apart(table, news)
    && (forall i :: 0 <= i < |news| ==> news[i] in rows)
    && (forall i :: 0 <= i < |rows| ==> HasNear(table + news, rows[i]))
  }

  lemma NearOfBoth(a: seq<MediaMarker>, b: seq<MediaMarker>, m: MediaMarker)
    ensures HasNear(a + b, m) <==> HasNear(a, m) || HasNear(b, m)
  {
    if i :| 0 <= i < |a| && NearEqual(a[i], m) { assert (a + b)[i] == a[i]; }
    if i :| 0 <= i < |b| && NearEqual(b[i], m) { assert (a + b)[|a| + i] == b[i]; }
    if i :| 0 <= i < |a + b| && NearEqual((a + b)[i], m) {
      assert if i < |a| then (a + b)[i] == a[i] else (a + b)[i] == b[i - |a|];
    }
  }

  lemma GatherOne(table: seq<MediaMarker>, rows: seq<MediaMarker>, news: seq<MediaMarker>, m: MediaMarker)
    requires Gathers(table, rows, news)
    ensures HasNear(table + news, m) ==> Gathers(table, rows + [m], news)
    ensures !HasNear(table + news, m) ==> Gathers(table, rows + [m], news + [m])
  {
    NearOfBoth(table, news, m);
    if !HasNear(table + news, m) {
      assert table + (news + [m]) == (table + news) + [m];
      forall i | 0 <= i < |rows| ensures HasNear(table + (news + [m]), rows[i]) {
        HasNearExtends(table + news, [m], rows[i]);
      }
      NearOfBoth(table + news, [m], m);
      assert NearEqual([m][0], m);
    }
  }

  lemma {:induction false} GatheredIs(table: seq<MediaMarker>, rows: seq<MediaMarker>) returns (news: seq<MediaMarker>)
    ensures Gathered(table, rows) == table + news && Gathers(table, rows, news)
  {
    if rows == [] { return []; }
    var init, m := rows[..|rows| - 1], rows[|rows| - 1];
    var before := GatheredIs(table, init);
    GatherOne(table, init, before, m);
    assert rows == init + [m];
    news := if HasNear(table + before, m) then before else before + [m];
    assert table + (before + [m]) == (table + before) + [m];
  }

  // --- When the order does not matter ----------------------------------------------------

  /** Near-equality is transitive on the rows that are near nothing in the table. */
  ghost predicate Clustered(table: seq<MediaMarker>, rows: seq<MediaMarker>) {
    forall x, y, z :: x in rows && y in rows && z in rows && Links(table, x, y, z) ==> NearEqual(x, z)
  }

  ghost predicate Links(table: seq<MediaMarker>, x: MediaMarker, y: MediaMarker, z: MediaMarker) {
    !HasNear(table, x) && !HasNear(table, y) && !HasNear(table, z) && NearEqual(x, y) && NearEqual(y, z)
  }

  /** Each of `a` has a near one in `b`, and no two of `a` share one. */
  ghost predicate Maps(a: seq<MediaMarker>, b: seq<MediaMarker>) {
    && (forall i :: 0 <= i < |a| ==> HasNear(b, a[i]))
    && (forall i, j, k :: 0 <= i < j < |a| && 0 <= k < |b| ==> !(NearEqual(b[k], a[i]) && NearEqual(b[k], a[j])))
  }

  lemma DropOne(a: seq<MediaMarker>, b: seq<MediaMarker>, k: nat)
    requires Maps(a, b) && a != [] && k < |b| && NearEqual(b[k], a[|a| - 1])
    ensures Maps(a[..|a| - 1], b[..k] + b[k + 1..])
  {
    var init, rest := a[..|a| - 1], b[..k] + b[k + 1..];
    forall i | 0 <= i < |init| ensures HasNear(rest, init[i]) {
      assert HasNear(b, a[i]);
      var q :| 0 <= q < |b| && NearEqual(b[q], a[i]);
      assert q != k;
      assert rest[if q < k then q else q - 1] == b[q];
    }
    forall q | 0 <= q < |rest| ensures rest[q] == b[if q < k then q else q + 1] {}
  }

  lemma {:induction false} NoMoreThan(a: seq<MediaMarker>, b: seq<MediaMarker>)
    requires Maps(a, b)
    ensures |a| <= |b|
    decreases |a|
  {
    if a != [] {
      assert HasNear(b, a[|a| - 1]);
      var k :| 0 <= k < |b| && NearEqual(b[k], a[|a| - 1]);
      DropOne(a, b, k);
      NoMoreThan(a[..|a| - 1], b[..k] + b[k + 1..]);
    }
  }

  lemma NotShared(table: seq<MediaMarker>, rows: seq<MediaMarker>, x: MediaMarker, y: MediaMarker, z: MediaMarker)
    requires Clustered(table, rows) && x in rows && y in rows && z in rows
    requires !HasNear(table, x) && !HasNear(table, y) && !HasNear(table, z) && !NearEqual(x, z)
    ensures !(NearEqual(y, x) && NearEqual(y, z))
  {
    if NearEqual(y, x) && NearEqual(y, z) {
      assert Links(table, x, y, z);
      assert false;
    }
  }

  lemma IsGathered(table: seq<MediaMarker>, rows: seq<MediaMarker>, news: seq<MediaMarker>, m: MediaMarker)
    requires Gathers(table, rows, news) && m in rows && !HasNear(table, m)
    ensures HasNear(news, m)
  {
    var q :| 0 <= q < |rows| && rows[q] == m;
    NearOfBoth(table, news, rows[q]);
  }

  lemma GathersMap(table: seq<MediaMarker>, rows: seq<MediaMarker>, a: seq<MediaMarker>, b: seq<MediaMarker>)
    requires Clustered(table, rows) && Gathers(table, rows, a) && Gathers(table, rows, b)
    ensures Maps(a, b)
  {
    forall i | 0 <= i < |a| ensures HasNear(b, a[i]) { IsGathered(table, rows, b, a[i]); }
    forall i, j, k | 0 <= i < j < |a| && 0 <= k < |b| ensures !(NearEqual(b[k], a[i]) && NearEqual(b[k], a[j])) {
      NotShared(table, rows, a[i], b[k], a[j]);
    }
  }

  lemma SameRows(table: seq<MediaMarker>, a: seq<MediaMarker>, b: seq<MediaMarker>, news: seq<MediaMarker>)
    requires multiset(a) == multiset(b) && Gathers(table, b, news)
    ensures Gathers(table, a, news)
  {
    forall m ensures m in a <==> m in b { assert m in multiset(a) <==> m in multiset(b); }
    forall i | 0 <= i < |a| ensures HasNear(table + news, a[i]) { assert a[i] in b; }
  }

  lemma ClusteredCount(table: seq<MediaMarker>, a: seq<MediaMarker>, b: seq<MediaMarker>)
    requires multiset(a) == multiset(b) && Clustered(table, a)
    ensures |Gathered(table, a)| == |Gathered(table, b)|
  {
    var na := GatheredIs(table, a);
    var nb := GatheredIs(table, b);
    SameRows(table, a, b, nb);
    GathersMap(table, a, na, nb);
    GathersMap(table, a, nb, na);
    NoMoreThan(na, nb);
    NoMoreThan(nb, na);
  }

  // --- When it does ----------------------------------------------------------------------

  // Three markers of which the middle one is near the others, which are not near.

  lemma MiddleFirst(table: seq<MediaMarker>, x: MediaMarker, y: MediaMarker, z: MediaMarker)
    requires Links(table, x, y, z)
    ensures Gathered(table, [y, x, z]) == table + [y]
  {
    NearOfBoth(table, [y], x);
    NearOfBoth(table, [y], z);
    assert NearEqual([y][0], x) && NearEqual([y][0], z);
    FoldTwo(AddIfNew(), table, y, x);
    FoldSnoc(AddIfNew(), table, [y, x], z);
    assert [y, x] + [z] == [y, x, z];
  }

  lemma MiddleLast(table: seq<MediaMarker>, x: MediaMarker, y: MediaMarker, z: MediaMarker)
    requires Links(table, x, y, z) && !NearEqual(x, z)
    ensures Gathered(table, [x, z, y]) == table + [x] + [z]
  {
    NearOfBoth(table, [x], z);
    NearOfBoth(table, [x], y);
    NearOfBoth(table + [x], [z], y);
    assert NearEqual([x][0], y);
    FoldTwo(AddIfNew(), table, x, z);
    FoldSnoc(AddIfNew(), table, [x, z], y);
    assert [x, z] + [y] == [x, z, y];
  }

  ghost predicate DrawnFrom(a: seq<MediaMarker>, rows: seq<MediaMarker>) { forall m :: m in a ==> m in rows }

  /** Two lists of these rows that differ in order only leave the same number of markers. */
  ghost predicate OrderIsFree(table: seq<MediaMarker>, rows: seq<MediaMarker>) {
    forall a, b :: DrawnFrom(a, rows) && multiset(a) == multiset(b) ==> |Gathered(table, a)| == |Gathered(table, b)|
  }

  lemma OrderIsNotFree(table: seq<MediaMarker>, rows: seq<MediaMarker>, x: MediaMarker, y: MediaMarker, z: MediaMarker)
    requires x in rows && y in rows && z in rows && Links(table, x, y, z) && !NearEqual(x, z)
    ensures !OrderIsFree(table, rows)
  {
    var a, b := [y, x, z], [x, z, y];
    MiddleFirst(table, x, y, z);
    MiddleLast(table, x, y, z);
    assert DrawnFrom(a, rows) && multiset(a) == multiset(b);
  }

  /** For all lists of markers drawn from some rows, the order does not matter exactly when
      near-equality is transitive on those rows that are near nothing in the table. */
  lemma OrderIsFreeExactly(table: seq<MediaMarker>, rows: seq<MediaMarker>)
    ensures OrderIsFree(table, rows) <==> Clustered(table, rows)
  {
    if Clustered(table, rows) {
      forall a, b | DrawnFrom(a, rows) && multiset(a) == multiset(b)
        ensures |Gathered(table, a)| == |Gathered(table, b)|
      {
        ClusteredCount(table, a, b);
      }
    } else {
      var x, y, z :| x in rows && y in rows && z in rows && Links(table, x, y, z) && !NearEqual(x, z);
      OrderIsNotFree(table, rows, x, y, z);
    }
  }

  /** Merging the same exports in two orders leaves the same number of markers if
      near-equality is transitive on the exported markers that are near none of this library. */
  lemma MarkersOrderIndependent(t: Tables, a: seq<Run>, b: seq<Run>)
    requires multiset(a) == multiset(b)
    requires MergedRuns(t, a).Ok? && MergedRuns(t, b).Ok?
    requires Clustered(t.markers, FlatMap(MarkersOf(), a))
    ensures |MergedRuns(t, a).value.markers| == |MergedRuns(t, b).value.markers|
  {
    RunsFoldMarkers(t, a);
    RunsFoldMarkers(t, b);
    FlatMapPermutation(MarkersOf(), a, b);
    ClusteredCount(t.markers, FlatMap(MarkersOf(), a), FlatMap(MarkersOf(), b));
  }

  // --- An input ----------------------------------------------------------------------------

  /** A run that exports only markers. */
  function MarkerRun(markers: seq<MediaMarker>): Run {
    Run(Export([], [], [], [], [], [], [], [], markers, []), map[], 0)
  }

  lemma NoJobsMerge(t: Tables, markers: seq<MediaMarker>)
    ensures MergedJobs(t, MarkerRun(markers).library, map[], 0) == Ok(t)
  {
    assert MergedTracks(t, MarkerRun(markers).library, 0) == Ok(t);
    assert MergedSegments(t, MarkerRun(markers).library, map[]) == Ok(t);
  }

  lemma NoLinksMerge(t: Tables, markers: seq<MediaMarker>)
    ensures MergedLinks(t, MarkerRun(markers).library) == Ok(t)
  {
  }

  lemma MarkersMerge(t: Tables, markers: seq<MediaMarker>)
    requires AddAllMarkers(t.markers, t.jobs, markers).Ok?
    ensures Merged(t, MarkerRun(markers).library, map[], 0)
      == Ok(t.(markers := AddAllMarkers(t.markers, t.jobs, markers).value))
  {
    NoJobsMerge(t, markers);
    NoLinksMerge(t, markers);
  }

  lemma {:induction false} SoundMarkersAdd(table: seq<MediaMarker>, jobs: map<string, Job>, rows: seq<MediaMarker>)
    requires forall i :: 0 <= i < |rows| ==> MarkerChecks(rows[i]) && rows[i].jobId in jobs
    ensures AddAllMarkers(table, jobs, rows).Ok?
  {
    if rows != [] { SoundMarkersAdd(table, jobs, rows[..|rows| - 1]); }
  }

  /** Two such runs, one after the other. */
  lemma TwoMarkerRuns(t: Tables, first: seq<MediaMarker>, second: seq<MediaMarker>)
    requires forall i :: 0 <= i < |first| ==> MarkerChecks(first[i]) && first[i].jobId in t.jobs
    requires forall i :: 0 <= i < |second| ==> MarkerChecks(second[i]) && second[i].jobId in t.jobs
    ensures var r := MergedRuns(t, [MarkerRun(first), MarkerRun(second)]);
      r.Ok? && r.value.markers == Gathered(t.markers, first + second)
  {
    var runs := [MarkerRun(first), MarkerRun(second)];
    SoundMarkersAdd(t.markers, t.jobs, first);
    MarkersMerge(t, first);
    var between := t.(markers := AddAllMarkers(t.markers, t.jobs, first).value);
    SoundMarkersAdd(between.markers, between.jobs, second);
    MarkersMerge(between, second);
    assert runs[..1] == [MarkerRun(first)] && [MarkerRun(first)][..0] == [];
    assert MergedRuns(t, runs[..1]) == Ok(between);
    AddAllIsFold(t.markers, t.jobs, first);
    AddAllIsFold(between.markers, between.jobs, second);
    FoldAppend(AddIfNew(), t.markers, first, second);
  }

  function IntroAt(job: string, start: real): MediaMarker {
    MediaMarker(job, "intro", start, start + 60.0, "chromaprint", 0.5, "")
  }

  lemma IntrosLink(job: string)
    ensures Links([], IntroAt(job, 1.0), IntroAt(job, 1.008), IntroAt(job, 1.016))
    ensures !NearEqual(IntroAt(job, 1.0), IntroAt(job, 1.016))
  {
  }

  lemma MiddleRunFirst(t: Tables, job: string)
    requires job in t.jobs && t.markers == []
    ensures var middle, outer := MarkerRun([IntroAt(job, 1.008)]), MarkerRun([IntroAt(job, 1.0), IntroAt(job, 1.016)]);
      var r := MergedRuns(t, [middle, outer]);
      r.Ok? && |r.value.markers| == 1
  {
    var x, y, z := IntroAt(job, 1.0), IntroAt(job, 1.008), IntroAt(job, 1.016);
    IntrosLink(job);
    TwoMarkerRuns(t, [y], [x, z]);
    assert [y] + [x, z] == [y, x, z];
    MiddleFirst([], x, y, z);
  }

  lemma MiddleRunLast(t: Tables, job: string)
    requires job in t.jobs && t.markers == []
    ensures var middle, outer := MarkerRun([IntroAt(job, 1.008)]), MarkerRun([IntroAt(job, 1.0), IntroAt(job, 1.016)]);
      var r := MergedRuns(t, [outer, middle]);
      r.Ok? && |r.value.markers| == 2
  {
    var x, y, z := IntroAt(job, 1.0), IntroAt(job, 1.008), IntroAt(job, 1.016);
    IntrosLink(job);
    TwoMarkerRuns(t, [x, z], [y]);
    assert [x, z] + [y] == [x, z, y];
    MiddleLast([], x, y, z);
  }

  /** An intro at 1.008 seconds, and a second export with intros at 1.0 and 1.016 seconds:
      one marker remains in one order, and two in the other. */
  lemma MarkerOrderMatters(t: Tables, job: string)
    requires job in t.jobs && t.markers == []
    ensures var middle, outer := MarkerRun([IntroAt(job, 1.008)]), MarkerRun([IntroAt(job, 1.0), IntroAt(job, 1.016)]);
      && MergedRuns(t, [middle, outer]).Ok? && MergedRuns(t, [outer, middle]).Ok?
      && |MergedRuns(t, [middle, outer]).value.markers| == 1 && |MergedRuns(t, [outer, middle]).value.markers| == 2
  {
    MiddleRunFirst(t, job);
    MiddleRunLast(t, job);
  }
}
