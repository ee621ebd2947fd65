/** Merging an export once more after any other merges: everything it brought is still
    there, so only the metadata texts can change, back to those of that export. */
module MergeReplay {
  import opened Options
  import opened Folds
  import opened LibraryTables
  import opened LibraryMerge
  import opened MergeTheorems
  import opened MergeContents
  import opened MergeIntegrity
  import opened MergeOrder
  import opened RowColumns

  // --- What a merged export leaves behind ------------------------------------------------

  /** The metadata ids an export knows; what they map to does not matter here. */
  function KnownIds(rows: seq<MetaRow>): map<int, int> {
    if rows == [] then map[] else KnownIds(rows[..|rows| - 1])[rows[|rows| - 1].id := 0]
  }

  ghost predicate MetaPresent(entries: map<MetaKey, MetaEntry>, rows: seq<MetaRow>) {
    forall i :: 0 <= i < |rows| ==> MetaChecks(rows[i].key) && rows[i].key in entries
  }

  ghost predicate AllNear(table: seq<MediaMarker>, rows: seq<MediaMarker>) {
    forall i :: 0 <= i < |rows| ==> HasNear(table, rows[i])
  }

  /** Rows of the export that hang on jobs are there. */
  ghost predicate HoldsJobs(t: Tables, e: Export, bots: map<int, int>) {
    && AllPresent(t.jobs, Map(JobInsert(0), e.jobs))
    && AllPresent(t.tracks, Map(TrackInsert(map[]), e.tracks))
    && AllPresent(t.segments, Map(SegmentInsert(map[], bots), e.segments))
    && AllPresent(t.parts, Map(PartInsert(map[], bots), e.parts))
    && UpToDate(t.progress, e.progress)
  }

  /** And the others. */
  ghost predicate HoldsRest(t: Tables, e: Export) {
    && MetaPresent(t.metadata, e.metadata)
    && AllPresent(t.jobLinks, Map(JobLinkInsert(map[], map[], KnownIds(e.metadata)), e.jobLinks))
    && AllPresent(t.seriesLinks, Map(SeriesLinkInsert(map[], KnownIds(e.metadata)), e.seriesLinks))
    && AllNear(t.markers, e.markers)
    && AllPresent(t.fingerprints, Map(FingerprintInsert(map[]), e.fingerprints))
  }

  ghost predicate Holds(t: Tables, e: Export, bots: map<int, int>) { HoldsJobs(t, e, bots) && HoldsRest(t, e) }

  /** Presence does not depend on the clock or on the parents. */
  lemma PresentEitherWay<T, K, V>(table: map<K, V>, f: T -> Insert<K, V>, g: T -> Insert<K, V>, rows: seq<T>)
    requires forall i :: 0 <= i < |rows| ==> SameDemand(f(rows[i]), g(rows[i]))
    requires AllPresent(table, Map(f, rows))
    ensures AllPresent(table, Map(g, rows))
  {
    forall i | 0 <= i < |rows|
      ensures Map(g, rows)[i].Row? && (Map(g, rows)[i].checks ==> Map(g, rows)[i].key in table)
    {
      assert Map(f, rows)[i] == f(rows[i]);
    }
  }

  predicate SameDemand<K(==), V>(a: Insert<K, V>, b: Insert<K, V>) {
    a.Row? == b.Row? && (a.Row? ==> a.key == b.key && a.checks == b.checks)
  }

  lemma {:induction false} IdsAreKnown(s: MetaState, rows: seq<MetaRow>)
    requires UpsertAllMeta(s, rows).Ok?
    ensures UpsertAllMeta(s, rows).value.ids.Keys == s.ids.Keys + KnownIds(rows).Keys
  {
    if rows != [] { IdsAreKnown(s, rows[..|rows| - 1]); }
  }

  lemma {:induction false} MetaMakesPresent(s: MetaState, rows: seq<MetaRow>)
    requires UpsertAllMeta(s, rows).Ok?
    ensures MetaPresent(UpsertAllMeta(s, rows).value.entries, rows)
  {
    if rows != [] { MetaMakesPresent(s, rows[..|rows| - 1]); }
  }

  lemma JobsPresent(before: map<string, Job>, jobs: map<string, Job>, rows: seq<JobRow>, now: int)
    requires InsertAll(before, Map(JobInsert(now), rows)) == Ok(jobs)
    ensures AllPresent(jobs, Map(JobInsert(0), rows))
  {
    InsertAllMakesPresent(before, Map(JobInsert(now), rows));
    PresentEitherWay(jobs, JobInsert(now), JobInsert(0), rows);
  }

  lemma TracksPresent(before: map<TrackKey, TrackRow>, after: map<TrackKey, TrackRow>, jobs: map<string, Job>,
                      rows: seq<TrackRow>)
    requires InsertAll(before, Map(TrackInsert(jobs), rows)) == Ok(after)
    ensures AllPresent(after, Map(TrackInsert(map[]), rows))
  {
    InsertAllMakesPresent(before, Map(TrackInsert(jobs), rows));
    PresentEitherWay(after, TrackInsert(jobs), TrackInsert(map[]), rows);
  }

  lemma SegmentsPresent(before: map<SegmentKey, Segment>, after: map<SegmentKey, Segment>, jobs: map<string, Job>,
                        bots: map<int, int>, rows: seq<SegmentRow>)
    requires InsertAll(before, Map(SegmentInsert(jobs, bots), rows)) == Ok(after)
    ensures AllPresent(after, Map(SegmentInsert(map[], bots), rows))
  {
    InsertAllMakesPresent(before, Map(SegmentInsert(jobs, bots), rows));
    PresentEitherWay(after, SegmentInsert(jobs, bots), SegmentInsert(map[], bots), rows);
  }

  lemma PartsPresent(before: map<PartKey, SegmentPart>, after: map<PartKey, SegmentPart>, jobs: map<string, Job>,
                     bots: map<int, int>, rows: seq<PartRow>)
    requires InsertAll(before, Map(PartInsert(jobs, bots), rows)) == Ok(after)
    ensures AllPresent(after, Map(PartInsert(map[], bots), rows))
  {
    InsertAllMakesPresent(before, Map(PartInsert(jobs, bots), rows));
    PresentEitherWay(after, PartInsert(jobs, bots), PartInsert(map[], bots), rows);
  }

  lemma MergeLeavesJobs(t: Tables, e: Export, bots: map<int, int>, now: int, r: Tables, ids: map<int, int>)
    requires Stages(t, e, bots, now, r, ids)
    ensures HoldsJobs(r, e, bots)
  {
    JobsPresent(t.jobs, r.jobs, e.jobs, now);
    TracksPresent(t.tracks, r.tracks, r.jobs, e.tracks);
    SegmentsPresent(t.segments, r.segments, r.jobs, bots, e.segments);
    PartsPresent(t.parts, r.parts, r.jobs, bots, e.parts);
    UpsertMakesUpToDate(t.progress, r.jobs, e.progress);
  }

  lemma LinksPresent(t: Tables, e: Export, r: Tables, ids: map<int, int>)
    requires ids.Keys == KnownIds(e.metadata).Keys
    requires InsertAll(t.jobLinks, Map(JobLinkInsert(r.jobs, r.metadata, ids), e.jobLinks)) == Ok(r.jobLinks)
    requires InsertAll(t.seriesLinks, Map(SeriesLinkInsert(r.metadata, ids), e.seriesLinks)) == Ok(r.seriesLinks)
    ensures AllPresent(r.jobLinks, Map(JobLinkInsert(map[], map[], KnownIds(e.metadata)), e.jobLinks))
    ensures AllPresent(r.seriesLinks, Map(SeriesLinkInsert(map[], KnownIds(e.metadata)), e.seriesLinks))
  {
    var known := KnownIds(e.metadata);
    InsertAllMakesPresent(t.jobLinks, Map(JobLinkInsert(r.jobs, r.metadata, ids), e.jobLinks));
    PresentEitherWay(r.jobLinks, JobLinkInsert(r.jobs, r.metadata, ids), JobLinkInsert(map[], map[], known),
                     e.jobLinks);
    InsertAllMakesPresent(t.seriesLinks, Map(SeriesLinkInsert(r.metadata, ids), e.seriesLinks));
    PresentEitherWay(r.seriesLinks, SeriesLinkInsert(r.metadata, ids), SeriesLinkInsert(map[], known), e.seriesLinks);
  }

  lemma MergeLeavesRest(t: Tables, e: Export, bots: map<int, int>, now: int, r: Tables, ids: map<int, int>)
    requires Stages(t, e, bots, now, r, ids)
    ensures HoldsRest(r, e)
  {
    var s := MetaState(t.metadata, t.nextMetadataId, map[]);
    IdsAreKnown(s, e.metadata);
    MetaMakesPresent(s, e.metadata);
    LinksPresent(t, e, r, ids);
    MarkersCovered(t.markers, r.jobs, e.markers);
    InsertAllMakesPresent(t.fingerprints, Map(FingerprintInsert(r.jobs), e.fingerprints));
    PresentEitherWay(r.fingerprints, FingerprintInsert(r.jobs), FingerprintInsert(map[]), e.fingerprints);
  }

  lemma MergeLeaves(t: Tables, run: Run)
    requires Merged(t, run.library, run.bots, run.now).Ok?
    ensures Holds(Merged(t, run.library, run.bots, run.now).value, run.library, run.bots)
  {
    var r, ids := MergedStages(t, run.library, run.bots, run.now);
    MergeLeavesJobs(t, run.library, run.bots, run.now, r, ids);
    MergeLeavesRest(t, run.library, run.bots, run.now, r, ids);
  }

  // --- Later merges keep it --------------------------------------------------------------

  lemma PresentStays<K, V>(table: map<K, V>, more: map<K, V>, rows: seq<Insert<K, V>>)
    requires AllPresent(table, rows) && Extends(table, more)
    ensures AllPresent(more, rows)
  {
  }

  lemma NearStays(table: seq<MediaMarker>, more: seq<MediaMarker>, rows: seq<MediaMarker>)
    requires AllNear(table, rows) && table <= more
    ensures AllNear(more, rows)
  {
    assert more == table + more[|table|..];
    forall i | 0 <= i < |rows| ensures HasNear(more, rows[i]) { HasNearExtends(table, more[|table|..], rows[i]); }
  }

  lemma {:induction false} ProgressGrows<J>(table: map<ProgressKey, Progress>, jobs: map<string, J>,
                                            rows: seq<Progress>, k: ProgressKey)
    requires UpsertAllProgress(table, jobs, rows).Ok? && k in table
    ensures var after := UpsertAllProgress(table, jobs, rows).value;
      k in after && table[k].updatedAt <= after[k].updatedAt
  {
    if rows != [] { ProgressGrows(table, jobs, rows[..|rows| - 1], k); }
  }

  lemma LaterKeepsJobs(t: Tables, e: Export, bots: map<int, int>, run: Run)
    requires HoldsJobs(t, e, bots) && Merged(t, run.library, run.bots, run.now).Ok?
    ensures HoldsJobs(Merged(t, run.library, run.bots, run.now).value, e, bots)
  {
    MergePreserves(t, run.library, run.bots, run.now);
    var r, ids := MergedStages(t, run.library, run.bots, run.now);
    PresentStays(t.jobs, r.jobs, Map(JobInsert(0), e.jobs));
    PresentStays(t.tracks, r.tracks, Map(TrackInsert(map[]), e.tracks));
    PresentStays(t.segments, r.segments, Map(SegmentInsert(map[], bots), e.segments));
    PresentStays(t.parts, r.parts, Map(PartInsert(map[], bots), e.parts));
    forall i | 0 <= i < |e.progress|
      ensures e.progress[i].key in r.progress && e.progress[i].updatedAt <= r.progress[e.progress[i].key].updatedAt
    {
      ProgressGrows(t.progress, r.jobs, run.library.progress, e.progress[i].key);
    }
  }

  lemma RestStays(t: Tables, r: Tables, e: Export)
    requires HoldsRest(t, e) && IdsStay(t.metadata, r.metadata) && t.markers <= r.markers
    requires Extends(t.jobLinks, r.jobLinks) && Extends(t.seriesLinks, r.seriesLinks)
    requires Extends(t.fingerprints, r.fingerprints)
    ensures HoldsRest(r, e)
  {
    var known := KnownIds(e.metadata);
    PresentStays(t.jobLinks, r.jobLinks, Map(JobLinkInsert(map[], map[], known), e.jobLinks));
    PresentStays(t.seriesLinks, r.seriesLinks, Map(SeriesLinkInsert(map[], known), e.seriesLinks));
    NearStays(t.markers, r.markers, e.markers);
    PresentStays(t.fingerprints, r.fingerprints, Map(FingerprintInsert(map[]), e.fingerprints));
  }

  lemma LaterKeeps(t: Tables, e: Export, bots: map<int, int>, run: Run)
    requires Holds(t, e, bots) && Merged(t, run.library, run.bots, run.now).Ok?
    ensures Holds(Merged(t, run.library, run.bots, run.now).value, e, bots)
  {
    LaterKeepsJobs(t, e, bots, run);
    MergePreserves(t, run.library, run.bots, run.now);
    RestStays(t, Merged(t, run.library, run.bots, run.now).value, e);
  }

  lemma LastRunLeaves(t: Tables, runs: seq<Run>)
    requires runs != [] && MergedRuns(t, runs).Ok?
    ensures Holds(MergedRuns(t, runs).value, runs[|runs| - 1].library, runs[|runs| - 1].bots)
  {
    var before := LastRun(t, runs);
    MergeLeaves(before, runs[|runs| - 1]);
  }

  lemma LastRunKeeps(t: Tables, runs: seq<Run>, before: Tables, e: Export, bots: map<int, int>)
    requires runs != [] && MergedRuns(t, runs).Ok? && MergedRuns(t, runs[..|runs| - 1]) == Ok(before)
    requires Holds(before, e, bots)
    ensures Holds(MergedRuns(t, runs).value, e, bots)
  {
    var same := LastRun(t, runs);
    LaterKeeps(same, e, bots, runs[|runs| - 1]);
  }

  lemma {:induction false} RunsHold(t: Tables, runs: seq<Run>, j: nat)
    requires MergedRuns(t, runs).Ok? && j < |runs|
    ensures Holds(MergedRuns(t, runs).value, runs[j].library, runs[j].bots)
    decreases |runs|
  {
    if j < |runs| - 1 {
      var before := LastRun(t, runs);
      RunsHold(t, runs[..|runs| - 1], j);
      LastRunKeeps(t, runs, before, runs[j].library, runs[j].bots);
    } else {
      LastRunLeaves(t, runs);
    }
  }

  // The same by columns.

  ghost predicate HoldsJobRows(t: Tables, e: Export, bots: map<int, int>) {
    && (forall j :: j in e.jobs && JobGoesIn(j) ==> j.jobId in t.jobs)
    && (forall x :: x in e.tracks && TrackGoesIn(x) ==> x.key in t.tracks)
    && (forall s :: s in e.segments && SegmentGoesIn(s, bots) ==> s.key in t.segments)
    && (forall p :: p in e.parts && PartGoesIn(p, bots) ==> p.key in t.parts)
    && (forall p :: p in e.progress ==> p.key in t.progress && p.updatedAt <= t.progress[p.key].updatedAt)
  }

  ghost predicate HoldsOtherRows(t: Tables, e: Export) {
    && (forall m :: m in e.metadata ==> m.key in t.metadata)
    && (forall l :: l in e.jobLinks && JobLinkGoesIn(l) ==> l.key in t.jobLinks)
    && (forall l :: l in e.seriesLinks ==> l.key in t.seriesLinks)
    && (forall m :: m in e.markers ==> exists x :: x in t.markers && IsNearMarker(x, m))
    && (forall f :: f in e.fingerprints && FingerprintGoesIn(f) ==> f.key in t.fingerprints)
  }

  lemma PresentRow<T, K, V>(table: map<K, V>, f: T -> Insert<K, V>, rows: seq<T>, row: T)
    requires AllPresent(table, Map(f, rows)) && row in rows
    ensures f(row).Row? && (f(row).checks ==> f(row).key in table)
  {
    var i :| 0 <= i < |rows| && rows[i] == row;
    assert Map(f, rows)[i] == f(row);
  }

  lemma JobRowsByColumns(t: Tables, e: Export, bots: map<int, int>)
    requires HoldsJobs(t, e, bots)
    ensures HoldsJobRows(t, e, bots)
  {
    forall j | j in e.jobs && JobGoesIn(j) ensures j.jobId in t.jobs {
      PresentRow(t.jobs, JobInsert(0), e.jobs, j);
      JobByColumns(j, 0);
    }
    forall x | x in e.tracks && TrackGoesIn(x) ensures x.key in t.tracks {
      PresentRow(t.tracks, TrackInsert(map[]), e.tracks, x);
    }
    forall s | s in e.segments && SegmentGoesIn(s, bots) ensures s.key in t.segments {
      PresentRow(t.segments, SegmentInsert(map[], bots), e.segments, s);
      SegmentByColumns(s, map[], bots);
    }
    forall p | p in e.parts && PartGoesIn(p, bots) ensures p.key in t.parts {
      PresentRow(t.parts, PartInsert(map[], bots), e.parts, p);
      PartByColumns(p, map[], bots);
    }
  }

  lemma OtherRowsByColumns(t: Tables, e: Export)
    requires HoldsRest(t, e)
    ensures HoldsOtherRows(t, e)
  {
    forall l | l in e.jobLinks && JobLinkGoesIn(l) ensures l.key in t.jobLinks {
      PresentRow(t.jobLinks, JobLinkInsert(map[], map[], KnownIds(e.metadata)), e.jobLinks, l);
    }
    forall l | l in e.seriesLinks ensures l.key in t.seriesLinks {
      PresentRow(t.seriesLinks, SeriesLinkInsert(map[], KnownIds(e.metadata)), e.seriesLinks, l);
    }
    forall m | m in e.markers ensures exists x :: x in t.markers && IsNearMarker(x, m) {
      var i :| 0 <= i < |e.markers| && e.markers[i] == m;
      var j :| 0 <= j < |t.markers| && NearEqual(t.markers[j], m);
      NearByColumns(t.markers[j], m);
    }
    forall f | f in e.fingerprints && FingerprintGoesIn(f) ensures f.key in t.fingerprints {
      PresentRow(t.fingerprints, FingerprintInsert(map[]), e.fingerprints, f);
    }
  }

  /** After any sequence of merges the library holds what each of them brought. */
  lemma RunsHoldRows(t: Tables, runs: seq<Run>, j: nat)
    requires MergedRuns(t, runs).Ok? && j < |runs|
    ensures HoldsJobRows(MergedRuns(t, runs).value, runs[j].library, runs[j].bots)
    ensures HoldsOtherRows(MergedRuns(t, runs).value, runs[j].library)
  {
    RunsHold(t, runs, j);
    JobRowsByColumns(MergedRuns(t, runs).value, runs[j].library, runs[j].bots);
    OtherRowsByColumns(MergedRuns(t, runs).value, runs[j].library);
  }

  // --- Merging it once more --------------------------------------------------------------

  /** Entries keep their ids, none is added, and none is lost. */
  ghost predicate SameEntries(a: map<MetaKey, MetaEntry>, b: map<MetaKey, MetaEntry>) {
    a.Keys == b.Keys && forall k :: k in a ==> a[k].id == b[k].id
  }

  lemma {:induction false} PresentMetaAgain(s: MetaState, rows: seq<MetaRow>)
    requires MetaPresent(s.entries, rows)
    ensures UpsertAllMeta(s, rows).Ok?
    ensures var after := UpsertAllMeta(s, rows).value; after.nextId == s.nextId && SameEntries(s.entries, after.entries)
  {
    if rows != [] { PresentMetaAgain(s, rows[..|rows| - 1]); }
  }

  lemma ReplayTracks(t: Tables, e: Export, bots: map<int, int>, later: int)
    requires HoldsJobs(t, e, bots)
    ensures MergedTracks(t, e, later) == Ok(t)
  {
    PresentEitherWay(t.jobs, JobInsert(0), JobInsert(later), e.jobs);
    InsertAllPresent(t.jobs, Map(JobInsert(later), e.jobs));
    PresentEitherWay(t.tracks, TrackInsert(map[]), TrackInsert(t.jobs), e.tracks);
    InsertAllPresent(t.tracks, Map(TrackInsert(t.jobs), e.tracks));
  }

  lemma ReplaySegments(t: Tables, e: Export, bots: map<int, int>)
    requires HoldsJobs(t, e, bots)
    ensures MergedSegments(t, e, bots) == Ok(t)
  {
    PresentEitherWay(t.segments, SegmentInsert(map[], bots), SegmentInsert(t.jobs, bots), e.segments);
    InsertAllPresent(t.segments, Map(SegmentInsert(t.jobs, bots), e.segments));
    PresentEitherWay(t.parts, PartInsert(map[], bots), PartInsert(t.jobs, bots), e.parts);
    InsertAllPresent(t.parts, Map(PartInsert(t.jobs, bots), e.parts));
  }

  lemma ReplayJobs(t: Tables, e: Export, bots: map<int, int>, later: int)
    requires HoldsJobs(t, e, bots)
    ensures MergedJobs(t, e, bots, later) == Ok(t)
  {
    ReplayTracks(t, e, bots, later);
    ReplaySegments(t, e, bots);
    UpsertUpToDate(t.progress, t.jobs, e.progress);
  }

  lemma ReplayLinks(t: Tables, e: Export) returns (entries: map<MetaKey, MetaEntry>)
    requires HoldsRest(t, e)
    ensures MergedLinks(t, e) == Ok(t.(metadata := entries)) && SameEntries(t.metadata, entries)
    ensures forall k :: DetailsOf(entries, k) == LastDetails(e.metadata, k, DetailsOf(t.metadata, k))
  {
    var s, known := MetaState(t.metadata, t.nextMetadataId, map[]), KnownIds(e.metadata);
    PresentMetaAgain(s, e.metadata);
    IdsAreKnown(s, e.metadata);
    var after := UpsertAllMeta(s, e.metadata).value;
    entries := after.entries;
    PresentEitherWay(t.jobLinks, JobLinkInsert(map[], map[], known), JobLinkInsert(t.jobs, entries, after.ids),
                     e.jobLinks);
    InsertAllPresent(t.jobLinks, Map(JobLinkInsert(t.jobs, entries, after.ids), e.jobLinks));
    PresentEitherWay(t.seriesLinks, SeriesLinkInsert(map[], known), SeriesLinkInsert(entries, after.ids),
                     e.seriesLinks);
    InsertAllPresent(t.seriesLinks, Map(SeriesLinkInsert(entries, after.ids), e.seriesLinks));
    forall k ensures DetailsOf(entries, k) == LastDetails(e.metadata, k, DetailsOf(t.metadata, k)) {
      MetadataIsLast(s, e.metadata, k);
    }
  }

  lemma ReplayMarkers(t: Tables, e: Export, entries: map<MetaKey, MetaEntry>)
    requires HoldsRest(t, e)
    ensures MergedMarkers(t.(metadata := entries), e) == Ok(t.(metadata := entries))
  {
    CoveredUnchanged(t.markers, t.jobs, e.markers);
    PresentEitherWay(t.fingerprints, FingerprintInsert(map[]), FingerprintInsert(t.jobs), e.fingerprints);
    InsertAllPresent(t.fingerprints, Map(FingerprintInsert(t.jobs), e.fingerprints));
  }

  /** The text of the last row of every exported key is what the table holds. */
  ghost predicate TextsStored(entries: map<MetaKey, MetaEntry>, rows: seq<MetaRow>) {
    forall k :: LastDetails(rows, k, None).Some? ==> DetailsOf(entries, k) == LastDetails(rows, k, None)
  }

  lemma {:induction false} LastOrOtherwise(rows: seq<MetaRow>, k: MetaKey, otherwise: Option<string>)
    ensures LastDetails(rows, k, otherwise)
      == if LastDetails(rows, k, None).Some? then LastDetails(rows, k, None) else otherwise
  {
    if rows != [] { LastOrOtherwise(rows[..|rows| - 1], k, otherwise); }
  }

  lemma SameTexts(a: map<MetaKey, MetaEntry>, b: map<MetaKey, MetaEntry>)
    requires SameEntries(a, b)
    ensures a == b <==> forall k :: DetailsOf(a, k) == DetailsOf(b, k)
  {
    if forall k :: DetailsOf(a, k) == DetailsOf(b, k) {
      forall k | k in a ensures a[k] == b[k] { assert DetailsOf(a, k) == DetailsOf(b, k); }
      assert a == b;
    }
  }

  lemma TextsDecide(before: map<MetaKey, MetaEntry>, after: map<MetaKey, MetaEntry>, rows: seq<MetaRow>)
    requires SameEntries(before, after)
    requires forall k :: DetailsOf(after, k) == LastDetails(rows, k, DetailsOf(before, k))
    ensures after == before <==> TextsStored(before, rows)
  {
    SameTexts(before, after);
    forall k ensures DetailsOf(after, k)
      == if LastDetails(rows, k, None).Some? then LastDetails(rows, k, None) else DetailsOf(before, k)
    {
      LastOrOtherwise(rows, k, DetailsOf(before, k));
    }
  }

  /** Merge exports in any order, then one of them once more: it succeeds, no row is added
      or removed, and every table is as it was except for metadata texts, which go back to
      those of that export. Nothing at all changes exactly when those texts are stored. */
  lemma ReplayChangesOnlyTexts(t: Tables, runs: seq<Run>, j: nat, later: int)
    requires MergedRuns(t, runs).Ok? && j < |runs|
    ensures var r, e := MergedRuns(t, runs).value, runs[j].library;
      var again := Merged(r, e, runs[j].bots, later);
      && again.Ok? && again.value == r.(metadata := again.value.metadata)
      && SameEntries(r.metadata, again.value.metadata)
      && (forall k :: DetailsOf(again.value.metadata, k) == LastDetails(e.metadata, k, DetailsOf(r.metadata, k)))
      && (again.value == r <==> TextsStored(r.metadata, e.metadata))
  {
    var r, run := MergedRuns(t, runs).value, runs[j];
    RunsHold(t, runs, j);
    ReplayJobs(r, run.library, run.bots, later);
    var entries := ReplayLinks(r, run.library);
    ReplayMarkers(r, run.library, entries);
    TextsDecide(r.metadata, entries, run.library.metadata);
  }

  /** A run that exports one metadata row. */
  function MetaRun(key: MetaKey, text: string): Run {
    Run(Export([], [], [], [], [], [MetaRow(1, key, text)], [], [], [], []), map[], 0)
  }

  lemma MetaRunIsSound(key: MetaKey, text: string)
    requires IsKnownMeta(key)
    ensures var run := MetaRun(key, text); SelfContained(run.library) && run.bots == SameBotMap(run.library)
  {
    assert BotIndices(MetaRun(key, text).library) == {};
  }

  /** Two exports with different texts for one key: the first text is not stored after both
      merges, and merging the first export once more brings it back. */
  lemma ReplayRestoresText(t: Tables, key: MetaKey, first: string, second: string)
    requires IsKnownMeta(key) && first != second
    ensures MergedRuns(t, [MetaRun(key, first), MetaRun(key, second)]).Ok?
    ensures var r := MergedRuns(t, [MetaRun(key, first), MetaRun(key, second)]).value;
      var again := Merged(r, MetaRun(key, first).library, map[], 1);
      && DetailsOf(r.metadata, key) == Some(second) && !TextsStored(r.metadata, [MetaRow(1, key, first)])
      && again.Ok? && DetailsOf(again.value.metadata, key) == Some(first) && again.value != r
  {
    var runs := [MetaRun(key, first), MetaRun(key, second)];
    MetaRunIsSound(key, first);
    MetaRunIsSound(key, second);
    SoundRunsSucceed(t, runs);
    var r := MergedRuns(t, runs).value;
    var before := LastRun(t, runs);
    MergedMetadataIsLast(before, runs[1].library, map[], 0, r, key);
    assert LastDetails([MetaRow(1, key, first)], key, None) == Some(first);
    ReplayChangesOnlyTexts(t, runs, 0, 1);
  }
}
