/** Where the rows of a merged library come from: every new row is an exported row, with
    its bot index mapped and its key split. */
module MergeContents {
  import opened Options
  import opened Folds
  import opened LibraryTables
  import opened LibraryMerge
  import opened MergeTheorems
  import opened RowColumns

  // --- INSERT OR IGNORE over mapped rows ---------------------------------------------

  /** An exported row that its table takes under a key. */
  ghost predicate Takes<T, K, V>(f: T -> Insert<K, V>, row: T, key: K) {
    f(row).Row? && f(row).checks && f(row).key == key
  }

  ghost predicate AnyTaken<T(!new), K, V>(f: T -> Insert<K, V>, rows: seq<T>, key: K) {
    exists row :: row in rows && Takes(f, row, key)
  }

  lemma KeysAfter<T(!new), K, V>(table: map<K, V>, f: T -> Insert<K, V>, rows: seq<T>, key: K)
    requires InsertAll(table, Map(f, rows)).Ok?
    ensures key in InsertAll(table, Map(f, rows)).value <==> key in table || AnyTaken(f, rows, key)
  {
    InsertAllKeys(table, Map(f, rows), key);
    if i :| Offers(Map(f, rows), i, key) { assert rows[i] in rows && Takes(f, rows[i], key); }
    if row :| row in rows && Takes(f, row, key) {
      var i :| 0 <= i < |rows| && rows[i] == row;
      assert Offers(Map(f, rows), i, key);
    }
  }

  ghost predicate IsFirstOffer<K, V>(rows: seq<Insert<K, V>>, i: int, key: K) {
    Offers(rows, i, key) && forall h :: 0 <= h < i ==> !Offers(rows, h, key)
  }

  lemma FirstInserted<K, V>(table: map<K, V>, init: seq<Insert<K, V>>, row: Insert<K, V>)
    requires InsertAll(table, init).Ok? && row.Row? && row.checks && row.key !in table
    requires forall h :: !Offers(init, h, row.key)
    requires InsertRow(InsertAll(table, init).value, row).Ok?
    ensures var after := InsertRow(InsertAll(table, init).value, row).value;
      row.key in after && after[row.key] == row.value
  {
    InsertAllKeys(table, init, row.key);
  }

  lemma {:induction false} FirstOfferIsKept<K, V>(table: map<K, V>, rows: seq<Insert<K, V>>, i: nat, key: K)
    requires InsertAll(table, rows).Ok? && key !in table && IsFirstOffer(rows, i, key)
    ensures key in InsertAll(table, rows).value && InsertAll(table, rows).value[key] == rows[i].value
    decreases |rows|
  {
    var init, n := rows[..|rows| - 1], |rows| - 1;
    assert forall h :: Offers(init, h, key) ==> Offers(rows, h, key);
    if i < n {
      FirstOfferIsKept(table, init, i, key);
      InsertRowExtends(InsertAll(table, init).value, rows[n], key);
    } else {
      FirstInserted(table, init, rows[n]);
    }
  }

  /** The first row of a key that the table takes. */
  ghost predicate IsFirst<T, K, V>(f: T -> Insert<K, V>, rows: seq<T>, i: int, key: K) {
    0 <= i < |rows| && Takes(f, rows[i], key) && forall h :: 0 <= h < i ==> !Takes(f, rows[h], key)
  }

  lemma FirstIsKept<T, K, V>(table: map<K, V>, f: T -> Insert<K, V>, rows: seq<T>, i: nat, key: K)
    requires InsertAll(table, Map(f, rows)).Ok? && key !in table && IsFirst(f, rows, i, key)
    ensures key in InsertAll(table, Map(f, rows)).value
    ensures InsertAll(table, Map(f, rows)).value[key] == f(rows[i]).value
  {
    forall h | 0 <= h < i ensures !Offers(Map(f, rows), h, key) { assert !Takes(f, rows[h], key); }
    FirstOfferIsKept(table, Map(f, rows), i, key);
  }
  ghost predicate FirstWhere<T>(rows: seq<T>, i: int, goesIn: T -> bool) {
    0 <= i < |rows| && goesIn(rows[i]) && forall h :: 0 <= h < i ==> !goesIn(rows[h])
  }

  lemma {:induction false} FirstExists<T>(rows: seq<T>, goesIn: T -> bool, n: nat) returns (i: nat)
    requires n < |rows| && goesIn(rows[n])
    ensures FirstWhere(rows, i, goesIn)
  {
    if h :| 0 <= h < n && goesIn(rows[h]) {
      i := FirstExists(rows, goesIn, h);
    } else {
      i := n;
    }
  }

  ghost predicate IsFirstRow<T, K, V>(f: T -> Insert<K, V>, goesIn: T -> bool, rows: seq<T>, i: int, value: V) {
    FirstWhere(rows, i, goesIn) && f(rows[i]).Row? && f(rows[i]).value == value
  }

  /** The new value of a key is that of the first exported row that goes in under it. */
  lemma FirstRowStays<T(!new), K, V>(table: map<K, V>, f: T -> Insert<K, V>, goesIn: T -> bool, rows: seq<T>, key: K)
    requires InsertAll(table, Map(f, rows)).Ok?
    requires forall row :: row in rows ==> (Takes(f, row, key) <==> goesIn(row))
    requires key !in table && key in InsertAll(table, Map(f, rows)).value
    ensures exists i :: IsFirstRow(f, goesIn, rows, i, InsertAll(table, Map(f, rows)).value[key])
  {
    KeysAfter(table, f, rows, key);
    var row :| row in rows && Takes(f, row, key);
    var n :| 0 <= n < |rows| && rows[n] == row;
    var i := FirstExists(rows, goesIn, n);
    assert IsFirst(f, rows, i, key);
    FirstIsKept(table, f, rows, i, key);
    assert IsFirstRow(f, goesIn, rows, i, InsertAll(table, Map(f, rows)).value[key]);
  }

  lemma {:induction false} BadRowFails<K, V>(table: map<K, V>, rows: seq<Insert<K, V>>, i: nat)
    requires i < |rows| && rows[i].Bad?
    ensures InsertAll(table, rows).Err?
    decreases |rows|
  {
    if i < |rows| - 1 { BadRowFails(table, rows[..|rows| - 1], i); }
  }

  lemma NoBadRows<T, K, V>(table: map<K, V>, f: T -> Insert<K, V>, rows: seq<T>, row: T)
    requires InsertAll(table, Map(f, rows)).Ok? && row in rows
    ensures f(row).Row?
  {
    var i :| 0 <= i < |rows| && rows[i] == row;
    if f(row).Bad? { BadRowFails(table, Map(f, rows), i); }
  }

  // --- Table by table, told by columns -----------------------------------------------

  ghost function JobFor(k: string): JobRow -> bool { (j: JobRow) => j.jobId == k && JobGoesIn(j) }

  ghost predicate IsStoredJob(j: JobRow, now: int, v: Job) { v.createdAtUnix == now && IsNormalised(j, v.row) }

  /** Afterwards there are the jobs that were there and the exported ones that go in; a new
      job is the first exported one of its id, normalised and stamped with the clock. */
  lemma JobsExactly(t: Tables, e: Export, bots: map<int, int>, now: int, r: Tables, k: string)
    requires Merged(t, e, bots, now) == Ok(r)
    ensures k in r.jobs <==> k in t.jobs || exists j :: j in e.jobs && j.jobId == k && JobGoesIn(j)
    ensures k in r.jobs && k !in t.jobs ==>
      exists i :: FirstWhere(e.jobs, i, JobFor(k)) && IsStoredJob(e.jobs[i], now, r.jobs[k])
  {
    var _, ids := MergedStages(t, e, bots, now);
    forall j | j in e.jobs ensures Takes(JobInsert(now), j, k) <==> JobFor(k)(j) { JobByColumns(j, now); }
    KeysAfter(t.jobs, JobInsert(now), e.jobs, k);
    if k in r.jobs && k !in t.jobs {
      FirstRowStays(t.jobs, JobInsert(now), JobFor(k), e.jobs, k);
      var i :| IsFirstRow(JobInsert(now), JobFor(k), e.jobs, i, r.jobs[k]);
      JobByColumns(e.jobs[i], now);
    }
  }

  ghost function TrackFor(k: TrackKey): TrackRow -> bool { (x: TrackRow) => x.key == k && TrackGoesIn(x) }

  /** The same for tracks. */
  lemma TracksExactly(t: Tables, e: Export, bots: map<int, int>, now: int, r: Tables, k: TrackKey)
    requires Merged(t, e, bots, now) == Ok(r)
    ensures k in r.tracks <==> k in t.tracks || exists x :: x in e.tracks && x.key == k && TrackGoesIn(x)
    ensures k in r.tracks && k !in t.tracks ==>
      exists i :: FirstWhere(e.tracks, i, TrackFor(k)) && r.tracks[k] == e.tracks[i]
  {
    var _, ids := MergedStages(t, e, bots, now);
    forall x | x in e.tracks ensures Takes(TrackInsert(r.jobs), x, k) <==> TrackFor(k)(x) {}
    KeysAfter(t.tracks, TrackInsert(r.jobs), e.tracks, k);
    if k in r.tracks && k !in t.tracks {
      FirstRowStays(t.tracks, TrackInsert(r.jobs), TrackFor(k), e.tracks, k);
      var i :| IsFirstRow(TrackInsert(r.jobs), TrackFor(k), e.tracks, i, r.tracks[k]);
    }
  }

  ghost function SegmentFor(k: SegmentKey, bots: map<int, int>): SegmentRow -> bool {
    (s: SegmentRow) => s.key == k && SegmentGoesIn(s, bots)
  }

  ghost predicate IsStoredSegment(s: SegmentRow, bots: map<int, int>, v: Segment) {
    && v.fileId == s.fileId && s.botIndex in bots && v.botIndex == bots[s.botIndex] && v.rest == s.rest
    && s.key.segmentKey == v.prefix + "/" + v.name && '/' !in v.prefix
  }

  lemma SegmentByColumns(s: SegmentRow, jobs: map<string, Job>, bots: map<int, int>)
    ensures s.botIndex in bots ==> var row := InsertOfSegment(s, jobs, bots);
      row.Row? && row.key == s.key && (row.checks <==> SegmentGoesIn(s, bots))
        && (row.checks ==> IsStoredSegment(s, bots, row.value))
    ensures s.botIndex !in bots ==> InsertOfSegment(s, jobs, bots).Bad?
  {
  }

  /** For segments: a new one is stored under its mapped bot, its key cut at the first slash. */
  lemma SegmentsExactly(t: Tables, e: Export, bots: map<int, int>, now: int, r: Tables, k: SegmentKey)
    requires Merged(t, e, bots, now) == Ok(r)
    ensures k in r.segments <==> k in t.segments || exists s :: s in e.segments && s.key == k && SegmentGoesIn(s, bots)
    ensures k in r.segments && k !in t.segments ==>
      exists i :: FirstWhere(e.segments, i, SegmentFor(k, bots)) && IsStoredSegment(e.segments[i], bots, r.segments[k])
  {
    var _, ids := MergedStages(t, e, bots, now);
    var f := SegmentInsert(r.jobs, bots);
    forall s | s in e.segments ensures Takes(f, s, k) <==> SegmentFor(k, bots)(s) { SegmentByColumns(s, r.jobs, bots); }
    KeysAfter(t.segments, f, e.segments, k);
    if k in r.segments && k !in t.segments {
      FirstRowStays(t.segments, f, SegmentFor(k, bots), e.segments, k);
      var i :| IsFirstRow(f, SegmentFor(k, bots), e.segments, i, r.segments[k]);
      SegmentByColumns(e.segments[i], r.jobs, bots);
    }
  }

  ghost function PartFor(k: PartKey, bots: map<int, int>): PartRow -> bool {
    (p: PartRow) => p.key == k && PartGoesIn(p, bots)
  }

  ghost predicate IsStoredPart(p: PartRow, bots: map<int, int>, v: SegmentPart) {
    && v.fileId == p.fileId && p.botIndex in bots && v.botIndex == bots[p.botIndex] && v.fileSize == p.fileSize
    && v.rest == p.rest && p.key.segmentKey == v.prefix + "/" + v.name && '/' !in v.prefix
  }

  lemma PartByColumns(p: PartRow, jobs: map<string, Job>, bots: map<int, int>)
    ensures p.botIndex in bots ==> var row := InsertOfPart(p, jobs, bots);
      row.Row? && row.key == p.key && (row.checks <==> PartGoesIn(p, bots))
        && (row.checks ==> IsStoredPart(p, bots, row.value))
    ensures p.botIndex !in bots ==> InsertOfPart(p, jobs, bots).Bad?
  {
  }

  /** And for the parts of split segments. */
  lemma PartsExactly(t: Tables, e: Export, bots: map<int, int>, now: int, r: Tables, k: PartKey)
    requires Merged(t, e, bots, now) == Ok(r)
    ensures k in r.parts <==> k in t.parts || exists p :: p in e.parts && p.key == k && PartGoesIn(p, bots)
    ensures k in r.parts && k !in t.parts ==>
      exists i :: FirstWhere(e.parts, i, PartFor(k, bots)) && IsStoredPart(e.parts[i], bots, r.parts[k])
  {
    var _, ids := MergedStages(t, e, bots, now);
    var f := PartInsert(r.jobs, bots);
    forall p | p in e.parts ensures Takes(f, p, k) <==> PartFor(k, bots)(p) { PartByColumns(p, r.jobs, bots); }
    KeysAfter(t.parts, f, e.parts, k);
    if k in r.parts && k !in t.parts {
      FirstRowStays(t.parts, f, PartFor(k, bots), e.parts, k);
      var i :| IsFirstRow(f, PartFor(k, bots), e.parts, i, r.parts[k]);
      PartByColumns(e.parts[i], r.jobs, bots);
    }
  }

  ghost function JobLinkFor(k: JobLinkKey): JobLinkRow -> bool { (l: JobLinkRow) => l.key == k && JobLinkGoesIn(l) }

  lemma JobLinkByColumns(l: JobLinkRow, jobs: map<string, Job>, metadata: map<MetaKey, MetaEntry>, ids: map<int, int>)
    requires InsertOfJobLink(l, jobs, metadata, ids).Row?
    ensures var row := InsertOfJobLink(l, jobs, metadata, ids);
      row.key == l.key && (row.checks <==> JobLinkGoesIn(l)) && row.value.createdAt == l.createdAt
  {
  }

  /** For links of jobs to metadata: only primary and episode links go in. */
  lemma JobLinksExactly(t: Tables, e: Export, bots: map<int, int>, now: int, r: Tables, k: JobLinkKey)
    requires Merged(t, e, bots, now) == Ok(r)
    ensures k in r.jobLinks <==> k in t.jobLinks || exists l :: l in e.jobLinks && l.key == k && JobLinkGoesIn(l)
    ensures k in r.jobLinks && k !in t.jobLinks ==>
      exists i :: FirstWhere(e.jobLinks, i, JobLinkFor(k)) && r.jobLinks[k].createdAt == e.jobLinks[i].createdAt
  {
    var _, ids := MergedStages(t, e, bots, now);
    var f := JobLinkInsert(r.jobs, r.metadata, ids);
    forall l | l in e.jobLinks ensures Takes(f, l, k) <==> JobLinkFor(k)(l) {
      NoBadRows(t.jobLinks, f, e.jobLinks, l);
      JobLinkByColumns(l, r.jobs, r.metadata, ids);
    }
    KeysAfter(t.jobLinks, f, e.jobLinks, k);
    if k in r.jobLinks && k !in t.jobLinks {
      FirstRowStays(t.jobLinks, f, JobLinkFor(k), e.jobLinks, k);
      var i :| IsFirstRow(f, JobLinkFor(k), e.jobLinks, i, r.jobLinks[k]);
      JobLinkByColumns(e.jobLinks[i], r.jobs, r.metadata, ids);
    }
  }

  ghost function SeriesLinkFor(k: SeriesLinkKey): SeriesLinkRow -> bool { (l: SeriesLinkRow) => l.key == k }

  /** Every link of a series goes in. */
  lemma SeriesLinksExactly(t: Tables, e: Export, bots: map<int, int>, now: int, r: Tables, k: SeriesLinkKey)
    requires Merged(t, e, bots, now) == Ok(r)
    ensures k in r.seriesLinks <==> k in t.seriesLinks || exists l :: l in e.seriesLinks && l.key == k
    ensures k in r.seriesLinks && k !in t.seriesLinks ==>
      exists i ::
        FirstWhere(e.seriesLinks, i, SeriesLinkFor(k)) && r.seriesLinks[k].createdAt == e.seriesLinks[i].createdAt
  {
    var _, ids := MergedStages(t, e, bots, now);
    var f := SeriesLinkInsert(r.metadata, ids);
    forall l | l in e.seriesLinks ensures Takes(f, l, k) <==> SeriesLinkFor(k)(l) {
      NoBadRows(t.seriesLinks, f, e.seriesLinks, l);
    }
    KeysAfter(t.seriesLinks, f, e.seriesLinks, k);
    if k in r.seriesLinks && k !in t.seriesLinks {
      FirstRowStays(t.seriesLinks, f, SeriesLinkFor(k), e.seriesLinks, k);
      var i :| IsFirstRow(f, SeriesLinkFor(k), e.seriesLinks, i, r.seriesLinks[k]);
    }
  }

  ghost function FingerprintFor(k: FingerprintKey): FingerprintRow -> bool {
    (f: FingerprintRow) => f.key == k && FingerprintGoesIn(f)
  }

  /** Fingerprints of the two windows go in. */
  lemma FingerprintsExactly(t: Tables, e: Export, bots: map<int, int>, now: int, r: Tables, k: FingerprintKey)
    requires Merged(t, e, bots, now) == Ok(r)
    ensures k in r.fingerprints <==>
      k in t.fingerprints || exists f :: f in e.fingerprints && f.key == k && FingerprintGoesIn(f)
    ensures k in r.fingerprints && k !in t.fingerprints ==>
      exists i :: FirstWhere(e.fingerprints, i, FingerprintFor(k)) && r.fingerprints[k] == e.fingerprints[i]
  {
    var _, ids := MergedStages(t, e, bots, now);
    var f := FingerprintInsert(r.jobs);
    forall x | x in e.fingerprints ensures Takes(f, x, k) <==> FingerprintFor(k)(x) {}
    KeysAfter(t.fingerprints, f, e.fingerprints, k);
    if k in r.fingerprints && k !in t.fingerprints {
      FirstRowStays(t.fingerprints, f, FingerprintFor(k), e.fingerprints, k);
      var i :| IsFirstRow(f, FingerprintFor(k), e.fingerprints, i, r.fingerprints[k]);
    }
  }

  /** A marker that no marker before it is near to. */
  ghost predicate IsNewMarker(table: seq<MediaMarker>, rows: seq<MediaMarker>, i: int) {
    && 0 <= i < |rows|
    && (forall m :: m in table ==> !IsNearMarker(m, rows[i]))
    && (forall h :: 0 <= h < i ==> !IsNearMarker(rows[h], rows[i]))
  }

  /** Markers beyond those that were there are exported ones without a near-equal before them. */
  lemma {:induction false} NewMarkersAreExported<J>(table: seq<MediaMarker>, jobs: map<string, J>,
                                                    rows: seq<MediaMarker>, i: nat)
    requires AddAllMarkers(table, jobs, rows).Ok?
    requires |table| <= i < |AddAllMarkers(table, jobs, rows).value|
    ensures AddAllMarkers(table, jobs, rows).value[i] in rows
    ensures !HasNear(AddAllMarkers(table, jobs, rows).value[..i], AddAllMarkers(table, jobs, rows).value[i])
  {
    var init, m := rows[..|rows| - 1], rows[|rows| - 1];
    var before := AddAllMarkers(table, jobs, init).value;
    MarkersCovered(table, jobs, init);
    var after := AddAllMarkers(table, jobs, rows).value;
    if i < |before| {
      NewMarkersAreExported(table, jobs, init, i);
      assert after[..i] == before[..i];
    } else {
      assert after[..i] == before;
    }
  }

  /** The metadata text of a key after the merge: that of the last exported row with the
      key, or else what was there. */
  ghost function LastDetails(rows: seq<MetaRow>, k: MetaKey, otherwise: Option<string>): Option<string> {
    if rows == [] then otherwise
    else if rows[|rows| - 1].key == k then Some(rows[|rows| - 1].details)
    else LastDetails(rows[..|rows| - 1], k, otherwise)
  }

  ghost function DetailsOf(entries: map<MetaKey, MetaEntry>, k: MetaKey): Option<string> {
    if k in entries then Some(entries[k].details) else None
  }

  lemma {:induction false} MetadataIsLast(s: MetaState, rows: seq<MetaRow>, k: MetaKey)
    requires UpsertAllMeta(s, rows).Ok?
    ensures DetailsOf(UpsertAllMeta(s, rows).value.entries, k) == LastDetails(rows, k, DetailsOf(s.entries, k))
  {
    if rows != [] { MetadataIsLast(s, rows[..|rows| - 1], k); }
  }

  /** After the merge every metadata row holds the text of the last exported row with its
      key, and the others are as they were. */
  lemma MergedMetadataIsLast(t: Tables, e: Export, bots: map<int, int>, now: int, r: Tables, k: MetaKey)
    requires Merged(t, e, bots, now) == Ok(r)
    ensures DetailsOf(r.metadata, k) == LastDetails(e.metadata, k, DetailsOf(t.metadata, k))
  {
    var _, ids := MergedStages(t, e, bots, now);
    MetadataIsLast(MetaState(t.metadata, t.nextMetadataId, map[]), e.metadata, k);
  }

  lemma MergedMarkersAreExported(t: Tables, e: Export, bots: map<int, int>, now: int, r: Tables, i: nat)
    requires Merged(t, e, bots, now) == Ok(r) && |t.markers| <= i < |r.markers|
    ensures r.markers[i] in e.markers && IsNewMarker([], r.markers, i)
  {
    var _, ids := MergedStages(t, e, bots, now);
    NewMarkersAreExported(t.markers, r.jobs, e.markers, i);
    forall h | 0 <= h < i ensures !IsNearMarker(r.markers[h], r.markers[i]) {
      assert !NearEqual(r.markers[..i][h], r.markers[i]);
    }
  }

  // --- Missing map entries -----------------------------------------------------------

  lemma BadSegmentFails(table: map<SegmentKey, Segment>, e: Export, jobs: map<string, Job>, bots: map<int, int>,
                        s: SegmentRow)
    requires s in e.segments && s.botIndex !in bots
    ensures InsertAll(table, Map(SegmentInsert(jobs, bots), e.segments)).Err?
  {
    var i :| 0 <= i < |e.segments| && e.segments[i] == s;
    BadRowFails(table, Map(SegmentInsert(jobs, bots), e.segments), i);
  }

  lemma BadPartFails(table: map<PartKey, SegmentPart>, e: Export, jobs: map<string, Job>, bots: map<int, int>,
                     p: PartRow)
    requires p in e.parts && p.botIndex !in bots
    ensures InsertAll(table, Map(PartInsert(jobs, bots), e.parts)).Err?
  {
    var i :| 0 <= i < |e.parts| && e.parts[i] == p;
    BadRowFails(table, Map(PartInsert(jobs, bots), e.parts), i);
  }

  /** A segment or part whose bot index the map does not have makes the merge fail, even
      if the row is there already. */
  lemma MissingBotIndexFails(t: Tables, e: Export, bots: map<int, int>, now: int)
    requires (exists s :: s in e.segments && s.botIndex !in bots) || (exists p :: p in e.parts && p.botIndex !in bots)
    ensures Merged(t, e, bots, now).Err?
  {
    if Merged(t, e, bots, now).Ok? {
      var r, ids := MergedStages(t, e, bots, now);
      if s :| s in e.segments && s.botIndex !in bots {
        BadSegmentFails(t.segments, e, r.jobs, bots, s);
      } else {
        var p :| p in e.parts && p.botIndex !in bots;
        BadPartFails(t.parts, e, r.jobs, bots, p);
      }
    }
  }

  // --- Rows that stop the merge ------------------------------------------------------

  lemma {:induction false} MetaIsKnown(s: MetaState, rows: seq<MetaRow>, m: MetaRow)
    requires UpsertAllMeta(s, rows).Ok? && m in rows
    ensures IsKnownMeta(m.key)
  {
    if m != rows[|rows| - 1] { MetaIsKnown(s, rows[..|rows| - 1], m); }
  }

  lemma ProgressIsSound(table: map<ProgressKey, Progress>, jobs: map<string, Job>, rows: seq<Progress>, p: Progress)
    requires UpsertAllProgress(table, jobs, rows).Ok? && p in rows
    ensures IsSoundProgress(p)
  {
    UpsertMakesUpToDate(table, jobs, rows);
  }

  lemma NothingNear(table: seq<MediaMarker>, jobs: map<string, Job>, rows: seq<MediaMarker>, i: nat)
    requires IsNewMarker(table, rows, i) && AddAllMarkers(table, jobs, rows[..i]).Ok?
    ensures !HasNear(AddAllMarkers(table, jobs, rows[..i]).value, rows[i])
  {
    var after := AddAllMarkers(table, jobs, rows[..i]).value;
    MarkersCovered(table, jobs, rows[..i]);
    forall j | 0 <= j < |after| ensures !NearEqual(after[j], rows[i]) {
      if j < |table| {
        assert after[j] in table;
        NearByColumns(after[j], rows[i]);
      } else {
        NewMarkersAreExported(table, jobs, rows[..i], j);
        var h :| 0 <= h < i && rows[h] == after[j];
        NearByColumns(rows[h], rows[i]);
      }
    }
  }

  lemma NewMarkerIsSound(table: seq<MediaMarker>, jobs: map<string, Job>, rows: seq<MediaMarker>, i: nat)
    requires AddAllMarkers(table, jobs, rows).Ok? && IsNewMarker(table, rows, i)
    ensures IsSoundMarker(rows[i])
  {
    if AddAllMarkers(table, jobs, rows[..i + 1]).Err? { AddAllFails(table, jobs, rows, i + 1); }
    assert rows[..i + 1][..i] == rows[..i];
    NothingNear(table, jobs, rows, i);
  }

  /** Progress outside its ranges, metadata of an unknown provider or kind, and a new marker
      of an unknown kind or source or outside its ranges: each makes the merge fail. */
  lemma UnsoundRowFails(t: Tables, e: Export, bots: map<int, int>, now: int)
    requires (exists p :: p in e.progress && !IsSoundProgress(p))
      || (exists m :: m in e.metadata && !IsKnownMeta(m.key))
      || (exists i :: IsNewMarker(t.markers, e.markers, i) && !IsSoundMarker(e.markers[i]))
    ensures Merged(t, e, bots, now).Err?
  {
    if Merged(t, e, bots, now).Ok? {
      var r, ids := MergedStages(t, e, bots, now);
      if p :| p in e.progress && !IsSoundProgress(p) {
        ProgressIsSound(t.progress, r.jobs, e.progress, p);
      } else if m :| m in e.metadata && !IsKnownMeta(m.key) {
        MetaIsKnown(MetaState(t.metadata, t.nextMetadataId, map[]), e.metadata, m);
      } else {
        var i :| IsNewMarker(t.markers, e.markers, i) && !IsSoundMarker(e.markers[i]);
        NewMarkerIsSound(t.markers, r.jobs, e.markers, i);
      }
    }
  }
}
