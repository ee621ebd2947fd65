/** References after a merge: children keep their jobs, links keep and find their
    metadata, and a library exported by this program always merges. */
module MergeIntegrity {
  import opened Options
  import opened Folds
  import opened LibraryTables
  import opened LibraryMerge
  import opened MergeTheorems
  import opened RowColumns

  // --- Referential integrity ---------------------------------------------------------

  ghost predicate ChildrenHaveJobs(t: Tables) {
    && (forall k :: k in t.tracks ==> k.jobId in t.jobs)
    && (forall k :: k in t.segments ==> k.jobId in t.jobs)
    && (forall k :: k in t.parts ==> k.jobId in t.jobs)
    && (forall k :: k in t.progress ==> k.jobId in t.jobs)
    && (forall k :: k in t.jobLinks ==> k.jobId in t.jobs)
    && (forall k :: k in t.fingerprints ==> k.jobId in t.jobs)
    && (forall i :: 0 <= i < |t.markers| ==> t.markers[i].jobId in t.jobs)
  }

  ghost predicate LinksHaveMetadata(t: Tables) {
    && (forall k :: k in t.jobLinks ==> HasId(t.metadata, t.jobLinks[k].metadataId))
    && (forall k :: k in t.seriesLinks ==> HasId(t.metadata, t.seriesLinks[k].metadataId))
  }

  ghost predicate IdsUnique(entries: map<MetaKey, MetaEntry>, nextId: int) {
    && (forall k :: k in entries ==> entries[k].id < nextId)
    && (forall k, l :: k in entries && l in entries && entries[k].id == entries[l].id ==> k == l)
  }

  ghost predicate Valid(t: Tables) {
    ChildrenHaveJobs(t) && LinksHaveMetadata(t) && IdsUnique(t.metadata, t.nextMetadataId)
  }

  // The children of one table: those that were there had their jobs, and new ones are
  // checked against the jobs.

  lemma TracksHaveJobs(t: Tables, e: Export, bots: map<int, int>, now: int, r: Tables, ids: map<int, int>, k: TrackKey)
    requires Stages(t, e, bots, now, r, ids) && Extends(t.jobs, r.jobs) && ChildrenHaveJobs(t) && k in r.tracks
    ensures k.jobId in r.jobs
  {
    if k !in t.tracks { InsertAllNew(t.tracks, Map(TrackInsert(r.jobs), e.tracks), k); }
  }

  lemma SegmentsHaveJobs(t: Tables, e: Export, bots: map<int, int>, now: int, r: Tables, ids: map<int, int>,
                         k: SegmentKey)
    requires Stages(t, e, bots, now, r, ids) && Extends(t.jobs, r.jobs) && ChildrenHaveJobs(t) && k in r.segments
    ensures k.jobId in r.jobs
  {
    if k !in t.segments { InsertAllNew(t.segments, Map(SegmentInsert(r.jobs, bots), e.segments), k); }
  }

  lemma PartsHaveJobs(t: Tables, e: Export, bots: map<int, int>, now: int, r: Tables, ids: map<int, int>, k: PartKey)
    requires Stages(t, e, bots, now, r, ids) && Extends(t.jobs, r.jobs) && ChildrenHaveJobs(t) && k in r.parts
    ensures k.jobId in r.jobs
  {
    if k !in t.parts { InsertAllNew(t.parts, Map(PartInsert(r.jobs, bots), e.parts), k); }
  }

  lemma FingerprintsHaveJobs(t: Tables, e: Export, bots: map<int, int>, now: int, r: Tables, ids: map<int, int>,
                             k: FingerprintKey)
    requires Stages(t, e, bots, now, r, ids) && Extends(t.jobs, r.jobs) && ChildrenHaveJobs(t) && k in r.fingerprints
    ensures k.jobId in r.jobs
  {
    if k !in t.fingerprints { InsertAllNew(t.fingerprints, Map(FingerprintInsert(r.jobs), e.fingerprints), k); }
  }

  lemma {:induction false} ProgressHasJobs<J>(table: map<ProgressKey, Progress>, jobs: map<string, J>,
                                              rows: seq<Progress>, k: ProgressKey)
    requires UpsertAllProgress(table, jobs, rows).Ok? && k in UpsertAllProgress(table, jobs, rows).value
    ensures k in table || k.jobId in jobs
  {
    if rows != [] {
      var before := UpsertAllProgress(table, jobs, rows[..|rows| - 1]).value;
      if k in before { ProgressHasJobs(table, jobs, rows[..|rows| - 1], k); }
    }
  }

  lemma {:induction false} MarkersHaveJobs<J>(table: seq<MediaMarker>, jobs: map<string, J>, rows: seq<MediaMarker>)
    requires AddAllMarkers(table, jobs, rows).Ok?
    requires forall i :: 0 <= i < |table| ==> table[i].jobId in jobs
    ensures var after := AddAllMarkers(table, jobs, rows).value; forall i :: 0 <= i < |after| ==> after[i].jobId in jobs
  {
    if rows != [] { MarkersHaveJobs(table, jobs, rows[..|rows| - 1]); }
  }

  lemma JobLinkIsSound(t: Tables, e: Export, bots: map<int, int>, now: int, r: Tables, ids: map<int, int>,
                       k: JobLinkKey)
    requires Stages(t, e, bots, now, r, ids) && k in r.jobLinks && k !in t.jobLinks
    ensures k.jobId in r.jobs && HasId(r.metadata, r.jobLinks[k].metadataId)
    ensures exists l ::
      l in e.jobLinks && l.key == k && l.metadataId in ids && ids[l.metadataId] == r.jobLinks[k].metadataId
  {
    var rows := Map(JobLinkInsert(r.jobs, r.metadata, ids), e.jobLinks);
    InsertAllNew(t.jobLinks, rows, k);
    var i :| 0 <= i < |rows| && rows[i] == Row(k, r.jobLinks[k], true, true);
    assert rows[i] == InsertOfJobLink(e.jobLinks[i], r.jobs, r.metadata, ids);
    assert e.jobLinks[i] in e.jobLinks;
  }

  lemma SeriesLinkIsSound(t: Tables, e: Export, bots: map<int, int>, now: int, r: Tables, ids: map<int, int>,
                          k: SeriesLinkKey)
    requires Stages(t, e, bots, now, r, ids) && k in r.seriesLinks && k !in t.seriesLinks
    ensures HasId(r.metadata, r.seriesLinks[k].metadataId)
    ensures exists l ::
      l in e.seriesLinks && l.key == k && l.metadataId in ids && ids[l.metadataId] == r.seriesLinks[k].metadataId
  {
    var rows := Map(SeriesLinkInsert(r.metadata, ids), e.seriesLinks);
    InsertAllNew(t.seriesLinks, rows, k);
    var i :| 0 <= i < |rows| && rows[i] == Row(k, r.seriesLinks[k], true, true);
    assert rows[i] == InsertOfSeriesLink(e.seriesLinks[i], r.metadata, ids);
    assert e.seriesLinks[i] in e.seriesLinks;
  }

  lemma HasIdStays(before: map<MetaKey, MetaEntry>, after: map<MetaKey, MetaEntry>, id: int)
    requires IdsStay(before, after) && HasId(before, id)
    ensures HasId(after, id)
  {
    var k :| k in before && before[k].id == id;
    assert k in after && after[k].id == id;
  }

  lemma {:induction false} MetaKeepsUnique(s: MetaState, rows: seq<MetaRow>)
    requires UpsertAllMeta(s, rows).Ok? && IdsUnique(s.entries, s.nextId)
    ensures IdsUnique(UpsertAllMeta(s, rows).value.entries, UpsertAllMeta(s, rows).value.nextId)
  {
    if rows != [] { MetaKeepsUnique(s, rows[..|rows| - 1]); }
  }

  lemma MergeKeepsChildren(t: Tables, e: Export, bots: map<int, int>, now: int, r: Tables, ids: map<int, int>)
    requires Stages(t, e, bots, now, r, ids) && Extends(t.jobs, r.jobs) && ChildrenHaveJobs(t)
    ensures ChildrenHaveJobs(r)
  {
    forall k | k in r.tracks ensures k.jobId in r.jobs { TracksHaveJobs(t, e, bots, now, r, ids, k); }
    forall k | k in r.segments ensures k.jobId in r.jobs { SegmentsHaveJobs(t, e, bots, now, r, ids, k); }
    forall k | k in r.parts ensures k.jobId in r.jobs { PartsHaveJobs(t, e, bots, now, r, ids, k); }
    forall k | k in r.progress ensures k.jobId in r.jobs { ProgressHasJobs(t.progress, r.jobs, e.progress, k); }
    forall k | k in r.jobLinks ensures k.jobId in r.jobs {
      if k !in t.jobLinks { JobLinkIsSound(t, e, bots, now, r, ids, k); }
    }
    forall k | k in r.fingerprints ensures k.jobId in r.jobs { FingerprintsHaveJobs(t, e, bots, now, r, ids, k); }
    MarkersHaveJobs(t.markers, r.jobs, e.markers);
  }

  lemma MergeKeepsLinks(t: Tables, e: Export, bots: map<int, int>, now: int, r: Tables, ids: map<int, int>)
    requires Stages(t, e, bots, now, r, ids) && LinksHaveMetadata(t)
    requires Extends(t.jobLinks, r.jobLinks) && Extends(t.seriesLinks, r.seriesLinks) && IdsStay(t.metadata, r.metadata)
    ensures LinksHaveMetadata(r)
  {
    forall k | k in r.jobLinks ensures HasId(r.metadata, r.jobLinks[k].metadataId) {
      if k in t.jobLinks { HasIdStays(t.metadata, r.metadata, t.jobLinks[k].metadataId); }
      else { JobLinkIsSound(t, e, bots, now, r, ids, k); }
    }
    forall k | k in r.seriesLinks ensures HasId(r.metadata, r.seriesLinks[k].metadataId) {
      if k in t.seriesLinks { HasIdStays(t.metadata, r.metadata, t.seriesLinks[k].metadataId); }
      else { SeriesLinkIsSound(t, e, bots, now, r, ids, k); }
    }
  }

  /** A merge of any export leaves every reference intact and metadata ids unique. */
  lemma MergeKeepsValid(t: Tables, e: Export, bots: map<int, int>, now: int)
    requires Valid(t) && Merged(t, e, bots, now).Ok?
    ensures Valid(Merged(t, e, bots, now).value)
  {
    var r, ids := MergedStages(t, e, bots, now);
    MergePreserves(t, e, bots, now);
    MergeKeepsChildren(t, e, bots, now, r, ids);
    MergeKeepsLinks(t, e, bots, now, r, ids);
    MetaKeepsUnique(MetaState(t.metadata, t.nextMetadataId, map[]), e.metadata);
  }

  // --- Links find their metadata again -----------------------------------------------

  /** A source id is mapped to the entry of a source row with that id. */
  ghost predicate PointsHome(rows: seq<MetaRow>, id: int, entries: map<MetaKey, MetaEntry>, target: int) {
    exists i :: 0 <= i < |rows| && rows[i].id == id && rows[i].key in entries && entries[rows[i].key].id == target
  }

  lemma {:induction false} IdsPointHome(s: MetaState, rows: seq<MetaRow>, id: int)
    requires s.ids == map[] && UpsertAllMeta(s, rows).Ok?
    requires id in UpsertAllMeta(s, rows).value.ids
    ensures PointsHome(rows, id, UpsertAllMeta(s, rows).value.entries, UpsertAllMeta(s, rows).value.ids[id])
  {
    if rows != [] {
      var init, n := rows[..|rows| - 1], |rows| - 1;
      var before, after := UpsertAllMeta(s, init).value, UpsertAllMeta(s, rows).value;
      if rows[n].id == id {
        assert rows[n].key in after.entries && after.entries[rows[n].key].id == after.ids[id];
      } else {
        IdsPointHome(s, init, id);
        var i :| 0 <= i < |init| && init[i].id == id && init[i].key in before.entries
          && before.entries[init[i].key].id == before.ids[id];
        assert rows[i] == init[i] && rows[i].key in after.entries;
        assert after.entries[rows[i].key].id == before.entries[rows[i].key].id;
      }
    }
  }

  /** A new job link points to the row with the key its metadata has in the export. */
  lemma NewJobLinkPointsHome(t: Tables, e: Export, bots: map<int, int>, now: int, k: JobLinkKey)
    requires Merged(t, e, bots, now).Ok?
    requires k in Merged(t, e, bots, now).value.jobLinks && k !in t.jobLinks
    ensures var r := Merged(t, e, bots, now).value;
      exists l ::
        l in e.jobLinks && l.key == k && PointsHome(e.metadata, l.metadataId, r.metadata, r.jobLinks[k].metadataId)
  {
    var r, ids := MergedStages(t, e, bots, now);
    JobLinkIsSound(t, e, bots, now, r, ids, k);
    var l :| l in e.jobLinks && l.key == k && l.metadataId in ids && ids[l.metadataId] == r.jobLinks[k].metadataId;
    IdsPointHome(MetaState(t.metadata, t.nextMetadataId, map[]), e.metadata, l.metadataId);
  }

  lemma NewSeriesLinkPointsHome(t: Tables, e: Export, bots: map<int, int>, now: int, k: SeriesLinkKey)
    requires Merged(t, e, bots, now).Ok?
    requires k in Merged(t, e, bots, now).value.seriesLinks && k !in t.seriesLinks
    ensures var r := Merged(t, e, bots, now).value;
      exists l ::
        l in e.seriesLinks && l.key
          == k && PointsHome(e.metadata, l.metadataId, r.metadata, r.seriesLinks[k].metadataId)
  {
    var r, ids := MergedStages(t, e, bots, now);
    SeriesLinkIsSound(t, e, bots, now, r, ids, k);
    var l :| l in e.seriesLinks && l.key == k && l.metadataId in ids
      && ids[l.metadataId] == r.seriesLinks[k].metadataId;
    IdsPointHome(MetaState(t.metadata, t.nextMetadataId, map[]), e.metadata, l.metadataId);
  }

  // --- Merging a library of this program always succeeds -----------------------------

  /** A stored job has its key, meets the checks, and is in its normal form. */
  ghost predicate IsSoundJob(k: string, row: JobRow) { row.jobId == k && JobGoesIn(row) && IsNormalised(row, row) }

  /** What every stored row satisfies because its table checks it. */
  ghost predicate Checked(t: Tables) {
    && (forall k :: k in t.jobs ==> IsSoundJob(k, t.jobs[k].row))
    && (forall k :: k in t.progress ==> IsSoundProgress(t.progress[k]))
    && (forall k :: k in t.metadata ==> IsKnownMeta(k))
    && (forall i :: 0 <= i < |t.markers| ==> IsSoundMarker(t.markers[i]))
  }

  ghost predicate ExportsJobs(e: Export, src: Tables) {
    && (forall j :: j in e.jobs ==> j.jobId in src.jobs && src.jobs[j.jobId].row == j)
    && (forall k :: k in src.jobs ==> src.jobs[k].row in e.jobs)
  }

  ghost predicate MetadataSound(e: Export, src: Tables) {
    forall m :: m in e.metadata ==> m.key in src.metadata
  }

  ghost predicate MetadataComplete(e: Export, src: Tables) {
    forall k :: k in src.metadata ==> exists m :: m in e.metadata && m.id == src.metadata[k].id
  }

  ghost predicate ExportsRest(e: Export, src: Tables) {
    && (forall r :: r in e.tracks ==> r.key in src.tracks)
    && (forall r :: r in e.segments ==> r.key in src.segments)
    && (forall r :: r in e.parts ==> r.key in src.parts)
    && (forall p :: p in e.progress ==> p.key in src.progress && src.progress[p.key] == p)
    && (forall l :: l in e.jobLinks ==> l.key in src.jobLinks && src.jobLinks[l.key].metadataId == l.metadataId)
    && (forall l :: l in e.seriesLinks ==>
          l.key in src.seriesLinks && src.seriesLinks[l.key].metadataId == l.metadataId)
    && (forall m :: m in e.markers ==> m in src.markers)
    && (forall f :: f in e.fingerprints ==> f.key in src.fingerprints)
  }

  /** The rows of an export are the rows of its source. */
  ghost predicate IsExportOf(e: Export, src: Tables) {
    ExportsJobs(e, src) && MetadataSound(e, src) && MetadataComplete(e, src) && ExportsRest(e, src)
  }

  ghost predicate HasJob(e: Export, jobId: string) {
    exists j :: j in e.jobs && j.jobId == jobId && JobGoesIn(j)
  }

  ghost predicate HasMeta(e: Export, id: int) { exists m :: m in e.metadata && m.id == id }

  /** An export whose rows refer to its own jobs and metadata, and meet the checks whose
      violation is an error. */
  ghost predicate SelfContained(e: Export) {
    && (forall r :: r in e.tracks ==> HasJob(e, r.key.jobId))
    && (forall r :: r in e.segments ==> HasJob(e, r.key.jobId))
    && (forall r :: r in e.parts ==> HasJob(e, r.key.jobId))
    && (forall p :: p in e.progress ==> HasJob(e, p.key.jobId) && IsSoundProgress(p))
    && (forall m :: m in e.metadata ==> IsKnownMeta(m.key))
    && (forall l :: l in e.jobLinks ==> HasJob(e, l.key.jobId) && HasMeta(e, l.metadataId))
    && (forall l :: l in e.seriesLinks ==> HasMeta(e, l.metadataId))
    && (forall m :: m in e.markers ==> HasJob(e, m.jobId) && IsSoundMarker(m))
    && (forall f :: f in e.fingerprints ==> HasJob(e, f.key.jobId))
  }

  lemma SourceJobIsExported(e: Export, src: Tables, jobId: string)
    requires Checked(src) && ExportsJobs(e, src) && jobId in src.jobs
    ensures HasJob(e, jobId)
  {
    assert src.jobs[jobId].row in e.jobs;
  }

  lemma SourceMetaIsExported(e: Export, src: Tables, id: int)
    requires MetadataComplete(e, src) && HasId(src.metadata, id)
    ensures HasMeta(e, id)
  {
    var k :| k in src.metadata && src.metadata[k].id == id;
    assert exists m :: m in e.metadata && m.id == src.metadata[k].id;
  }

  lemma RestIsSelfContained(e: Export, src: Tables)
    requires ChildrenHaveJobs(src) && LinksHaveMetadata(src) && Checked(src) && MetadataSound(e, src)
    requires ExportsRest(e, src)
    requires forall id :: id in src.jobs ==> HasJob(e, id)
    requires forall id :: HasId(src.metadata, id) ==> HasMeta(e, id)
    ensures SelfContained(e)
  {
  }

  /** Exporting a sound library yields such an export. */
  lemma ExportIsSelfContained(e: Export, src: Tables)
    requires Valid(src) && Checked(src) && IsExportOf(e, src)
    ensures SelfContained(e)
  {
    forall id | id in src.jobs ensures HasJob(e, id) { SourceJobIsExported(e, src, id); }
    forall id | HasId(src.metadata, id) ensures HasMeta(e, id) { SourceMetaIsExported(e, src, id); }
    RestIsSelfContained(e, src);
  }

  lemma {:induction false} ProgressSucceeds<J>(table: map<ProgressKey, Progress>, jobs: map<string, J>,
                                               rows: seq<Progress>)
    requires forall i :: 0 <= i < |rows| ==> IsSoundProgress(rows[i]) && rows[i].key.jobId in jobs
    ensures UpsertAllProgress(table, jobs, rows).Ok?
  {
    if rows != [] { ProgressSucceeds(table, jobs, rows[..|rows| - 1]); }
  }

  lemma {:induction false} MetaSucceeds(s: MetaState, rows: seq<MetaRow>)
    requires forall i :: 0 <= i < |rows| ==> IsKnownMeta(rows[i].key)
    ensures UpsertAllMeta(s, rows).Ok?
    ensures forall i :: 0 <= i < |rows| ==> rows[i].id in UpsertAllMeta(s, rows).value.ids
  {
    if rows != [] { MetaSucceeds(s, rows[..|rows| - 1]); }
  }

  lemma {:induction false} MarkersSucceed<J>(table: seq<MediaMarker>, jobs: map<string, J>, rows: seq<MediaMarker>)
    requires forall i :: 0 <= i < |rows| ==> IsSoundMarker(rows[i]) && rows[i].jobId in jobs
    ensures AddAllMarkers(table, jobs, rows).Ok?
  {
    if rows != [] { MarkersSucceed(table, jobs, rows[..|rows| - 1]); }
  }

  lemma OfferedIsPresent<K, V>(table: map<K, V>, rows: seq<Insert<K, V>>, i: nat)
    requires InsertAll(table, rows).Ok? && i < |rows| && rows[i].Row? && rows[i].checks
    ensures rows[i].key in InsertAll(table, rows).value
  {
    InsertAllKeys(table, rows, rows[i].key);
    assert Offers(rows, i, rows[i].key);
  }

  lemma JobIsMerged(t: Tables, e: Export, now: int, jobs: map<string, Job>, jobId: string)
    requires InsertAll(t.jobs, Map(JobInsert(now), e.jobs)) == Ok(jobs) && HasJob(e, jobId)
    ensures jobId in jobs
  {
    var j :| j in e.jobs && j.jobId == jobId && JobGoesIn(j);
    var i :| 0 <= i < |e.jobs| && e.jobs[i] == j;
    JobByColumns(j, now);
    OfferedIsPresent(t.jobs, Map(JobInsert(now), e.jobs), i);
  }

  lemma LinksSucceed(t: Tables, e: Export, jobs: map<string, Job>, meta: MetaState)
    requires Present(e, jobs)
    requires UpsertAllMeta(MetaState(t.metadata, t.nextMetadataId, map[]), e.metadata) == Ok(meta)
    requires forall i :: 0 <= i < |e.metadata| ==> e.metadata[i].id in meta.ids
    requires SelfContained(e)
    ensures InsertAll(t.jobLinks, Map(JobLinkInsert(jobs, meta.entries, meta.ids), e.jobLinks)).Ok?
    ensures InsertAll(t.seriesLinks, Map(SeriesLinkInsert(meta.entries, meta.ids), e.seriesLinks)).Ok?
  {
    var start := MetaState(t.metadata, t.nextMetadataId, map[]);
    forall id | HasMeta(e, id) ensures id in meta.ids && HasId(meta.entries, meta.ids[id]) {
      var m :| m in e.metadata && m.id == id;
      IdsPointHome(start, e.metadata, id);
    }
    InsertAllSucceeds(t.jobLinks, Map(JobLinkInsert(jobs, meta.entries, meta.ids), e.jobLinks));
    InsertAllSucceeds(t.seriesLinks, Map(SeriesLinkInsert(meta.entries, meta.ids), e.seriesLinks));
  }

  ghost predicate Present(e: Export, jobs: map<string, Job>) {
    forall id :: HasJob(e, id) ==> id in jobs
  }

  lemma ChildrenSucceed(t: Tables, e: Export, jobs: map<string, Job>)
    requires Present(e, jobs) && SelfContained(e)
    ensures InsertAll(t.tracks, Map(TrackInsert(jobs), e.tracks)).Ok?
    ensures InsertAll(t.fingerprints, Map(FingerprintInsert(jobs), e.fingerprints)).Ok?
  {
    InsertAllSucceeds(t.tracks, Map(TrackInsert(jobs), e.tracks));
    InsertAllSucceeds(t.fingerprints, Map(FingerprintInsert(jobs), e.fingerprints));
  }

  lemma SegmentsSucceed(t: Tables, e: Export, jobs: map<string, Job>)
    requires Present(e, jobs) && SelfContained(e)
    ensures InsertAll(t.segments, Map(SegmentInsert(jobs, SameBotMap(e)), e.segments)).Ok?
  {
    InsertAllSucceeds(t.segments, Map(SegmentInsert(jobs, SameBotMap(e)), e.segments));
  }

  lemma PartsSucceed(t: Tables, e: Export, jobs: map<string, Job>)
    requires Present(e, jobs) && SelfContained(e)
    ensures InsertAll(t.parts, Map(PartInsert(jobs, SameBotMap(e)), e.parts)).Ok?
  {
    InsertAllSucceeds(t.parts, Map(PartInsert(jobs, SameBotMap(e)), e.parts));
  }

  lemma JobsPartSucceeds(t: Tables, e: Export, now: int)
    requires SelfContained(e)
    ensures MergedJobs(t, e, SameBotMap(e), now).Ok?
    ensures Present(e, MergedJobs(t, e, SameBotMap(e), now).value.jobs)
  {
    InsertAllSucceeds(t.jobs, Map(JobInsert(now), e.jobs));
    var jobs := InsertAll(t.jobs, Map(JobInsert(now), e.jobs)).value;
    forall id | HasJob(e, id) ensures id in jobs { JobIsMerged(t, e, now, jobs, id); }
    ChildrenSucceed(t, e, jobs);
    SegmentsSucceed(t, e, jobs);
    PartsSucceed(t, e, jobs);
    ProgressSucceeds(t.progress, jobs, e.progress);
  }

  lemma LinksPartSucceeds(t: Tables, e: Export)
    requires SelfContained(e) && Present(e, t.jobs)
    ensures MergedLinks(t, e).Ok? && MergedLinks(t, e).value.jobs == t.jobs
  {
    var start := MetaState(t.metadata, t.nextMetadataId, map[]);
    MetaSucceeds(start, e.metadata);
    LinksSucceed(t, e, t.jobs, UpsertAllMeta(start, e.metadata).value);
  }

  lemma MarkersPartSucceeds(t: Tables, e: Export)
    requires SelfContained(e) && Present(e, t.jobs)
    ensures MergedMarkers(t, e).Ok?
  {
    MarkersSucceed(t.markers, t.jobs, e.markers);
    ChildrenSucceed(t, e, t.jobs);
  }

  /** On the path of `merge_from_database_file` no failure is reachable: neither a missing
      map entry, nor a missing parent, nor a failed check. */
  lemma ExportedLibraryMerges(t: Tables, e: Export, now: int)
    requires SelfContained(e)
    ensures Merged(t, e, SameBotMap(e), now).Ok?
  {
    JobsPartSucceeds(t, e, now);
    var withJobs := MergedJobs(t, e, SameBotMap(e), now).value;
    LinksPartSucceeds(withJobs, e);
    MarkersPartSucceeds(MergedLinks(withJobs, e).value, e);
  }

  lemma NormalisedIsSound(j: JobRow, row: JobRow)
    requires JobGoesIn(j) && IsNormalised(j, row)
    ensures IsSoundJob(j.jobId, row)
  {
  }

  lemma JobsStayChecked(t: Tables, rows: seq<JobRow>, now: int, k: string)
    requires Checked(t) && InsertAll(t.jobs, Map(JobInsert(now), rows)).Ok?
    requires k in InsertAll(t.jobs, Map(JobInsert(now), rows)).value
    ensures IsSoundJob(k, InsertAll(t.jobs, Map(JobInsert(now), rows)).value[k].row)
  {
    var inserts := Map(JobInsert(now), rows);
    var after := InsertAll(t.jobs, inserts).value;
    if k in t.jobs {
      InsertAllExtends(t.jobs, inserts);
    } else {
      InsertAllNew(t.jobs, inserts, k);
      var i :| 0 <= i < |inserts| && inserts[i] == Row(k, after[k], true, true);
      assert inserts[i] == InsertOfJob(rows[i], now);
      JobByColumns(rows[i], now);
      NormalisedIsSound(rows[i], after[k].row);
    }
  }

  lemma {:induction false} ProgressStaysChecked<J>(table: map<ProgressKey, Progress>, jobs: map<string, J>,
                                                   rows: seq<Progress>)
    requires UpsertAllProgress(table, jobs, rows).Ok?
    requires forall k :: k in table ==> IsSoundProgress(table[k])
    ensures var after := UpsertAllProgress(table, jobs, rows).value;
      forall k :: k in after ==> IsSoundProgress(after[k])
  {
    if rows != [] { ProgressStaysChecked(table, jobs, rows[..|rows| - 1]); }
  }

  lemma {:induction false} MetaStaysChecked(s: MetaState, rows: seq<MetaRow>)
    requires UpsertAllMeta(s, rows).Ok?
    requires forall k :: k in s.entries ==> IsKnownMeta(k)
    ensures var after := UpsertAllMeta(s, rows).value; forall k :: k in after.entries ==> IsKnownMeta(k)
  {
    if rows != [] { MetaStaysChecked(s, rows[..|rows| - 1]); }
  }

  lemma {:induction false} MarkersStayChecked<J>(table: seq<MediaMarker>, jobs: map<string, J>, rows: seq<MediaMarker>)
    requires AddAllMarkers(table, jobs, rows).Ok?
    requires forall i :: 0 <= i < |table| ==> IsSoundMarker(table[i])
    ensures var after := AddAllMarkers(table, jobs, rows).value;
      forall i :: 0 <= i < |after| ==> IsSoundMarker(after[i])
  {
    if rows != [] { MarkersStayChecked(table, jobs, rows[..|rows| - 1]); }
  }

  /** A merged library meets its checks again, so it can itself be exported and merged. */
  lemma MergeKeepsChecked(t: Tables, e: Export, bots: map<int, int>, now: int)
    requires Checked(t) && Merged(t, e, bots, now).Ok?
    ensures Checked(Merged(t, e, bots, now).value)
  {
    var r, ids := MergedStages(t, e, bots, now);
    forall k | k in r.jobs ensures IsSoundJob(k, r.jobs[k].row) {
      JobsStayChecked(t, e.jobs, now, k);
    }
    ProgressStaysChecked(t.progress, r.jobs, e.progress);
    MetaStaysChecked(MetaState(t.metadata, t.nextMetadataId, map[]), e.metadata);
    MarkersStayChecked(t.markers, r.jobs, e.markers);
  }
}
