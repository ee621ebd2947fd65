/** What merging does to a library as a whole: repeating it changes nothing, references
    stay intact, old rows stay, and links find their metadata again. */
module MergeTheorems {
  import opened Options
  import opened Folds
  import opened LibraryTables
  import opened LibraryMerge

  // --- A successful merge, table by table --------------------------------------------

  ghost predicate Stages(t: Tables, e: Export, bots: map<int, int>, now: int, r: Tables, ids: map<int, int>) {
    && InsertAll(t.jobs, Map(JobInsert(now), e.jobs)) == Ok(r.jobs)
    && InsertAll(t.tracks, Map(TrackInsert(r.jobs), e.tracks)) == Ok(r.tracks)
    && InsertAll(t.segments, Map(SegmentInsert(r.jobs, bots), e.segments)) == Ok(r.segments)
    && InsertAll(t.parts, Map(PartInsert(r.jobs, bots), e.parts)) == Ok(r.parts)
    && UpsertAllProgress(t.progress, r.jobs, e.progress) == Ok(r.progress)
    && UpsertAllMeta(MetaState(t.metadata, t.nextMetadataId, map[]), e.metadata)
      == Ok(MetaState(r.metadata, r.nextMetadataId, ids))
    && InsertAll(t.jobLinks, Map(JobLinkInsert(r.jobs, r.metadata, ids), e.jobLinks)) == Ok(r.jobLinks)
    && InsertAll(t.seriesLinks, Map(SeriesLinkInsert(r.metadata, ids), e.seriesLinks)) == Ok(r.seriesLinks)
    && AddAllMarkers(t.markers, r.jobs, e.markers) == Ok(r.markers)
    && InsertAll(t.fingerprints, Map(FingerprintInsert(r.jobs), e.fingerprints)) == Ok(r.fingerprints)
  }

  lemma TrackStages(t: Tables, e: Export, now: int, r: Tables)
    requires MergedTracks(t, e, now) == Ok(r)
    ensures InsertAll(t.jobs, Map(JobInsert(now), e.jobs)) == Ok(r.jobs)
    ensures InsertAll(t.tracks, Map(TrackInsert(r.jobs), e.tracks)) == Ok(r.tracks)
    ensures r == t.(jobs := r.jobs, tracks := r.tracks)
  {
  }

  lemma SegmentStages(t: Tables, e: Export, bots: map<int, int>, r: Tables)
    requires MergedSegments(t, e, bots) == Ok(r)
    ensures InsertAll(t.segments, Map(SegmentInsert(t.jobs, bots), e.segments)) == Ok(r.segments)
    ensures InsertAll(t.parts, Map(PartInsert(t.jobs, bots), e.parts)) == Ok(r.parts)
    ensures r == t.(segments := r.segments, parts := r.parts)
  {
  }

  lemma JobStages(t: Tables, e: Export, bots: map<int, int>, now: int, r: Tables)
    requires MergedJobs(t, e, bots, now) == Ok(r)
    ensures InsertAll(t.jobs, Map(JobInsert(now), e.jobs)) == Ok(r.jobs)
    ensures InsertAll(t.tracks, Map(TrackInsert(r.jobs), e.tracks)) == Ok(r.tracks)
    ensures InsertAll(t.segments, Map(SegmentInsert(r.jobs, bots), e.segments)) == Ok(r.segments)
    ensures InsertAll(t.parts, Map(PartInsert(r.jobs, bots), e.parts)) == Ok(r.parts)
    ensures UpsertAllProgress(t.progress, r.jobs, e.progress) == Ok(r.progress)
    ensures r == t.(jobs := r.jobs, tracks := r.tracks, segments := r.segments, parts := r.parts,
                    progress := r.progress)
  {
    var withTracks := MergedTracks(t, e, now).value;
    var withSegments := MergedSegments(withTracks, e, bots).value;
    TrackStages(t, e, now, withTracks);
    SegmentStages(withTracks, e, bots, withSegments);
  }

  lemma LinkStages(t: Tables, e: Export, r: Tables) returns (ids: map<int, int>)
    requires MergedLinks(t, e) == Ok(r)
    ensures UpsertAllMeta(MetaState(t.metadata, t.nextMetadataId, map[]), e.metadata)
      == Ok(MetaState(r.metadata, r.nextMetadataId, ids))
    ensures InsertAll(t.jobLinks, Map(JobLinkInsert(t.jobs, r.metadata, ids), e.jobLinks)) == Ok(r.jobLinks)
    ensures InsertAll(t.seriesLinks, Map(SeriesLinkInsert(r.metadata, ids), e.seriesLinks)) == Ok(r.seriesLinks)
    ensures r == t.(metadata := r.metadata, nextMetadataId := r.nextMetadataId, jobLinks := r.jobLinks,
                    seriesLinks := r.seriesLinks)
  {
    ids := UpsertAllMeta(MetaState(t.metadata, t.nextMetadataId, map[]), e.metadata).value.ids;
  }

  lemma MarkerStages(t: Tables, e: Export, r: Tables)
    requires MergedMarkers(t, e) == Ok(r)
    ensures AddAllMarkers(t.markers, t.jobs, e.markers) == Ok(r.markers)
    ensures InsertAll(t.fingerprints, Map(FingerprintInsert(t.jobs), e.fingerprints)) == Ok(r.fingerprints)
    ensures r == t.(markers := r.markers, fingerprints := r.fingerprints)
  {
  }

  lemma MergedStages(t: Tables, e: Export, bots: map<int, int>, now: int) returns (r: Tables, ids: map<int, int>)
    requires Merged(t, e, bots, now).Ok?
    ensures Merged(t, e, bots, now) == Ok(r) && Stages(t, e, bots, now, r, ids)
  {
    r := Merged(t, e, bots, now).value;
    var withJobs := MergedJobs(t, e, bots, now).value;
    var withLinks := MergedLinks(withJobs, e).value;
    JobStages(t, e, bots, now, withJobs);
    ids := LinkStages(withJobs, e, withLinks);
    MarkerStages(withLinks, e, r);
  }

  lemma StagesMerged(t: Tables, e: Export, bots: map<int, int>, now: int, r: Tables, ids: map<int, int>)
    requires Stages(t, e, bots, now, r, ids)
    ensures Merged(t, e, bots, now) == Ok(r)
  {
  }

  // --- Idempotence -------------------------------------------------------------------

  lemma InsertAgain<K, V>(table: map<K, V>, rows: seq<Insert<K, V>>, after: map<K, V>)
    requires InsertAll(table, rows) == Ok(after)
    ensures InsertAll(after, rows) == Ok(after)
  {
    InsertAllMakesPresent(table, rows);
    InsertAllPresent(after, rows);
  }

  /** Jobs are inserted with the clock, but not a second time. */
  lemma JobsAgain(table: map<string, Job>, rows: seq<JobRow>, now: int, later: int, after: map<string, Job>)
    requires InsertAll(table, Map(JobInsert(now), rows)) == Ok(after)
    ensures InsertAll(after, Map(JobInsert(later), rows)) == Ok(after)
  {
    InsertAllMakesPresent(table, Map(JobInsert(now), rows));
    forall i | 0 <= i < |rows|
      ensures Map(JobInsert(later), rows)[i].checks ==> Map(JobInsert(later), rows)[i].key in after
    {
      assert Map(JobInsert(now), rows)[i].checks ==> Map(JobInsert(now), rows)[i].key in after;
    }
    InsertAllPresent(after, Map(JobInsert(later), rows));
  }

  ghost predicate UpToDate(table: map<ProgressKey, Progress>, rows: seq<Progress>) {
    forall i :: 0 <= i < |rows| ==>
      ProgressChecks(rows[i]) && rows[i].key in table && rows[i].updatedAt <= table[rows[i].key].updatedAt
  }

  lemma {:induction false} UpsertMakesUpToDate<J>(table: map<ProgressKey, Progress>, jobs: map<string, J>,
                                                  rows: seq<Progress>)
    requires UpsertAllProgress(table, jobs, rows).Ok?
    ensures UpToDate(UpsertAllProgress(table, jobs, rows).value, rows)
  {
    if rows != [] { UpsertMakesUpToDate(table, jobs, rows[..|rows| - 1]); }
  }

  lemma {:induction false} UpsertUpToDate<J>(table: map<ProgressKey, Progress>, jobs: map<string, J>,
                                             rows: seq<Progress>)
    requires UpToDate(table, rows)
    ensures UpsertAllProgress(table, jobs, rows) == Ok(table)
  {
    if rows != [] { UpsertUpToDate(table, jobs, rows[..|rows| - 1]); }
  }

  /** Ids, once given, stay. */
  ghost predicate IdsStay(before: map<MetaKey, MetaEntry>, after: map<MetaKey, MetaEntry>) {
    forall k :: k in before ==> k in after && after[k].id == before[k].id
  }

  lemma {:induction false} MetaIdsStay(s: MetaState, rows: seq<MetaRow>, i: nat)
    requires i <= |rows| && UpsertAllMeta(s, rows).Ok?
    ensures UpsertAllMeta(s, rows[..i]).Ok?
    ensures IdsStay(UpsertAllMeta(s, rows[..i]).value.entries, UpsertAllMeta(s, rows).value.entries)
    decreases |rows|
  {
    if i == |rows| {
      assert rows[..i] == rows;
    } else {
      var init := rows[..|rows| - 1];
      assert init[..i] == rows[..i];
      MetaIdsStay(s, init, i);
    }
  }

  /** The second pass over the metadata, compared with the first pass and its result: each
      entry is either final already or as the first pass had it at this point. */
  ghost predicate Retraces(first: MetaState, second: MetaState, end: MetaState) {
    && second.nextId == end.nextId && second.ids == first.ids
    && second.entries.Keys == end.entries.Keys
    && forall k :: k in end.entries ==>
        second.entries[k] == end.entries[k] || (k in first.entries && second.entries[k] == first.entries[k])
  }

  lemma RetracesStep(first: MetaState, second: MetaState, end: MetaState, m: MetaRow)
    requires Retraces(first, second, end)
    requires IdsStay(first.entries, end.entries) && IdsStay(UpsertMeta(first, m).entries, end.entries)
    ensures Retraces(UpsertMeta(first, m), UpsertMeta(second, m), end)
  {
    var f, s := UpsertMeta(first, m), UpsertMeta(second, m);
    assert m.key in end.entries && m.key in second.entries;
    assert second.entries[m.key].id == end.entries[m.key].id == f.entries[m.key].id;
    assert s.entries.Keys == end.entries.Keys;
  }

  lemma {:induction false} MetaRetraces(s: MetaState, rows: seq<MetaRow>, end: MetaState, i: nat)
    requires s.ids == map[] && UpsertAllMeta(s, rows) == Ok(end) && i <= |rows|
    ensures UpsertAllMeta(s, rows[..i]).Ok?
    ensures UpsertAllMeta(end.(ids := map[]), rows[..i]).Ok?
    ensures Retraces(UpsertAllMeta(s, rows[..i]).value, UpsertAllMeta(end.(ids := map[]), rows[..i]).value, end)
  {
    MetaIdsStay(s, rows, i);
    if i > 0 {
      assert rows[..i][..i - 1] == rows[..i - 1];
      MetaRetraces(s, rows, end, i - 1);
      MetaIdsStay(s, rows, i - 1);
      RetracesStep(UpsertAllMeta(s, rows[..i - 1]).value, UpsertAllMeta(end.(ids := map[]), rows[..i - 1]).value, end,
                   rows[i - 1]);
    }
  }

  /** Upserting the same rows again changes no entry, gives out no id, and maps the
      source's ids to the same ids. */
  lemma MetaAgain(s: MetaState, rows: seq<MetaRow>, end: MetaState)
    requires s.ids == map[] && UpsertAllMeta(s, rows) == Ok(end)
    ensures UpsertAllMeta(end.(ids := map[]), rows) == Ok(end)
  {
    MetaRetraces(s, rows, end, |rows|);
    assert rows[..|rows|] == rows;
    var again := UpsertAllMeta(end.(ids := map[]), rows).value;
    assert again.entries == end.entries;
  }

  lemma HasNearExtends(table: seq<MediaMarker>, more: seq<MediaMarker>, m: MediaMarker)
    requires HasNear(table, m)
    ensures HasNear(table + more, m)
  {
    var i :| 0 <= i < |table| && NearEqual(table[i], m);
    assert (table + more)[i] == table[i];
  }

  /** Markers are only appended, and every exported one has a near-equal one afterwards. */
  lemma {:induction false} MarkersCovered<J>(table: seq<MediaMarker>, jobs: map<string, J>, rows: seq<MediaMarker>)
    requires AddAllMarkers(table, jobs, rows).Ok?
    ensures var after := AddAllMarkers(table, jobs, rows).value;
      table <= after && forall i :: 0 <= i < |rows| ==> HasNear(after, rows[i])
  {
    if rows != [] {
      var init, m := rows[..|rows| - 1], rows[|rows| - 1];
      MarkersCovered(table, jobs, init);
      var before := AddAllMarkers(table, jobs, init).value;
      var after := AddAllMarkers(table, jobs, rows).value;
      if !HasNear(before, m) {
        assert after == before + [m] && NearEqual(after[|before|], m);
        forall i | 0 <= i < |init| ensures HasNear(after, rows[i]) { HasNearExtends(before, [m], init[i]); }
      }
    }
  }

  lemma {:induction false} CoveredUnchanged<J>(table: seq<MediaMarker>, jobs: map<string, J>, rows: seq<MediaMarker>)
    requires forall i :: 0 <= i < |rows| ==> HasNear(table, rows[i])
    ensures AddAllMarkers(table, jobs, rows) == Ok(table)
  {
    if rows != [] { CoveredUnchanged(table, jobs, rows[..|rows| - 1]); }
  }

  lemma StagesAgain(t: Tables, e: Export, bots: map<int, int>, now: int, later: int, r: Tables, ids: map<int, int>)
    requires Stages(t, e, bots, now, r, ids)
    ensures Stages(r, e, bots, later, r, ids)
  {
    JobsAgain(t.jobs, e.jobs, now, later, r.jobs);
    InsertAgain(t.tracks, Map(TrackInsert(r.jobs), e.tracks), r.tracks);
    InsertAgain(t.segments, Map(SegmentInsert(r.jobs, bots), e.segments), r.segments);
    InsertAgain(t.parts, Map(PartInsert(r.jobs, bots), e.parts), r.parts);
    UpsertMakesUpToDate(t.progress, r.jobs, e.progress);
    UpsertUpToDate(r.progress, r.jobs, e.progress);
    MetaAgain(MetaState(t.metadata, t.nextMetadataId, map[]), e.metadata, MetaState(r.metadata, r.nextMetadataId, ids));
    InsertAgain(t.jobLinks, Map(JobLinkInsert(r.jobs, r.metadata, ids), e.jobLinks), r.jobLinks);
    InsertAgain(t.seriesLinks, Map(SeriesLinkInsert(r.metadata, ids), e.seriesLinks), r.seriesLinks);
    MarkersCovered(t.markers, r.jobs, e.markers);
    CoveredUnchanged(r.markers, r.jobs, e.markers);
    InsertAgain(t.fingerprints, Map(FingerprintInsert(r.jobs), e.fingerprints), r.fingerprints);
  }

  /** Merging the same export again, at any later time, succeeds and leaves every table as
      it is: whatever the export holds. */
  lemma MergeIdempotent(t: Tables, e: Export, bots: map<int, int>, now: int, later: int)
    requires Merged(t, e, bots, now).Ok?
    ensures Merged(Merged(t, e, bots, now).value, e, bots, later) == Merged(t, e, bots, now)
  {
    var r, ids := MergedStages(t, e, bots, now);
    StagesAgain(t, e, bots, now, later, r, ids);
    StagesMerged(r, e, bots, later, r, ids);
  }

  // --- Rows that were there ----------------------------------------------------------

  /** Jobs, tracks, segments, parts, links, markers and fingerprints that were there stay
      as they were, and no progress or metadata row disappears. */
  lemma MergePreserves(t: Tables, e: Export, bots: map<int, int>, now: int)
    requires Merged(t, e, bots, now).Ok?
    ensures var r := Merged(t, e, bots, now).value;
      && Extends(t.jobs, r.jobs) && Extends(t.tracks, r.tracks)
      && Extends(t.segments, r.segments) && Extends(t.parts, r.parts)
      && Extends(t.jobLinks, r.jobLinks) && Extends(t.seriesLinks, r.seriesLinks)
      && Extends(t.fingerprints, r.fingerprints)
      && t.markers <= r.markers && IdsStay(t.metadata, r.metadata)
      && forall i :: 0 <= i < |e.markers| ==> HasNear(r.markers, e.markers[i])
  {
    var r, ids := MergedStages(t, e, bots, now);
    InsertAllExtends(t.jobs, Map(JobInsert(now), e.jobs));
    InsertAllExtends(t.tracks, Map(TrackInsert(r.jobs), e.tracks));
    InsertAllExtends(t.segments, Map(SegmentInsert(r.jobs, bots), e.segments));
    InsertAllExtends(t.parts, Map(PartInsert(r.jobs, bots), e.parts));
    InsertAllExtends(t.jobLinks, Map(JobLinkInsert(r.jobs, r.metadata, ids), e.jobLinks));
    InsertAllExtends(t.seriesLinks, Map(SeriesLinkInsert(r.metadata, ids), e.seriesLinks));
    InsertAllExtends(t.fingerprints, Map(FingerprintInsert(r.jobs), e.fingerprints));
    MarkersCovered(t.markers, r.jobs, e.markers);
    MetaIdsStay(MetaState(t.metadata, t.nextMetadataId, map[]), e.metadata, 0);
    assert e.metadata[..0] == [];
  }
}
