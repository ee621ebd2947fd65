/** Merging an exported library into this one: ten tables, one transaction. */
module LibraryMerge {
  import opened Options
  import opened Text
  import opened Folds
  import opened LibraryTables

  // --- Rows --------------------------------------------------------------------------

  datatype JobRow = JobRow(
    jobId: string,
    status: string,
    error: Option<string>,
    mediaType: string,
    isSeries: bool,
    season: Option<int>,
    episode: Option<int>,
    part: Option<int>,
    sourcePath: Option<string>,
    rest: string)

  /** A stored job: the row as normalised, and the clock at the time it was inserted. */
  datatype Job = Job(row: JobRow, createdAtUnix: int)

  datatype TrackKey = TrackKey(jobId: string, trackType: string, trackIndex: int)
  datatype TrackRow = TrackRow(key: TrackKey, originalStreamIndex: int, rest: string)

  datatype SegmentKey = SegmentKey(jobId: string, segmentKey: string)
  datatype SegmentRow = SegmentRow(key: SegmentKey, fileId: string, botIndex: int, rest: string)
  datatype Segment = Segment(fileId: string, botIndex: int, prefix: string, name: string, rest: string)

  datatype PartKey = PartKey(jobId: string, segmentKey: string, partIndex: int)
  datatype PartRow = PartRow(key: PartKey, fileId: string, botIndex: int, fileSize: int, rest: string)
  datatype SegmentPart = SegmentPart(fileId: string, botIndex: int, fileSize: int, prefix: string, name: string,
                                     rest: string)

  datatype JobLinkKey = JobLinkKey(jobId: string, role: string)
  datatype JobLinkRow = JobLinkRow(key: JobLinkKey, metadataId: int, createdAt: string)
  datatype SeriesLinkKey = SeriesLinkKey(mediaType: string, seriesName: string)
  datatype SeriesLinkRow = SeriesLinkRow(key: SeriesLinkKey, metadataId: int, createdAt: string)
  datatype Link = Link(metadataId: int, createdAt: string)

  datatype FingerprintKey = FingerprintKey(jobId: string, windowType: string)
  datatype FingerprintRow = FingerprintRow(key: FingerprintKey, rest: string)

  datatype Export = Export(
    jobs: seq<JobRow>,
    tracks: seq<TrackRow>,
    segments: seq<SegmentRow>,
    parts: seq<PartRow>,
    progress: seq<Progress>,
    metadata: seq<MetaRow>,
    jobLinks: seq<JobLinkRow>,
    seriesLinks: seq<SeriesLinkRow>,
    markers: seq<MediaMarker>,
    fingerprints: seq<FingerprintRow>)

  /** The tables, each a map on its unique key; markers have none. */
  datatype Tables = Tables(
    jobs: map<string, Job>,
    tracks: map<TrackKey, TrackRow>,
    segments: map<SegmentKey, Segment>,
    parts: map<PartKey, SegmentPart>,
    progress: map<ProgressKey, Progress>,
    metadata: map<MetaKey, MetaEntry>,
    nextMetadataId: int,
    jobLinks: map<JobLinkKey, Link>,
    seriesLinks: map<SeriesLinkKey, Link>,
    markers: seq<MediaMarker>,
    fingerprints: map<FingerprintKey, FingerprintRow>)

  // --- One row of each table ---------------------------------------------------------

  const MEDIA_TYPES := ["Film", "Series", "Anime Film", "Anime TV", "Anime"]
  const STATUSES := ["queued", "downloading", "analyzing", "processing", "uploading", "complete", "error", "cancelled"]

  function WithKnownType(job: JobRow): JobRow {
    if job.mediaType in MEDIA_TYPES then job else job.(mediaType := "Film")
  }

  /** `normalize_job_metadata`. */
  function NormalizeJobMetadata(job: JobRow): JobRow {
    var typed := WithKnownType(job);
    if job.isSeries then typed else typed.(season := None, episode := None, part := None)
  }

  predicate HasDotDot(s: string) { exists i :: 0 <= i < |s| - 1 && s[i] == '.' && s[i + 1] == '.' }

  predicate IsFileName(s: string) { '/' !in s && '\\' !in s && !HasDotDot(s) }

  predicate StatusChecks(job: JobRow) {
    job.status in STATUSES && (job.status == "error" <==> job.error.Some?)
  }

  predicate JobChecks(job: JobRow) {
    && StatusChecks(job)
    && job.mediaType in MEDIA_TYPES
    && (job.isSeries || (job.season.None? && job.episode.None? && job.part.None?))
    && (job.sourcePath.Some? ==> IsFileName(job.sourcePath.value))
  }

  /** After normalising, only the status and the source path can still fail a check. */
  lemma NormalizedJobChecks(job: JobRow)
    ensures JobChecks(NormalizeJobMetadata(job)) <==>
      StatusChecks(job) && (job.sourcePath.Some? ==> IsFileName(job.sourcePath.value))
    ensures NormalizeJobMetadata(NormalizeJobMetadata(job)) == NormalizeJobMetadata(job)
  {
    var row := NormalizeJobMetadata(job);
    assert row.mediaType in MEDIA_TYPES;
    assert row.status == job.status && row.error == job.error && row.sourcePath == job.sourcePath;
  }

  function InsertOfJob(job: JobRow, now: int): Insert<string, Job> {
    var row := NormalizeJobMetadata(job);
    Row(row.jobId, Job(row, now), JobChecks(row), true)
  }

  predicate TrackChecks(t: TrackRow) {
    t.key.trackType in ["video", "audio", "subtitle"] && t.originalStreamIndex >= -1
  }

  function InsertOfTrack(t: TrackRow, jobs: map<string, Job>): Insert<TrackKey, TrackRow> {
    Row(t.key, t, TrackChecks(t), t.key.jobId in jobs)
  }

  /** `split_segment_key`. */
  function SplitSegmentKey(key: string): (string, string) {
    match SplitOnce(key, '/')
    case Some(split) => split
    case None => ("legacy", key)
  }

  function StoredSegment(s: SegmentRow, botIndex: int): Segment {
    var (prefix, name) := SplitSegmentKey(s.key.segmentKey);
    Segment(s.fileId, botIndex, prefix, name, s.rest)
  }

  predicate SegmentChecks(s: SegmentRow, botIndex: int) { '/' in s.key.segmentKey && botIndex >= 0 }

  function InsertOfSegment(s: SegmentRow, jobs: map<string, Job>, bots: map<int, int>): Insert<SegmentKey, Segment> {
    if s.botIndex !in bots then Bad(MissingBotIndex(s.botIndex))
    else Row(s.key, StoredSegment(s, bots[s.botIndex]), SegmentChecks(s, bots[s.botIndex]), s.key.jobId in jobs)
  }

  function StoredPart(p: PartRow, botIndex: int): SegmentPart {
    var (prefix, name) := SplitSegmentKey(p.key.segmentKey);
    SegmentPart(p.fileId, botIndex, p.fileSize, prefix, name, p.rest)
  }

  predicate PartChecks(p: PartRow, botIndex: int) {
    '/' in p.key.segmentKey && p.key.partIndex >= 0 && botIndex >= 0 && p.fileSize >= 0
  }

  function InsertOfPart(p: PartRow, jobs: map<string, Job>, bots: map<int, int>): Insert<PartKey, SegmentPart> {
    if p.botIndex !in bots then Bad(MissingBotIndex(p.botIndex))
    else Row(p.key, StoredPart(p, bots[p.botIndex]), PartChecks(p, bots[p.botIndex]), p.key.jobId in jobs)
  }

  predicate HasId(metadata: map<MetaKey, MetaEntry>, id: int) { exists k :: k in metadata && metadata[k].id == id }

  predicate IsRole(role: string) { role in ["primary", "episode"] }

  function InsertOfJobLink(l: JobLinkRow, jobs: map<string, Job>, metadata: map<MetaKey, MetaEntry>,
                           ids: map<int, int>): Insert<JobLinkKey, Link> {
    if l.metadataId !in ids then Bad(MissingMetadataId(l.metadataId))
    else
      Row(l.key, Link(ids[l.metadataId], l.createdAt), IsRole(l.key.role),
          l.key.jobId in jobs && HasId(metadata, ids[l.metadataId]))
  }

  function InsertOfSeriesLink(l: SeriesLinkRow, metadata: map<MetaKey, MetaEntry>,
                              ids: map<int, int>): Insert<SeriesLinkKey, Link> {
    if l.metadataId !in ids then Bad(MissingMetadataId(l.metadataId))
    else Row(l.key, Link(ids[l.metadataId], l.createdAt), true, HasId(metadata, ids[l.metadataId]))
  }

  predicate IsWindow(window: string) { window in ["intro", "outro"] }

  function InsertOfFingerprint(f: FingerprintRow, jobs: map<string, Job>): Insert<FingerprintKey, FingerprintRow> {
    Row(f.key, f, IsWindow(f.key.windowType), f.key.jobId in jobs)
  }

  // The same, as functions of the row alone.

  function JobInsert(now: int): JobRow -> Insert<string, Job> { (job: JobRow) => InsertOfJob(job, now) }

  function TrackInsert(jobs: map<string, Job>): TrackRow -> Insert<TrackKey, TrackRow> {
    (t: TrackRow) => InsertOfTrack(t, jobs)
  }

  function SegmentInsert(jobs: map<string, Job>, bots: map<int, int>): SegmentRow -> Insert<SegmentKey, Segment> {
    (s: SegmentRow) => InsertOfSegment(s, jobs, bots)
  }

  function PartInsert(jobs: map<string, Job>, bots: map<int, int>): PartRow -> Insert<PartKey, SegmentPart> {
    (p: PartRow) => InsertOfPart(p, jobs, bots)
  }

  function JobLinkInsert(jobs: map<string, Job>, metadata: map<MetaKey, MetaEntry>,
                         ids: map<int, int>): JobLinkRow -> Insert<JobLinkKey, Link> {
    (l: JobLinkRow) => InsertOfJobLink(l, jobs, metadata, ids)
  }

  function SeriesLinkInsert(metadata: map<MetaKey, MetaEntry>,
                            ids: map<int, int>): SeriesLinkRow -> Insert<SeriesLinkKey, Link> {
    (l: SeriesLinkRow) => InsertOfSeriesLink(l, metadata, ids)
  }

  function FingerprintInsert(jobs: map<string, Job>): FingerprintRow -> Insert<FingerprintKey, FingerprintRow> {
    (f: FingerprintRow) => InsertOfFingerprint(f, jobs)
  }

  // --- The whole merge ---------------------------------------------------------------

  /** Jobs and their tracks. */
  function MergedTracks(t: Tables, e: Export, now: int): Result<Tables, MergeError> {
    var jobs :- InsertAll(t.jobs, Map(JobInsert(now), e.jobs));
    var tracks :- InsertAll(t.tracks, Map(TrackInsert(jobs), e.tracks));
    Ok(t.(jobs := jobs, tracks := tracks))
  }

  /** Their segments and the parts of split segments. */
  function MergedSegments(t: Tables, e: Export, bots: map<int, int>): Result<Tables, MergeError> {
    var segments :- InsertAll(t.segments, Map(SegmentInsert(t.jobs, bots), e.segments));
    var parts :- InsertAll(t.parts, Map(PartInsert(t.jobs, bots), e.parts));
    Ok(t.(segments := segments, parts := parts))
  }

  /** Jobs and what hangs on them: the first part of the statements. */
  function MergedJobs(t: Tables, e: Export, bots: map<int, int>, now: int): Result<Tables, MergeError> {
    var withTracks :- MergedTracks(t, e, now);
    var withSegments :- MergedSegments(withTracks, e, bots);
    var progress :- UpsertAllProgress(withSegments.progress, withSegments.jobs, e.progress);
    Ok(withSegments.(progress := progress))
  }

  /** Metadata and the links to it: the second part. */
  function MergedLinks(t: Tables, e: Export): Result<Tables, MergeError> {
    var meta :- UpsertAllMeta(MetaState(t.metadata, t.nextMetadataId, map[]), e.metadata);
    var jobLinks :- InsertAll(t.jobLinks, Map(JobLinkInsert(t.jobs, meta.entries, meta.ids), e.jobLinks));
    var seriesLinks :- InsertAll(t.seriesLinks, Map(SeriesLinkInsert(meta.entries, meta.ids), e.seriesLinks));
    Ok(t.(metadata := meta.entries, nextMetadataId := meta.nextId, jobLinks := jobLinks, seriesLinks := seriesLinks))
  }

  /** Markers and fingerprints: the third part. */
  function MergedMarkers(t: Tables, e: Export): Result<Tables, MergeError> {
    var markers :- AddAllMarkers(t.markers, t.jobs, e.markers);
    var fingerprints :- InsertAll(t.fingerprints, Map(FingerprintInsert(t.jobs), e.fingerprints));
    Ok(t.(markers := markers, fingerprints := fingerprints))
  }

  function MergedOthers(t: Tables, e: Export): Result<Tables, MergeError> {
    var withLinks :- MergedLinks(t, e);
    MergedMarkers(withLinks, e)
  }

  /** The merge table by table; the first failure is the failure of the whole. */
  function Merged(t: Tables, e: Export, bots: map<int, int>, now: int): Result<Tables, MergeError> {
    var withJobs :- MergedJobs(t, e, bots, now);
    MergedOthers(withJobs, e)
  }

  datatype MergeResult = MergeResult(mergedJobs: nat, mergedSegments: nat, mergedSegmentParts: nat)

  /** How many rows the merge added, told by the sizes of the tables. */
  ghost predicate Counts(before: Tables, after: Tables, r: MergeResult) {
    && |before.jobs| + r.mergedJobs == |after.jobs|
    && |before.segments| + r.mergedSegments == |after.segments|
    && |before.parts| + r.mergedSegmentParts == |after.parts|
  }

  /** The later statements leave the tables alone whose rows are counted. */
  lemma OthersKeepCounts(before: Tables, t: Tables, e: Export, r: MergeResult)
    requires Counts(before, t, r) && MergedOthers(t, e).Ok?
    ensures Counts(before, MergedOthers(t, e).value, r)
  {
  }

  /** The connection. A transaction works on the tables in place and puts them back if
      any statement fails. */
  class Database {
    var tables: Tables

    constructor (tables: Tables)
      ensures this.tables == tables
    {
      this.tables := tables;
    }

    /** The statements of the merge on jobs and tracks: the number of jobs added. */
    method TrackStatements(e: Export, now: int) returns (r: Result<nat, MergeError>)
      modifies this
      ensures match MergedTracks(old(tables), e, now)
        case Ok(after) => r.Ok? && tables == after && |old(tables).jobs| + r.value == |after.jobs|
        case Err(error) => r == Err(error)
    {
      var jobs :- InsertRows(tables.jobs, Map(JobInsert(now), e.jobs));
      tables := tables.(jobs := jobs.0);
      var tracks :- InsertRows(tables.tracks, Map(TrackInsert(tables.jobs), e.tracks));
      tables := tables.(tracks := tracks.0);
      return Ok(jobs.1);
    }

    /** On segments and their parts: the numbers of both added. */
    method SegmentStatements(e: Export, bots: map<int, int>) returns (r: Result<(nat, nat), MergeError>)
      modifies this
      ensures match MergedSegments(old(tables), e, bots)
        case Ok(after) => r.Ok? && tables == after
          && |old(tables).segments| + r.value.0 == |after.segments| && |old(tables).parts| + r.value.1 == |after.parts|
        case Err(error) => r == Err(error)
    {
      var segments :- InsertRows(tables.segments, Map(SegmentInsert(tables.jobs, bots), e.segments));
      tables := tables.(segments := segments.0);
      var parts :- InsertRows(tables.parts, Map(PartInsert(tables.jobs, bots), e.parts));
      tables := tables.(parts := parts.0);
      return Ok((segments.1, parts.1));
    }

    /** On jobs and everything that hangs on them. */
    method JobStatements(e: Export, bots: map<int, int>, now: int) returns (r: Result<MergeResult, MergeError>)
      modifies this
      ensures match MergedJobs(old(tables), e, bots, now)
        case Ok(after) => r.Ok? && tables == after && Counts(old(tables), after, r.value)
        case Err(error) => r == Err(error)
    {
      var jobs :- TrackStatements(e, now);
      var segments :- SegmentStatements(e, bots);
      var progress :- UpsertProgressRows(tables.progress, tables.jobs, e.progress);
      tables := tables.(progress := progress);
      return Ok(MergeResult(jobs, segments.0, segments.1));
    }

    /** Its statements on metadata and links. */
    method LinkStatements(e: Export) returns (error: Option<MergeError>)
      modifies this
      ensures match MergedLinks(old(tables), e)
        case Ok(after) => error.None? && tables == after
        case Err(e) => error == Some(e)
    {
      var meta := UpsertMetaRows(tables.metadata, tables.nextMetadataId, e.metadata);
      if meta.Err? { return Some(meta.error); }
      tables := tables.(metadata := meta.value.entries, nextMetadataId := meta.value.nextId);
      var jobLinks := InsertRows(tables.jobLinks,
                                 Map(JobLinkInsert(tables.jobs, tables.metadata, meta.value.ids), e.jobLinks));
      if jobLinks.Err? { return Some(jobLinks.error); }
      tables := tables.(jobLinks := jobLinks.value.0);
      var seriesLinks := InsertRows(tables.seriesLinks,
                                    Map(SeriesLinkInsert(tables.metadata, meta.value.ids), e.seriesLinks));
      if seriesLinks.Err? { return Some(seriesLinks.error); }
      tables := tables.(seriesLinks := seriesLinks.value.0);
      return None;
    }

    /** Its statements on markers and fingerprints. */
    method MarkerStatements(e: Export) returns (error: Option<MergeError>)
      modifies this
      ensures match MergedMarkers(old(tables), e)
        case Ok(after) => error.None? && tables == after
        case Err(e) => error == Some(e)
    {
      var markers := AddMarkerRows(tables.markers, tables.jobs, e.markers);
      if markers.Err? { return Some(markers.error); }
      tables := tables.(markers := markers.value);
      var fingerprints := InsertRows(tables.fingerprints, Map(FingerprintInsert(tables.jobs), e.fingerprints));
      if fingerprints.Err? { return Some(fingerprints.error); }
      tables := tables.(fingerprints := fingerprints.value.0);
      return None;
    }

    /** Both of these. */
    method OtherStatements(e: Export) returns (error: Option<MergeError>)
      modifies this
      ensures match MergedOthers(old(tables), e)
        case Ok(after) => error.None? && tables == after
        case Err(e) => error == Some(e)
    {
      error := LinkStatements(e);
      if error.None? { error := MarkerStatements(e); }
    }

    /** All statements of the merge, up to the first failure. */
    method Statements(e: Export, bots: map<int, int>, now: int) returns (r: Result<MergeResult, MergeError>)
      modifies this
      ensures match Merged(old(tables), e, bots, now)
        case Ok(after) => r.Ok? && tables == after && Counts(old(tables), after, r.value)
        case Err(error) => r == Err(error)
    {
      r := JobStatements(e, bots, now);
      if r.Ok? {
        if MergedOthers(tables, e).Ok? { OthersKeepCounts(old(tables), tables, e, r.value); }
        var error := OtherStatements(e);
        if error.Some? { r := Err(error.value); }
      }
    }

    /** `merge_from_export`: all or nothing. */
    method MergeFromExport(e: Export, bots: map<int, int>, now: int) returns (r: Result<MergeResult, MergeError>)
      modifies this
      ensures match Merged(old(tables), e, bots, now)
        case Ok(after) => r.Ok? && tables == after && Counts(old(tables), after, r.value)
        case Err(error) => r == Err(error) && tables == old(tables)
    {
      var before := tables;
      r := Statements(e, bots, now);
      if r.Err? { tables := before; }
    }

    /** `merge_from_database_file`, after the source has been exported. */
    method MergeFromDatabase(e: Export, now: int) returns (r: Result<MergeResult, MergeError>)
      modifies this
      ensures match Merged(old(tables), e, SameBotMap(e), now)
        case Ok(after) => r.Ok? && tables == after && Counts(old(tables), after, r.value)
        case Err(error) => r == Err(error) && tables == old(tables)
    {
      var bots := AutoSameBotIndexMap(e);
      r := MergeFromExport(e, bots, now);
    }
  }

  function BotIndices(e: Export): set<int> {
    (set s | s in e.segments :: s.botIndex) + (set p | p in e.parts :: p.botIndex)
  }

  /** Every bot index of the export, mapped to itself. */
  function SameBotMap(e: Export): map<int, int> { map i | i in BotIndices(e) :: i }

  /** `auto_same_bot_index_map`. */
  method AutoSameBotIndexMap(e: Export) returns (bots: map<int, int>)
    ensures bots == SameBotMap(e)
    ensures forall s :: s in e.segments ==> s.botIndex in bots
    ensures forall p :: p in e.parts ==> p.botIndex in bots
    ensures forall k :: k in bots ==> bots[k] == k
    ensures forall k :: k in bots ==>
      (exists s :: s in e.segments && s.botIndex == k) || (exists p :: p in e.parts && p.botIndex == k)
  {
    bots := map[];
    for i := 0 to |e.segments|
      invariant bots.Keys == set s | s in e.segments[..i] :: s.botIndex
      invariant forall k :: k in bots ==> bots[k] == k
    {
      assert e.segments[..i + 1] == e.segments[..i] + [e.segments[i]];
      bots := bots[e.segments[i].botIndex := e.segments[i].botIndex];
    }
    assert e.segments[..|e.segments|] == e.segments;
    ghost var fromSegments := bots.Keys;
    for i := 0 to |e.parts|
      invariant bots.Keys == fromSegments + set p | p in e.parts[..i] :: p.botIndex
      invariant forall k :: k in bots ==> bots[k] == k
    {
      assert e.parts[..i + 1] == e.parts[..i] + [e.parts[i]];
      bots := bots[e.parts[i].botIndex := e.parts[i].botIndex];
    }
    assert e.parts[..|e.parts|] == e.parts;
  }

  /** Keys that pass the CHECK have different prefix and name exactly when they differ, so
      the second unique index forbids nothing that the first allows. */
  lemma SplitSegmentKeyInjective(a: string, b: string)
    requires '/' in a && '/' in b
    ensures SplitSegmentKey(a) == SplitSegmentKey(b) <==> a == b
  {
    var x, y := SplitSegmentKey(a), SplitSegmentKey(b);
    assert a == x.0 + ['/'] + x.1 && b == y.0 + ['/'] + y.1;
  }
}
