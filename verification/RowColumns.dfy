/** What the tables ask of an exported row, told by its columns alone. */
module RowColumns {
  import opened Options
  import opened LibraryTables
  import opened LibraryMerge

  /** A name without a directory: neither slash nor backslash, and no two dots in a row. */
  ghost predicate IsPlainName(s: string) {
    && (forall i :: 0 <= i < |s| ==> s[i] != '/' && s[i] != '\\')
    && (forall a, b :: s != a + ".." + b)
  }

  /** A job that the table takes, once it is normalised. */
  ghost predicate JobGoesIn(j: JobRow) {
    && (j.status == "error" ==> j.error.Some?)
    && (j.status != "error" ==>
          && j.error.None?
          && j.status in {"queued", "downloading", "analyzing", "processing", "uploading", "complete", "cancelled"})
    && (j.sourcePath.Some? ==> IsPlainName(j.sourcePath.value))
  }

  /** Normalising: an unknown type becomes a film, and only a series keeps its numbers. */
  ghost predicate IsNormalised(j: JobRow, row: JobRow) {
    && row.jobId == j.jobId && row.status == j.status && row.error == j.error && row.isSeries == j.isSeries
    && row.sourcePath == j.sourcePath && row.rest == j.rest
    && row.mediaType == (if j.mediaType in {"Series", "Anime Film", "Anime TV", "Anime"} then j.mediaType else "Film")
    && row.season == (if j.isSeries then j.season else None)
    && row.episode == (if j.isSeries then j.episode else None)
    && row.part == (if j.isSeries then j.part else None)
  }

  ghost predicate TrackGoesIn(t: TrackRow) {
    && (t.key.trackType == "video" || t.key.trackType == "audio" || t.key.trackType == "subtitle")
    && -1 <= t.originalStreamIndex
  }

  ghost predicate SegmentGoesIn(s: SegmentRow, bots: map<int, int>) {
    '/' in s.key.segmentKey && s.botIndex in bots && 0 <= bots[s.botIndex]
  }

  ghost predicate PartGoesIn(p: PartRow, bots: map<int, int>) {
    && '/' in p.key.segmentKey && 0 <= p.key.partIndex && 0 <= p.fileSize
    && p.botIndex in bots && 0 <= bots[p.botIndex]
  }

  ghost predicate JobLinkGoesIn(l: JobLinkRow) { l.key.role == "primary" || l.key.role == "episode" }

  ghost predicate FingerprintGoesIn(f: FingerprintRow) { f.key.windowType == "intro" || f.key.windowType == "outro" }

  ghost predicate IsSoundProgress(p: Progress) {
    0.0 <= p.position && 0.0 <= p.duration && 0 <= p.pct && p.pct <= 100
  }

  ghost predicate IsKnownMeta(k: MetaKey) {
    && (k.provider == "tmdb" || k.provider == "anilist" || k.provider == "mal")
    && (k.mediaKind == "movie" || k.mediaKind == "tv" || k.mediaKind == "anime" || k.mediaKind == "manga")
  }

  ghost predicate IsSoundMarker(m: MediaMarker) {
    && m.kind in {"intro", "outro", "recap", "preview", "credits"}
    && m.source in {"chapter", "chromaprint", "silence", "blackframe", "manual"}
    && 0.0 <= m.start < m.end && 0.0 <= m.confidence <= 1.0
  }

  /** The same marker of the same job up to less than a hundredth of a second at both ends. */
  ghost predicate IsNearMarker(x: MediaMarker, y: MediaMarker) {
    && x.jobId == y.jobId && x.kind == y.kind && x.source == y.source
    && x.start < y.start + 0.01 && y.start < x.start + 0.01
    && x.end < y.end + 0.01 && y.end < x.end + 0.01
  }

  // --- They are the checks of the statements -----------------------------------------

  lemma NameIsPlain(s: string)
    ensures IsFileName(s) <==> IsPlainName(s)
  {
    if HasDotDot(s) {
      var i :| 0 <= i < |s| - 1 && s[i] == '.' && s[i + 1] == '.';
      assert s == s[..i] + ".." + s[i + 2..];
    }
    forall a, b | s == a + ".." + b ensures HasDotDot(s) { assert s[|a|] == '.' && s[|a| + 1] == '.'; }
  }

  /** A job is inserted under its id, normalised and stamped with the clock, exactly when
      its columns allow it. */
  lemma JobByColumns(j: JobRow, now: int)
    ensures InsertOfJob(j, now).Row? && InsertOfJob(j, now).key == j.jobId && InsertOfJob(j, now).parentsOk
    ensures InsertOfJob(j, now).checks <==> JobGoesIn(j)
    ensures InsertOfJob(j, now).value.createdAtUnix == now && IsNormalised(j, InsertOfJob(j, now).value.row)
  {
    NormalizedJobChecks(j);
    if j.sourcePath.Some? { NameIsPlain(j.sourcePath.value); }
    assert MEDIA_TYPES == ["Film"] + MEDIA_TYPES[1..];
  }

  lemma ProgressByColumns(p: Progress)
    ensures ProgressChecks(p) <==> IsSoundProgress(p)
  {
  }

  lemma MetaByColumns(k: MetaKey)
    ensures MetaChecks(k) <==> IsKnownMeta(k)
  {
  }

  lemma NearByColumns(x: MediaMarker, y: MediaMarker)
    ensures NearEqual(x, y) <==> IsNearMarker(x, y)
  {
  }

  lemma MarkerByColumns(m: MediaMarker)
    ensures MarkerChecks(m) <==> IsSoundMarker(m)
  {
  }
}
