/** The emitted media playlist as a player reads it: a reader of the tags of RFC 8216,
    independent of the emitter, and what it finds. */
module PlaylistReader {
  import opened Options
  import opened Text
  import opened Decimal
  import opened Folds
  import opened Playlist
  import opened PlaylistRoundTrip

  // --- The reader --------------------------------------------------------------------

  /** What a player knows after some lines: the header's values, the URI of the init
      segment, the media segments in order, and a duration waiting for its URI. */
  datatype Manifest = Manifest(
    version: Option<nat>,
    vod: bool,
    target: Option<nat>,
    first: Option<nat>,
    initUri: Option<string>,
    entries: seq<(real, string)>,
    waiting: Option<real>,
    ended: bool)

  const EMPTY := Manifest(None, false, None, None, None, [], None, false)

  const VERSION := "#EXT-X-VERSION:"
  const TYPE := "#EXT-X-PLAYLIST-TYPE:"
  const TARGET := "#EXT-X-TARGETDURATION:"
  const SEQUENCE := "#EXT-X-MEDIA-SEQUENCE:"
  const INIT := "#EXT-X-MAP:URI=\""
  const END := "#EXT-X-ENDLIST"

  function Number(s: string): Option<nat> { if s != "" && AllDigits(s) then Some(Value(s)) else None }

  /** The rest of a quoted text up to the closing quote, which must end the line. */
  function Quoted(s: string): Option<string> {
    match SplitOnce(s, '"')
    case None => None
    case Some((text, rest)) => if rest == "" then Some(text) else None
  }

  function Duration(s: string): Option<real> {
    match SplitOnce(s, ',')
    case None => None
    case Some((duration, _)) => ParseSeconds(duration)
  }

  function TakeTag(m: Manifest, line: string): Manifest {
    if VERSION <= line then m.(version := Number(line[|VERSION|..]))
    else if TYPE <= line then m.(vod := line[|TYPE|..] == "VOD")
    else if TARGET <= line then m.(target := Number(line[|TARGET|..]))
    else if SEQUENCE <= line then m.(first := Number(line[|SEQUENCE|..]))
    else if INIT <= line then m.(initUri := Quoted(line[|INIT|..]))
    else if line == END then m.(ended := true)
    else m
  }

  function Take(m: Manifest, line: string): Manifest {
    if INFO <= line then m.(waiting := Duration(line[|INFO|..]))
    else if line == "" then m
    else if line[0] == '#' then TakeTag(m, line)
    else if m.waiting.None? then m
    else m.(entries := m.entries + [(m.waiting.value, line)], waiting := None)
  }

  function Taking(): (Manifest, string) -> Manifest { (m, line) => Take(m, line) }

  function ReadFrom(m: Manifest, lines: seq<string>): Manifest { Fold(Taking(), m, lines) }

  /** A playlist begins with its marker line. */
  function ReadManifest(text: string): Option<Manifest> {
    var lines := Lines(text);
    if lines != [] && lines[0] == "#EXTM3U" then Some(ReadFrom(EMPTY, lines[1..])) else None
  }

  // --- Single lines ------------------------------------------------------------------

  lemma TakesVersion(m: Manifest, n: nat)
    ensures Take(m, VERSION + Format(n)) == m.(version := Some(n))
  {
    var line := VERSION + Format(n);
    assert line[4] == '-';
    assert line[|VERSION|..] == Format(n);
    FormatValue(n);
  }

  lemma TakesType(m: Manifest)
    ensures Take(m, "#EXT-X-PLAYLIST-TYPE:VOD") == m.(vod := true)
  {
    var line := TYPE + "VOD";
    assert line == "#EXT-X-PLAYLIST-TYPE:VOD" && line[4] == '-' && line[7] == 'P';
    assert line[|TYPE|..] == "VOD";
  }

  lemma TakesTarget(m: Manifest, n: nat)
    ensures Take(m, TARGET + Format(n)) == m.(target := Some(n))
  {
    var line := TARGET + Format(n);
    assert line[4] == '-' && line[7] == 'T';
    assert line[|TARGET|..] == Format(n);
    FormatValue(n);
  }

  lemma TakesSequence(m: Manifest)
    ensures Take(m, "#EXT-X-MEDIA-SEQUENCE:0") == m.(first := Some(0))
  {
    var line := SEQUENCE + "0";
    assert line == "#EXT-X-MEDIA-SEQUENCE:0" && line[4] == '-' && line[7] == 'M' && line[8] == 'E';
    assert line[|SEQUENCE|..] == Format(0);
    FormatValue(0);
  }

  lemma TakesEnd(m: Manifest)
    ensures Take(m, END) == m.(ended := true)
  {
    assert END[4] == '-' && END[7] == 'E';
  }

  lemma QuotedWhole(text: string)
    requires '"' !in text
    ensures Quoted(text + "\"") == Some(text)
  {
    assert text + "\"" == text + ['"'] + "";
    SplitOnceAt(text, '"', "");
  }

  lemma TakesMap(m: Manifest, rest: string)
    ensures Take(m, INIT + rest) == m.(initUri := Quoted(rest))
  {
    var line := INIT + rest;
    assert line[4] == '-' && line[7] == 'M' && line[8] == 'A';
    assert line[|INIT|..] == rest;
  }

  lemma TakesInit(m: Manifest, uri: string)
    requires '"' !in uri
    ensures Take(m, INIT + (uri + "\"")) == m.(initUri := Some(uri))
  {
    TakesMap(m, uri + "\"");
    QuotedWhole(uri);
  }

  lemma TakesInfo(m: Manifest, micros: nat)
    ensures Take(m, INFO + FormatSeconds(micros) + ",") == m.(waiting := Some(Seconds(micros)))
  {
    var text := FormatSeconds(micros);
    var line := INFO + text + ",";
    assert line[|INFO|..] == text + [','] + "";
    SecondsHaveNo(micros, ',');
    SplitOnceAt(text, ',', "");
    SecondsRoundTrip(micros);
  }

  lemma TakesUri(m: Manifest, line: string)
    requires line != "" && line[0] == '/' && m.waiting.Some?
    ensures Take(m, line) == m.(entries := m.entries + [(m.waiting.value, line)], waiting := None)
  {
    assert INFO[0] == '#';
  }

  // --- The emitted lines -------------------------------------------------------------

  function Header(version: nat, target: nat): Manifest {
    EMPTY.(version := Some(version), vod := true, target := Some(target), first := Some(0))
  }

  lemma HeaderReads(version: nat, target: nat)
    ensures ReadFrom(EMPTY, HeaderLines(version, target)[1..]) == Header(version, target)
  {
    var a, b := VERSION + Format(version), "#EXT-X-PLAYLIST-TYPE:VOD";
    var c, d := TARGET + Format(target), "#EXT-X-MEDIA-SEQUENCE:0";
    var half := EMPTY.(version := Some(version), vod := true);
    assert HeaderLines(version, target)[1..] == [a, b] + [c, d];
    FoldAppend(Taking(), EMPTY, [a, b], [c, d]);
    FoldTwo(Taking(), EMPTY, a, b);
    FoldTwo(Taking(), half, c, d);
    TakesVersion(EMPTY, version);
    TakesType(EMPTY.(version := Some(version)));
    TakesTarget(half, target);
    TakesSequence(half.(target := Some(target)));
  }

  /** The URI under which a key is served. */
  function Served(job: string, key: string): string { "/segment/" + job + "/" + Uri(key) }

  function InitUri(job: string, init: Option<Segment>): Option<string> {
    if init.Some? && Accepted(init.value.key) then Some(Served(job, init.value.key)) else None
  }

  lemma MapLineParts(job: string, uri: string)
    ensures MapLine(job, uri) == INIT + (("/segment/" + job + "/" + uri) + "\"")
  {
  }

  lemma ServedHasNo(job: string, key: string, c: char)
    requires c !in job && !IsUriChar(c) && c !in "/segment/"
    ensures c !in Served(job, key)
  {
    UriHasNo(key, c);
    AfterPrefix("/segment/", job, Uri(key), c);
  }

  lemma InitReads(m: Manifest, job: string, init: Option<Segment>)
    requires '"' !in job && m.initUri.None?
    ensures ReadFrom(m, InitLines(job, init)) == m.(initUri := InitUri(job, init))
  {
    if init.Some? && Accepted(init.value.key) {
      var key := init.value.key;
      MapLineParts(job, Uri(key));
      ServedHasNo(job, key, '"');
      FoldOne(Taking(), m, MapLine(job, Uri(key)));
      TakesInit(m, Served(job, key));
    }
  }

  function Listing(job: string, hls: nat): Segment -> seq<(real, string)> {
    (s: Segment) => if Accepted(s.key) then [(Seconds(WrittenDuration(s, hls)), Served(job, s.key))] else []
  }

  lemma SegmentTaken(m: Manifest, job: string, s: Segment, hls: nat)
    requires Accepted(s.key) && m.waiting.None?
    ensures ReadFrom(m, SegmentLines(job, s, hls)) == m.(entries := m.entries + Listing(job, hls)(s))
  {
    var waiting := m.(waiting := Some(Seconds(WrittenDuration(s, hls))));
    FoldTwo(Taking(), m, InfoLine(s, hls), UriLine(job, s));
    TakesInfo(m, WrittenDuration(s, hls));
    TakesUri(waiting, UriLine(job, s));
  }

  lemma {:induction false} MediaTaken(m: Manifest, job: string, media: seq<Segment>, hls: nat)
    requires m.waiting.None? && m.entries == []
    ensures ReadFrom(m, MediaLines(job, media, hls)) == m.(entries := FlatMap(Listing(job, hls), media))
  {
    if media != [] {
      var init, s := media[..|media| - 1], media[|media| - 1];
      MediaTaken(m, job, init, hls);
      FoldAppend(Taking(), m, MediaLines(job, init, hls), SegmentLines(job, s, hls));
      if Accepted(s.key) { SegmentTaken(m.(entries := FlatMap(Listing(job, hls), init)), job, s, hls); }
    }
  }

  function Emitted(job: string, segments: seq<Segment>, hls: nat): Manifest {
    var init, media := FirstInit(segments), Media(segments);
    Header(if init.Some? then 7 else 4, TargetDuration(media, hls))
      .(initUri := InitUri(job, init), entries := FlatMap(Listing(job, hls), media), ended := true)
  }

  lemma ThreeParts(m: Manifest, a: seq<string>, b: seq<string>, c: seq<string>, end: string)
    ensures ReadFrom(m, a + b + c + [end]) == Take(ReadFrom(ReadFrom(ReadFrom(m, a), b), c), end)
  {
    FoldSnoc(Taking(), m, a + b + c, end);
    FoldAppend(Taking(), m, a + b, c);
    FoldAppend(Taking(), m, a, b);
  }

  lemma WithoutFirst(a: seq<string>, b: seq<string>, c: seq<string>, end: string)
    requires a != []
    ensures var lines := a + b + c + [end]; lines[0] == a[0] && lines[1..] == a[1..] + b + c + [end]
  {
  }

  /** After the marker line the reader finds what was emitted. */
  lemma LinesRead(job: string, version: nat, target: nat, init: Option<Segment>, media: seq<Segment>, hls: nat)
    requires '"' !in job
    ensures var lines := HeaderLines(version, target)[1..] + InitLines(job, init) + MediaLines(job, media, hls) + [END];
      ReadFrom(EMPTY, lines)
        == Header(version, target).(initUri := InitUri(job, init), entries := FlatMap(Listing(job, hls), media),
                                    ended := true)
  {
    ThreeParts(EMPTY, HeaderLines(version, target)[1..], InitLines(job, init), MediaLines(job, media, hls), END);
    HeaderReads(version, target);
    var withInit := Header(version, target).(initUri := InitUri(job, init));
    InitReads(Header(version, target), job, init);
    MediaTaken(withInit, job, media, hls);
    TakesEnd(withInit.(entries := FlatMap(Listing(job, hls), media)));
  }

  lemma EmittedReads(job: string, segments: seq<Segment>, hls: nat)
    requires '\n' !in job && '"' !in job
    ensures ReadManifest(TerminateAll(PlaylistLines(job, segments, hls))) == Some(Emitted(job, segments, hls))
  {
    var init, media := FirstInit(segments), Media(segments);
    var version, target := if init.Some? then 7 else 4, TargetDuration(media, hls);
    PlaylistIsClean(job, segments, hls);
    CleanLines(PlaylistLines(job, segments, hls));
    WithoutFirst(HeaderLines(version, target), InitLines(job, init), MediaLines(job, media, hls), END);
    LinesRead(job, version, target, init, media, hls);
  }

  // --- What it says about the segments -----------------------------------------------

  ghost predicate IsInitKey(key: string) { exists p :: key == p + "/init.mp4" }

  lemma InitByName(s: Segment)
    ensures IsInit(s) <==> IsInitKey(s.key)
  {
    if IsInit(s) { assert s.key == s.key[..|s.key| - |"/init.mp4"|] + "/init.mp4"; }
  }

  ghost predicate NoInit(segments: seq<Segment>) { forall s :: s in segments ==> !IsInitKey(s.key) }

  ghost predicate IsFirstInit(segments: seq<Segment>, i: int) {
    0 <= i < |segments| && IsInitKey(segments[i].key) && NoInit(segments[..i])
  }

  /** Without init segment it is version 4 without a map; with one it is version 7, and the
      map names the first init segment if its key can stand in a playlist. */
  ghost predicate InitMeans(m: Manifest, job: string, segments: seq<Segment>) {
    && (NoInit(segments) ==> m.version == Some(4) && m.initUri == None)
    && forall i :: IsFirstInit(segments, i) ==>
        && m.version == Some(7)
        && (IsPlayable(segments[i].key) ==> m.initUri == Some("/segment/" + job + "/" + Uri(segments[i].key)))
        && (!IsPlayable(segments[i].key) ==> m.initUri == None)
  }

  ghost predicate HasLength(s: Segment) { s.duration.Some? && 0 < s.duration.value }

  ghost predicate IsMeasuredMedia(segments: seq<Segment>, s: Segment) {
    s in segments && !IsInitKey(s.key) && HasLength(s)
  }

  ghost predicate NothingMeasured(segments: seq<Segment>) { forall s :: !IsMeasuredMedia(segments, s) }

  /** The least whole number of seconds that covers every measured media segment; the
      configured length when there is none. */
  ghost predicate TargetMeans(target: nat, segments: seq<Segment>, hls: nat) {
    && (NothingMeasured(segments) ==> target == hls)
    && (forall s :: IsMeasuredMedia(segments, s) ==> s.duration.value <= target * 1_000_000)
    && (!NothingMeasured(segments) ==>
          exists s :: IsMeasuredMedia(segments, s) && s.duration.value > (target - 1) * 1_000_000)
  }

  /** The seconds told for a segment: its own, or the configured length, but at least one
      thousandth. */
  function Length(s: Segment, hls: nat): real {
    if s.duration.Some? && 0 < s.duration.value then s.duration.value as real / 1_000_000.0
    else if 0 < hls then hls as real
    else 0.001
  }

  /** Media segments whose keys can stand in a playlist are listed. */
  ghost function ListedOne(job: string, s: Segment, hls: nat): seq<(real, string)> {
    if IsInitKey(s.key) || !IsPlayable(s.key) then []
    else [(Length(s, hls), "/segment/" + job + "/" + Uri(s.key))]
  }

  /** All of them, in order. */
  ghost function Listed(job: string, segments: seq<Segment>, hls: nat): seq<(real, string)> {
    if segments == [] then [] else ListedOne(job, segments[0], hls) + Listed(job, segments[1..], hls)
  }

  lemma LengthIsWritten(s: Segment, hls: nat)
    ensures Seconds(WrittenDuration(s, hls)) == Length(s, hls)
  {
    assert Seconds(1000) == 0.001;
    assert Seconds(hls * MICROS) == hls as real;
  }

  lemma OneIsListed(job: string, s: Segment, hls: nat)
    ensures (if IsInit(s) then [] else Listing(job, hls)(s)) == ListedOne(job, s, hls)
  {
    InitByName(s);
    AcceptedExactly(s.key);
    LengthIsWritten(s, hls);
  }

  lemma {:induction false} ListingIsListed(job: string, segments: seq<Segment>, hls: nat)
    ensures FlatMap(Listing(job, hls), Media(segments)) == Listed(job, segments, hls)
  {
    if segments != [] {
      var s, rest := segments[0], Media(segments[1..]);
      ListingIsListed(job, segments[1..], hls);
      OneIsListed(job, s, hls);
      if IsInit(s) {
        assert [] + rest == rest == Media(segments);
      } else {
        FlatMapPrepend(Listing(job, hls), s, rest);
      }
    }
  }

  lemma {:induction false} FirstInitFound(segments: seq<Segment>)
    ensures FirstInit(segments).None? <==> NoInit(segments)
    ensures forall i :: IsFirstInit(segments, i) ==> FirstInit(segments) == Some(segments[i])
  {
    if segments != [] {
      var rest := segments[1..];
      FirstInitFound(rest);
      InitByName(segments[0]);
      assert segments == [segments[0]] + rest;
      forall i | IsFirstInit(segments, i) ensures FirstInit(segments) == Some(segments[i]) {
        if i > 0 {
          assert segments[..i] == [segments[0]] + rest[..i - 1];
          assert segments[0] in segments[..i];
          assert IsFirstInit(rest, i - 1);
        }
      }
    }
  }

  lemma {:induction false} MediaHolds(segments: seq<Segment>, s: Segment)
    ensures s in Media(segments) <==> s in segments && !IsInitKey(s.key)
  {
    if segments != [] {
      InitByName(segments[0]);
      MediaHolds(segments[1..], s);
      assert segments == [segments[0]] + segments[1..];
    }
  }

  lemma TargetIsLeast(segments: seq<Segment>, hls: nat)
    ensures TargetMeans(TargetDuration(Media(segments), hls), segments, hls)
  {
    var media, target := Media(segments), TargetDuration(Media(segments), hls);
    forall s ensures IsMeasuredMedia(segments, s) <==> s in media && IsMeasured(s) { MediaHolds(segments, s); }
    forall s | s in media && IsMeasured(s)
      ensures 0 < s.duration.value <= Longest(media) && s.duration.value <= target * 1_000_000
    {
      var i :| 0 <= i < |media| && media[i] == s;
      LongestBounds(media, i);
      MeasuredFits(media, hls, i);
    }
    if Longest(media) > 0 {
      LongestAttained(media);
      var i :| 0 <= i < |media| && IsMeasured(media[i]) && media[i].duration.value == Longest(media);
      assert IsMeasuredMedia(segments, media[i]);
      CeilingReaches(Longest(media), target);
    }
  }

  /** Reading the emitted text finds a whole playlist: the header, the init segment, and the
      listed segments in order, each with its duration and its address. */
  lemma EmittedMeans(job: string, segments: seq<Segment>, hls: nat) returns (m: Manifest)
    requires '\n' !in job && '"' !in job
    ensures ReadManifest(TerminateAll(PlaylistLines(job, segments, hls))) == Some(m)
    ensures m.vod && m.first == Some(0) && m.ended && m.waiting == None
    ensures InitMeans(m, job, segments)
    ensures m.target.Some? && TargetMeans(m.target.value, segments, hls)
    ensures m.entries == Listed(job, segments, hls)
  {
    m := Emitted(job, segments, hls);
    EmittedReads(job, segments, hls);
    FirstInitFound(segments);
    forall i | IsFirstInit(segments, i) ensures Accepted(segments[i].key) <==> IsPlayable(segments[i].key) {
      AcceptedExactly(segments[i].key);
    }
    TargetIsLeast(segments, hls);
    ListingIsListed(job, segments, hls);
  }

  // --- Conformance -------------------------------------------------------------------

  /** Section 4.3.3.1 of RFC 8216 on what was read: every duration, rounded to the nearest
      whole second, is at most the target duration. */
  ghost predicate FitsTarget(m: Manifest) {
    m.target.Some? && forall entry :: entry in m.entries ==> (entry.0 + 0.5).Floor <= m.target.value
  }

  ghost predicate ListedAreMeasured(segments: seq<Segment>) {
    forall s :: s in segments && !IsInitKey(s.key) && IsPlayable(s.key) ==> HasLength(s)
  }

  /** Some measured media segment is longer than the configured length less a second. */
  ghost predicate LongEnough(segments: seq<Segment>, hls: nat) {
    exists s :: IsMeasuredMedia(segments, s) && s.duration.value > (hls - 1) * 1_000_000
  }

  lemma FloorIs(x: real, n: int)
    requires n as real <= x < n as real + 1.0
    ensures x.Floor == n
  {
  }

  lemma RoundedSeconds(micros: nat)
    ensures (Seconds(micros) + 0.5).Floor == Rounded(micros)
  {
    var n := micros + 500_000;
    assert n == n / MICROS * MICROS + n % MICROS;
    FloorIs(n as real / 1_000_000.0, n / MICROS);
    assert Seconds(micros) + 0.5 == n as real / 1_000_000.0;
  }

  lemma FitsIsConforms(job: string, segments: seq<Segment>, hls: nat)
    ensures FitsTarget(Emitted(job, segments, hls)) <==> Conforms(Media(segments), hls)
  {
    var m, media := Emitted(job, segments, hls), Media(segments);
    if FitsTarget(m) {
      forall i | 0 <= i < |media| && Accepted(media[i].key)
        ensures Rounded(WrittenDuration(media[i], hls)) <= TargetDuration(media, hls)
      {
        var entry := (Seconds(WrittenDuration(media[i], hls)), Served(job, media[i].key));
        assert media[i] in media && entry in Listing(job, hls)(media[i]);
        FlatMapHolds(Listing(job, hls), media, entry);
        RoundedSeconds(WrittenDuration(media[i], hls));
      }
    }
    if Conforms(media, hls) {
      forall entry | entry in m.entries ensures (entry.0 + 0.5).Floor <= m.target.value {
        FlatMapHolds(Listing(job, hls), media, entry);
        var s :| s in media && entry in Listing(job, hls)(s);
        var i :| 0 <= i < |media| && media[i] == s;
        RoundedSeconds(WrittenDuration(s, hls));
      }
    }
  }

  lemma AllMeasuredByColumns(segments: seq<Segment>)
    ensures AllMeasured(Media(segments)) <==> ListedAreMeasured(segments)
  {
    var media := Media(segments);
    if AllMeasured(media) {
      forall s | s in segments && !IsInitKey(s.key) && IsPlayable(s.key) ensures HasLength(s) {
        MediaHolds(segments, s);
        AcceptedExactly(s.key);
        var i :| 0 <= i < |media| && media[i] == s;
      }
    }
    if ListedAreMeasured(segments) {
      forall i | 0 <= i < |media| && Accepted(media[i].key) ensures IsMeasured(media[i]) {
        MediaHolds(segments, media[i]);
        AcceptedExactly(media[i].key);
      }
    }
  }

  lemma MeasuredByColumns(segments: seq<Segment>, s: Segment)
    ensures IsMeasuredMedia(segments, s) <==> s in Media(segments) && IsMeasured(s)
  {
    MediaHolds(segments, s);
  }

  lemma NoneMeasuredByColumns(segments: seq<Segment>)
    ensures NoneMeasured(Media(segments)) <==> NothingMeasured(segments)
  {
    var media := Media(segments);
    forall s ensures IsMeasuredMedia(segments, s) <==> s in media && IsMeasured(s) { MeasuredByColumns(segments, s); }
    if NothingMeasured(segments) {
      forall i | 0 <= i < |media| ensures !IsMeasured(media[i]) { assert !IsMeasuredMedia(segments, media[i]); }
    }
  }

  lemma LongByColumns(segments: seq<Segment>, hls: nat)
    ensures LongSegment(Media(segments), hls) <==> LongEnough(segments, hls)
  {
    var media := Media(segments);
    forall s ensures IsMeasuredMedia(segments, s) <==> s in media && IsMeasured(s) { MeasuredByColumns(segments, s); }
    if i :| 0 <= i < |media| && IsMeasured(media[i]) && media[i].duration.value > (hls - 1) * MICROS {
      assert IsMeasuredMedia(segments, media[i]);
    }
    if s :| IsMeasuredMedia(segments, s) && s.duration.value > (hls - 1) * 1_000_000 {
      var i :| 0 <= i < |media| && media[i] == s;
    }
  }

  /** The emitted playlist, as it reads, conforms exactly when every listed segment has a
      positive duration, or no media segment has one, or some media segment has one that is
      longer than the configured length less a second. */
  lemma ConformsExactly(job: string, segments: seq<Segment>, hls: nat)
    requires '\n' !in job && '"' !in job
    ensures var read := ReadManifest(TerminateAll(PlaylistLines(job, segments, hls)));
      && read.Some?
      && (FitsTarget(read.value) <==>
            ListedAreMeasured(segments) || NothingMeasured(segments) || LongEnough(segments, hls))
  {
    EmittedReads(job, segments, hls);
    FitsIsConforms(job, segments, hls);
    DurationsFitExactly(Media(segments), hls);
    AllMeasuredByColumns(segments);
    NoneMeasuredByColumns(segments);
    LongByColumns(segments, hls);
  }

  /** A playlist that does not conform: one segment of two seconds, one unmeasured, and a
      configured length of ten seconds. */
  lemma UnmeasuredExceedsTarget(job: string)
    requires '\n' !in job && '"' !in job
    ensures var segments := [Segment("v/a", Some(2_000_000)), Segment("v/b", None)];
      var read := ReadManifest(TerminateAll(PlaylistLines(job, segments, 10)));
      read.Some? && !FitsTarget(read.value)
  {
    var a, b := Segment("v/a", Some(2_000_000)), Segment("v/b", None);
    EmittedReads(job, [a, b], 10);
    FitsIsConforms(job, [a, b], 10);
    assert [a, b][1..] == [b] && [b][1..] == [];
    assert Media([b]) == [b];
    assert Media([a, b]) == [a, b];
    UnmeasuredSegmentExceedsTarget();
  }
}
