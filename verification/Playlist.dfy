/** HLS media playlists: percent-encoding of segment keys, emitting a playlist and
    reading the segment durations back. Durations are whole microseconds. */
module Playlist {
  import opened Options
  import opened Text
  import opened Decimal
  import opened Folds
  import opened Bits
  import opened Unicode

  // --- Percent-encoding --------------------------------------------------------------

  predicate IsSafe(b: Byte) {
    || 48 <= b <= 57 || 65 <= b <= 90 || 97 <= b <= 122
    || b == 95 || b == 47 || b == 45 || b == 46 || b == 126
  }

  function PercentByte(b: Byte): string {
    if IsSafe(b) then [b as char] else ['%', UpperHexDigit(b / 16), UpperHexDigit(b % 16)]
  }

  function Percent(bytes: seq<Byte>): string {
    if bytes == [] then [] else PercentByte(bytes[0]) + Percent(bytes[1..])
  }

  /** Percent-decoding, section 2.1 of RFC 3986. */
  function PercentDecode(s: string): Option<seq<Byte>> {
    if s == [] then Some([])
    else if s[0] == '%' then
      if |s| < 3 || HexValue(s[1]).None? || HexValue(s[2]).None? then None
      else
        match PercentDecode(s[3..])
        case None => None
        case Some(rest) => Some([16 * HexValue(s[1]).value + HexValue(s[2]).value] + rest)
    else if s[0] as int >= 128 then None
    else
      match PercentDecode(s[1..])
      case None => None
      case Some(rest) => Some([s[0] as int] + rest)
  }

  lemma PercentByteDecodes(b: Byte, rest: string)
    requires PercentDecode(rest).Some?
    ensures PercentDecode(PercentByte(b) + rest) == Some([b] + PercentDecode(rest).value)
  {
    var s := PercentByte(b) + rest;
    if IsSafe(b) {
      assert s[1..] == rest;
    } else {
      assert s[3..] == rest;
    }
  }

  lemma {:induction false} PercentDecodes(bytes: seq<Byte>)
    ensures PercentDecode(Percent(bytes)) == Some(bytes)
  {
    if bytes != [] {
      PercentDecodes(bytes[1..]);
      PercentByteDecodes(bytes[0], Percent(bytes[1..]));
      assert bytes == [bytes[0]] + bytes[1..];
    }
  }

  /** The unreserved characters of section 2.3 of RFC 3986. */
  predicate IsUnreserved(c: char) {
    'A' <= c <= 'Z' || 'a' <= c <= 'z' || '0' <= c <= '9' || c == '-' || c == '.' || c == '_' || c == '~'
  }

  predicate IsUpperHex(c: char) { '0' <= c <= '9' || 'A' <= c <= 'F' }

  /** The text is a path in the normal form of section 6.2.2 of RFC 3986: unreserved
      characters and slashes stand for themselves, and every other byte is an escape with
      upper-case digits. */
  predicate IsEncoded(s: string) {
    if s == [] then true
    else if s[0] == '%' then
      && |s| >= 3 && IsUpperHex(s[1]) && IsUpperHex(s[2]) && IsEncoded(s[3..])
      && var b := 16 * HexValue(s[1]).value + HexValue(s[2]).value;
        b >= 128 || !(IsUnreserved(b as char) || b == 47)
    else (IsUnreserved(s[0]) || s[0] == '/') && IsEncoded(s[1..])
  }

  lemma PercentByteIsEncoded(b: Byte, rest: string)
    requires IsEncoded(rest)
    ensures IsEncoded(PercentByte(b) + rest)
  {
    var s := PercentByte(b) + rest;
    if IsSafe(b) {
      assert s[1..] == rest;
    } else {
      assert s[3..] == rest && IsUpperHex(s[1]) && IsUpperHex(s[2]);
    }
  }

  lemma {:induction false} PercentIsEncoded(bytes: seq<Byte>)
    ensures IsEncoded(Percent(bytes))
  {
    if bytes != [] {
      PercentIsEncoded(bytes[1..]);
      PercentByteIsEncoded(bytes[0], Percent(bytes[1..]));
    }
  }

  lemma {:induction false} PercentAppend(a: seq<Byte>, b: seq<Byte>)
    ensures Percent(a + b) == Percent(a) + Percent(b)
  {
    if a == [] {
      assert a + b == b;
    } else {
      PercentAppend(a[1..], b);
      assert (a + b)[1..] == a[1..] + b;
      Associate(PercentByte(a[0]), Percent(a[1..]), Percent(b));
    }
  }

  predicate BadComponent(c: string) {
    c == "" || c[0] == '#' || c == "." || c == ".." || ' ' in c
  }

  predicate AnyBad(components: seq<string>) {
    exists i :: 0 <= i < |components| && BadComponent(components[i])
  }

  predicate Accepted(key: string) {
    key != "" && '\r' !in key && '\n' !in key && !AnyBad(Split(key, '/'))
  }

  function Uri(key: string): string { Percent(Utf8(key)) }

  method HasBadComponent(components: seq<string>) returns (bad: bool)
    ensures bad == AnyBad(components)
  {
    for i := 0 to |components|
      invariant !AnyBad(components[..i])
    {
      if BadComponent(components[i]) { return true; }
    }
    assert components[..|components|] == components;
    return false;
  }

  method PercentEncode(bytes: seq<Byte>) returns (out: string)
    ensures out == Percent(bytes)
  {
    out := "";
    for i := 0 to |bytes|
      invariant out == Percent(bytes[..i])
    {
      var b := bytes[i];
      PercentAppend(bytes[..i], [b]);
      assert bytes[..i + 1] == bytes[..i] + [b] && [b][1..] == [];
      if IsSafe(b) { out := out + [b as char]; }
      else { out := out + ['%', UpperHexDigit(b / 16), UpperHexDigit(b % 16)]; }
    }
    assert bytes[..|bytes|] == bytes;
  }

  /** `sanitize_segment_uri`. */
  method SanitizeSegmentUri(key: string) returns (r: Option<string>)
    ensures r == if Accepted(key) then Some(Uri(key)) else None
  {
    if key == "" || '\r' in key || '\n' in key { return None; }
    var bad := HasBadComponent(Split(key, '/'));
    if bad { return None; }
    var out := PercentEncode(Utf8(key));
    return Some(out);
  }

  /** The URI is a path in normal form, and decoding it gives back the bytes of the key. */
  lemma UriDecodes(key: string)
    ensures PercentDecode(Uri(key)) == Some(Utf8(key))
    ensures IsEncoded(Uri(key))
  {
    PercentDecodes(Utf8(key));
    PercentIsEncoded(Utf8(key));
  }

  // UTF-8 is read back character by character, so the bytes determine the key.

  function CharLength(first: Byte): nat {
    if first < 0xC0 then 1 else if first < 0xE0 then 2 else if first < 0xF0 then 3 else 4
  }

  lemma SameQuotient(n: nat, m: nat)
    requires n / 64 == m / 64 && n % 64 == m % 64
    ensures n == m
  {
  }

  lemma SameTriple(n: nat, m: nat)
    requires n / 4096 == m / 4096 && n / 64 % 64 == m / 64 % 64 && n % 64 == m % 64
    ensures n == m
  {
    assert n / 64 / 64 == n / 4096 && m / 64 / 64 == m / 4096;
    SameQuotient(n / 64, m / 64);
    SameQuotient(n, m);
  }

  lemma SameQuadruple(n: nat, m: nat)
    requires n / 262144 == m / 262144 && n / 4096 % 64 == m / 4096 % 64 && n / 64 % 64 == m / 64 % 64
    requires n % 64 == m % 64
    ensures n == m
  {
    assert n / 64 / 4096 == n / 262144 && m / 64 / 4096 == m / 262144;
    assert n / 64 / 64 == n / 4096 && m / 64 / 64 == m / 4096;
    SameTriple(n / 64, m / 64);
    SameQuotient(n, m);
  }

  lemma Utf8CharInjective(c: char, d: char)
    requires Utf8Char(c) == Utf8Char(d)
    ensures c == d
  {
    var n, m := c as int, d as int;
    var x, y := Utf8Char(c), Utf8Char(d);
    assert |x| == |y| && x[0] == y[0];
    if n < 0x80 {
    } else if n < 0x800 {
      assert x[1] == y[1];
      SameQuotient(n, m);
    } else if n < 0x1_0000 {
      assert x[1] == y[1] && x[2] == y[2];
      SameTriple(n, m);
    } else {
      assert x[1] == y[1] && x[2] == y[2] && x[3] == y[3];
      SameQuadruple(n, m);
    }
  }

  lemma Utf8CharLength(c: char)
    ensures |Utf8Char(c)| == CharLength(Utf8Char(c)[0])
  {
  }

  lemma {:induction false} Utf8Injective(a: string, b: string)
    requires Utf8(a) == Utf8(b)
    ensures a == b
  {
    if a == [] || b == [] {
    } else {
      var x, y := Utf8Char(a[0]), Utf8Char(b[0]);
      var all := Utf8(a);
      Utf8CharLength(a[0]);
      Utf8CharLength(b[0]);
      assert all[0] == x[0] && all[0] == y[0];
      assert x == all[..|x|] && y == all[..|y|];
      Utf8CharInjective(a[0], b[0]);
      assert Utf8(a[1..]) == all[|x|..] && Utf8(b[1..]) == all[|y|..];
      Utf8Injective(a[1..], b[1..]);
    }
  }

  /** No two keys share a URI. */
  lemma UriInjective(a: string, b: string)
    requires Uri(a) == Uri(b)
    ensures a == b
  {
    UriDecodes(a);
    UriDecodes(b);
    Utf8Injective(a, b);
  }

  // --- Durations as text -------------------------------------------------------------

  const MICROS: nat := 1_000_000

  /** The last `width` decimal digits of a number. */
  function Digits(n: nat, width: nat): (r: string)
    ensures |r| == width && AllDigits(r)
  {
    if width == 0 then "" else Digits(n / 10, width - 1) + [DigitChar(n % 10)]
  }

  /** `{:.6}` of a number of seconds. */
  function FormatSeconds(micros: nat): string {
    Format(micros / MICROS) + "." + Digits(micros % MICROS, 6)
  }

  function Pow10(n: nat): (r: nat)
    ensures r > 0
  {
    if n == 0 then 1 else 10 * Pow10(n - 1)
  }

  function Unsigned(s: string): Option<real> {
    match SplitOnce(s, '.')
    case None => if s != "" && AllDigits(s) then Some(Value(s) as real) else None
    case Some((whole, fraction)) =>
      if (whole == "" && fraction == "") || !AllDigits(whole) || !AllDigits(fraction) then None
      else Some(Value(whole) as real + Value(fraction) as real / Pow10(|fraction|) as real)
  }

  /** `str::parse::<f64>` on plain decimals: an optional sign, digits, an optional point. */
  function ParseSeconds(s: string): Option<real> {
    if s != "" && s[0] == '-' then
      match Unsigned(s[1..])
      case None => None
      case Some(x) => Some(0.0 - x)
    else Unsigned(if s != "" && s[0] == '+' then s[1..] else s)
  }

  function Seconds(micros: nat): real { micros as real / MICROS as real }

  lemma DivTen(n: nat, p: nat)
    requires n < 10 * p
    ensures n / 10 < p && n == 10 * (n / 10) + n % 10
  {
  }

  lemma {:induction false} DigitsValue(n: nat, width: nat)
    requires n < Pow10(width)
    ensures Value(Digits(n, width)) == n
  {
    if width > 0 {
      var init, last := Digits(n / 10, width - 1), DigitChar(n % 10);
      DivTen(n, Pow10(width - 1));
      DigitsValue(n / 10, width - 1);
      ValueSnoc(init, last);
    }
  }

  lemma ValueSnoc(init: string, last: char)
    requires AllDigits(init) && IsDigit(last)
    ensures AllDigits(init + [last])
    ensures Value(init + [last]) == 10 * Value(init) + DigitValue(last)
  {
    assert (init + [last])[..|init|] == init;
  }

  lemma PowSix()
    ensures Pow10(6) == MICROS
  {
    assert Pow10(2) == 100;
    assert Pow10(4) == 10_000;
  }

  lemma SplitSeconds(micros: nat)
    ensures Seconds(micros) == (micros / MICROS) as real + (micros % MICROS) as real / MICROS as real
  {
    var q, r := micros / MICROS, micros % MICROS;
    assert micros as real == MICROS as real * q as real + r as real;
  }

  /** A formatted duration reads back exactly. */
  lemma SecondsRoundTrip(micros: nat)
    ensures ParseSeconds(FormatSeconds(micros)) == Some(Seconds(micros))
  {
    var whole, fraction := Format(micros / MICROS), Digits(micros % MICROS, 6);
    assert '.' !in whole;
    SplitOnceAt(whole, '.', fraction);
    FormatValue(micros / MICROS);
    PowSix();
    DigitsValue(micros % MICROS, 6);
    SplitSeconds(micros);
    assert FormatSeconds(micros)[0] == whole[0];
  }

  // --- Emitting ----------------------------------------------------------------------

  datatype Segment = Segment(key: string, duration: Option<int>)

  predicate IsInit(s: Segment) { EndsWith(s.key, "/init.mp4") }

  predicate IsMeasured(s: Segment) { s.duration.Some? && s.duration.value > 0 }

  function Media(segments: seq<Segment>): seq<Segment> {
    if segments == [] then []
    else (if IsInit(segments[0]) then [] else [segments[0]]) + Media(segments[1..])
  }

  function FirstInit(segments: seq<Segment>): Option<Segment> {
    if segments == [] then None else if IsInit(segments[0]) then Some(segments[0]) else FirstInit(segments[1..])
  }

  /** The duration written for a segment without a positive one. */
  function Fallback(hls: nat): nat { if hls * MICROS > 1000 then hls * MICROS else 1000 }

  function WrittenDuration(s: Segment, hls: nat): nat {
    if IsMeasured(s) then s.duration.value else Fallback(hls)
  }

  function Longest(media: seq<Segment>): nat {
    if media == [] then 0
    else
      var before := Longest(media[..|media| - 1]);
      var s := media[|media| - 1];
      if IsMeasured(s) && s.duration.value > before then s.duration.value else before
  }

  /** Whole seconds: the longest duration rounded up, or the configured length. */
  function TargetDuration(media: seq<Segment>, hls: nat): nat {
    if Longest(media) > 0 then (Longest(media) + (MICROS - 1)) / MICROS else hls
  }

  function HeaderLines(version: nat, target: nat): seq<string> {
    ["#EXTM3U", "#EXT-X-VERSION:" + Format(version), "#EXT-X-PLAYLIST-TYPE:VOD",
     "#EXT-X-TARGETDURATION:" + Format(target), "#EXT-X-MEDIA-SEQUENCE:0"]
  }

  function MapLine(job: string, uri: string): string { "#EXT-X-MAP:URI=\"/segment/" + job + "/" + uri + "\"" }

  function InitLines(job: string, init: Option<Segment>): seq<string> {
    if init.Some? && Accepted(init.value.key) then [MapLine(job, Uri(init.value.key))] else []
  }

  function InfoLine(s: Segment, hls: nat): string { "#EXTINF:" + FormatSeconds(WrittenDuration(s, hls)) + "," }

  function UriLine(job: string, s: Segment): string { "/segment/" + job + "/" + Uri(s.key) }

  function SegmentLines(job: string, s: Segment, hls: nat): seq<string> {
    if Accepted(s.key) then [InfoLine(s, hls), UriLine(job, s)] else []
  }

  function LinesOf(job: string, hls: nat): Segment -> seq<string> { s => SegmentLines(job, s, hls) }

  function MediaLines(job: string, media: seq<Segment>, hls: nat): seq<string> { FlatMap(LinesOf(job, hls), media) }

  function LinesBefore(job: string, segments: seq<Segment>, hls: nat): seq<string> {
    var init := FirstInit(segments);
    HeaderLines(if init.Some? then 7 else 4, TargetDuration(Media(segments), hls)) + InitLines(job, init)
  }

  /** The playlist, line by line. */
  function PlaylistLines(job: string, segments: seq<Segment>, hls: nat): seq<string> {
    LinesBefore(job, segments, hls) + MediaLines(job, Media(segments), hls) + ["#EXT-X-ENDLIST"]
  }

  lemma {:induction false} TerminateAppend(a: seq<string>, b: seq<string>)
    ensures TerminateAll(a + b) == TerminateAll(a) + TerminateAll(b)
  {
    if a == [] {
      assert a + b == b;
    } else {
      TerminateAppend(a[1..], b);
      assert (a + b)[1..] == a[1..] + b;
      Associate(a[0] + "\n", TerminateAll(a[1..]), TerminateAll(b));
    }
  }

  lemma TerminateOne(line: string)
    ensures TerminateAll([line]) == line + "\n"
  {
    assert [line][1..] == [];
  }

  method FindInit(segments: seq<Segment>) returns (init: Option<Segment>, media: seq<Segment>)
    ensures init == FirstInit(segments)
    ensures media == Media(segments)
  {
    init, media := None, [];
    var i := |segments|;
    while i > 0
      invariant 0 <= i <= |segments|
      invariant init == FirstInit(segments[i..]) && media == Media(segments[i..])
    {
      i := i - 1;
      assert segments[i..][1..] == segments[i + 1..];
      if IsInit(segments[i]) { init := Some(segments[i]); } else { media := [segments[i]] + media; }
    }
  }

  method LongestMeasured(media: seq<Segment>) returns (target: nat)
    ensures target == Longest(media)
  {
    target := 0;
    for i := 0 to |media|
      invariant target == Longest(media[..i])
    {
      assert media[..i + 1][..i] == media[..i];
      if IsMeasured(media[i]) && media[i].duration.value > target { target := media[i].duration.value; }
    }
    assert media[..|media|] == media;
  }

  /** What the loop appends for one segment. */
  function Entry(job: string, dur: nat, uri: string): string {
    "#EXTINF:" + FormatSeconds(dur) + "," + "\n" + "/segment/" + job + "/" + uri + "\n"
  }

  lemma TerminateSegment(job: string, s: Segment, hls: nat)
    requires Accepted(s.key)
    ensures TerminateAll(SegmentLines(job, s, hls)) == Entry(job, WrittenDuration(s, hls), Uri(s.key))
  {
    var info, uri := InfoLine(s, hls), UriLine(job, s);
    assert [info, uri][1..] == [uri];
    TerminateOne(uri);
  }

  function EntryOf(job: string, s: Segment, hls: nat): string {
    if Accepted(s.key) then Entry(job, WrittenDuration(s, hls), Uri(s.key)) else ""
  }

  lemma MediaSnoc(job: string, media: seq<Segment>, s: Segment, hls: nat)
    ensures TerminateAll(MediaLines(job, media + [s], hls))
      == TerminateAll(MediaLines(job, media, hls)) + EntryOf(job, s, hls)
  {
    FlatMapSnoc(LinesOf(job, hls), media, s);
    TerminateAppend(MediaLines(job, media, hls), SegmentLines(job, s, hls));
    if Accepted(s.key) { TerminateSegment(job, s, hls); }
  }

  method EmitSegment(job: string, s: Segment, hls: nat) returns (text: string)
    ensures text == EntryOf(job, s, hls)
  {
    var dur := if IsMeasured(s) then s.duration.value else Fallback(hls);
    var uri := SanitizeSegmentUri(s.key);
    if uri.None? { return ""; }
    return Entry(job, dur, uri.value);
  }

  /** The loop of `emit_media_playlist` over the media segments. */
  method EmitSegments(job: string, media: seq<Segment>, hls: nat) returns (out: string)
    ensures out == TerminateAll(MediaLines(job, media, hls))
  {
    out := "";
    for i := 0 to |media|
      invariant out == TerminateAll(MediaLines(job, media[..i], hls))
    {
      var text := EmitSegment(job, media[i], hls);
      MediaSnoc(job, media[..i], media[i], hls);
      assert media[..i + 1] == media[..i] + [media[i]];
      out := out + text;
    }
    assert media[..|media|] == media;
  }

  method EmitHead(job: string, init: Option<Segment>, target: nat) returns (out: string)
    ensures out == TerminateAll(HeaderLines(if init.Some? then 7 else 4, target) + InitLines(job, init))
  {
    var header := HeaderLines(if init.Some? then 7 else 4, target);
    out := TerminateAll(header);
    TerminateAppend(header, InitLines(job, init));
    if init.Some? {
      var uri := SanitizeSegmentUri(init.value.key);
      if uri.Some? {
        TerminateOne(MapLine(job, uri.value));
        out := out + (MapLine(job, uri.value) + "\n");
      }
    }
  }

  /** `emit_media_playlist`. */
  method EmitMediaPlaylist(job: string, segments: seq<Segment>, hls: nat) returns (out: string)
    ensures out == TerminateAll(PlaylistLines(job, segments, hls))
  {
    var init, media := FindInit(segments);
    var longest := LongestMeasured(media);
    var target := if longest > 0 then (longest + (MICROS - 1)) / MICROS else hls;
    var head := EmitHead(job, init, target);
    var body := EmitSegments(job, media, hls);
    ghost var before, lines := LinesBefore(job, segments, hls), MediaLines(job, media, hls);
    TerminateAppend(before, lines);
    TerminateAppend(before + lines, ["#EXT-X-ENDLIST"]);
    TerminateOne("#EXT-X-ENDLIST");
    out := head + body + "#EXT-X-ENDLIST\n";
  }

  // --- Reading back ------------------------------------------------------------------

  /** `Path::file_name`: the last component, without trailing slashes and dots. */
  function FileNameOf(parts: seq<string>): Option<string> {
    if parts == [] then None
    else
      var last := parts[|parts| - 1];
      if last == "" || last == "." then FileNameOf(parts[..|parts| - 1])
      else if last == ".." then None
      else Some(last)
  }

  function FileName(path: string): Option<string> { FileNameOf(Split(path, '/')) }

  /** The reader's state: the duration waiting for a URI, and the durations found. */
  datatype Reader = Reader(pending: Option<real>, found: map<string, real>)

  const INFO := "#EXTINF:"

  function Info(raw: string): Option<real> {
    match SplitOnce(raw, ',')
    case Some((duration, _)) => ParseSeconds(duration)
    case None => ParseSeconds(raw)
  }

  function WithoutQuery(line: string): string {
    match SplitOnce(line, '?')
    case Some((head, _)) => head
    case None => line
  }

  function ReadLine(prefix: string, r: Reader, raw: string): Reader {
    var line := Trim(raw);
    if INFO <= line then r.(pending := Info(line[|INFO|..]))
    else if line == "" || line[0] == '#' || r.pending.None? then r
    else
      match FileName(WithoutQuery(line))
      case None => r.(pending := None)
      case Some(name) => Reader(None, r.found[prefix + "/" + name := r.pending.value])
  }

  function Reading(prefix: string): (Reader, string) -> Reader { (r, line) => ReadLine(prefix, r, line) }

  function ReadLines(prefix: string, r: Reader, lines: seq<string>): Reader { Fold(Reading(prefix), r, lines) }

  const START := Reader(None, map[])

  /** One turn of the loop of `parse_hls_segment_durations`. */
  method TakeLine(prefix: string, waiting: Option<real>, found: map<string, real>, raw: string)
    returns (pending: Option<real>, out: map<string, real>)
    ensures Reader(pending, out) == ReadLine(prefix, Reader(waiting, found), raw)
  {
    pending, out := waiting, found;
    var line := Trim(raw);
    if INFO <= line {
      pending := Info(line[|INFO|..]);
      return;
    }
    if line == "" || line[0] == '#' { return; }
    if pending.None? { return; }
    pending := None;
    var name := FileName(WithoutQuery(line));
    if name.None? { return; }
    out := out[prefix + "/" + name.value := waiting.value];
  }

  /** `parse_hls_segment_durations`. */
  method ParseHlsSegmentDurations(prefix: string, playlist: string) returns (out: map<string, real>)
    ensures out == ReadLines(prefix, START, Lines(playlist)).found
  {
    out := map[];
    var pending: Option<real> := None;
    var lines := Lines(playlist);
    for i := 0 to |lines|
      invariant Reader(pending, out) == ReadLines(prefix, START, lines[..i])
    {
      FoldSnoc(Reading(prefix), START, lines[..i], lines[i]);
      assert lines[..i + 1] == lines[..i] + [lines[i]];
      pending, out := TakeLine(prefix, pending, out, lines[i]);
    }
    assert lines[..|lines|] == lines;
  }

  // --- The round trip ----------------------------------------------------------------

  /** The name of a segment in the playlist: its last path component, percent-encoded. */
  function NameOf(s: Segment): string { Uri(LastPart(s.key, '/')) }

  function MapKey(prefix: string, s: Segment): string { prefix + "/" + NameOf(s) }

  /** The durations a reader should find: of the accepted media segments, later ones
      taking the place of earlier ones of the same name. */
  function Durations(prefix: string, media: seq<Segment>, hls: nat): map<string, real> {
    if media == [] then map[]
    else
      var before := Durations(prefix, media[..|media| - 1], hls);
      var s := media[|media| - 1];
      if Accepted(s.key) then before[MapKey(prefix, s) := Seconds(WrittenDuration(s, hls))] else before
  }
}
