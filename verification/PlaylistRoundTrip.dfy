/** What the emitted playlists mean: the reader finds every segment's duration again, and
    the target duration bounds them. */
module PlaylistRoundTrip {
  import opened Options
  import opened Text
  import opened Decimal
  import opened Folds
  import opened Bits
  import opened Unicode
  import opened Playlist

  // --- Which keys are refused ----------------------------------------------------------

  /** The text stands in the key between two slashes, or a slash and an end, or both ends. */
  ghost predicate Stands(key: string, a: string, c: string, b: string) {
    '/' !in c && key == a + c + b && (a == "" || a[|a| - 1] == '/') && (b == "" || b[0] == '/')
  }

  ghost predicate IsComponent(key: string, c: string) { exists a, b :: Stands(key, a, c, b) }

  lemma {:induction false} ComponentsAreParts(key: string, a: string, c: string, b: string)
    requires Stands(key, a, c, b)
    ensures c in Split(key, '/')
    decreases |key|
  {
    if a == "" {
      if b == "" {
        assert key == c;
      } else {
        assert key == c + ['/'] + b[1..];
        SplitOnceAt(c, '/', b[1..]);
      }
    } else {
      assert '/' in a;
      var (x, y) := SplitOnce(a, '/').value;
      assert key == x + ['/'] + (y + c + b);
      SplitOnceAt(x, '/', y + c + b);
      if y != "" { assert y[|y| - 1] == a[|a| - 1]; }
      ComponentsAreParts(y + c + b, y, c, b);
    }
  }

  lemma StandsAfter(x: string, rest: string, a: string, c: string, b: string)
    requires Stands(rest, a, c, b)
    ensures Stands(x + ['/'] + rest, x + ['/'] + a, c, b)
  {
  }

  lemma ComponentAfter(x: string, rest: string, c: string)
    requires IsComponent(rest, c)
    ensures IsComponent(x + ['/'] + rest, c)
  {
    var a, b :| Stands(rest, a, c, b);
    StandsAfter(x, rest, a, c, b);
  }

  lemma ComponentFirst(x: string, rest: string)
    requires '/' !in x
    ensures IsComponent(x + ['/'] + rest, x)
  {
    assert Stands(x + ['/'] + rest, "", x, ['/'] + rest);
  }

  lemma ComponentAlone(x: string)
    requires '/' !in x
    ensures IsComponent(x, x)
  {
    assert Stands(x, "", x, "");
  }

  lemma {:induction false} PartsAreComponents(key: string, c: string)
    requires c in Split(key, '/')
    ensures IsComponent(key, c)
    decreases |key|
  {
    var split := SplitOnce(key, '/');
    if split.None? {
      ComponentAlone(key);
    } else {
      var (x, rest) := split.value;
      ComponentFirst(x, rest);
      if c != x {
        PartsAreComponents(rest, c);
        ComponentAfter(x, rest, c);
      }
    }
  }

  ghost predicate IsPlainComponent(c: string) {
    c != "" && c[0] != '#' && ' ' !in c && c != "." && c != ".."
  }

  /** A key that can stand in a playlist: no line ends, and no component that is empty, a
      dot name, begins with a hash sign or holds a space. */
  ghost predicate IsPlayable(key: string) {
    '\n' !in key && '\r' !in key && forall c :: IsComponent(key, c) ==> IsPlainComponent(c)
  }

  /** These are the keys that are accepted. */
  lemma AcceptedExactly(key: string)
    ensures Accepted(key) <==> IsPlayable(key)
  {
    if Accepted(key) {
      forall c | IsComponent(key, c) ensures IsPlainComponent(c) {
        var a, b :| Stands(key, a, c, b);
        ComponentsAreParts(key, a, c, b);
      }
    }
    if IsPlayable(key) {
      forall c | c in Split(key, '/') ensures !BadComponent(c) { PartsAreComponents(key, c); }
      assert Split(key, '/')[0] in Split(key, '/');
    }
  }

  // --- File names --------------------------------------------------------------------

  lemma AcceptedLast(key: string)
    requires Accepted(key)
    ensures LastPart(key, '/') !in ["", ".", ".."]
  {
    LastPartIsLast(key, '/');
    var parts := Split(key, '/');
    assert !BadComponent(parts[|parts| - 1]);
  }

  lemma {:induction false} NoSlashBytes(b: seq<Byte>)
    requires 47 !in b
    ensures '/' !in Percent(b)
  {
    if b != [] { NoSlashBytes(b[1..]); }
  }

  lemma {:induction false} NoSlash(s: string)
    requires '/' !in s
    ensures 47 !in Utf8(s)
  {
    if s != [] { NoSlash(s[1..]); }
  }

  lemma UriSlash(a: string, rest: string)
    ensures Uri(a + ['/'] + rest) == Uri(a) + ['/'] + Uri(rest)
  {
    Utf8Append(a + ['/'], rest);
    Utf8Append(a, ['/']);
    assert ['/'][1..] == [];
    assert Utf8(['/']) == [47];
    PercentAppend(Utf8(a) + [47], Utf8(rest));
    PercentAppend(Utf8(a), [47]);
    assert [47][1..] == [];
    assert Percent([47]) == ['/'];
  }

  /** Encoding keeps the slashes: the last component of the URI encodes that of the key. */
  lemma {:induction false} UriLastPart(key: string)
    ensures LastPart(Uri(key), '/') == Uri(LastPart(key, '/'))
    decreases |key|
  {
    match SplitOnce(key, '/')
    case None =>
      NoSlash(key);
      NoSlashBytes(Utf8(key));
    case Some((a, rest)) =>
      UriLastPart(rest);
      UriSlash(a, rest);
      LastPartAfter(Uri(a), '/', Uri(rest));
  }

  lemma UriOfDots()
    ensures Uri("") == "" && Uri(".") == "." && Uri("..") == ".."
  {
    assert "."[1..] == "" && ".."[1..] == ".";
    assert Utf8(".") == [46] && Utf8("..") == [46, 46];
    assert [46, 46][1..] == [46] && [46][1..] == [];
    assert Percent([46]) == ".";
  }

  /** Encoding never makes a component that `file_name` ignores. */
  lemma UriKeepsName(name: string)
    requires name !in ["", ".", ".."]
    ensures Uri(name) !in ["", ".", ".."]
  {
    UriOfDots();
    if Uri(name) == Uri("") { UriInjective(name, ""); }
    if Uri(name) == Uri(".") { UriInjective(name, "."); }
    if Uri(name) == Uri("..") { UriInjective(name, ".."); }
  }

  lemma {:induction false} SafeText(bytes: seq<Byte>, c: char)
    requires c in Percent(bytes)
    ensures IsUriChar(c)
  {
    if bytes != [] {
      if c !in PercentByte(bytes[0]) { SafeText(bytes[1..], c); }
    }
  }

  predicate IsUriChar(c: char) {
    || '0' <= c <= '9' || 'A' <= c <= 'Z' || 'a' <= c <= 'z'
    || c == '_' || c == '/' || c == '-' || c == '.' || c == '~' || c == '%'
  }

  lemma UriHasNo(key: string, c: char)
    requires !IsUriChar(c)
    ensures c !in Uri(key)
  {
    if c in Uri(key) { SafeText(Utf8(key), c); }
  }

  lemma UriNonEmpty(key: string)
    requires key != ""
    ensures Uri(key) != "" && IsUriChar(Uri(key)[|Uri(key)| - 1])
  {
    UriOfDots();
    if Uri(key) == Uri("") { UriInjective(key, ""); }
    SafeText(Utf8(key), Uri(key)[|Uri(key)| - 1]);
  }

  lemma LastPartOfPath(pre: string, uri: string)
    ensures LastPart(pre + "/" + uri, '/') == LastPart(uri, '/')
  {
    LastPartAfter(pre, '/', uri);
  }

  lemma FileNameIsLastPart(path: string)
    requires LastPart(path, '/') !in ["", ".", ".."]
    ensures FileName(path) == Some(LastPart(path, '/'))
  {
    LastPartIsLast(path, '/');
  }

  lemma UriLineLastPart(job: string, s: Segment)
    ensures LastPart(UriLine(job, s), '/') == LastPart(Uri(s.key), '/')
  {
    LastPartOfPath("/segment/" + job, Uri(s.key));
  }

  lemma FileNameOfUri(job: string, s: Segment)
    requires Accepted(s.key)
    ensures FileName(UriLine(job, s)) == Some(NameOf(s))
  {
    UriLineLastPart(job, s);
    UriLastPart(s.key);
    AcceptedLast(s.key);
    UriKeepsName(LastPart(s.key, '/'));
    FileNameIsLastPart(UriLine(job, s));
  }

  // --- Single lines ------------------------------------------------------------------

  predicate IsJobId(job: string) { '\n' !in job && '?' !in job }

  lemma SecondsHaveNo(micros: nat, c: char)
    requires !IsDigit(c) && c != '.'
    ensures c !in FormatSeconds(micros)
  {
    DigitsHaveNo(Format(micros / MICROS), c);
    DigitsHaveNo(Digits(micros % MICROS, 6), c);
  }

  lemma InfoReads(prefix: string, r: Reader, s: Segment, hls: nat)
    ensures ReadLine(prefix, r, InfoLine(s, hls)) == r.(pending := Some(Seconds(WrittenDuration(s, hls))))
  {
    var line, text := InfoLine(s, hls), FormatSeconds(WrittenDuration(s, hls));
    TrimmedFixed(line);
    assert line[|INFO|..] == text + [','] + "";
    SecondsHaveNo(WrittenDuration(s, hls), ',');
    SplitOnceAt(text, ',', "");
    SecondsRoundTrip(WrittenDuration(s, hls));
  }

  lemma AfterPrefix(pre: string, job: string, uri: string, c: char)
    requires c !in pre && c !in job && c !in uri && c != '/'
    ensures c !in pre + job + "/" + uri
  {
  }

  lemma Ends(pre: string, job: string, uri: string)
    requires pre != "" && uri != ""
    ensures var line := pre + job + "/" + uri; line[0] == pre[0] && line[|line| - 1] == uri[|uri| - 1]
  {
  }

  lemma UriLineTrimmed(job: string, s: Segment)
    requires Accepted(s.key)
    ensures IsTrimmed(UriLine(job, s))
    ensures UriLine(job, s)[0] == '/'
  {
    UriNonEmpty(s.key);
    Ends("/segment/", job, Uri(s.key));
  }

  lemma UriLineShape(job: string, s: Segment)
    requires Accepted(s.key) && IsJobId(job)
    ensures Trim(UriLine(job, s)) == UriLine(job, s)
    ensures WithoutQuery(UriLine(job, s)) == UriLine(job, s)
    ensures UriLine(job, s)[0] == '/'
  {
    UriLineTrimmed(job, s);
    TrimmedFixed(UriLine(job, s));
    UriHasNo(s.key, '?');
    AfterPrefix("/segment/", job, Uri(s.key), '?');
  }

  lemma UriReads(prefix: string, r: Reader, job: string, s: Segment)
    requires Accepted(s.key) && IsJobId(job) && r.pending.Some?
    ensures ReadLine(prefix, r, UriLine(job, s)) == Reader(None, r.found[MapKey(prefix, s) := r.pending.value])
  {
    UriLineShape(job, s);
    FileNameOfUri(job, s);
    assert INFO[0] == '#';
  }

  /** Tags other than EXTINF mean nothing to the reader. */
  predicate IsTag(line: string) {
    |line| > 4 && line[0] == '#' && line[4] != 'I' && !IsWhitespace(line[|line| - 1])
  }

  lemma TagReads(prefix: string, r: Reader, line: string)
    requires IsTag(line)
    ensures ReadLine(prefix, r, line) == r
  {
    TrimmedFixed(line);
    assert INFO[4] == 'I';
  }

  lemma {:induction false} TagsRead(prefix: string, r: Reader, lines: seq<string>)
    requires forall i :: 0 <= i < |lines| ==> IsTag(lines[i])
    ensures ReadLines(prefix, r, lines) == r
  {
    if lines != [] {
      TagsRead(prefix, r, lines[..|lines| - 1]);
      TagReads(prefix, r, lines[|lines| - 1]);
    }
  }

  // Lines of any playlist, with whitespace around them.

  /** A duration line sets the waiting duration, whatever title follows the comma. */
  lemma DurationLineReads(prefix: string, r: Reader, left: string, duration: string, title: string, right: string)
    requires IsBlank(left) && IsBlank(right) && ',' !in duration
    requires title == "" || !IsWhitespace(title[|title| - 1])
    ensures ReadLine(prefix, r, left + ("#EXTINF:" + duration + "," + title) + right)
      == r.(pending := ParseSeconds(duration))
  {
    var line := "#EXTINF:" + duration + "," + title;
    assert line[|line| - 1] == if title == "" then ',' else title[|title| - 1];
    TrimPadded(left, line, right);
    assert line[|INFO|..] == duration + [','] + title;
    SplitOnceAt(duration, ',', title);
  }

  /** Blank lines, and comments and tags other than durations, change nothing. */
  lemma OtherLineReads(prefix: string, r: Reader, left: string, line: string, right: string)
    requires IsBlank(left) && IsBlank(right) && IsTrimmed(line)
    requires line == "" || (line[0] == '#' && !("#EXTINF:" <= line))
    ensures ReadLine(prefix, r, left + line + right) == r
  {
    TrimPadded(left, line, right);
  }

  /** A file's line gives the waiting duration to the last component of its path; what
      follows a question mark does not matter. Without a waiting duration it is skipped. */
  lemma FileLineReads(prefix: string, r: Reader, left: string, dir: string, name: string, query: string, right: string)
    requires IsBlank(left) && IsBlank(right) && IsTrimmed(dir + name + query)
    requires dir == "" || dir[|dir| - 1] == '/'
    requires '/' !in name && name != "" && name != "." && name != ".." && '?' !in dir + name
    requires (dir + name)[0] != '#'
    requires query == "" || query[0] == '?'
    ensures ReadLine(prefix, r, left + (dir + name + query) + right)
      == if r.pending.None? then r else Reader(None, r.found[prefix + "/" + name := r.pending.value])
  {
    TrimPadded(left, dir + name + query, right);
    QueryIsCut(dir + name, query);
    LastOfPath(dir, name);
    FileNameIsLastPart(dir + name);
  }

  lemma QueryIsCut(path: string, query: string)
    requires path != "" && '?' !in path && (query == "" || query[0] == '?')
    ensures WithoutQuery(path + query) == path && (path + query)[0] == path[0]
  {
    if query == "" {
      assert path + query == path;
    } else {
      assert path + query == path + ['?'] + query[1..];
      SplitOnceAt(path, '?', query[1..]);
    }
  }

  /** `file_name` passes over slashes and single dots at the end of a path, and finds nothing
      behind a double dot. */
  lemma FileNamePasses(path: string)
    ensures FileName(path + "/") == FileName(path)
    ensures FileName(path + "/.") == FileName(path)
    ensures FileName(path + "/..") == None
  {
    assert path + "/" == path + ['/'] + "" && path + "/." == path + ['/'] + "." && path + "/.." == path + ['/'] + "..";
    LastDecides(path, "");
    LastDecides(path, ".");
    LastDecides(path, "..");
  }

  lemma LastDecides(path: string, last: string)
    requires last in ["", ".", ".."]
    ensures FileName(path + ['/'] + last) == if last == ".." then None else FileName(path)
  {
    SplitAfter(path, last);
    var parts := Split(path, '/');
    assert (parts + [last])[..|parts|] == parts;
  }

  /** A line that names no file uses up the waiting duration. */
  lemma NamelessLineReads(prefix: string, r: Reader, dir: string)
    requires dir != "" && dir[0] != '#' && !IsWhitespace(dir[0]) && '?' !in dir && r.pending.Some?
    ensures ReadLine(prefix, r, dir + "/..") == Reader(None, r.found)
  {
    var line := dir + "/..";
    assert line[0] == dir[0] && line[|line| - 1] == '.';
    TrimmedFixed(line);
    FileNamePasses(dir);
  }

  lemma {:induction false} SplitAfter(path: string, last: string)
    requires '/' !in last
    ensures Split(path + ['/'] + last, '/') == Split(path, '/') + [last]
    decreases |path|
  {
    match SplitOnce(path, '/')
    case None =>
      SplitOnceAt(path, '/', last);
    case Some((a, b)) =>
      assert path + ['/'] + last == a + ['/'] + (b + ['/'] + last);
      SplitOnceAt(a, '/', b + ['/'] + last);
      SplitAfter(b, last);
  }

  lemma LastOfPath(dir: string, name: string)
    requires (dir == "" || dir[|dir| - 1] == '/') && '/' !in name
    ensures LastPart(dir + name, '/') == name
  {
    if dir == "" {
      assert dir + name == name;
    } else {
      assert dir + name == dir[..|dir| - 1] + ['/'] + name;
      LastPartAfter(dir[..|dir| - 1], '/', name);
    }
  }

  // --- The whole playlist ------------------------------------------------------------

  lemma SegmentReads(prefix: string, found: map<string, real>, job: string, s: Segment, hls: nat)
    requires Accepted(s.key) && IsJobId(job)
    ensures ReadLines(prefix, Reader(None, found), SegmentLines(job, s, hls))
      == Reader(None, found[MapKey(prefix, s) := Seconds(WrittenDuration(s, hls))])
  {
    var start, info, uri := Reader(None, found), InfoLine(s, hls), UriLine(job, s);
    FoldTwo(Reading(prefix), start, info, uri);
    InfoReads(prefix, start, s, hls);
    UriReads(prefix, start.(pending := Some(Seconds(WrittenDuration(s, hls)))), job, s);
  }

  lemma {:induction false} MediaReads(prefix: string, job: string, media: seq<Segment>, hls: nat)
    requires IsJobId(job)
    ensures ReadLines(prefix, START, MediaLines(job, media, hls)) == Reader(None, Durations(prefix, media, hls))
  {
    if media != [] {
      var init, s := media[..|media| - 1], media[|media| - 1];
      MediaReads(prefix, job, init, hls);
      FoldAppend(Reading(prefix), START, MediaLines(job, init, hls), SegmentLines(job, s, hls));
      if Accepted(s.key) { SegmentReads(prefix, Durations(prefix, init, hls), job, s, hls); }
    }
  }

  /** A line that the text form keeps: no newline inside, no carriage return at its end. */
  predicate IsClean(line: string) {
    '\n' !in line && line != "" && line[|line| - 1] != '\r'
  }

  ghost predicate AllClean(lines: seq<string>) { forall i :: 0 <= i < |lines| ==> IsClean(lines[i]) }

  lemma {:induction false} CleanLines(lines: seq<string>)
    requires AllClean(lines)
    ensures Lines(TerminateAll(lines)) == lines
  {
    LinesOfTerminated(lines);
    CleanStrip(lines);
  }

  lemma {:induction false} CleanStrip(lines: seq<string>)
    requires AllClean(lines)
    ensures StripAll(lines) == lines
  {
    if lines != [] {
      assert IsClean(lines[0]);
      forall i | 0 <= i < |lines[1..]| ensures IsClean(lines[1..][i]) { assert IsClean(lines[i + 1]); }
      CleanStrip(lines[1..]);
    }
  }

  ghost predicate AllTags(lines: seq<string>) { forall i :: 0 <= i < |lines| ==> IsTag(lines[i]) }

  lemma CountedTag(pre: string, n: nat)
    requires |pre| > 4 && pre[0] == '#' && pre[4] == '-' && '\n' !in pre
    ensures IsClean(pre + Format(n)) && IsTag(pre + Format(n))
  {
    var line := pre + Format(n);
    DigitsHaveNo(Format(n), '\n');
    assert line[|line| - 1] == Format(n)[|Format(n)| - 1];
    assert line[0] == '#' && line[4] == '-';
  }

  lemma HeaderIsClean(version: nat, target: nat)
    ensures AllClean(HeaderLines(version, target)) && AllTags(HeaderLines(version, target))
  {
    CountedTag("#EXT-X-VERSION:", version);
    CountedTag("#EXT-X-TARGETDURATION:", target);
  }

  lemma MapLineIsClean(pre: string, job: string, uri: string)
    requires |pre| > 4 && pre[0] == '#' && pre[4] == '-'
    requires '\n' !in pre && '\n' !in job && '\n' !in uri
    ensures IsClean(pre + job + "/" + uri + "\"") && IsTag(pre + job + "/" + uri + "\"")
  {
    var line := pre + job + "/" + uri + "\"";
    assert line[0] == '#' && line[4] == '-' && line[|line| - 1] == '"';
  }

  lemma InitIsClean(job: string, init: Option<Segment>)
    requires '\n' !in job
    ensures AllClean(InitLines(job, init)) && AllTags(InitLines(job, init))
  {
    if init.Some? && Accepted(init.value.key) {
      UriHasNo(init.value.key, '\n');
      MapLineIsClean("#EXT-X-MAP:URI=\"/segment/", job, Uri(init.value.key));
    }
  }

  lemma SegmentIsClean(job: string, s: Segment, hls: nat)
    requires '\n' !in job && Accepted(s.key)
    ensures IsClean(InfoLine(s, hls)) && IsClean(UriLine(job, s))
  {
    SecondsHaveNo(WrittenDuration(s, hls), '\n');
    UriHasNo(s.key, '\n');
    UriNonEmpty(s.key);
    AfterPrefix("/segment/", job, Uri(s.key), '\n');
    Ends("/segment/", job, Uri(s.key));
  }

  lemma {:induction false} MediaIsClean(job: string, media: seq<Segment>, hls: nat)
    requires '\n' !in job
    ensures AllClean(MediaLines(job, media, hls))
  {
    if media != [] {
      MediaIsClean(job, media[..|media| - 1], hls);
      var s := media[|media| - 1];
      if Accepted(s.key) { SegmentIsClean(job, s, hls); }
    }
  }

  /** Tags around the segment lines do not disturb them. */
  lemma ReadAround(prefix: string, head: seq<string>, body: seq<string>, end: seq<string>, found: map<string, real>)
    requires AllTags(head) && AllTags(end)
    requires ReadLines(prefix, START, body) == Reader(None, found)
    ensures ReadLines(prefix, START, head + body + end).found == found
  {
    FoldAppend(Reading(prefix), START, head + body, end);
    FoldAppend(Reading(prefix), START, head, body);
    TagsRead(prefix, START, head);
    TagsRead(prefix, Reader(None, found), end);
  }

  lemma CleanAppend(a: seq<string>, b: seq<string>)
    requires AllClean(a) && AllClean(b)
    ensures AllClean(a + b)
    ensures AllTags(a) && AllTags(b) ==> AllTags(a + b)
  {
  }

  lemma HeadIsClean(job: string, segments: seq<Segment>, hls: nat)
    requires '\n' !in job
    ensures AllTags(LinesBefore(job, segments, hls)) && AllClean(LinesBefore(job, segments, hls))
  {
    var init := FirstInit(segments);
    var version, target := if init.Some? then 7 else 4, TargetDuration(Media(segments), hls);
    HeaderIsClean(version, target);
    InitIsClean(job, init);
    CleanAppend(HeaderLines(version, target), InitLines(job, init));
  }

  lemma PlaylistIsClean(job: string, segments: seq<Segment>, hls: nat)
    requires '\n' !in job
    ensures AllClean(PlaylistLines(job, segments, hls))
  {
    var head, body := LinesBefore(job, segments, hls), MediaLines(job, Media(segments), hls);
    HeadIsClean(job, segments, hls);
    MediaIsClean(job, Media(segments), hls);
    CleanAppend(head, body);
    CleanAppend(head + body, ["#EXT-X-ENDLIST"]);
  }

  lemma PlaylistReads(prefix: string, job: string, segments: seq<Segment>, hls: nat)
    requires IsJobId(job)
    ensures ReadLines(prefix, START, PlaylistLines(job, segments, hls)).found == Durations(prefix, Media(segments), hls)
  {
    HeadIsClean(job, segments, hls);
    MediaReads(prefix, job, Media(segments), hls);
    ReadAround(prefix, LinesBefore(job, segments, hls), MediaLines(job, Media(segments), hls), ["#EXT-X-ENDLIST"],
               Durations(prefix, Media(segments), hls));
  }

  /** Parsing an emitted playlist finds the duration of every media segment under its
      name, and nothing else. */
  lemma ParseEmitted(prefix: string, job: string, segments: seq<Segment>, hls: nat)
    requires IsJobId(job)
    ensures ReadLines(prefix, START, Lines(TerminateAll(PlaylistLines(job, segments, hls)))).found
      == Durations(prefix, Media(segments), hls)
  {
    PlaylistIsClean(job, segments, hls);
    CleanLines(PlaylistLines(job, segments, hls));
    PlaylistReads(prefix, job, segments, hls);
  }

  // --- What the map holds ------------------------------------------------------------

  ghost predicate IsEntry(prefix: string, media: seq<Segment>, i: int, key: string) {
    0 <= i < |media| && Accepted(media[i].key) && key == MapKey(prefix, media[i])
  }

  ghost predicate DistinctNames(media: seq<Segment>) {
    forall i, j :: 0 <= i < j < |media| && Accepted(media[i].key) && Accepted(media[j].key) ==>
      NameOf(media[i]) != NameOf(media[j])
  }

  lemma MapKeyInjective(prefix: string, s: Segment, t: Segment)
    requires MapKey(prefix, s) == MapKey(prefix, t)
    ensures NameOf(s) == NameOf(t)
  {
    var n := |prefix| + 1;
    assert NameOf(s) == MapKey(prefix, s)[n..] && NameOf(t) == MapKey(prefix, t)[n..];
  }

  ghost predicate HasEntry(prefix: string, media: seq<Segment>, key: string) {
    exists i :: IsEntry(prefix, media, i, key)
  }

  lemma HasEntrySnoc(prefix: string, init: seq<Segment>, s: Segment, key: string)
    ensures HasEntry(prefix, init + [s], key) <==>
      HasEntry(prefix, init, key) || (Accepted(s.key) && key == MapKey(prefix, s))
  {
    var media := init + [s];
    if i :| IsEntry(prefix, init, i, key) { assert IsEntry(prefix, media, i, key); }
    if i :| IsEntry(prefix, media, i, key) { assert i < |init| ==> IsEntry(prefix, init, i, key); }
    if Accepted(s.key) && key == MapKey(prefix, s) { assert IsEntry(prefix, media, |init|, key); }
  }

  /** The map has exactly the accepted media segments' keys. */
  lemma {:induction false} DurationsKeys(prefix: string, media: seq<Segment>, hls: nat, key: string)
    ensures key in Durations(prefix, media, hls) <==> HasEntry(prefix, media, key)
  {
    if media != [] {
      var init, s := media[..|media| - 1], media[|media| - 1];
      DurationsKeys(prefix, init, hls, key);
      HasEntrySnoc(prefix, init, s, key);
      assert media == init + [s];
    }
  }

  /** When no name occurs twice, every segment finds its own duration. */
  lemma {:induction false} DurationsValues(prefix: string, media: seq<Segment>, hls: nat, i: int)
    requires DistinctNames(media)
    requires 0 <= i < |media| && Accepted(media[i].key)
    ensures MapKey(prefix, media[i]) in Durations(prefix, media, hls)
    ensures Durations(prefix, media, hls)[MapKey(prefix, media[i])] == Seconds(WrittenDuration(media[i], hls))
    decreases |media|
  {
    var init, last := media[..|media| - 1], |media| - 1;
    if i < last {
      assert forall j :: 0 <= j < |init| ==> init[j] == media[j];
      DurationsValues(prefix, init, hls, i);
      if MapKey(prefix, media[i]) == MapKey(prefix, media[last]) { MapKeyInjective(prefix, media[i], media[last]); }
    }
  }

  /** A name of unreserved characters stands in the playlist as it is. */
  lemma {:induction false} UnreservedName(name: string)
    requires forall i :: 0 <= i < |name| ==> IsUnreserved(name[i])
    ensures Uri(name) == name
  {
    if name != [] {
      UnreservedName(name[1..]);
      assert Utf8(name) == [name[0] as int] + Utf8(name[1..]);
      assert Utf8(name)[1..] == Utf8(name[1..]);
      assert name == [name[0]] + name[1..];
    }
  }

  // --- The target duration -----------------------------------------------------------

  lemma {:induction false} LongestBounds(media: seq<Segment>, i: int)
    requires 0 <= i < |media| && IsMeasured(media[i])
    ensures 0 < media[i].duration.value <= Longest(media)
    decreases |media|
  {
    if i < |media| - 1 { LongestBounds(media[..|media| - 1], i); }
  }

  /** A measured segment never exceeds the target duration, even before rounding. */
  lemma MeasuredFits(media: seq<Segment>, hls: nat, i: int)
    requires 0 <= i < |media| && IsMeasured(media[i])
    ensures WrittenDuration(media[i], hls) <= TargetDuration(media, hls) * MICROS
  {
    LongestBounds(media, i);
    var n := Longest(media) + (MICROS - 1);
    assert n == n / MICROS * MICROS + n % MICROS;
  }

  /** Rounded to the nearest second, as section 4.3.3.1 of RFC 8216 compares durations. */
  function Rounded(micros: nat): nat { (micros + MICROS / 2) / MICROS }

  ghost predicate Conforms(media: seq<Segment>, hls: nat) {
    forall i :: 0 <= i < |media| && Accepted(media[i].key) ==>
      Rounded(WrittenDuration(media[i], hls)) <= TargetDuration(media, hls)
  }

  ghost predicate AllMeasured(media: seq<Segment>) {
    forall i :: 0 <= i < |media| && Accepted(media[i].key) ==> IsMeasured(media[i])
  }

  lemma RoundedFits(micros: nat, target: nat)
    requires micros <= target * MICROS
    ensures Rounded(micros) <= target
  {
  }

  lemma RoundedFallback(hls: nat)
    ensures Rounded(Fallback(hls)) == hls
  {
  }

  lemma {:induction false} LongestAttained(media: seq<Segment>)
    requires Longest(media) > 0
    ensures exists i :: 0 <= i < |media| && IsMeasured(media[i]) && media[i].duration.value == Longest(media)
    decreases |media|
  {
    var n := |media| - 1;
    if IsMeasured(media[n]) && media[n].duration.value > Longest(media[..n]) {
      assert media[n].duration.value == Longest(media);
    } else {
      LongestAttained(media[..n]);
      var i :| 0 <= i < n && IsMeasured(media[..n][i]) && media[..n][i].duration.value == Longest(media[..n]);
      assert IsMeasured(media[i]);
    }
  }

  ghost predicate NoneMeasured(media: seq<Segment>) {
    forall i :: 0 <= i < |media| ==> !IsMeasured(media[i])
  }

  /** Some segment is longer than all but the last second of the configured length. */
  ghost predicate LongSegment(media: seq<Segment>, hls: nat) {
    exists i :: 0 <= i < |media| && IsMeasured(media[i]) && media[i].duration.value > (hls - 1) * MICROS
  }

  lemma CeilingReaches(longest: nat, hls: nat)
    ensures hls <= (longest + (MICROS - 1)) / MICROS <==> longest > (hls - 1) * MICROS
  {
  }

  /** When the target duration is at least the configured length. */
  lemma TargetReaches(media: seq<Segment>, hls: nat)
    ensures hls <= TargetDuration(media, hls) <==> NoneMeasured(media) || LongSegment(media, hls)
  {
    forall i | 0 <= i < |media| && IsMeasured(media[i]) ensures 0 < media[i].duration.value <= Longest(media) {
      LongestBounds(media, i);
    }
    if Longest(media) > 0 {
      LongestAttained(media);
      CeilingReaches(Longest(media), hls);
    }
  }

  /** The playlist conforms exactly when every listed segment has a positive duration, or no
      media segment has one, or some has one longer than the configured length less a second. */
  lemma DurationsFitExactly(media: seq<Segment>, hls: nat)
    ensures Conforms(media, hls) <==> AllMeasured(media) || NoneMeasured(media) || LongSegment(media, hls)
  {
    TargetReaches(media, hls);
    RoundedFallback(hls);
    forall i | 0 <= i < |media| && IsMeasured(media[i])
      ensures Rounded(WrittenDuration(media[i], hls)) <= TargetDuration(media, hls)
    {
      MeasuredFits(media, hls, i);
      RoundedFits(WrittenDuration(media[i], hls), TargetDuration(media, hls));
    }
    if Conforms(media, hls) && !AllMeasured(media) {
      var i :| 0 <= i < |media| && Accepted(media[i].key) && !IsMeasured(media[i]);
      assert WrittenDuration(media[i], hls) == Fallback(hls);
    }
  }

  /** A playlist that does not conform: one segment of two seconds, one unmeasured, and a
      configured length of ten seconds. */
  lemma UnmeasuredSegmentExceedsTarget()
    ensures !Conforms([Segment("v/a", Some(2 * MICROS)), Segment("v/b", None)], 10)
  {
    var a, b := Segment("v/a", Some(2 * MICROS)), Segment("v/b", None);
    var media := [a, b];
    assert media[..1] == [a] && [a][..0] == [];
    assert Longest([a]) == 2 * MICROS;
    assert Longest(media) == 2 * MICROS;
    SplitOnceAt("v", '/', "b");
    assert "v" + ['/'] + "b" == "v/b";
    assert Split("v/b", '/') == ["v", "b"];
    assert Accepted(media[1].key);
    RoundedFallback(10);
  }
}
