/** The string operations of the Rust standard library that the repository's
    codecs are written with: trimming, splitting, joining and cutting into lines. */
module Text {
  import opened Options

  /** The characters with the Unicode property White_Space, which `str::trim` removes. */
  predicate IsWhitespace(c: char) {
    || '\t' <= c <= '\r'
    || c in [' ', '\U{85}', '\U{A0}', '\U{1680}', '\U{2028}', '\U{2029}', '\U{202F}', '\U{205F}', '\U{3000}']
    || '\U{2000}' <= c <= '\U{200A}'
  }

  /** `char::to_ascii_lowercase`. */
  function LowerChar(c: char): char {
    if 'A' <= c <= 'Z' then (c as int - 'A' as int + 'a' as int) as char else c
  }

  function TrimStart(s: string): string {
    if s != [] && IsWhitespace(s[0]) then TrimStart(s[1..]) else s
  }

  function TrimEnd(s: string): string {
    if s != [] && IsWhitespace(s[|s| - 1]) then TrimEnd(s[..|s| - 1]) else s
  }

  function Trim(s: string): string {
    TrimStart(TrimEnd(s))
  }

  predicate IsTrimmed(s: string) {
    s == [] || (!IsWhitespace(s[0]) && !IsWhitespace(s[|s| - 1]))
  }

  lemma {:induction false} TrimStartSuffix(s: string)
    ensures exists n :: 0 <= n <= |s| && TrimStart(s) == s[n..]
    ensures TrimStart(s) == [] || !IsWhitespace(TrimStart(s)[0])
    decreases s
  {
    if s != [] && IsWhitespace(s[0]) {
      TrimStartSuffix(s[1..]);
      var n :| 0 <= n <= |s[1..]| && TrimStart(s[1..]) == s[1..][n..];
      assert s[1..][n..] == s[n + 1..];
    } else {
      assert s == s[0..];
    }
  }

  lemma {:induction false} TrimEndPrefix(s: string)
    ensures exists n :: 0 <= n <= |s| && TrimEnd(s) == s[..n]
    ensures TrimEnd(s) == [] || !IsWhitespace(TrimEnd(s)[|TrimEnd(s)| - 1])
    decreases s
  {
    if s != [] && IsWhitespace(s[|s| - 1]) {
      var t := s[..|s| - 1];
      TrimEndPrefix(t);
      var n :| 0 <= n <= |t| && TrimEnd(t) == t[..n];
      assert t[..n] == s[..n];
    } else {
      assert s == s[..|s|];
    }
  }

  lemma TrimStartTrims(e: string)
    requires e == [] || !IsWhitespace(e[|e| - 1])
    ensures IsTrimmed(TrimStart(e))
  {
    TrimStartSuffix(e);
    var n :| 0 <= n <= |e| && TrimStart(e) == e[n..];
    if n < |e| { assert e[n..][|e| - n - 1] == e[|e| - 1]; }
  }

  /** Trimming yields a trimmed string. */
  lemma TrimIsTrimmed(s: string)
    ensures IsTrimmed(Trim(s))
    ensures Trim(s) == s <==> IsTrimmed(s)
    ensures Trim(Trim(s)) == Trim(s)
  {
    TrimEndPrefix(s);
    TrimStartTrims(TrimEnd(s));
    TrimmedFixed(Trim(s));
    if IsTrimmed(s) { TrimmedFixed(s); }
  }

  /** Trimming adds no characters. */
  lemma TrimKeeps(s: string, c: char)
    requires c !in s
    ensures c !in Trim(s)
  {
    TrimEndPrefix(s);
    TrimStartSuffix(TrimEnd(s));
  }

  lemma TrimmedFixed(s: string)
    requires IsTrimmed(s)
    ensures Trim(s) == s
  {
  }

  lemma TrimDropsTrailing(s: string, c: char)
    requires IsWhitespace(c)
    ensures Trim(s + [c]) == Trim(s)
  {
    assert (s + [c])[..|s + [c]| - 1] == s;
  }

  ghost predicate IsBlank(s: string) { forall i :: 0 <= i < |s| ==> IsWhitespace(s[i]) }

  lemma {:induction false} TrimEndBlank(s: string, right: string)
    requires IsBlank(right) && (s == "" || !IsWhitespace(s[|s| - 1]))
    ensures TrimEnd(s + right) == s
    decreases |right|
  {
    if right == "" {
      assert s + right == s;
    } else {
      TrimEndBlank(s, right[..|right| - 1]);
      assert (s + right)[..|s + right| - 1] == s + right[..|right| - 1];
    }
  }

  lemma {:induction false} TrimStartBlank(left: string, s: string)
    requires IsBlank(left) && (s == "" || !IsWhitespace(s[0]))
    ensures TrimStart(left + s) == s
    decreases |left|
  {
    if left == "" {
      assert left + s == s;
    } else {
      TrimStartBlank(left[1..], s);
      assert (left + s)[1..] == left[1..] + s;
    }
  }

  /** Trimming takes off exactly the whitespace around a trimmed text. */
  lemma TrimPadded(left: string, s: string, right: string)
    requires IsBlank(left) && IsBlank(right) && IsTrimmed(s)
    ensures Trim(left + s + right) == s
  {
    if s == "" {
      assert IsBlank(left + right) && left + s + right == "" + (left + right);
      TrimEndBlank("", left + right);
    } else {
      TrimEndBlank(left + s, right);
      TrimStartBlank(left, s);
    }
  }

  /** `str::split_once` with a character: the text before and after the first `c`. */
  function SplitOnce(s: string, c: char): (r: Option<(string, string)>)
    ensures r.None? <==> c !in s
    ensures r.Some? ==> s == r.value.0 + [c] + r.value.1 && c !in r.value.0
  {
    if s == [] then None
    else if s[0] == c then Some(([], s[1..]))
    else match SplitOnce(s[1..], c)
      case None => None
      case Some((a, b)) => assert s == [s[0]] + s[1..]; Some(([s[0]] + a, b))
  }

  lemma {:induction false} SplitOnceAt(a: string, c: char, b: string)
    requires c !in a
    ensures SplitOnce(a + [c] + b, c) == Some((a, b))
  {
    var s := a + [c] + b;
    if a == [] {
      assert s[1..] == b;
    } else {
      SplitOnceAt(a[1..], c, b);
      assert s[1..] == a[1..] + [c] + b;
      assert s[0] == a[0] && a[0] in a;
      assert [a[0]] + a[1..] == a;
    }
  }

  /** `str::split` with a character: always at least one piece. */
  function Split(s: string, c: char): (r: seq<string>)
    ensures |r| >= 1
    ensures forall i :: 0 <= i < |r| ==> c !in r[i]
    decreases |s|
  {
    match SplitOnce(s, c)
    case None => [s]
    case Some((a, b)) => [a] + Split(b, c)
  }

  function Join(parts: seq<string>, sep: string): string {
    if parts == [] then []
    else if |parts| == 1 then parts[0]
    else parts[0] + sep + Join(parts[1..], sep)
  }

  /** Splitting undoes joining when no piece holds the separator. */
  lemma {:induction false} SplitJoin(parts: seq<string>, c: char)
    requires |parts| >= 1
    requires forall i :: 0 <= i < |parts| ==> c !in parts[i]
    ensures Split(Join(parts, [c]), c) == parts
  {
    if |parts| > 1 {
      SplitJoin(parts[1..], c);
      SplitOnceAt(parts[0], c, Join(parts[1..], [c]));
      assert parts == [parts[0]] + parts[1..];
    } else {
      assert parts == [parts[0]];
    }
  }

  lemma {:induction false} JoinSnoc(parts: seq<string>, last: string, sep: string)
    requires parts != []
    ensures Join(parts + [last], sep) == Join(parts, sep) + sep + last
  {
    var all := parts + [last];
    if |parts| == 1 {
      assert all[1..] == [last];
    } else {
      JoinSnoc(parts[1..], last, sep);
      assert all[1..] == parts[1..] + [last];
      assert Join(all, sep) == parts[0] + sep + (Join(parts[1..], sep) + sep + last);
    }
  }

  /** The line terminator `str::lines` strips besides the newline itself. */
  function StripCarriageReturn(s: string): string {
    if s != [] && s[|s| - 1] == '\r' then s[..|s| - 1] else s
  }

  /** `str::lines`: no empty last line after a final newline. */
  function Lines(s: string): (r: seq<string>)
    ensures forall i :: 0 <= i < |r| ==> '\n' !in r[i]
    decreases |s|
  {
    if s == [] then []
    else match SplitOnce(s, '\n')
      case None => [s]
      case Some((a, b)) => [StripCarriageReturn(a)] + Lines(b)
  }

  lemma LinesCons(line: string, rest: string)
    requires '\n' !in line
    ensures Lines(line + "\n" + rest) == [StripCarriageReturn(line)] + Lines(rest)
  {
    SplitOnceAt(line, '\n', rest);
  }

  /** A carriage return before the newline belongs to the end of the line. */
  lemma LinesOfReturns(line: string, rest: string)
    requires '\n' !in line
    ensures Lines(line + "\r\n" + rest) == [line] + Lines(rest)
  {
    assert line + "\r\n" + rest == (line + "\r") + "\n" + rest;
    LinesCons(line + "\r", rest);
    assert (line + "\r")[..|line|] == line;
  }

  // Lines written with a newline after each, and read back.

  function StripAll(lines: seq<string>): seq<string> {
    if lines == [] then [] else [StripCarriageReturn(lines[0])] + StripAll(lines[1..])
  }

  ghost predicate OneLiners(lines: seq<string>) {
    forall i :: 0 <= i < |lines| ==> '\n' !in lines[i]
  }

  function TerminateAll(lines: seq<string>): string {
    if lines == [] then [] else lines[0] + "\n" + TerminateAll(lines[1..])
  }

  lemma {:induction false} LinesOfTerminated(lines: seq<string>)
    requires OneLiners(lines)
    ensures Lines(TerminateAll(lines)) == StripAll(lines)
  {
    if lines != [] {
      LinesOfTerminated(lines[1..]);
      LinesCons(lines[0], TerminateAll(lines[1..]));
    }
  }

  predicate EndsWith(s: string, suffix: string) {
    |suffix| <= |s| && s[|s| - |suffix|..] == suffix
  }

  // The part after the last separator.

  function LastPart(s: string, c: char): (r: string)
    ensures c !in r
    decreases |s|
  {
    match SplitOnce(s, c)
    case None => s
    case Some((_, rest)) => LastPart(rest, c)
  }

  lemma {:induction false} LastPartAfter(a: string, c: char, b: string)
    ensures LastPart(a + [c] + b, c) == LastPart(b, c)
    decreases |a|
  {
    var s := a + [c] + b;
    match SplitOnce(a, c)
    case None => SplitOnceAt(a, c, b);
    case Some((x, y)) =>
      assert s == x + [c] + (y + [c] + b);
      SplitOnceAt(x, c, y + [c] + b);
      LastPartAfter(y, c, b);
  }

  lemma {:induction false} LastPartIsLast(s: string, c: char)
    ensures LastPart(s, c) == Split(s, c)[|Split(s, c)| - 1]
    decreases |s|
  {
    match SplitOnce(s, c)
    case None =>
    case Some((_, rest)) => LastPartIsLast(rest, c);
  }
}
