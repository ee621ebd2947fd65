/** The env file: quoting and unquoting of values, and rewriting a file line by line. */
module EnvFile {
  import opened Options
  import opened Text
  import opened Folds

  // --- One value ---------------------------------------------------------------------

  predicate NeedsQuotes(v: string) { '#' in v || '"' in v || '\\' in v }

  /** `str::replace` of one character by a text. */
  function Replace(s: string, c: char, text: string): string {
    if s == [] then [] else (if s[0] == c then text else [s[0]]) + Replace(s[1..], c, text)
  }

  function Escaped(v: string): string { Replace(Replace(v, '\\', "\\\\"), '"', "\\\"") }

  /** `encode_env_value`. */
  function Encode(v: string): string {
    if NeedsQuotes(v) then "\"" + Escaped(v) + "\"" else v
  }

  function Unescaped(s: string): string {
    if s == [] then []
    else if s[0] != '\\' then [s[0]] + Unescaped(s[1..])
    else if |s| == 1 then []
    else [s[1]] + Unescaped(s[2..])
  }

  /** The text between a leading and a trailing quote; one quote is not both. */
  function Unquoted(s: string): Option<string> {
    if |s| >= 2 && s[0] == '"' && s[|s| - 1] == '"' then Some(Unescaped(s[1..|s| - 1])) else None
  }

  /** `unquote_env_value`. */
  method UnquoteEnvValue(value: string) returns (r: Option<string>)
    ensures r == Unquoted(value)
  {
    if |value| < 2 || value[0] != '"' || value[|value| - 1] != '"' { return None; }
    var inner := value[1..|value| - 1];
    var out := "";
    var i := 0;
    while i < |inner|
      invariant i <= |inner|
      invariant Unescaped(inner) == out + Unescaped(inner[i..])
    {
      var c := inner[i];
      assert inner[i..][1..] == inner[i + 1..];
      i := i + 1;
      if c == '\\' {
        if i < |inner| {
          assert inner[i - 1..][2..] == inner[i + 1..];
          out := out + [inner[i]];
          i := i + 1;
        }
      } else {
        out := out + [c];
      }
    }
    assert inner[|inner|..] == [] && out + [] == out;
    return Some(out);
  }

  /** `strip_inline_comment`. */
  function StripInlineComment(value: string): string {
    var trimmed := Trim(value);
    match Unquoted(trimmed)
    case Some(unquoted) => unquoted
    case None =>
      match SplitOnce(trimmed, '#')
      case Some((head, _)) => Trim(head)
      case None => Trim(trimmed)
  }

  lemma {:induction false} ReplaceAppend(a: string, b: string, c: char, text: string)
    ensures Replace(a + b, c, text) == Replace(a, c, text) + Replace(b, c, text)
  {
    if a == [] {
      assert a + b == b;
    } else {
      ReplaceAppend(a[1..], b, c, text);
      assert (a + b)[1..] == a[1..] + b;
      Associate(if a[0] == c then text else [a[0]], Replace(a[1..], c, text), Replace(b, c, text));
    }
  }

  function EscapedChar(c: char): string {
    if c == '\\' then "\\\\" else if c == '"' then "\\\"" else [c]
  }

  lemma EscapedCons(c: char, rest: string)
    ensures Escaped([c] + rest) == EscapedChar(c) + Escaped(rest)
  {
    var s := [c] + rest;
    assert s[1..] == rest;
    var one := if c == '\\' then "\\\\" else [c];
    ReplaceAppend(one, Replace(rest, '\\', "\\\\"), '"', "\\\"");
    assert Replace(one, '"', "\\\"") == EscapedChar(c) by {
      assert one[1..] == if c == '\\' then "\\" else "";
      assert "\\"[1..] == "";
    }
  }

  lemma UnescapedCons(c: char, rest: string)
    ensures Unescaped(EscapedChar(c) + rest) == [c] + Unescaped(rest)
  {
    var s := EscapedChar(c) + rest;
    if |EscapedChar(c)| == 2 { assert s[2..] == rest; } else { assert s[1..] == rest; }
  }

  /** Unescaping undoes escaping: the two replacements do not interfere. */
  lemma {:induction false} UnescapedEscaped(v: string)
    ensures Unescaped(Escaped(v)) == v
  {
    if v != [] {
      UnescapedEscaped(v[1..]);
      assert v == [v[0]] + v[1..];
      EscapedCons(v[0], v[1..]);
      UnescapedCons(v[0], Escaped(v[1..]));
    }
  }

  /** A character inside quotes: as it is, or behind a backslash. */
  datatype Mark = Plain(c: char) | Behind(c: char)

  function MarkText(m: Mark): string { if m.Plain? then [m.c] else ['\\', m.c] }

  lemma UnescapesOne(m: Mark, rest: string)
    requires m.Plain? ==> m.c != '\\'
    ensures Unescaped(MarkText(m) + rest) == [m.c] + Unescaped(rest)
  {
    var text := MarkText(m) + rest;
    if m.Plain? { assert text[1..] == rest; } else { assert text[2..] == rest; }
  }

  function MarkedText(marks: seq<Mark>): string {
    if marks == [] then "" else MarkText(marks[0]) + MarkedText(marks[1..])
  }

  function MarkedChars(marks: seq<Mark>): string {
    if marks == [] then "" else [marks[0].c] + MarkedChars(marks[1..])
  }

  /** Unescaping drops each backslash and takes the character behind it, whatever it is; a
      backslash at the end is dropped. */
  lemma {:induction false} UnescapesMarks(marks: seq<Mark>, end: string)
    requires forall i :: 0 <= i < |marks| && marks[i].Plain? ==> marks[i].c != '\\'
    requires end == "" || end == "\\"
    ensures Unescaped(MarkedText(marks) + end) == MarkedChars(marks)
  {
    if marks == [] {
      assert MarkedText(marks) + end == end;
    } else {
      UnescapesMarks(marks[1..], end);
      UnescapesOne(marks[0], MarkedText(marks[1..]) + end);
      assert MarkedText(marks) + end == MarkText(marks[0]) + (MarkedText(marks[1..]) + end);
    }
  }

  lemma QuotesOff(inner: string)
    ensures Unquoted("\"" + inner + "\"") == Some(Unescaped(inner))
    ensures IsTrimmed("\"" + inner + "\"")
  {
    var quoted := "\"" + inner + "\"";
    assert quoted[1..|quoted| - 1] == inner;
  }

  /** What stands between quotes is read character by character, with whitespace around the
      quotes. */
  lemma QuotedReads(left: string, marks: seq<Mark>, right: string)
    requires IsBlank(left) && IsBlank(right)
    requires forall i :: 0 <= i < |marks| && marks[i].Plain? ==> marks[i].c != '\\'
    ensures StripInlineComment(left + ("\"" + MarkedText(marks) + "\"") + right) == MarkedChars(marks)
  {
    QuotesOff(MarkedText(marks));
    TrimPadded(left, "\"" + MarkedText(marks) + "\"", right);
    UnescapesMarks(marks, "");
    assert MarkedText(marks) + "" == MarkedText(marks);
  }

  /** A single quote is an ordinary character. */
  lemma LoneQuoteReads(left: string, right: string)
    requires IsBlank(left) && IsBlank(right)
    ensures StripInlineComment(left + "\"" + right) == "\""
  {
    TrimPadded(left, "\"", right);
    TrimmedFixed("\"");
  }

  lemma {:induction false} TrimEndAfter(a: string, b: string)
    requires a != [] && !IsWhitespace(a[|a| - 1])
    ensures TrimEnd(a + b) == a + TrimEnd(b)
    decreases |b|
  {
    if b == [] {
      assert a + b == a;
    } else if IsWhitespace(b[|b| - 1]) {
      TrimEndAfter(a, b[..|b| - 1]);
      assert (a + b)[..|a + b| - 1] == a + b[..|b| - 1];
    }
  }

  lemma TrimInTwo(s: string, e: string, t: string)
    requires TrimEnd(s) == e && TrimStart(e) == t
    ensures Trim(s) == t
  {
  }

  lemma LastOfTwo(a: string, b: string)
    requires b != ""
    ensures (a + b)[|a + b| - 1] == b[|b| - 1]
  {
  }

  /** Whitespace in front is trimmed, and a text that ends with a mark keeps what is before it. */
  lemma TrimAround(left: string, head: string, rest: string)
    requires IsBlank(left) && head != "" && !IsWhitespace(head[0]) && !IsWhitespace(head[|head| - 1])
    ensures Trim(left + head + rest) == head + TrimEnd(rest)
  {
    var end := TrimEnd(rest);
    LastOfTwo(left, head);
    TrimEndAfter(left + head, rest);
    Associate(left, head, end);
    StartOf(head, end);
    TrimStartBlank(left, head + end);
    TrimInTwo(left + head + rest, left + head + end, head + end);
  }

  lemma StartOf(a: string, b: string)
    requires a != ""
    ensures (a + b)[0] == a[0]
  {
  }

  /** The text before the mark: the item, with the whitespace behind it, unless it is empty. */
  lemma Padded(left: string, item: string, right: string, mark: char, rest: string) returns (pad: string, head: string)
    requires IsBlank(left) && IsBlank(right) && IsTrimmed(item) && !IsWhitespace(mark) && mark !in item
    ensures mark !in head && Trim(head) == item && (head == "" || (item != "" && head[0] == item[0]))
    ensures Trim(left + item + right + [mark] + rest) == head + [mark] + TrimEnd(rest)
  {
    pad, head := if item == "" then left + right else left, if item == "" then "" else item + right;
    BlankHasNo(right, mark);
    assert "" + item + right == item + right;
    TrimPadded("", item, right);
    assert left + item + right + [mark] + rest == pad + (head + [mark]) + rest;
    TrimAround(pad, head + [mark], rest);
  }

  lemma BlankHasNo(s: string, c: char)
    requires IsBlank(s) && !IsWhitespace(c)
    ensures c !in s
  {
  }

  /** A value without quotes ends at the first hash sign, without the whitespace around it. */
  lemma CommentIsCut(left: string, item: string, right: string, comment: string)
    requires IsBlank(left) && IsBlank(right) && IsTrimmed(item) && '#' !in item && '"' !in item
    ensures StripInlineComment(left + item + right + "#" + comment) == item
  {
    var pad, head := Padded(left, item, right, '#', comment);
    SplitOnceAt(head, '#', TrimEnd(comment));
  }

  /** A value without quotes and hash signs reads as it is, without the whitespace around it. */
  lemma PlainReads(left: string, item: string, right: string)
    requires IsBlank(left) && IsBlank(right) && IsTrimmed(item) && '#' !in item && '"' !in item
    ensures StripInlineComment(left + item + right) == item
  {
    TrimPadded(left, item, right);
    TrimmedFixed(item);
  }

  /** A written value reads back as itself exactly when it is trimmed or holds one of
      the characters that make the writer quote it. */
  lemma ValueRoundTrip(v: string)
    ensures StripInlineComment(Encode(v)) == v <==> IsTrimmed(v) || '#' in v || '"' in v || '\\' in v
    ensures '#' !in v && '"' !in v && '\\' !in v ==> StripInlineComment(Encode(v)) == Trim(v)
  {
    if NeedsQuotes(v) {
      var q := Encode(v);
      assert IsTrimmed(q);
      TrimmedFixed(q);
      assert q[1..|q| - 1] == Escaped(v);
      UnescapedEscaped(v);
    } else {
      TrimIsTrimmed(v);
      TrimKeeps(v, '#');
      TrimKeeps(v, '"');
    }
  }

  // --- One line ----------------------------------------------------------------------

  /** The key a line assigns: none for blank lines, comments and lines without `=`. */
  function LineKey(line: string): Option<string> {
    var trimmed := Trim(line);
    if trimmed == [] || trimmed[0] == '#' then None
    else
      match SplitOnce(trimmed, '=')
      case None => None
      case Some((key, _)) => Some(Trim(key))
  }

  /** The value of an assigning line, as the settings registry reads it. */
  function LineValue(line: string): string {
    match SplitOnce(Trim(line), '=')
    case None => ""
    case Some((_, value)) => StripInlineComment(value)
  }

  predicate Blank(line: string) { Trim(line) == [] }

  function Assignment(key: string, value: string): string { key + "=" + Encode(value) }

  function Rewritten(line: string, env: map<string, string>): string {
    match LineKey(line)
    case None => line
    case Some(key) => if key in env then Assignment(key, env[key]) else line
  }

  /** A key the writer can find again: what every setting's name satisfies. */
  predicate IsKey(key: string) {
    key != [] && IsTrimmed(key) && '=' !in key && '\n' !in key && key[0] != '#'
  }

  lemma TrimOfTrimEnd(s: string)
    ensures Trim(TrimEnd(s)) == Trim(s)
  {
    TrimEndPrefix(s);
  }

  lemma StripTrimEnd(s: string)
    ensures StripInlineComment(TrimEnd(s)) == StripInlineComment(s)
  {
    TrimOfTrimEnd(s);
  }

  /** A written assignment is found under its key and reads as the encoded value does. */
  lemma AssignmentReads(key: string, value: string)
    requires IsKey(key)
    ensures LineKey(Assignment(key, value)) == Some(key)
    ensures LineValue(Assignment(key, value)) == StripInlineComment(Encode(value))
    ensures !Blank(Assignment(key, value))
  {
    var line := Assignment(key, value);
    var head := key + "=";
    TrimEndAfter(head, Encode(value));
    var end := TrimEnd(Encode(value));
    assert TrimEnd(line) == head + end && Trim(line) == head + end;
    assert head + end == key + ['='] + end;
    SplitOnceAt(key, '=', end);
    TrimmedFixed(key);
    StripTrimEnd(Encode(value));
  }

  /** An assigning line: whitespace, the key, whitespace, and the sign. */
  lemma AssignedKey(left: string, key: string, right: string, value: string)
    requires IsBlank(left) && IsBlank(right) && IsTrimmed(key) && '=' !in key && (key == "" || key[0] != '#')
    ensures var line := left + key + right + "=" + value;
      LineKey(line) == Some(key) && LineValue(line) == StripInlineComment(value)
  {
    var pad, head := Padded(left, key, right, '=', value);
    SplitOnceAt(head, '=', TrimEnd(value));
    StripTrimEnd(value);
  }

  /** A comment assigns nothing, and neither does a line without the sign. */
  lemma AssignsNothing(left: string, rest: string)
    requires IsBlank(left)
    ensures LineKey(left + "#" + rest) == None
    ensures '=' !in rest ==> LineKey(rest) == None
  {
    TrimAround(left, "#", rest);
    if '=' !in rest { TrimKeeps(rest, '='); }
  }

  /** A carriage return at the end of a line means nothing. */
  lemma StripReads(line: string)
    ensures LineKey(StripCarriageReturn(line)) == LineKey(line)
    ensures LineValue(StripCarriageReturn(line)) == LineValue(line)
    ensures Blank(StripCarriageReturn(line)) == Blank(line)
  {
    if line != [] && line[|line| - 1] == '\r' {
      var s := line[..|line| - 1];
      assert line == s + ['\r'];
      TrimDropsTrailing(s, '\r');
    }
  }

  // --- The whole file ----------------------------------------------------------------

  function RewriteAll(lines: seq<string>, env: map<string, string>): (r: seq<string>)
    ensures |r| == |lines|
  {
    if lines == [] then [] else [Rewritten(lines[0], env)] + RewriteAll(lines[1..], env)
  }

  function UpdatedBy(line: string, env: map<string, string>): set<string> {
    match LineKey(line)
    case Some(key) => if key in env then {key} else {}
    case None => {}
  }

  /** The keys of the map that some line assigns. */
  function Updated(lines: seq<string>, env: map<string, string>): set<string> {
    if lines == [] then {} else UpdatedBy(lines[0], env) + Updated(lines[1..], env)
  }

  function MissingLine(key: string, env: map<string, string>, updated: set<string>): seq<string>
    requires key in env
  {
    if key in updated then [] else [Assignment(key, env[key])]
  }

  function Missing(order: seq<string>, env: map<string, string>, updated: set<string>): seq<string>
    requires forall k :: k in order ==> k in env
  {
    if order == [] then [] else MissingLine(order[0], env, updated) + Missing(order[1..], env, updated)
  }

  predicate IsOrder(order: seq<string>, env: map<string, string>) {
    && (forall k :: k in order ==> k in env)
    && (forall k :: k in env ==> k in order)
    && (forall i, j :: 0 <= i < j < |order| ==> order[i] != order[j])
  }

  predicate HasControlChars(value: string) { '\n' in value || '\r' in value || '\0' in value }

  function NewLines(given: seq<string>, env: map<string, string>, order: seq<string>): seq<string>
    requires IsOrder(order, env)
  {
    RewriteAll(given, env) + Missing(order, env, Updated(given, env))
  }

  function Terminate(content: string): string {
    if content != [] && content[|content| - 1] == '\n' then content else content + "\n"
  }

  lemma {:induction false} RewriteSnoc(lines: seq<string>, line: string, env: map<string, string>)
    ensures RewriteAll(lines + [line], env) == RewriteAll(lines, env) + [Rewritten(line, env)]
    ensures Updated(lines + [line], env) == Updated(lines, env) + UpdatedBy(line, env)
  {
    var all := lines + [line];
    if lines == [] {
      assert all[1..] == [];
    } else {
      RewriteSnoc(lines[1..], line, env);
      assert all[1..] == lines[1..] + [line];
    }
  }

  lemma {:induction false} MissingSnoc(order: seq<string>, key: string, env: map<string, string>, updated: set<string>)
    requires forall k :: k in order ==> k in env
    requires key in env
    ensures Missing(order + [key], env, updated) == Missing(order, env, updated) + MissingLine(key, env, updated)
  {
    var all := order + [key];
    if order == [] {
      assert all[1..] == [];
    } else {
      MissingSnoc(order[1..], key, env, updated);
      assert all[1..] == order[1..] + [key];
      assert all[0] == order[0];
      Associate(MissingLine(order[0], env, updated), Missing(order[1..], env, updated), MissingLine(key, env, updated));
    }
  }

  lemma UpdateMiddle<T>(a: seq<T>, b: seq<T>, x: T)
    requires b != []
    ensures (a + b)[|a| := x] == (a + [x]) + b[1..]
  {
  }

  lemma KeptLine(lines: seq<string>, i: nat)
    requires i < |lines|
    ensures lines[i := lines[i]] == lines
  {
  }

  lemma RewriteOne(given: seq<string>, i: nat, env: map<string, string>)
    requires i < |given|
    ensures (RewriteAll(given[..i], env) + given[i..])[i := Rewritten(given[i], env)]
      == RewriteAll(given[..i + 1], env) + given[i + 1..]
    ensures Updated(given[..i + 1], env) == Updated(given[..i], env) + UpdatedBy(given[i], env)
  {
    RewriteSnoc(given[..i], given[i], env);
    assert given[..i + 1] == given[..i] + [given[i]];
    assert given[i..][1..] == given[i + 1..];
    UpdateMiddle(RewriteAll(given[..i], env), given[i..], Rewritten(given[i], env));
  }

  /** The first loop of `write_env_values`: assigning lines are replaced in place. */
  method RewriteInPlace(given: seq<string>, env: map<string, string>) returns (lines: seq<string>, updated: set<string>)
    ensures lines == RewriteAll(given, env)
    ensures updated == Updated(given, env)
  {
    lines, updated := given, {};
    for i := 0 to |given|
      invariant lines == RewriteAll(given[..i], env) + given[i..]
      invariant updated == Updated(given[..i], env)
    {
      var line := lines[i];
      assert line == given[i];
      RewriteOne(given, i, env);
      var key := LineKey(line);
      if key.Some? && key.value in env {
        lines := lines[i := Assignment(key.value, env[key.value])];
        updated := updated + {key.value};
      } else {
        KeptLine(lines, i);
      }
    }
    assert given[..|given|] == given;
  }

  /** The second loop: keys that no line assigns are appended. */
  method AppendMissing(given: seq<string>, env: map<string, string>, order: seq<string>, updated: set<string>)
    returns (lines: seq<string>)
    requires forall k :: k in order ==> k in env
    ensures lines == given + Missing(order, env, updated)
  {
    lines := given;
    for j := 0 to |order|
      invariant forall k :: k in order[..j] ==> k in env
      invariant lines == given + Missing(order[..j], env, updated)
    {
      MissingSnoc(order[..j], order[j], env, updated);
      assert order[..j + 1] == order[..j] + [order[j]];
      if order[j] !in updated { lines := lines + [Assignment(order[j], env[order[j]])]; }
    }
    assert order[..|order|] == order;
  }

  /** `write_env_values`: the new content of the file, or the key of an unusable value.
      `order` is the order in which the hash map happens to list its keys. */
  method WriteEnvValues(existing: string, env: map<string, string>, order: seq<string>)
    returns (r: Result<string, string>)
    requires IsOrder(order, env)
    ensures r.Err? <==> exists k :: k in env && ('\n' in env[k] || '\r' in env[k] || '\0' in env[k])
    ensures r.Err? ==> r.error in env && ('\n' in env[r.error] || '\r' in env[r.error] || '\0' in env[r.error])
    ensures r.Ok? ==> r.value == Terminate(Join(NewLines(Lines(existing), env, order), "\n"))
  {
    for i := 0 to |order|
      invariant forall j :: 0 <= j < i ==> !HasControlChars(env[order[j]])
    {
      if HasControlChars(env[order[i]]) { return Err(order[i]); }
    }
    assert forall k :: k in env ==> k in order;
    var lines, updated := RewriteInPlace(Lines(existing), env);
    lines := AppendMissing(lines, env, order, updated);
    return Ok(Terminate(Join(lines, "\n")));
  }

  // --- Reading the new file back -----------------------------------------------------

  lemma {:induction false} JoinTerminated(lines: seq<string>)
    requires lines != []
    ensures Join(lines, "\n") + "\n" == TerminateAll(lines)
  {
    if |lines| == 1 {
      assert lines[1..] == [];
      assert TerminateAll(lines) == lines[0] + "\n" + [];
    } else {
      JoinTerminated(lines[1..]);
      assert Join(lines, "\n") + "\n" == lines[0] + "\n" + (Join(lines[1..], "\n") + "\n");
    }
  }

  lemma {:induction false} JoinEnd(lines: seq<string>)
    requires OneLiners(lines) && lines != []
    ensures var c := Join(lines, "\n");
      c != [] && c[|c| - 1] == '\n' <==> |lines| > 1 && lines[|lines| - 1] == []
  {
    if |lines| > 1 {
      JoinEnd(lines[1..]);
      assert lines[1..][|lines[1..]| - 1] == lines[|lines| - 1];
    }
  }

  // The lines read back are those written, without carriage returns at their ends, and
  // possibly without a last empty line.

  lemma ReadBackWhole(lines: seq<string>)
    requires OneLiners(lines) && lines != []
    requires |lines| == 1 || lines[|lines| - 1] != []
    ensures Lines(Terminate(Join(lines, "\n"))) == StripAll(lines)
  {
    JoinEnd(lines);
    JoinTerminated(lines);
    LinesOfTerminated(lines);
  }

  lemma ReadBackFront(front: seq<string>)
    requires OneLiners(front) && front != []
    ensures Lines(Terminate(Join(front + [""], "\n"))) == StripAll(front)
  {
    JoinSnoc(front, "", "\n");
    JoinTerminated(front);
    var c := TerminateAll(front);
    assert Join(front + [""], "\n") == c + "" == c;
    assert c[|c| - 1] == '\n';
    LinesOfTerminated(front);
  }

  lemma ReadBackNothing()
    ensures Lines(Terminate(Join([], "\n"))) == [""]
  {
    LinesCons("", "");
    assert "" + "\n" + "" == "\n";
  }

  /** The value of a key: that of the first line that assigns it. */
  function Lookup(lines: seq<string>, key: string): Option<string> {
    if lines == [] then None
    else if LineKey(lines[0]) == Some(key) then Some(LineValue(lines[0]))
    else Lookup(lines[1..], key)
  }

  predicate IsOther(line: string, env: map<string, string>) {
    !Blank(line) && !(LineKey(line).Some? && LineKey(line).value in env)
  }

  function OtherLine(env: map<string, string>): string -> Option<string> {
    (line: string) => if IsOther(line, env) then Some(line) else None
  }

  /** The line, unless it is blank or assigns a key of the map. */
  function Other(line: string, env: map<string, string>): seq<string> { One(OtherLine(env), line) }

  /** The lines that are neither blank nor assign a key of the map. */
  function Others(lines: seq<string>, env: map<string, string>): seq<string> { Keep(OtherLine(env), lines) }

  lemma {:induction false} LookupStripped(lines: seq<string>, key: string)
    ensures Lookup(StripAll(lines), key) == Lookup(lines, key)
  {
    if lines != [] {
      StripReads(lines[0]);
      LookupStripped(lines[1..], key);
    }
  }

  lemma {:induction false} StripAppend(a: seq<string>, b: seq<string>)
    ensures StripAll(a + b) == StripAll(a) + StripAll(b)
  {
    if a == [] {
      assert a + b == b;
    } else {
      StripAppend(a[1..], b);
      assert (a + b)[1..] == a[1..] + b;
    }
  }

  lemma {:induction false} OthersStripped(lines: seq<string>, env: map<string, string>)
    ensures Others(StripAll(lines), env) == StripAll(Others(lines, env))
  {
    if lines != [] {
      OthersStripped(lines[1..], env);
      StripAppend(Other(lines[0], env), Others(lines[1..], env));
      OtherStripped(lines[0], env);
    }
  }

  lemma OtherStripped(line: string, env: map<string, string>)
    ensures Other(StripCarriageReturn(line), env) == StripAll(Other(line, env))
  {
    StripReads(line);
    assert [line][1..] == [];
  }

  lemma {:induction false} LookupAppend(a: seq<string>, b: seq<string>, key: string)
    ensures Lookup(a + b, key) == if Lookup(a, key).Some? then Lookup(a, key) else Lookup(b, key)
  {
    if a == [] {
      assert a + b == b;
    } else {
      LookupAppend(a[1..], b, key);
      assert (a + b)[1..] == a[1..] + b;
    }
  }

  lemma OthersAppend(a: seq<string>, b: seq<string>, env: map<string, string>)
    ensures Others(a + b, env) == Others(a, env) + Others(b, env)
  {
    KeepAppend(OtherLine(env), a, b);
  }

  ghost predicate GoodKeys(env: map<string, string>) { forall k :: k in env ==> IsKey(k) }

  /** What a rewritten line says about a key. */
  lemma {:induction false} LookupRewritten(lines: seq<string>, env: map<string, string>, key: string)
    requires GoodKeys(env)
    ensures key in Updated(lines, env) ==>
      key in env && Lookup(RewriteAll(lines, env), key) == Some(StripInlineComment(Encode(env[key])))
    ensures key !in Updated(lines, env) ==> Lookup(RewriteAll(lines, env), key) == Lookup(lines, key)
    ensures key in env && key !in Updated(lines, env) ==> Lookup(lines, key) == None
  {
    if lines != [] {
      LookupRewritten(lines[1..], env, key);
      var k := LineKey(lines[0]);
      if k.Some? && k.value in env { AssignmentReads(k.value, env[k.value]); }
    }
  }

  lemma OtherAssignment(key: string, env: map<string, string>)
    requires key in env && IsKey(key)
    ensures Other(Assignment(key, env[key]), env) == []
  {
    AssignmentReads(key, env[key]);
  }

  lemma {:induction false} OthersRewritten(lines: seq<string>, env: map<string, string>)
    requires GoodKeys(env)
    ensures Others(RewriteAll(lines, env), env) == Others(lines, env)
  {
    if lines != [] {
      OthersRewritten(lines[1..], env);
      var k := LineKey(lines[0]);
      if k.Some? && k.value in env { OtherAssignment(k.value, env); }
    }
  }

  lemma {:induction false} LookupMissing(order: seq<string>, env: map<string, string>, updated: set<string>,
                                         key: string)
    requires GoodKeys(env)
    requires forall k :: k in order ==> k in env
    ensures Lookup(Missing(order, env, updated), key)
      == if key in order && key !in updated then Some(StripInlineComment(Encode(env[key]))) else None
  {
    if order != [] {
      var rest := Missing(order[1..], env, updated);
      LookupMissing(order[1..], env, updated, key);
      AssignmentReads(order[0], env[order[0]]);
      var line := [Assignment(order[0], env[order[0]])];
      assert line[1..] == [];
      LookupAppend(line, rest, key);
      assert [] + rest == rest;
    }
  }

  lemma {:induction false} OthersMissing(order: seq<string>, env: map<string, string>, updated: set<string>)
    requires GoodKeys(env)
    requires forall k :: k in order ==> k in env
    ensures Others(Missing(order, env, updated), env) == []
  {
    if order != [] {
      var rest := Missing(order[1..], env, updated);
      OthersMissing(order[1..], env, updated);
      OtherAssignment(order[0], env);
      var line := [Assignment(order[0], env[order[0]])];
      assert line[1..] == [];
      OthersAppend(line, rest, env);
      assert [] + rest == rest;
    }
  }

  lemma EncodeOneLine(v: string)
    requires '\n' !in v
    ensures '\n' !in Encode(v)
  {
    ReplaceKeeps(v, '\\', "\\\\", '\n');
    ReplaceKeeps(Replace(v, '\\', "\\\\"), '"', "\\\"", '\n');
  }

  lemma {:induction false} ReplaceKeeps(s: string, c: char, text: string, d: char)
    requires d !in s && d !in text
    ensures d !in Replace(s, c, text)
  {
    if s != [] { ReplaceKeeps(s[1..], c, text, d); }
  }

  ghost predicate Writable(env: map<string, string>) {
    forall k :: k in env ==> IsKey(k) && !HasControlChars(env[k])
  }

  lemma {:induction false} RewrittenOneLiners(lines: seq<string>, env: map<string, string>)
    requires OneLiners(lines) && Writable(env)
    ensures OneLiners(RewriteAll(lines, env))
  {
    if lines != [] {
      assert OneLiners(lines[1..]);
      RewrittenOneLiners(lines[1..], env);
      var k := LineKey(lines[0]);
      if k.Some? && k.value in env { EncodeOneLine(env[k.value]); }
    }
  }

  lemma {:induction false} MissingOneLiners(order: seq<string>, env: map<string, string>, updated: set<string>)
    requires Writable(env)
    requires forall k :: k in order ==> k in env
    ensures OneLiners(Missing(order, env, updated))
  {
    if order != [] {
      MissingOneLiners(order[1..], env, updated);
      EncodeOneLine(env[order[0]]);
    }
  }

  /** What the lines say, with and without what reading them back may change. */
  ghost predicate Reads(lines: seq<string>, given: seq<string>, env: map<string, string>, key: string) {
    && Lookup(lines, key) == (if key in env then Some(StripInlineComment(Encode(env[key]))) else Lookup(given, key))
    && Others(lines, env) == Others(given, env)
  }

  lemma NewLinesRead(given: seq<string>, env: map<string, string>, order: seq<string>, key: string)
    requires GoodKeys(env) && IsOrder(order, env)
    ensures Reads(NewLines(given, env, order), given, env, key)
  {
    var updated := Updated(given, env);
    var rewritten, missing := RewriteAll(given, env), Missing(order, env, updated);
    LookupRewritten(given, env, key);
    LookupMissing(order, env, updated, key);
    LookupAppend(rewritten, missing, key);
    OthersRewritten(given, env);
    OthersMissing(order, env, updated);
    OthersAppend(rewritten, missing, env);
  }

  /** A last empty line says nothing. */
  lemma EmptyLineReads(front: seq<string>, given: seq<string>, env: map<string, string>, key: string)
    requires Reads(front + [""], given, env, key)
    ensures Reads(front, given, env, key)
  {
    LookupAppend(front, [""], key);
    OthersAppend(front, [""], env);
    assert [""][1..] == [] && Blank("") && LineKey("") == None;
  }

  ghost predicate ReadsBack(back: seq<string>, given: seq<string>, env: map<string, string>, key: string) {
    && Lookup(back, key) == (if key in env then Some(StripInlineComment(Encode(env[key]))) else Lookup(given, key))
    && Others(back, env) == StripAll(Others(given, env))
  }

  lemma StrippedReads(lines: seq<string>, given: seq<string>, env: map<string, string>, key: string)
    requires Reads(lines, given, env, key)
    ensures ReadsBack(StripAll(lines), given, env, key)
  {
    LookupStripped(lines, key);
    OthersStripped(lines, env);
  }

  lemma OneBlankLine(given: seq<string>, env: map<string, string>, key: string)
    requires Reads([], given, env, key)
    ensures ReadsBack([""], given, env, key)
  {
    assert [""][1..] == [] && Blank("") && LineKey("") == None;
  }

  /** Writing lines and reading them back keeps what they say. */
  lemma BackReads(lines: seq<string>, given: seq<string>, env: map<string, string>, key: string)
    requires OneLiners(lines) && Reads(lines, given, env, key)
    ensures ReadsBack(Lines(Terminate(Join(lines, "\n"))), given, env, key)
  {
    if lines == [] {
      ReadBackNothing();
      OneBlankLine(given, env, key);
    } else if |lines| == 1 || lines[|lines| - 1] != [] {
      ReadBackWhole(lines);
      StrippedReads(lines, given, env, key);
    } else {
      var front := lines[..|lines| - 1];
      assert lines == front + [""];
      ReadBackFront(front);
      EmptyLineReads(front, given, env, key);
      StrippedReads(front, given, env, key);
    }
  }

  /** After a write every key of the map reads as its encoded value, every other key as
      before, and the other non-blank lines stand in the same order, verbatim but for a
      carriage return at the end. */
  lemma WrittenFileReads(existing: string, env: map<string, string>, order: seq<string>, key: string)
    requires Writable(env) && IsOrder(order, env)
    ensures ReadsBack(Lines(Terminate(Join(NewLines(Lines(existing), env, order), "\n"))), Lines(existing), env, key)
  {
    var given := Lines(existing);
    RewrittenOneLiners(given, env);
    MissingOneLiners(order, env, Updated(given, env));
    NewLinesRead(given, env, order, key);
    BackReads(NewLines(given, env, order), given, env, key);
  }

  /** A setting that is trimmed or holds a special character survives the file exactly. */
  lemma SettingSurvives(existing: string, env: map<string, string>, order: seq<string>, key: string)
    requires Writable(env) && IsOrder(order, env) && key in env
    ensures Lookup(Lines(Terminate(Join(NewLines(Lines(existing), env, order), "\n"))), key) == Some(env[key])
      <==> IsTrimmed(env[key]) || '#' in env[key] || '"' in env[key] || '\\' in env[key]
  {
    WrittenFileReads(existing, env, order, key);
    ValueRoundTrip(env[key]);
  }
}
