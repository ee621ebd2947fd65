/** What a WHERE clause means: a reader of the SQL this program writes, from the text to
    the rows it selects. */
module SqlWhere {
  import opened Options
  import opened Text
  import opened Decimal
  import opened LikeSearch

  // --- From text to words ------------------------------------------------------------

  predicate IsBreak(c: char) { c == ' ' || c == '(' || c == ')' }

  /** The length of the word a text begins with. */
  function WordLength(s: string): (n: nat)
    ensures n <= |s|
  {
    if s == [] || IsBreak(s[0]) then 0 else 1 + WordLength(s[1..])
  }

  /** The words of a text: blanks separate them, and a bracket is a word by itself. */
  function Words(s: string): seq<string>
    decreases |s|
  {
    if s == [] then []
    else if s[0] == ' ' then Words(s[1..])
    else if IsBreak(s[0]) then [[s[0]]] + Words(s[1..])
    else [s[..WordLength(s)]] + Words(s[WordLength(s)..])
  }

  // --- From words to conditions ------------------------------------------------------

  datatype Condition =
    | IsLike(column: string, param: nat)
    | IsEqual(column: string, param: nat)
    | IsNull(column: string)
    | Both(left: Condition, right: Condition)
    | Either(left: Condition, right: Condition)

  /** A condition, and the words after it. */
  datatype Parsed = Parsed(condition: Condition, rest: seq<string>)

  /** A parameter is a question mark and its number. */
  function Param(word: string): Option<nat> {
    if |word| > 1 && word[0] == '?' && AllDigits(word[1..]) then Some(Value(word[1..])) else None
  }

  /** A comparison of a column: with a pattern, with a value, or with NULL. */
  function Comparison(words: seq<string>): (r: Option<Parsed>)
    ensures r.Some? ==> |r.value.rest| < |words|
  {
    if |words| >= 3 && words[1] == "=" && Param(words[2]).Some? then
      Some(Parsed(IsEqual(words[0], Param(words[2]).value), words[3..]))
    else if |words| >= 3 && words[1] == "IS" && words[2] == "NULL" then
      Some(Parsed(IsNull(words[0]), words[3..]))
    else if |words| >= 5 && words[1] == "LIKE" && Param(words[2]).Some? && words[3] == "ESCAPE" && words[4] == "'\\'"
    then
      Some(Parsed(IsLike(words[0], Param(words[2]).value), words[5..]))
    else None
  }

  function Primary(words: seq<string>): (r: Option<Parsed>)
    ensures r.Some? ==> |r.value.rest| < |words|
    decreases |words|, 0
  {
    if words == [] || words[0] != "(" then Comparison(words)
    else
      match Disjunction(words[1..])
      case None => None
      case Some(inner) =>
        if inner.rest == [] || inner.rest[0] != ")" then None
        else Some(Parsed(inner.condition, inner.rest[1..]))
  }

  /** AND binds more tightly than OR. */
  function Conjunction(words: seq<string>): (r: Option<Parsed>)
    ensures r.Some? ==> |r.value.rest| < |words|
    decreases |words|, 1
  {
    match Primary(words)
    case None => None
    case Some(left) =>
      if left.rest == [] || left.rest[0] != "AND" then Some(left)
      else
        match Conjunction(left.rest[1..])
        case None => None
        case Some(right) => Some(Parsed(Both(left.condition, right.condition), right.rest))
  }

  function Disjunction(words: seq<string>): (r: Option<Parsed>)
    ensures r.Some? ==> |r.value.rest| < |words|
    decreases |words|, 2
  {
    match Conjunction(words)
    case None => None
    case Some(left) =>
      if left.rest == [] || left.rest[0] != "OR" then Some(left)
      else
        match Disjunction(left.rest[1..])
        case None => None
        case Some(right) => Some(Parsed(Either(left.condition, right.condition), right.rest))
  }

  // --- From conditions to rows -------------------------------------------------------

  datatype Cell = Text(text: string) | Integer(number: int) | Null

  /** A row by the names of its columns. */
  type Row = map<string, Cell>

  /** A text parameter compared with a cell: an integer column reads it as a number. */
  predicate CellEquals(cell: Cell, value: string) {
    match cell
    case Text(text) => text == value
    case Integer(number) => ParseSigned(value, I64_MIN, I64_MAX) == Some(number)
    case Null => false
  }

  predicate CellLike(cell: Cell, pattern: string) { cell.Text? && Like(pattern, cell.text) }

  predicate Evaluate(c: Condition, params: seq<string>, row: Row) {
    match c
    case IsLike(column, n) => column in row && 1 <= n <= |params| && CellLike(row[column], params[n - 1])
    case IsEqual(column, n) => column in row && 1 <= n <= |params| && CellEquals(row[column], params[n - 1])
    case IsNull(column) => column in row && row[column].Null?
    case Both(a, b) => Evaluate(a, params, row) && Evaluate(b, params, row)
    case Either(a, b) => Evaluate(a, params, row) || Evaluate(b, params, row)
  }

  /** A row is selected by a WHERE clause if its whole condition holds; without a clause
      every row is. */
  predicate Selected(sql: string, params: seq<string>, row: Row) {
    var words := Words(sql);
    if words == [] then true
    else
      && words[0] == "WHERE"
      && var parsed := Disjunction(words[1..]);
        parsed.Some? && parsed.value.rest == [] && Evaluate(parsed.value.condition, params, row)
  }

  // --- Reading text piece by piece ---------------------------------------------------

  predicate IsWord(s: string) { s != [] && forall i :: 0 <= i < |s| ==> !IsBreak(s[i]) }

  lemma {:induction false} WordEnds(w: string, rest: string)
    requires forall i :: 0 <= i < |w| ==> !IsBreak(w[i])
    requires rest == [] || IsBreak(rest[0])
    ensures WordLength(w + rest) == |w|
  {
    if w == [] {
      assert w + rest == rest;
    } else {
      assert (w + rest)[1..] == w[1..] + rest;
      WordEnds(w[1..], rest);
    }
  }

  lemma ReadsWord(w: string, rest: string)
    requires IsWord(w) && (rest == [] || IsBreak(rest[0]))
    ensures Words(w + rest) == [w] + Words(rest)
  {
    WordEnds(w, rest);
    assert (w + rest)[..|w|] == w && (w + rest)[|w|..] == rest;
  }

  lemma ReadsSpace(rest: string)
    ensures Words(" " + rest) == Words(rest)
  {
    assert (" " + rest)[1..] == rest;
  }

  lemma ReadsBracket(c: char, rest: string)
    requires c == '(' || c == ')'
    ensures Words([c] + rest) == [[c]] + Words(rest)
  {
    assert ([c] + rest)[1..] == rest;
  }

  /** A word, a blank, and the rest. */
  lemma ReadsWordSpace(w: string, rest: string)
    requires IsWord(w)
    ensures Words(w + " " + rest) == [w] + Words(rest)
  {
    assert w + " " + rest == w + (" " + rest);
    ReadsWord(w, " " + rest);
    ReadsSpace(rest);
  }

  lemma Regroup(a: string, b: string, c: string, rest: string)
    ensures a + " " + b + " " + c + rest == a + " " + (b + " " + (c + rest))
  {
  }

  lemma ThreeWords(a: string, b: string, c: string, words: seq<string>)
    ensures [a] + ([b] + ([c] + words)) == [a, b, c] + words
  {
  }

  lemma ReadsThree(a: string, b: string, c: string, rest: string)
    requires IsWord(a) && IsWord(b) && IsWord(c) && (rest == [] || IsBreak(rest[0]))
    ensures Words(a + " " + b + " " + c + rest) == [a, b, c] + Words(rest)
  {
    Regroup(a, b, c, rest);
    ReadsWordSpace(a, b + " " + (c + rest));
    ReadsWordSpace(b, c + rest);
    ReadsWord(c, rest);
    ThreeWords(a, b, c, Words(rest));
  }

  lemma RegroupFive(a: string, b: string, c: string, d: string, e: string, rest: string)
    ensures a + " " + b + " " + c + " " + d + " " + e + rest == a + " " + (b + " " + (c + " " + d + " " + e + rest))
  {
  }

  lemma FiveWords(a: string, b: string, c: string, d: string, e: string, words: seq<string>)
    ensures [a] + ([b] + ([c, d, e] + words)) == [a, b, c, d, e] + words
  {
  }

  lemma ReadsFive(a: string, b: string, c: string, d: string, e: string, rest: string)
    requires IsWord(a) && IsWord(b) && IsWord(c) && IsWord(d) && IsWord(e) && (rest == [] || IsBreak(rest[0]))
    ensures Words(a + " " + b + " " + c + " " + d + " " + e + rest) == [a, b, c, d, e] + Words(rest)
  {
    RegroupFive(a, b, c, d, e, rest);
    ReadsWordSpace(a, b + " " + (c + " " + d + " " + e + rest));
    ReadsWordSpace(b, c + " " + d + " " + e + rest);
    ReadsThree(c, d, e, rest);
    FiveWords(a, b, c, d, e, Words(rest));
  }

  /** A parameter's word. */
  function Mark(n: nat): string { "?" + Format(n) }

  lemma MarkReads(n: nat)
    ensures IsWord(Mark(n)) && Param(Mark(n)) == Some(n)
  {
    assert Mark(n)[1..] == Format(n);
    FormatValue(n);
  }
}
