/** The WHERE clause built from a list filter, and what it selects. */
module JobFilter {
  import opened Options
  import opened Decimal
  import opened Text
  import opened LikeSearch
  import opened SqlWhere

  datatype Filter = Filter(
    search: Option<string>,
    category: Option<string>,
    seriesName: Option<string>,
    seasonNumber: Option<int>,
    seasonIsNull: bool)

  /** The columns of a job that the filter looks at. */
  datatype Job = Job(filename: string, seriesName: string, mediaType: string, seasonNumber: Option<int>)

  datatype Clause =
    | TextLike(param: nat) | MediaTypeIs(param: nat) | SeriesNameIs(param: nat) | SeasonIs(param: nat) | SeasonNull

  function Render(c: Clause): string {
    match c
    case TextLike(n) =>
      "(filename LIKE ?" + Format(n) + " ESCAPE '\\' OR series_name LIKE ?" + Format(n) + " ESCAPE '\\')"
    case MediaTypeIs(n) => "media_type = ?" + Format(n)
    case SeriesNameIs(n) => "series_name = ?" + Format(n)
    case SeasonIs(n) => "season_number = ?" + Format(n)
    case SeasonNull => "season_number IS NULL"
  }

  function RenderAll(clauses: seq<Clause>): (r: seq<string>)
    ensures |r| == |clauses|
  {
    if clauses == [] then [] else RenderAll(clauses[..|clauses| - 1]) + [Render(clauses[|clauses| - 1])]
  }

  function Where(texts: seq<string>): string {
    if texts == [] then "" else "WHERE " + Join(texts, " AND ")
  }

  /** A clause read by SQLite with the parameters bound. `season_number` is an integer
      column, so the text it is compared with is read as a number. */
  predicate Holds(c: Clause, params: seq<string>, job: Job) {
    match c
    case TextLike(n) => 1 <= n <= |params| && (Like(params[n - 1], job.filename) || Like(params[n - 1], job.seriesName))
    case MediaTypeIs(n) => 1 <= n <= |params| && job.mediaType == params[n - 1]
    case SeriesNameIs(n) => 1 <= n <= |params| && job.seriesName == params[n - 1]
    case SeasonIs(n) =>
      && 1 <= n <= |params| && job.seasonNumber.Some?
      && ParseSigned(params[n - 1], I64_MIN, I64_MAX) == job.seasonNumber
    case SeasonNull => job.seasonNumber.None?
  }

  datatype Query = Query(params: seq<string>, clauses: seq<Clause>)

  function Contains(escaped: string): string { "%" + escaped + "%" }

  /** The number of the next parameter. */
  function Next(q: Query): nat { |q.params| + 1 }

  function Bind(q: Query, value: string, clause: Clause): Query {
    Query(q.params + [value], q.clauses + [clause])
  }

  function WithSearch(f: Filter, q: Query): Query {
    if NonEmpty(f.search).Some? then Bind(q, Contains(Escape(f.search.value)), TextLike(Next(q))) else q
  }

  function WithCategory(f: Filter, q: Query): Query {
    if NonEmpty(f.category).Some? then Bind(q, f.category.value, MediaTypeIs(Next(q))) else q
  }

  function WithSeries(f: Filter, q: Query): Query {
    if NonEmpty(f.seriesName).Some? then Bind(q, f.seriesName.value, SeriesNameIs(Next(q))) else q
  }

  function WithSeason(f: Filter, q: Query): Query {
    if f.seasonNumber.Some? then Bind(q, FormatInt(f.seasonNumber.value), SeasonIs(Next(q)))
    else if f.seasonIsNull then q.(clauses := q.clauses + [SeasonNull])
    else q
  }

  function Build(f: Filter): Query {
    WithSeason(f, WithSeries(f, WithCategory(f, WithSearch(f, Query([], [])))))
  }

  lemma RenderSnoc(clauses: seq<Clause>, c: Clause)
    ensures RenderAll(clauses + [c]) == RenderAll(clauses) + [Render(c)]
  {
    assert (clauses + [c])[..|clauses|] == clauses;
  }

  /** The texts and parameters pushed so far spell the query. */
  ghost predicate Spells(texts: seq<string>, params: seq<string>, q: Query) {
    params == q.params && texts == RenderAll(q.clauses)
  }

  // The four steps of `job_filter_sql`: each pushes a value and the clause that names it.

  method PushSearch(f: Filter, texts: seq<string>, params: seq<string>, ghost q: Query)
    returns (texts': seq<string>, params': seq<string>)
    requires Spells(texts, params, q)
    ensures Spells(texts', params', WithSearch(f, q))
  {
    texts', params' := texts, params;
    if f.search.Some? && f.search.value != [] {
      var escaped := EscapeLike(f.search.value);
      params' := params' + [Contains(escaped)];
      RenderSnoc(q.clauses, TextLike(|params'|));
      texts' := texts' + [Render(TextLike(|params'|))];
    }
  }

  method PushCategory(f: Filter, texts: seq<string>, params: seq<string>, ghost q: Query)
    returns (texts': seq<string>, params': seq<string>)
    requires Spells(texts, params, q)
    ensures Spells(texts', params', WithCategory(f, q))
  {
    texts', params' := texts, params;
    if f.category.Some? && f.category.value != [] {
      params' := params' + [f.category.value];
      RenderSnoc(q.clauses, MediaTypeIs(|params'|));
      texts' := texts' + [Render(MediaTypeIs(|params'|))];
    }
  }

  method PushSeries(f: Filter, texts: seq<string>, params: seq<string>, ghost q: Query)
    returns (texts': seq<string>, params': seq<string>)
    requires Spells(texts, params, q)
    ensures Spells(texts', params', WithSeries(f, q))
  {
    texts', params' := texts, params;
    if f.seriesName.Some? && f.seriesName.value != [] {
      params' := params' + [f.seriesName.value];
      RenderSnoc(q.clauses, SeriesNameIs(|params'|));
      texts' := texts' + [Render(SeriesNameIs(|params'|))];
    }
  }

  method PushSeason(f: Filter, texts: seq<string>, params: seq<string>, ghost q: Query)
    returns (texts': seq<string>, params': seq<string>)
    requires Spells(texts, params, q)
    ensures Spells(texts', params', WithSeason(f, q))
  {
    texts', params' := texts, params;
    if f.seasonNumber.Some? {
      params' := params' + [FormatInt(f.seasonNumber.value)];
      RenderSnoc(q.clauses, SeasonIs(|params'|));
      texts' := texts' + [Render(SeasonIs(|params'|))];
    } else if f.seasonIsNull {
      RenderSnoc(q.clauses, SeasonNull);
      texts' := texts' + [Render(SeasonNull)];
    }
  }

  /** `job_filter_sql`: the WHERE clause and its parameters. Read as SQL they select exactly
      the jobs the filter accepts; a filter that asks for nothing gives no clause. */
  method JobFilterSql(f: Filter) returns (sql: string, params: seq<string>)
    ensures params == Build(f).params
    ensures sql == Where(RenderAll(Build(f).clauses))
    ensures (f.seasonNumber.Some? ==> I64_MIN <= f.seasonNumber.value <= I64_MAX) ==>
      forall job :: Selected(sql, params, JobRow(job)) <==> Accepts(f, job)
    ensures sql == "" <==> AsksNothing(f)
  {
    ghost var q := Query([], []);
    var texts: seq<string> := [];
    texts, params := PushSearch(f, texts, [], q);
    q := WithSearch(f, q);
    texts, params := PushCategory(f, texts, params, q);
    q := WithCategory(f, q);
    texts, params := PushSeries(f, texts, params, q);
    q := WithSeries(f, q);
    texts, params := PushSeason(f, texts, params, q);
    sql := Where(texts);
    if f.seasonNumber.Some? ==> I64_MIN <= f.seasonNumber.value <= I64_MAX {
      forall job ensures Selected(sql, params, JobRow(job)) <==> Accepts(f, job) { SqlSelects(f, job); }
    }
  }

  ghost predicate AsksNothing(f: Filter) {
    && (f.search.Some? ==> f.search.value == "") && (f.category.Some? ==> f.category.value == "")
    && (f.seriesName.Some? ==> f.seriesName.value == "") && f.seasonNumber.None? && !f.seasonIsNull
  }

  ghost predicate Selects(q: Query, job: Job) {
    forall i :: 0 <= i < |q.clauses| ==> Holds(q.clauses[i], q.params, job)
  }

  ghost predicate AcceptsSearch(f: Filter, job: Job) {
    f.search.Some? && f.search.value != "" ==>
      Occurs(f.search.value, job.filename) || Occurs(f.search.value, job.seriesName)
  }

  ghost predicate AcceptsCategory(f: Filter, job: Job) {
    f.category.Some? && f.category.value != "" ==> job.mediaType == f.category.value
  }

  ghost predicate AcceptsSeries(f: Filter, job: Job) {
    f.seriesName.Some? && f.seriesName.value != "" ==> job.seriesName == f.seriesName.value
  }

  ghost predicate AcceptsSeason(f: Filter, job: Job) {
    && (f.seasonNumber.Some? ==> job.seasonNumber == f.seasonNumber)
    && (f.seasonNumber.None? && f.seasonIsNull ==> job.seasonNumber == None)
  }

  /** What the filter asks for. */
  ghost predicate Accepts(f: Filter, job: Job) {
    AcceptsSearch(f, job) && AcceptsCategory(f, job) && AcceptsSeries(f, job) && AcceptsSeason(f, job)
  }

  ghost predicate Numbered(q: Query) {
    forall i :: 0 <= i < |q.clauses| && !q.clauses[i].SeasonNull? ==> 1 <= q.clauses[i].param <= |q.params|
  }

  /** A new parameter does not disturb the clauses before it. */
  lemma BindSelects(q: Query, value: string, clause: Clause, job: Job)
    requires Numbered(q)
    requires !clause.SeasonNull? && clause.param == Next(q)
    ensures Numbered(Bind(q, value, clause))
    ensures Selects(Bind(q, value, clause), job) <==> Selects(q, job) && Holds(clause, q.params + [value], job)
  {
    var r := Bind(q, value, clause);
    forall i | 0 <= i < |q.clauses| ensures Holds(r.clauses[i], r.params, job) <==> Holds(q.clauses[i], q.params, job) {
      assert r.clauses[i] == q.clauses[i];
    }
    assert r.clauses[|q.clauses|] == clause;
  }

  lemma SeasonNullSelects(q: Query, job: Job)
    ensures Selects(q.(clauses := q.clauses + [SeasonNull]), job) <==> Selects(q, job) && job.seasonNumber == None
  {
    var r := q.(clauses := q.clauses + [SeasonNull]);
    forall i | 0 <= i < |q.clauses| ensures r.clauses[i] == q.clauses[i] {}
    assert r.clauses[|q.clauses|] == SeasonNull;
  }

  lemma SearchSelects(f: Filter, q: Query, job: Job)
    requires Numbered(q)
    ensures Numbered(WithSearch(f, q))
    ensures Selects(WithSearch(f, q), job) <==> Selects(q, job) && AcceptsSearch(f, job)
  {
    if NonEmpty(f.search).Some? {
      var pattern := Contains(Escape(f.search.value));
      BindSelects(q, pattern, TextLike(Next(q)), job);
      SearchIsSubstring(f.search.value, job.filename);
      SearchIsSubstring(f.search.value, job.seriesName);
    }
  }

  lemma CategorySelects(f: Filter, q: Query, job: Job)
    requires Numbered(q)
    ensures Numbered(WithCategory(f, q))
    ensures Selects(WithCategory(f, q), job) <==> Selects(q, job) && AcceptsCategory(f, job)
  {
    if NonEmpty(f.category).Some? { BindSelects(q, f.category.value, MediaTypeIs(Next(q)), job); }
  }

  lemma SeriesSelects(f: Filter, q: Query, job: Job)
    requires Numbered(q)
    ensures Numbered(WithSeries(f, q))
    ensures Selects(WithSeries(f, q), job) <==> Selects(q, job) && AcceptsSeries(f, job)
  {
    if NonEmpty(f.seriesName).Some? { BindSelects(q, f.seriesName.value, SeriesNameIs(Next(q)), job); }
  }

  lemma SeasonSelects(f: Filter, q: Query, job: Job)
    requires Numbered(q)
    requires f.seasonNumber.Some? ==> I64_MIN <= f.seasonNumber.value <= I64_MAX
    ensures Selects(WithSeason(f, q), job) <==> Selects(q, job) && AcceptsSeason(f, job)
  {
    if f.seasonNumber.Some? {
      BindSelects(q, FormatInt(f.seasonNumber.value), SeasonIs(Next(q)), job);
      ParseFormatInt(f.seasonNumber.value, I64_MIN, I64_MAX);
    } else if f.seasonIsNull {
      SeasonNullSelects(q, job);
    }
  }

  /** The clauses and parameters built from a filter select exactly the jobs the filter
      accepts: every `?n` names its own value, and the search text is taken literally. */
  lemma FilterSelects(f: Filter, job: Job)
    requires f.seasonNumber.Some? ==> I64_MIN <= f.seasonNumber.value <= I64_MAX
    ensures Selects(Build(f), job) <==> Accepts(f, job)
  {
    var q0 := Query([], []);
    SearchSelects(f, q0, job);
    var q1 := WithSearch(f, q0);
    CategorySelects(f, q1, job);
    var q2 := WithCategory(f, q1);
    SeriesSelects(f, q2, job);
    SeasonSelects(f, WithSeries(f, q2), job);
  }

  // --- The meaning of the text -------------------------------------------------------

  function Arm(column: string, n: nat): string { column + " LIKE " + Mark(n) + " ESCAPE '\\'" }

  function ArmWords(column: string, n: nat): seq<string> { [column, "LIKE", Mark(n), "ESCAPE", "'\\'"] }

  lemma ArmReads(column: string, n: nat, rest: string)
    requires IsWord(column) && (rest == [] || IsBreak(rest[0]))
    ensures Words(Arm(column, n) + rest) == ArmWords(column, n) + Words(rest)
  {
    MarkReads(n);
    assert " LIKE " == " " + "LIKE" + " " && " ESCAPE '\\'" == " " + "ESCAPE" + " " + "'\\'";
    assert Arm(column, n) == column + " " + "LIKE" + " " + Mark(n) + " " + "ESCAPE" + " " + "'\\'";
    ReadsFive(column, "LIKE", Mark(n), "ESCAPE", "'\\'", rest);
  }

  function LikeWords(n: nat): seq<string> {
    ["("] + ArmWords("filename", n) + ["OR"] + ArmWords("series_name", n) + [")"]
  }

  lemma LikeParts(before: string, f: string, like: string, mark: string, n: string, escape: string, or: string,
                  s: string, after: string)
    ensures (before + f + like + mark) + n + (escape + or + s + like + mark) + n + (escape + after)
      == before + ((f + like + (mark + n) + escape) + (or + ((s + like + (mark + n) + escape) + after)))
  {
  }

  lemma LikeText(n: nat)
    ensures Render(TextLike(n)) == "(" + (Arm("filename", n) + (" OR " + (Arm("series_name", n) + ")")))
  {
    assert "(filename LIKE ?" == "(" + "filename" + " LIKE " + "?";
    assert " ESCAPE '\\' OR series_name LIKE ?" == " ESCAPE '\\'" + " OR " + "series_name" + " LIKE " + "?";
    assert " ESCAPE '\\')" == " ESCAPE '\\'" + ")";
    LikeParts("(", "filename", " LIKE ", "?", Format(n), " ESCAPE '\\'", " OR ", "series_name", ")");
  }

  lemma OrReads(rest: string)
    ensures Words(" OR " + rest) == ["OR"] + Words(rest)
  {
    assert " OR " == " " + "OR" + " ";
    assert " OR " + rest == " " + ("OR" + " " + rest);
    ReadsSpace("OR" + " " + rest);
    ReadsWordSpace("OR", rest);
  }

  lemma Nest<T>(a: seq<T>, b: seq<T>, c: seq<T>, d: seq<T>, e: seq<T>, rest: seq<T>)
    ensures a + (b + (c + (d + e))) + rest == a + (b + (c + (d + (e + rest))))
    ensures a + b + c + d + e + rest == a + (b + (c + (d + (e + rest))))
  {
  }

  lemma SecondArmReads(n: nat, rest: string)
    ensures Words(Arm("series_name", n) + (")" + rest)) == ArmWords("series_name", n) + ([")"] + Words(rest))
  {
    ArmReads("series_name", n, ")" + rest);
    ReadsBracket(')', rest);
  }

  lemma BothArmsRead(n: nat, rest: string)
    ensures Words(Arm("filename", n) + (" OR " + (Arm("series_name", n) + (")" + rest))))
      == ArmWords("filename", n) + (["OR"] + (ArmWords("series_name", n) + ([")"] + Words(rest))))
  {
    var second := Arm("series_name", n) + (")" + rest);
    SecondArmReads(n, rest);
    OrReads(second);
    ArmReads("filename", n, " OR " + second);
  }

  lemma LikeReads(n: nat, rest: string)
    ensures Words(Render(TextLike(n)) + rest) == LikeWords(n) + Words(rest)
  {
    var f, s := Arm("filename", n), Arm("series_name", n);
    LikeText(n);
    Nest("(", f, " OR ", s, ")", rest);
    BothArmsRead(n, rest);
    ReadsBracket('(', f + (" OR " + (s + (")" + rest))));
    Nest(["("], ArmWords("filename", n), ["OR"], ArmWords("series_name", n), [")"], Words(rest));
  }

  function ClauseWords(c: Clause): seq<string> {
    match c
    case TextLike(n) => LikeWords(n)
    case MediaTypeIs(n) => ["media_type", "=", Mark(n)]
    case SeriesNameIs(n) => ["series_name", "=", Mark(n)]
    case SeasonIs(n) => ["season_number", "=", Mark(n)]
    case SeasonNull => ["season_number", "IS", "NULL"]
  }

  lemma EqualReads(column: string, text: string, n: nat, rest: string)
    requires IsWord(column) && text == column + " = ?" && (rest == [] || IsBreak(rest[0]))
    ensures Words(text + Format(n) + rest) == [column, "=", Mark(n)] + Words(rest)
  {
    MarkReads(n);
    assert " = ?" == " " + "=" + " " + "?";
    assert text + Format(n) == column + " " + "=" + " " + Mark(n);
    ReadsThree(column, "=", Mark(n), rest);
  }

  lemma ClauseReads(c: Clause, rest: string)
    requires rest == [] || IsBreak(rest[0])
    ensures Words(Render(c) + rest) == ClauseWords(c) + Words(rest)
  {
    match c
    case TextLike(n) => LikeReads(n, rest);
    case MediaTypeIs(n) => EqualReads("media_type", "media_type = ?", n, rest);
    case SeriesNameIs(n) => EqualReads("series_name", "series_name = ?", n, rest);
    case SeasonIs(n) => EqualReads("season_number", "season_number = ?", n, rest);
    case SeasonNull =>
      assert "season_number IS NULL" == "season_number" + " " + "IS" + " " + "NULL";
      ReadsThree("season_number", "IS", "NULL", rest);
  }

  function Meaning(c: Clause): Condition {
    match c
    case TextLike(n) => Either(IsLike("filename", n), IsLike("series_name", n))
    case MediaTypeIs(n) => IsEqual("media_type", n)
    case SeriesNameIs(n) => IsEqual("series_name", n)
    case SeasonIs(n) => IsEqual("season_number", n)
    case SeasonNull => IsNull("season_number")
  }

  lemma ArmParses(column: string, n: nat, more: seq<string>)
    requires column != "(" && more != [] && more[0] != "AND"
    ensures Conjunction(ArmWords(column, n) + more) == Some(Parsed(IsLike(column, n), more))
  {
    var words := ArmWords(column, n) + more;
    MarkReads(n);
    assert words[0] == column && words[1] == "LIKE" && words[2] == Mark(n);
    assert words[3] == "ESCAPE" && words[4] == "'\\'" && words[5..] == more;
  }

  lemma OrParses(words: seq<string>, a: Condition, right: seq<string>, b: Condition, more: seq<string>)
    requires Conjunction(words) == Some(Parsed(a, ["OR"] + right)) && Disjunction(right) == Some(Parsed(b, more))
    ensures Disjunction(words) == Some(Parsed(Either(a, b), more))
  {
    assert (["OR"] + right)[1..] == right;
  }

  lemma BracketParses(inner: seq<string>, c: Condition, more: seq<string>)
    requires Disjunction(inner) == Some(Parsed(c, [")"] + more))
    ensures Primary(["("] + inner) == Some(Parsed(c, more))
  {
    assert (["("] + inner)[1..] == inner;
    assert ([")"] + more)[1..] == more;
  }

  lemma LikeParses(n: nat, more: seq<string>)
    ensures Primary(LikeWords(n) + more) == Some(Parsed(Meaning(TextLike(n)), more))
  {
    var left, right := ArmWords("filename", n), ArmWords("series_name", n);
    var second := right + ([")"] + more);
    ArmParses("filename", n, ["OR"] + second);
    ArmParses("series_name", n, [")"] + more);
    OrParses(left + (["OR"] + second), IsLike("filename", n), second, IsLike("series_name", n), [")"] + more);
    BracketParses(left + (["OR"] + second), Meaning(TextLike(n)), more);
    Nest(["("], left, ["OR"], right, [")"], more);
  }

  lemma EqualParses(column: string, n: nat, more: seq<string>)
    requires column != "("
    ensures Primary([column, "=", Mark(n)] + more) == Some(Parsed(IsEqual(column, n), more))
  {
    var words := [column, "=", Mark(n)] + more;
    MarkReads(n);
    assert words[3..] == more;
  }

  lemma ClauseParses(c: Clause, more: seq<string>)
    ensures Primary(ClauseWords(c) + more) == Some(Parsed(Meaning(c), more))
  {
    match c
    case TextLike(n) => LikeParses(n, more);
    case MediaTypeIs(n) => EqualParses("media_type", n, more);
    case SeriesNameIs(n) => EqualParses("series_name", n, more);
    case SeasonIs(n) => EqualParses("season_number", n, more);
    case SeasonNull =>
      var words := ["season_number", "IS", "NULL"] + more;
      assert words[1] == "IS" && words[2] == "NULL" && words[3..] == more;
  }

  function AllWords(clauses: seq<Clause>): seq<string>
    requires clauses != []
  {
    if |clauses| == 1 then ClauseWords(clauses[0])
    else ClauseWords(clauses[0]) + (["AND"] + AllWords(clauses[1..]))
  }

  function AllMean(clauses: seq<Clause>): Condition
    requires clauses != []
  {
    if |clauses| == 1 then Meaning(clauses[0]) else Both(Meaning(clauses[0]), AllMean(clauses[1..]))
  }

  lemma {:induction false} RenderCons(clauses: seq<Clause>)
    requires clauses != []
    ensures RenderAll(clauses) == [Render(clauses[0])] + RenderAll(clauses[1..])
  {
    if |clauses| > 1 {
      RenderCons(clauses[..|clauses| - 1]);
      assert clauses[..|clauses| - 1][1..] == clauses[1..][..|clauses| - 2];
    }
  }

  lemma AndReads(rest: string)
    ensures Words(" AND " + rest) == ["AND"] + Words(rest)
  {
    assert " AND " == " " + "AND" + " ";
    assert " AND " + rest == " " + ("AND" + " " + rest);
    ReadsSpace("AND" + " " + rest);
    ReadsWordSpace("AND", rest);
  }

  lemma {:induction false} AllRead(clauses: seq<Clause>)
    requires clauses != []
    ensures Words(Join(RenderAll(clauses), " AND ")) == AllWords(clauses)
  {
    var first := Render(clauses[0]);
    RenderCons(clauses);
    if |clauses| == 1 {
      assert first + "" == first;
      ClauseReads(clauses[0], "");
    } else {
      var rest := Join(RenderAll(clauses[1..]), " AND ");
      AllRead(clauses[1..]);
      assert Join(RenderAll(clauses), " AND ") == first + (" AND " + rest);
      ClauseReads(clauses[0], " AND " + rest);
      AndReads(rest);
    }
  }

  lemma {:induction false} AllParse(clauses: seq<Clause>)
    requires clauses != []
    ensures Conjunction(AllWords(clauses)) == Some(Parsed(AllMean(clauses), []))
  {
    if |clauses| == 1 {
      assert ClauseWords(clauses[0]) + [] == ClauseWords(clauses[0]);
      ClauseParses(clauses[0], []);
    } else {
      var rest := AllWords(clauses[1..]);
      AllParse(clauses[1..]);
      ClauseParses(clauses[0], ["AND"] + rest);
      assert (["AND"] + rest)[1..] == rest;
    }
  }

  /** A job as a row of its table. */
  function JobRow(job: Job): Row {
    map["filename" := Text(job.filename), "series_name" := Text(job.seriesName), "media_type" := Text(job.mediaType),
        "season_number" := if job.seasonNumber.Some? then Integer(job.seasonNumber.value) else Null]
  }

  lemma ColumnsOf(job: Job)
    ensures var row := JobRow(job);
      && "filename" in row && row["filename"] == Text(job.filename)
      && "series_name" in row && row["series_name"] == Text(job.seriesName)
      && "media_type" in row && row["media_type"] == Text(job.mediaType)
      && "season_number" in row
      && row["season_number"] == (if job.seasonNumber.Some? then Integer(job.seasonNumber.value) else Null)
  {
    assert "filename" != "series_name" && "filename" != "media_type" && "media_type" != "season_number";
    assert "series_name"[2] != "season_number"[2];
  }

  lemma MeaningHolds(c: Clause, params: seq<string>, job: Job)
    ensures Evaluate(Meaning(c), params, JobRow(job)) <==> Holds(c, params, job)
  {
    ColumnsOf(job);
  }

  lemma {:induction false} AllHold(clauses: seq<Clause>, params: seq<string>, job: Job)
    requires clauses != []
    ensures Evaluate(AllMean(clauses), params, JobRow(job)) <==>
      forall i :: 0 <= i < |clauses| ==> Holds(clauses[i], params, job)
  {
    MeaningHolds(clauses[0], params, job);
    if |clauses| > 1 {
      AllHold(clauses[1..], params, job);
      assert clauses == [clauses[0]] + clauses[1..];
    }
  }

  lemma WhereReads(text: string)
    ensures Words("WHERE " + text) == ["WHERE"] + Words(text)
  {
    assert "WHERE " == "WHERE" + " ";
    ReadsWordSpace("WHERE", text);
  }

  /** The written clause selects a job exactly when all its parts hold. */
  lemma TextSelects(q: Query, job: Job)
    ensures Selected(Where(RenderAll(q.clauses)), q.params, JobRow(job)) <==> Selects(q, job)
  {
    if q.clauses != [] {
      var text := Join(RenderAll(q.clauses), " AND ");
      WhereReads(text);
      AllRead(q.clauses);
      AllParse(q.clauses);
      AllHold(q.clauses, q.params, job);
      assert Words("WHERE " + text)[1..] == AllWords(q.clauses);
    }
  }

  /** The text and the parameters built from a filter select exactly the jobs it accepts. */
  lemma SqlSelects(f: Filter, job: Job)
    requires f.seasonNumber.Some? ==> I64_MIN <= f.seasonNumber.value <= I64_MAX
    ensures Selected(Where(RenderAll(Build(f).clauses)), Build(f).params, JobRow(job)) <==> Accepts(f, job)
  {
    TextSelects(Build(f), job);
    FilterSelects(f, job);
  }
}
