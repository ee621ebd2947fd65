/** What the settings registry accepts, and that an accepted setting survives the env file:
    every value that is ever written reads back as itself and is accepted again unchanged. */
module SettingValues {
  import opened Options
  import opened Text
  import opened Decimal
  import opened Folds
  import opened Tiers
  import opened EnvFile

  /** The type of a setting with its bounds; items of a dotted list get a leading dot. */
  datatype Kind = IntKind(min: Option<int>, max: Option<int>) | BoolKind | StrKind | ListKind(dotted: bool) | TiersKind

  // --- Normalising -----------------------------------------------------------------------

  /** `to_ascii_lowercase`. */
  function Lower(s: string): string { Map(LowerChar, s) }

  predicate InBounds(n: int, min: Option<int>, max: Option<int>) {
    (min.Some? ==> min.value <= n) && (max.Some? ==> n <= max.value)
  }

  /** `normalize_int`. */
  function NormalInt(value: string, min: Option<int>, max: Option<int>): Option<string> {
    match ParseSigned(Trim(value), I64_MIN, I64_MAX)
    case None => None
    case Some(n) => if InBounds(n, min, max) then Some(FormatInt(n)) else None
  }

  /** `normalize_bool`. */
  function NormalBool(value: string): Option<string> {
    var lower := Lower(Trim(value));
    if lower == "true" || lower == "1" then Some("true")
    else if lower == "false" || lower == "0" then Some("false")
    else None
  }

  function Dotted(item: string): string { if item != "" && item[0] == '.' then item else "." + item }

  function ItemsOf(value: string, dotted: bool): seq<string> {
    if dotted then Map(Dotted, ParseList(value)) else ParseList(value)
  }

  predicate AllPass(items: seq<string>, check: string -> bool) {
    forall i :: 0 <= i < |items| ==> check(items[i])
  }

  /** `normalize_list`; `check` is the test of a key's items. */
  function NormalList(value: string, dotted: bool, check: string -> bool): Option<string> {
    if AllPass(ItemsOf(value, dotted), check) then Some(Join(ItemsOf(value, dotted), ",")) else None
  }

  /** The loops of `normalize_list`. */
  method NormalizeList(value: string, dotted: bool, check: string -> bool) returns (r: Option<string>)
    ensures r == NormalList(value, dotted, check)
  {
    var given := ParseList(value);
    var values := given;
    for i := 0 to |given|
      invariant |values| == |given|
      invariant forall j :: i <= j < |given| ==> values[j] == given[j]
      invariant forall j :: 0 <= j < i ==> values[j] == ItemsOf(value, dotted)[j] && check(values[j])
    {
      if dotted && (values[i] == "" || values[i][0] != '.') { values := values[i := "." + values[i]]; }
      if !check(values[i]) {
        assert !check(ItemsOf(value, dotted)[i]);
        return None;
      }
    }
    assert values == ItemsOf(value, dotted);
    return Some(Join(values, ","));
  }

  /** The text that is normalised. */
  function TextOf(value: string, stripComments: bool): string {
    if stripComments then StripInlineComment(value) else Trim(value)
  }

  /** `normalize_str_inner` without the errors' texts: posted values are trimmed, values of
      the environment are also unquoted or cut at a comment. */
  function Normalize(kind: Kind, check: string -> bool, value: string, stripComments: bool): Option<string> {
    var text := TextOf(value, stripComments);
    match kind
    case IntKind(min, max) => NormalInt(text, min, max)
    case BoolKind => NormalBool(text)
    case StrKind => if check(Trim(text)) then Some(Trim(text)) else None
    case ListKind(dotted) => NormalList(text, dotted, check)
    case TiersKind => if Normalized(text).Ok? then Some(Normalized(text).value) else None
  }

  // --- What is accepted ------------------------------------------------------------------

  /** The text spells a word of lower-case letters, in either case of each letter. */
  ghost predicate SpellsWord(s: string, word: string) {
    |s| == |word| && forall i :: 0 <= i < |s| ==> s[i] == word[i] || s[i] as int + 32 == word[i] as int
  }

  lemma LowerIsWord(s: string, word: string)
    requires forall i :: 0 <= i < |word| ==> 'a' <= word[i] <= 'z'
    ensures Lower(s) == word <==> SpellsWord(s, word)
  {
    if Lower(s) == word {
      forall i | 0 <= i < |s| ensures s[i] == word[i] || s[i] as int + 32 == word[i] as int {
        assert Lower(s)[i] == LowerChar(s[i]);
      }
    }
    if SpellsWord(s, word) {
      forall i | 0 <= i < |s| ensures Lower(s)[i] == word[i] { assert Lower(s)[i] == LowerChar(s[i]); }
    }
  }

  lemma LowerIsDigit(s: string, digit: char)
    requires digit == '0' || digit == '1'
    ensures Lower(s) == [digit] <==> s == [digit]
  {
    if |s| == 1 { assert Lower(s)[0] == LowerChar(s[0]); }
  }

  /** A switch is on for "true" and 1, off for "false" and 0, and nothing else is accepted. */
  lemma BoolExactly(value: string)
    ensures NormalBool(value) == Some("true") <==> SpellsWord(Trim(value), "true") || Trim(value) == "1"
    ensures NormalBool(value) == Some("false") <==> SpellsWord(Trim(value), "false") || Trim(value) == "0"
    ensures NormalBool(value).Some? ==> NormalBool(value).value == "true" || NormalBool(value).value == "false"
  {
    var s := Trim(value);
    LowerIsWord(s, "true");
    LowerIsWord(s, "false");
    LowerIsDigit(s, '0');
    LowerIsDigit(s, '1');
    assert "true"[0] == 't' && "false"[0] == 'f';
  }

  /** A number is accepted in its bounds, and then written in its plain form. */
  lemma IntExactly(left: string, n: int, right: string, min: Option<int>, max: Option<int>)
    requires IsBlank(left) && IsBlank(right) && I64_MIN <= n <= I64_MAX
    ensures (min.Some? ==> min.value <= n) && (max.Some? ==> n <= max.value) ==>
      NormalInt(left + FormatInt(n) + right, min, max) == Some(FormatInt(n))
    ensures (min.Some? && n < min.value) || (max.Some? && max.value < n) ==>
      NormalInt(left + FormatInt(n) + right, min, max) == None
  {
    NumberIsTrimmed(n);
    TrimPadded(left, FormatInt(n), right);
    ParseFormatInt(n, I64_MIN, I64_MAX);
  }

  lemma NumberIsTrimmed(n: int)
    ensures IsTrimmed(FormatInt(n))
  {
    if n < 0 { assert FormatInt(n)[|FormatInt(n)| - 1] == Format(-n)[|Format(-n)| - 1]; }
  }

  lemma IntIsInBounds(value: string, min: Option<int>, max: Option<int>)
    requires NormalInt(value, min, max).Some?
    ensures exists n ::
      && NormalInt(value, min, max) == Some(FormatInt(n)) && I64_MIN <= n <= I64_MAX
      && (min.Some? ==> min.value <= n) && (max.Some? ==> n <= max.value)
  {
    var n := ParseSigned(Trim(value), I64_MIN, I64_MAX).value;
    assert NormalInt(value, min, max) == Some(FormatInt(n));
  }

  /** A dotted list gets a dot in front of every item that has none. */
  ghost predicate IsListed(written: string, dotted: bool, item: string) {
    if dotted && (written == "" || written[0] != '.') then item == "." + written else item == written
  }

  /** A list of items, written with whitespace around them and with blank items among them,
      is accepted when all its items are, and they are then joined by commas. */
  lemma ListExactly(parts: seq<Written>, dotted: bool, check: string -> bool, items: seq<string>)
    requires parts != [] && forall i :: 0 <= i < |parts| ==> IsWritten(parts[i])
    requires var written := Keep(ItemOf, parts);
      |items| == |written| && forall i :: 0 <= i < |items| ==> IsListed(written[i], dotted, items[i])
    ensures (forall i :: 0 <= i < |items| ==> check(items[i])) ==>
      NormalList(Join(Map(WrittenText, parts), ","), dotted, check) == Some(Join(items, ","))
    ensures (exists i :: 0 <= i < |items| && !check(items[i])) ==>
      NormalList(Join(Map(WrittenText, parts), ","), dotted, check) == None
  {
    ListReads(parts);
    assert ItemsOf(Join(Map(WrittenText, parts), ","), dotted) == items;
  }

  /** The same for a whole setting: a number or a switch reads the same from a form and from
      the environment, with whitespace around it. */
  lemma SettingExactly(kind: Kind, check: string -> bool, left: string, item: string, right: string, strip: bool)
    requires IsBlank(left) && IsBlank(right) && IsTrimmed(item) && '#' !in item && '"' !in item
    ensures var normal := Normalize(kind, check, left + item + right, strip);
      match kind
      case IntKind(min, max) => normal == NormalInt(item, min, max)
      case BoolKind => normal == NormalBool(item)
      case StrKind => normal == if check(item) then Some(item) else None
      case ListKind(dotted) => normal == NormalList(item, dotted, check)
      case TiersKind => normal.None? <==> Normalized(item).Err?
  {
    PlainReads(left, item, right);
    TrimPadded(left, item, right);
    TrimmedFixed(item);
  }

  /** A comment is cut off a value of the environment, but not off a posted one. */
  lemma CommentsOnlyInFiles(check: string -> bool, item: string, comment: string)
    requires IsTrimmed(item + "#" + comment) && IsTrimmed(item) && '#' !in item && '"' !in item
    ensures Normalize(StrKind, check, item + "#" + comment, true) == if check(item) then Some(item) else None
    ensures Normalize(StrKind, check, item + "#" + comment, false)
      == if check(item + "#" + comment) then Some(item + "#" + comment) else None
  {
    CommentLost(item, comment);
    TrimmedFixed(item);
    TrimmedFixed(item + "#" + comment);
  }

  lemma CommentLost(item: string, comment: string)
    requires IsTrimmed(item) && '#' !in item && '"' !in item
    ensures TextOf(item + "#" + comment, true) == item
  {
    CommentIsCut("", item, "", comment);
    assert "" + item + "" == item;
  }

  // --- Accepted values are trimmed -------------------------------------------------------

  /** An item of a list: trimmed, not empty, without a comma. */
  predicate IsItem(s: string) { s != "" && IsTrimmed(s) && ',' !in s }

  ghost predicate AllItems(items: seq<string>) { forall i :: 0 <= i < |items| ==> IsItem(items[i]) }

  lemma {:induction false} TrimAllItems(parts: seq<string>)
    requires forall i :: 0 <= i < |parts| ==> ',' !in parts[i]
    ensures AllItems(TrimAll(parts))
  {
    if parts != [] {
      TrimAllItems(parts[1..]);
      TrimIsTrimmed(parts[0]);
      TrimKeeps(parts[0], ',');
    }
  }

  lemma ItemsOfAreItems(value: string, dotted: bool)
    ensures AllItems(ItemsOf(value, dotted))
  {
    TrimAllItems(Split(value, ','));
    var items := ParseList(value);
    forall i | 0 <= i < |items| ensures IsItem(Dotted(items[i])) { DottedItem(items[i]); }
  }

  lemma DottedItem(item: string)
    requires IsItem(item)
    ensures IsItem(Dotted(item)) && Dotted(Dotted(item)) == Dotted(item)
  {
  }

  lemma {:induction false} JoinTrimmed(items: seq<string>)
    requires AllItems(items)
    ensures IsTrimmed(Join(items, ",")) && (items != [] ==> Join(items, ",") != "")
  {
    if |items| > 1 {
      JoinTrimmed(items[1..]);
      var rest := Join(items[1..], ",");
      assert IsItem(items[0]) && Join(items, ",") == items[0] + "," + rest;
    }
  }

  lemma ShowAllAreItems(tiers: seq<Tier>)
    requires AllTiers(tiers)
    ensures AllItems(ShowAll(tiers))
  {
    forall i | 0 <= i < |tiers| ensures IsItem(Show(tiers[i])) {
      ShowIsItem(tiers[i]);
      TrimIsTrimmed(Show(tiers[i]));
    }
  }

  lemma NormalTiersTrimmed(value: string)
    requires Normalized(value).Ok?
    ensures IsTrimmed(Normalized(value).value)
  {
    ReadPairsAreTiers(ParseList(value));
    ShowAllAreItems(ReadPairs(ParseList(value)).value);
    JoinTrimmed(ShowAll(ReadPairs(ParseList(value)).value));
  }

  lemma FormatIntTrimmed(n: int)
    ensures IsTrimmed(FormatInt(n))
  {
    var digits := Format(if n < 0 then -n else n);
    assert IsDigit(digits[0]) && IsDigit(digits[|digits| - 1]);
  }

  lemma NormalListTrimmed(value: string, dotted: bool, check: string -> bool)
    requires NormalList(value, dotted, check).Some?
    ensures IsTrimmed(NormalList(value, dotted, check).value)
  {
    ItemsOfAreItems(value, dotted);
    JoinTrimmed(ItemsOf(value, dotted));
  }

  lemma NormalIntTrimmed(value: string, min: Option<int>, max: Option<int>)
    requires NormalInt(value, min, max).Some?
    ensures IsTrimmed(NormalInt(value, min, max).value)
  {
    FormatIntTrimmed(ParseSigned(Trim(value), I64_MIN, I64_MAX).value);
  }

  lemma NormalBoolTrimmed(value: string)
    requires NormalBool(value).Some?
    ensures IsTrimmed(NormalBool(value).value)
  {
  }

  /** Whatever is posted or found in the environment, an accepted value is trimmed. */
  lemma AcceptedIsTrimmed(kind: Kind, check: string -> bool, value: string, stripComments: bool)
    requires Normalize(kind, check, value, stripComments).Some?
    ensures IsTrimmed(Normalize(kind, check, value, stripComments).value)
  {
    var text := TextOf(value, stripComments);
    match kind {
      case IntKind(min, max) => NormalIntTrimmed(text, min, max);
      case BoolKind => NormalBoolTrimmed(text);
      case StrKind => TrimIsTrimmed(text);
      case ListKind(dotted) => NormalListTrimmed(text, dotted, check);
      case TiersKind => NormalTiersTrimmed(text);
    }
  }

  // --- Accepted values are accepted again ------------------------------------------------

  lemma {:induction false} TrimAllFixed(items: seq<string>)
    requires AllItems(items)
    ensures TrimAll(items) == items
  {
    if items != [] {
      TrimAllFixed(items[1..]);
      assert IsItem(items[0]);
      TrimmedFixed(items[0]);
      assert items == [items[0]] + items[1..];
    }
  }

  lemma ItemsRead(items: seq<string>)
    requires AllItems(items)
    ensures ParseList(Join(items, ",")) == items
  {
    if items == [] {
      assert Split("", ',') == [""] && [""][1..] == [] && Trim("") == "";
    } else {
      forall i | 0 <= i < |items| ensures ',' !in items[i] { assert IsItem(items[i]); }
      SplitJoin(items, ',');
      TrimAllFixed(items);
    }
  }

  lemma NormalListAgain(value: string, dotted: bool, check: string -> bool)
    requires NormalList(value, dotted, check).Some?
    ensures NormalList(NormalList(value, dotted, check).value, dotted, check) == NormalList(value, dotted, check)
  {
    var items := ItemsOf(value, dotted);
    ItemsOfAreItems(value, dotted);
    ItemsRead(items);
    if dotted {
      TrimAllItems(Split(value, ','));
      forall i | 0 <= i < |items| ensures Dotted(items[i]) == items[i] { DottedItem(ParseList(value)[i]); }
      assert Map(Dotted, items) == items;
    }
  }

  lemma NormalIntAgain(value: string, min: Option<int>, max: Option<int>)
    requires NormalInt(value, min, max).Some?
    ensures NormalInt(NormalInt(value, min, max).value, min, max) == NormalInt(value, min, max)
  {
    var n := ParseSigned(Trim(value), I64_MIN, I64_MAX).value;
    FormatIntTrimmed(n);
    TrimmedFixed(FormatInt(n));
    ParseFormatInt(n, I64_MIN, I64_MAX);
  }

  lemma LowerTrue()
    ensures Lower(Trim("true")) == "true"
  {
    TrimmedFixed("true");
    assert Lower("true") == "true";
  }

  lemma LowerFalse()
    ensures Lower(Trim("false")) == "false"
  {
    TrimmedFixed("false");
    assert Lower("false") == "false";
  }

  lemma NormalBoolAgain(value: string)
    requires NormalBool(value).Some?
    ensures NormalBool(NormalBool(value).value) == NormalBool(value)
  {
    LowerTrue();
    LowerFalse();
  }

  /** Posting an accepted value again changes nothing. */
  lemma AcceptedAgain(kind: Kind, check: string -> bool, value: string, stripComments: bool)
    requires Normalize(kind, check, value, stripComments).Some?
    ensures var v := Normalize(kind, check, value, stripComments).value; Normalize(kind, check, v, false) == Some(v)
  {
    var text := TextOf(value, stripComments);
    AcceptedIsTrimmed(kind, check, value, stripComments);
    TrimmedFixed(Normalize(kind, check, value, stripComments).value);
    match kind {
      case IntKind(min, max) => NormalIntAgain(text, min, max);
      case BoolKind => NormalBoolAgain(text);
      case StrKind =>
      case ListKind(dotted) => NormalListAgain(text, dotted, check);
      case TiersKind => NormalFormReads(text);
    }
  }

  // --- Through the env file --------------------------------------------------------------

  /** What the callers of the writer pass: an accepted setting, or a JSON text, which holds
      a quote. */
  ghost predicate Passed(v: string) {
    '"' in v || exists kind, check, value, strip :: Normalize(kind, check, value, strip) == Some(v)
  }

  /** Every value the callers pass to the writer reads back as itself. */
  lemma PassedSurvives(existing: string, env: map<string, string>, order: seq<string>, key: string)
    requires Writable(env) && IsOrder(order, env) && key in env && Passed(env[key])
    ensures Lookup(Lines(Terminate(Join(NewLines(Lines(existing), env, order), "\n"))), key) == Some(env[key])
  {
    if '"' !in env[key] {
      var kind, check, value, strip :| Normalize(kind, check, value, strip) == Some(env[key]);
      AcceptedIsTrimmed(kind, check, value, strip);
    }
    SettingSurvives(existing, env, order, key);
  }
}
