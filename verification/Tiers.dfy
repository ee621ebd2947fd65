/** Adaptive-bitrate tiers: the setting's text form, and the tiers chosen for a source. */
module Tiers {
  import opened Options
  import opened Text
  import opened Decimal
  import opened Folds
  import opened Sorting

  // --- The setting's text ------------------------------------------------------------

  function TrimAll(parts: seq<string>): seq<string> {
    if parts == [] then []
    else (if Trim(parts[0]) == "" then [] else [Trim(parts[0])]) + TrimAll(parts[1..])
  }

  /** `parse_list`: comma-separated, trimmed, without empty items. */
  function ParseList(value: string): seq<string> { TrimAll(Split(value, ',')) }

  /** An item of a list as it is written: with whitespace around it, or nothing but that. */
  datatype Written = Written(left: string, item: string, right: string)

  ghost predicate IsWritten(w: Written) {
    IsBlank(w.left) && IsBlank(w.right) && IsTrimmed(w.item) && ',' !in w.item
  }

  function WrittenText(w: Written): string { w.left + w.item + w.right }

  function ItemOf(w: Written): Option<string> { if w.item == "" then None else Some(w.item) }

  lemma {:induction false} TrimAllReads(parts: seq<Written>)
    requires forall i :: 0 <= i < |parts| ==> IsWritten(parts[i])
    ensures TrimAll(Map(WrittenText, parts)) == Keep(ItemOf, parts)
  {
    if parts != [] {
      var w := parts[0];
      assert IsWritten(w);
      TrimAllReads(parts[1..]);
      TrimPadded(w.left, w.item, w.right);
      assert Map(WrittenText, parts)[1..] == Map(WrittenText, parts[1..]);
    }
  }

  lemma NoComma(w: Written)
    requires IsWritten(w)
    ensures ',' !in WrittenText(w)
  {
    assert !IsWhitespace(',');
  }

  /** A list is read item by item, in order: whitespace around the items and blank items do
      not matter. */
  lemma ListReads(parts: seq<Written>)
    requires parts != [] && forall i :: 0 <= i < |parts| ==> IsWritten(parts[i])
    ensures ParseList(Join(Map(WrittenText, parts), ",")) == Keep(ItemOf, parts)
  {
    var texts := Map(WrittenText, parts);
    forall i | 0 <= i < |texts| ensures ',' !in texts[i] { NoComma(parts[i]); }
    SplitJoin(texts, ',');
    TrimAllReads(parts);
  }

  predicate IsUnit(c: char) { c in "kKmMgG" }

  /** A decimal number, with digits on both sides of a point if it has one. */
  predicate IsNumber(s: string) {
    match SplitOnce(s, '.')
    case None => s != "" && AllDigits(s)
    case Some((whole, fraction)) => whole != "" && AllDigits(whole) && fraction != "" && AllDigits(fraction)
  }

  predicate IsBitrateText(s: string) {
    s != "" && IsUnit(s[|s| - 1]) && IsNumber(s[..|s| - 1])
  }

  /** What the counters of `is_bitrate` have seen of a number. */
  ghost predicate Counted(s: string, dots: nat, before: nat, after: nat) {
    && (dots == 0 ==> AllDigits(s) && before == |s| && after == 0)
    && (dots > 0 ==> dots == 1 && before + 1 + after == |s| && before < |s| && s[before] == '.'
                     && AllDigits(s[..before]) && AllDigits(s[before + 1..]))
  }

  lemma CountedNumber(s: string, dots: nat, before: nat, after: nat)
    requires Counted(s, dots, before, after)
    ensures IsNumber(s) <==> before > 0 && (dots == 0 || after > 0)
  {
    if dots > 0 {
      var whole, fraction := s[..before], s[before + 1..];
      assert s == whole + ['.'] + fraction;
      assert '.' !in whole;
      SplitOnceAt(whole, '.', fraction);
    }
  }

  /** A bad character, or a second point, anywhere in a text spoils it. */
  lemma NotNumber(s: string, i: nat)
    requires i < |s|
    requires (!IsDigit(s[i]) && s[i] != '.') || (s[i] == '.' && exists j :: 0 <= j < i && s[j] == '.')
    ensures !IsNumber(s)
  {
    match SplitOnce(s, '.')
    case None =>
    case Some((whole, fraction)) =>
      assert s[|whole|] == '.';
      if i < |whole| { assert whole[i] == s[i]; }
      if i > |whole| { assert fraction[i - |whole| - 1] == s[i]; }
  }

  lemma CountedStep(s: string, c: char, dots: nat, before: nat, after: nat)
    requires Counted(s, dots, before, after)
    ensures IsDigit(c) && dots == 0 ==> Counted(s + [c], 0, before + 1, 0)
    ensures IsDigit(c) && dots > 0 ==> Counted(s + [c], dots, before, after + 1)
    ensures c == '.' && dots == 0 ==> Counted(s + [c], 1, before, 0)
  {
    var t := s + [c];
    if IsDigit(c) && dots > 0 {
      assert t[..before] == s[..before];
      assert t[before + 1..] == s[before + 1..] + [c];
    }
    if c == '.' && dots == 0 {
      assert t[..before] == s && t[before + 1..] == "";
    }
  }

  /** `is_bitrate`. */
  method IsBitrate(value: string) returns (r: bool)
    ensures r == IsBitrateText(value)
  {
    if value == "" { return false; }
    var unit := value[|value| - 1];
    if !IsUnit(unit) { return false; }
    var number := value[..|value| - 1];
    if number == "" { return false; }
    var dotCount, digitsBeforeDot, digitsAfterDot := 0, 0, 0;
    for i := 0 to |number|
      invariant dotCount >= 0 && digitsBeforeDot >= 0 && digitsAfterDot >= 0
      invariant Counted(number[..i], dotCount, digitsBeforeDot, digitsAfterDot)
    {
      var b := number[i];
      assert number[..i + 1] == number[..i] + [b];
      CountedStep(number[..i], b, dotCount, digitsBeforeDot, digitsAfterDot);
      if b == '.' {
        dotCount := dotCount + 1;
        if dotCount > 1 {
          assert number[digitsBeforeDot] == number[..i][digitsBeforeDot];
          NotNumber(number, i);
          return false;
        }
      } else if !IsDigit(b) {
        NotNumber(number, i);
        return false;
      } else if dotCount > 0 {
        digitsAfterDot := digitsAfterDot + 1;
      } else {
        digitsBeforeDot := digitsBeforeDot + 1;
      }
    }
    assert number[..|number|] == number;
    CountedNumber(number, dotCount, digitsBeforeDot, digitsAfterDot);
    return digitsBeforeDot > 0 && (dotCount == 0 || digitsAfterDot > 0);
  }

  ghost predicate IsDigits(s: string) { s != "" && forall i :: 0 <= i < |s| ==> '0' <= s[i] <= '9' }

  ghost predicate IsDecimal(s: string) {
    IsDigits(s) || exists whole, fraction :: IsDigits(whole) && IsDigits(fraction) && s == whole + "." + fraction
  }

  /** A bitrate is a decimal number with one letter behind it that stands for a factor. */
  lemma BitrateExactly(s: string)
    ensures IsBitrateText(s) <==>
      s != "" && IsDecimal(s[..|s| - 1])
      && var unit := s[|s| - 1]; unit in {'k', 'm', 'g', 'K', 'M', 'G'}
  {
    if s != "" {
      var number, unit := s[..|s| - 1], s[|s| - 1];
      UnitExactly(unit);
      NumberExactly(number);
    }
  }

  lemma UnitExactly(c: char)
    ensures IsUnit(c) <==> c in {'k', 'm', 'g', 'K', 'M', 'G'}
  {
    assert "kKmMgG" == ['k', 'K', 'm', 'M', 'g', 'G'];
  }

  lemma NumberExactly(s: string)
    ensures IsNumber(s) <==> IsDecimal(s)
  {
    match SplitOnce(s, '.')
    case None =>
      forall whole, fraction ensures s != whole + "." + fraction {
        assert '.' in whole + "." + fraction by { assert (whole + "." + fraction)[|whole|] == '.'; }
      }
    case Some((a, b)) =>
      assert s[|a|] == '.' && s == a + "." + b;
      assert IsNumber(s) <==> IsDigits(a) && IsDigits(b);
      assert !IsDigits(s);
      forall whole, fraction | IsDigits(whole) && IsDigits(fraction) && s == whole + "." + fraction
        ensures whole == a && fraction == b
      {
        assert s == whole + ['.'] + fraction && '.' !in whole;
        SplitOnceAt(whole, '.', fraction);
      }
  }

  datatype Tier = Tier(height: int, bitrate: string)

  datatype TierError = InvalidPair(pair: string) | InvalidHeight | ZeroHeight | InvalidBitrate(bitrate: string) | NoTier

  function ReadPair(pair: string): Result<Tier, TierError> {
    match SplitOnce(pair, ':')
    case None => Err(InvalidPair(pair))
    case Some((height, bitrate)) =>
      match ParseUnsigned(Trim(height), U32_MAX)
      case None => Err(InvalidHeight)
      case Some(h) =>
        if h == 0 then Err(ZeroHeight)
        else if !IsBitrateText(Trim(bitrate)) then Err(InvalidBitrate(Trim(bitrate)))
        else Ok(Tier(h, Trim(bitrate)))
  }

  /** The validated pairs, or the first error. */
  function ReadPairs(items: seq<string>): Result<seq<Tier>, TierError> { Collect(ReadPair, items) }

  function Show(t: Tier): string { FormatInt(t.height) + ":" + t.bitrate }

  function ShowAll(tiers: seq<Tier>): seq<string> { Map(Show, tiers) }

  function Normalized(value: string): Result<string, TierError> {
    match ReadPairs(ParseList(value))
    case Err(e) => Err(e)
    case Ok(tiers) => if tiers == [] then Err(NoTier) else Ok(Join(ShowAll(tiers), ","))
  }

  method NormalizePair(pair: string) returns (r: Result<string, TierError>)
    ensures match ReadPair(pair)
      case Ok(t) => r == Ok(Show(t))
      case Err(e) => r == Err(e)
  {
    var split := SplitOnce(pair, ':');
    if split.None? { return Err(InvalidPair(pair)); }
    var height := ParseUnsigned(Trim(split.value.0), U32_MAX);
    if height.None? { return Err(InvalidHeight); }
    if height.value == 0 { return Err(ZeroHeight); }
    var bitrate := Trim(split.value.1);
    var good := IsBitrate(bitrate);
    if !good { return Err(InvalidBitrate(bitrate)); }
    return Ok(Format(height.value) + ":" + bitrate);
  }

  /** What is left to read completes what has been written. */
  ghost predicate Completes(whole: Result<seq<Tier>, TierError>, pairs: seq<string>,
                            rest: Result<seq<Tier>, TierError>) {
    match rest
    case Err(e) => whole == Err(e)
    case Ok(tiers) => whole.Ok? && ShowAll(whole.value) == pairs + ShowAll(tiers)
  }

  lemma CompletesStep(whole: Result<seq<Tier>, TierError>, pairs: seq<string>, one: Result<Tier, TierError>,
                      rest: Result<seq<Tier>, TierError>)
    requires Completes(whole, pairs, Prepend(one, rest))
    ensures one.Err? ==> whole == Err(one.error)
    ensures one.Ok? ==> Completes(whole, pairs + [Show(one.value)], rest)
  {
    if one.Ok? && rest.Ok? {
      assert ([one.value] + rest.value)[1..] == rest.value;
      assert pairs + ([Show(one.value)] + ShowAll(rest.value)) == (pairs + [Show(one.value)]) + ShowAll(rest.value);
    }
  }

  /** `normalize_tiers`. */
  method NormalizeTiers(value: string) returns (r: Result<string, TierError>)
    ensures r == Normalized(value)
  {
    var items := ParseList(value);
    var pairs: seq<string> := [];
    assert items[0..] == items;
    for i := 0 to |items|
      invariant |pairs| == i
      invariant Completes(ReadPairs(items), pairs, ReadPairs(items[i..]))
    {
      assert items[i..][1..] == items[i + 1..];
      CompletesStep(ReadPairs(items), pairs, ReadPair(items[i]), ReadPairs(items[i + 1..]));
      var shown := NormalizePair(items[i]);
      if shown.Err? { return Err(shown.error); }
      pairs := pairs + [shown.value];
    }
    assert items[|items|..] == [] && pairs + [] == pairs;
    if pairs == [] { return Err(NoTier); }
    return Ok(Join(pairs, ","));
  }

  /** One item of `parse_tiers_in_order`. */
  function ParseTier(pair: string): Option<Tier> {
    match SplitOnce(pair, ':')
    case None => None
    case Some((height, bitrate)) =>
      match ParseSigned(Trim(height), I64_MIN, I64_MAX)
      case None => None
      case Some(h) => Some(Tier(h, Trim(bitrate)))
  }

  /** `parse_tiers_in_order`. */
  function ParseTiersInOrder(raw: string): seq<Tier> { Keep(ParseTier, Split(raw, ',')) }

  // --- Normal form -------------------------------------------------------------------

  predicate IsTier(t: Tier) {
    0 < t.height <= U32_MAX && IsBitrateText(t.bitrate) && IsTrimmed(t.bitrate)
  }

  ghost predicate AllTiers(tiers: seq<Tier>) { forall i :: 0 <= i < |tiers| ==> IsTier(tiers[i]) }

  lemma {:induction false} ReadPairsAreTiers(items: seq<string>)
    requires ReadPairs(items).Ok?
    ensures AllTiers(ReadPairs(items).value)
  {
    if items != [] {
      ReadPairsAreTiers(items[1..]);
      TrimIsTrimmed(SplitOnce(items[0], ':').value.1);
    }
  }

  lemma BitrateHasNo(s: string, c: char)
    requires IsBitrateText(s) && !IsDigit(c) && c != '.' && !IsUnit(c)
    ensures c !in s
  {
    var number := s[..|s| - 1];
    assert s == number + [s[|s| - 1]];
  }

  lemma ShowSplits(t: Tier)
    requires IsTier(t)
    ensures SplitOnce(Show(t), ':') == Some((Format(t.height), t.bitrate))
  {
    DigitsHaveNo(Format(t.height), ':');
    SplitOnceAt(Format(t.height), ':', t.bitrate);
    assert Show(t) == Format(t.height) + [':'] + t.bitrate;
  }

  lemma PartsTrimmed(t: Tier)
    requires IsTier(t)
    ensures Trim(Format(t.height)) == Format(t.height) && Trim(t.bitrate) == t.bitrate
  {
    TrimmedFixed(Format(t.height));
    TrimmedFixed(t.bitrate);
  }

  lemma ShowIsItem(t: Tier)
    requires IsTier(t)
    ensures ',' !in Show(t) && Show(t) != "" && Trim(Show(t)) == Show(t)
  {
    DigitsHaveNo(Format(t.height), ',');
    BitrateHasNo(t.bitrate, ',');
    assert Show(t)[|Show(t)| - 1] == t.bitrate[|t.bitrate| - 1];
    TrimmedFixed(Show(t));
  }

  /** A shown tier reads back under both readers. */
  lemma ShowReads(t: Tier)
    requires IsTier(t)
    ensures ReadPair(Show(t)) == Ok(t) && ParseTier(Show(t)) == Some(t)
  {
    ShowSplits(t);
    PartsTrimmed(t);
    ParseFormat(t.height, U32_MAX, I64_MIN);
    ParseFormat(t.height, I64_MAX, I64_MIN);
  }

  lemma ShowAllReads(tiers: seq<Tier>)
    requires AllTiers(tiers)
    ensures ReadPairs(ShowAll(tiers)) == Ok(tiers)
    ensures Keep(ParseTier, ShowAll(tiers)) == tiers
  {
    forall i | 0 <= i < |tiers|
      ensures ReadPair(Show(tiers[i])) == Ok(tiers[i]) && ParseTier(Show(tiers[i])) == Some(tiers[i])
    {
      ShowReads(tiers[i]);
    }
    CollectMap(ReadPair, Show, tiers);
    KeepMap(ParseTier, Show, tiers);
  }

  lemma {:induction false} ShowAllItems(tiers: seq<Tier>)
    requires AllTiers(tiers)
    ensures TrimAll(ShowAll(tiers)) == ShowAll(tiers)
    ensures forall i :: 0 <= i < |tiers| ==> ',' !in ShowAll(tiers)[i]
  {
    if tiers != [] {
      assert AllTiers(tiers[1..]);
      ShowAllItems(tiers[1..]);
      ShowIsItem(tiers[0]);
    }
  }

  /** The normal form of a setting is its own normal form, and reading it in order gives
      back exactly the validated pairs. */
  lemma NormalFormReads(value: string)
    requires Normalized(value).Ok?
    ensures Normalized(Normalized(value).value) == Normalized(value)
    ensures ReadPairs(ParseList(value)) == Ok(ParseTiersInOrder(Normalized(value).value))
  {
    var tiers := ReadPairs(ParseList(value)).value;
    ReadPairsAreTiers(ParseList(value));
    ShowAllReads(tiers);
    ShowAllItems(tiers);
    SplitJoin(ShowAll(tiers), ',');
  }

  // --- Choosing tiers ----------------------------------------------------------------

  datatype Config = Config(
    abrEnabled: bool,
    virtualAbrTiers: bool,
    enableCopyMode: bool,
    abrTiers: string,
    tier0Bitrates: string,
    tier0BitrateDefault: string)

  datatype VideoTier = VideoTier(index: nat, height: int, bitrate: string, copy: bool)

  predicate Taller(x: Tier, y: Tier) { x.height >= y.height }

  /** `parse_tiers`: the configured pairs from the tallest down. */
  function ParseTiers(raw: string): seq<Tier> { StableSort(ParseTiersInOrder(raw), Taller) }

  /** The tier `tier0_bitrate` should choose: of the tallest that are not above the
      source, the one listed first. */
  ghost predicate IsChoice(tiers: seq<Tier>, source: int, choice: Option<Tier>) {
    match choice
    case None => forall i :: 0 <= i < |tiers| ==> tiers[i].height > source
    case Some(t) =>
      && t.height <= source
      && (forall i :: 0 <= i < |tiers| && tiers[i].height <= source ==> tiers[i].height <= t.height)
      && Ties(tiers, t, Taller) != [] && Ties(tiers, t, Taller)[0] == t
  }

  lemma {:induction false} TiesSnoc(tiers: seq<Tier>, e: Tier, x: Tier)
    ensures Ties(tiers + [e], x, Taller) == Ties(tiers, x, Taller) + (if e.height == x.height then [e] else [])
  {
    var all := tiers + [e];
    if tiers == [] {
      assert all[1..] == [];
    } else {
      TiesSnoc(tiers[1..], e, x);
      assert all[1..] == tiers[1..] + [e] && all[0] == tiers[0];
      Associate(if Tie(tiers[0], x, Taller) then [tiers[0]] else [], Ties(tiers[1..], x, Taller),
                if e.height == x.height then [e] else []);
    }
  }

  lemma {:induction false} NoTies(tiers: seq<Tier>, x: Tier)
    requires forall i :: 0 <= i < |tiers| ==> tiers[i].height != x.height
    ensures Ties(tiers, x, Taller) == []
  {
    if tiers != [] { NoTies(tiers[1..], x); }
  }

  lemma ChoiceStep(tiers: seq<Tier>, e: Tier, source: int, choice: Option<Tier>)
    requires IsChoice(tiers, source, choice)
    ensures IsChoice(tiers + [e], source,
      if e.height <= source && (choice.None? || e.height > choice.value.height) then Some(e) else choice)
  {
    if e.height <= source && (choice.None? || e.height > choice.value.height) {
      NoTies(tiers, e);
      TiesSnoc(tiers, e, e);
    } else if choice.Some? {
      TiesSnoc(tiers, e, choice.value);
    }
  }

  lemma TallerIsTotalPreorder()
    ensures TotalPreorder(Taller)
  {
  }

  /** Sorting first, as the code does, changes nothing: the sort is stable. */
  lemma ChoiceOfSorted(tiers: seq<Tier>, source: int, choice: Option<Tier>)
    requires IsChoice(StableSort(tiers, Taller), source, choice)
    ensures IsChoice(tiers, source, choice)
  {
    TallerIsTotalPreorder();
    var sorted := StableSort(tiers, Taller);
    StableSortCorrect(tiers, Taller);
    if choice.Some? { StableSortStable(tiers, choice.value, Taller); }
    forall i | 0 <= i < |tiers| ensures exists j :: 0 <= j < |sorted| && sorted[j] == tiers[i] {
      assert tiers[i] in multiset(sorted);
    }
  }

  /** There is only one such tier. */
  lemma ChoiceUnique(tiers: seq<Tier>, source: int, a: Option<Tier>, b: Option<Tier>)
    requires IsChoice(tiers, source, a) && IsChoice(tiers, source, b)
    ensures a == b
  {
    if a.Some? { ChoiceListed(tiers, a.value); }
    if b.Some? { ChoiceListed(tiers, b.value); }
    if a.Some? && b.Some? { SameTies(tiers, a.value, b.value); }
  }

  lemma {:induction false} ChoiceListed(tiers: seq<Tier>, t: Tier)
    requires Ties(tiers, t, Taller) != []
    ensures exists i :: 0 <= i < |tiers| && tiers[i].height == t.height
  {
    if !Tie(tiers[0], t, Taller) {
      ChoiceListed(tiers[1..], t);
      var i :| 0 <= i < |tiers[1..]| && tiers[1..][i].height == t.height;
      assert tiers[i + 1].height == t.height;
    }
  }

  lemma {:induction false} SameTies(tiers: seq<Tier>, x: Tier, y: Tier)
    ensures x.height == y.height ==> Ties(tiers, x, Taller) == Ties(tiers, y, Taller)
  {
    if tiers != [] { SameTies(tiers[1..], x, y); }
  }

  ghost predicate IsTier0Bitrate(cfg: Config, source: int, bitrate: string) {
    exists choice ::
      && IsChoice(ParseTiersInOrder(cfg.tier0Bitrates), source, choice)
      && bitrate == (if choice.Some? then choice.value.bitrate else cfg.tier0BitrateDefault)
  }

  /** `tier0_bitrate`. */
  method Tier0Bitrate(cfg: Config, source: int) returns (bitrate: string)
    ensures IsTier0Bitrate(cfg, source, bitrate)
  {
    var tiers := ParseTiers(cfg.tier0Bitrates);
    var selected: Option<Tier> := None;
    for i := 0 to |tiers|
      invariant IsChoice(tiers[..i], source, selected)
    {
      ChoiceStep(tiers[..i], tiers[i], source, selected);
      assert tiers[..i + 1] == tiers[..i] + [tiers[i]];
      if tiers[i].height <= source && (selected.None? || tiers[i].height > selected.value.height) {
        selected := Some(tiers[i]);
      }
    }
    assert tiers[..|tiers|] == tiers;
    ChoiceOfSorted(ParseTiersInOrder(cfg.tier0Bitrates), source, selected);
    bitrate := if selected.Some? then selected.value.bitrate else cfg.tier0BitrateDefault;
  }

  /** A pair as it may be written: whitespace around the height and around the bitrate. */
  ghost predicate IsPairText(pair: string, height: string, bitrate: string) {
    exists a: Written, b: Written ::
      IsWritten(a) && IsWritten(b) && a.item == height && b.item == bitrate && ':' !in height
      && pair == WrittenText(a) + ":" + WrittenText(b)
  }

  lemma PairSplits(pair: string, height: string, bitrate: string)
    requires IsPairText(pair, height, bitrate)
    ensures SplitOnce(pair, ':').Some?
    ensures Trim(SplitOnce(pair, ':').value.0) == height && Trim(SplitOnce(pair, ':').value.1) == bitrate
  {
    var a: Written, b: Written :|
      IsWritten(a) && IsWritten(b) && a.item == height && b.item == bitrate && ':' !in height
      && pair == WrittenText(a) + ":" + WrittenText(b);
    NoColon(a);
    assert pair == WrittenText(a) + [':'] + WrittenText(b);
    SplitOnceAt(WrittenText(a), ':', WrittenText(b));
    TrimPadded(a.left, a.item, a.right);
    TrimPadded(b.left, b.item, b.right);
  }

  lemma NoColon(w: Written)
    requires IsWritten(w) && ':' !in w.item
    ensures ':' !in WrittenText(w)
  {
    assert !IsWhitespace(':');
  }

  /** How a pair is read, strictly when a setting is saved and leniently when it is used: the
      height must be a positive 32-bit number and the bitrate a bitrate, or the first of the
      two that is not is reported; without a colon there is no pair. */
  lemma PairReads(pair: string, height: int, bitrate: string)
    requires IsPairText(pair, FormatInt(height), bitrate)
    ensures height < 0 || height > 0xFFFF_FFFF ==> ReadPair(pair) == Err(InvalidHeight)
    ensures height == 0 ==> ReadPair(pair) == Err(ZeroHeight)
    ensures 0 < height <= 0xFFFF_FFFF && !IsBitrateText(bitrate) ==> ReadPair(pair) == Err(InvalidBitrate(bitrate))
    ensures 0 < height <= 0xFFFF_FFFF && IsBitrateText(bitrate) ==> ReadPair(pair) == Ok(Tier(height, bitrate))
    ensures I64_MIN <= height <= I64_MAX ==> ParseTier(pair) == Some(Tier(height, bitrate))
  {
    PairSplits(pair, FormatInt(height), bitrate);
    if height >= 0 { FormatValue(height); }
    if I64_MIN <= height <= I64_MAX { ParseFormatInt(height, I64_MIN, I64_MAX); }
  }

  lemma NoPair(pair: string)
    requires ':' !in pair
    ensures ReadPair(pair) == Err(InvalidPair(pair)) && ParseTier(pair) == None
  {
  }

  predicate Copies(cfg: Config, codec: string) { cfg.enableCopyMode && codec in ["h264", "hevc"] }

  predicate Includes(copy: bool, source: int, t: Tier) { if copy then t.height < source else t.height <= source }

  function Included(tiers: seq<Tier>, copy: bool, source: int): seq<Tier> {
    if tiers == [] then []
    else
      Included(tiers[..|tiers| - 1], copy, source)
      + (if Includes(copy, source, tiers[|tiers| - 1]) then [tiers[|tiers| - 1]] else [])
  }

  /** The tiers below the first, numbered from one. */
  function Rows(tiers: seq<Tier>): (r: seq<VideoTier>)
    ensures |r| == |tiers|
  {
    seq(|tiers|, i requires 0 <= i < |tiers| => VideoTier(i + 1, tiers[i].height, tiers[i].bitrate, false))
  }

  function Below(cfg: Config, codec: string, source: int, raw: string): seq<Tier> {
    if cfg.abrEnabled && !cfg.virtualAbrTiers then Included(ParseTiers(raw), Copies(cfg, codec), source) else []
  }

  ghost predicate IsSelection(cfg: Config, codec: string, source: int, raw: string, tiers: seq<VideoTier>) {
    && |tiers| > 0
    && tiers[0].index == 0 && tiers[0].height == source && tiers[0].copy == Copies(cfg, codec)
    && (if Copies(cfg, codec) then tiers[0].bitrate == "copy" else IsTier0Bitrate(cfg, source, tiers[0].bitrate))
    && tiers[1..] == Rows(Below(cfg, codec, source, raw))
  }

  method FirstTier(cfg: Config, codec: string, source: int) returns (t: VideoTier)
    ensures t.index == 0 && t.height == source && t.copy == Copies(cfg, codec)
    ensures if Copies(cfg, codec) then t.bitrate == "copy" else IsTier0Bitrate(cfg, source, t.bitrate)
  {
    var copyTier0 := cfg.enableCopyMode && codec in ["h264", "hevc"];
    if copyTier0 { return VideoTier(0, source, "copy", true); }
    var bitrate := Tier0Bitrate(cfg, source);
    return VideoTier(0, source, bitrate, false);
  }

  lemma RowsSnoc(tiers: seq<Tier>, t: Tier)
    ensures Rows(tiers + [t]) == Rows(tiers) + [VideoTier(|tiers| + 1, t.height, t.bitrate, false)]
  {
  }

  method PushTiers(first: VideoTier, raw: string, source: int, copyTier0: bool) returns (tiers: seq<VideoTier>)
    ensures tiers == [first] + Rows(Included(ParseTiers(raw), copyTier0, source))
  {
    tiers := [first];
    var parsed := ParseTiers(raw);
    for i := 0 to |parsed|
      invariant tiers == [first] + Rows(Included(parsed[..i], copyTier0, source))
    {
      assert parsed[..i + 1][..i] == parsed[..i];
      RowsSnoc(Included(parsed[..i], copyTier0, source), parsed[i]);
      var fits := if copyTier0 then parsed[i].height < source else parsed[i].height <= source;
      if fits { tiers := tiers + [VideoTier(|tiers|, parsed[i].height, parsed[i].bitrate, false)]; }
    }
    assert parsed[..|parsed|] == parsed;
  }

  /** `select_video_tiers`. */
  method SelectVideoTiers(cfg: Config, codec: string, source: int) returns (tiers: seq<VideoTier>)
    ensures IsSelection(cfg, codec, source, cfg.abrTiers, tiers)
    ensures tiers[0].copy <==> cfg.enableCopyMode && (codec == "h264" || codec == "hevc")
    ensures !cfg.abrEnabled || cfg.virtualAbrTiers ==> |tiers| == 1
  {
    var effectiveAbr := cfg.abrEnabled && !cfg.virtualAbrTiers;
    var first := FirstTier(cfg, codec, source);
    tiers := [first];
    if effectiveAbr { tiers := PushTiers(first, cfg.abrTiers, source, first.copy); }
  }

  /** `select_video_tiers_with`. */
  method SelectVideoTiersWith(cfg: Config, codec: string, source: int, tiersRaw: string) returns (tiers: seq<VideoTier>)
    ensures IsSelection(cfg, codec, source, tiersRaw, tiers)
    ensures tiers[0].copy <==> cfg.enableCopyMode && (codec == "h264" || codec == "hevc")
    ensures !cfg.abrEnabled || cfg.virtualAbrTiers ==> |tiers| == 1
  {
    var first := FirstTier(cfg, codec, source);
    tiers := [first];
    if cfg.abrEnabled && !cfg.virtualAbrTiers { tiers := PushTiers(first, tiersRaw, source, first.copy); }
  }

  // --- What a selection looks like ---------------------------------------------------

  lemma Tier0BitrateUnique(cfg: Config, source: int, a: string, b: string)
    requires IsTier0Bitrate(cfg, source, a) && IsTier0Bitrate(cfg, source, b)
    ensures a == b
  {
    var listed := ParseTiersInOrder(cfg.tier0Bitrates);
    var x :| IsChoice(listed, source, x) && a == if x.Some? then x.value.bitrate else cfg.tier0BitrateDefault;
    var y :| IsChoice(listed, source, y) && b == if y.Some? then y.value.bitrate else cfg.tier0BitrateDefault;
    ChoiceUnique(listed, source, x, y);
  }

  /** The two selectors agree on the same tier string. */
  lemma SelectionsAgree(cfg: Config, codec: string, source: int, raw: string, a: seq<VideoTier>, b: seq<VideoTier>)
    requires IsSelection(cfg, codec, source, raw, a) && IsSelection(cfg, codec, source, raw, b)
    ensures a == b
  {
    if !Copies(cfg, codec) { Tier0BitrateUnique(cfg, source, a[0].bitrate, b[0].bitrate); }
    assert a == [a[0]] + a[1..] && b == [b[0]] + b[1..];
  }

  lemma {:induction false} IncludedMultiset(tiers: seq<Tier>, copy: bool, source: int, t: Tier)
    ensures multiset(Included(tiers, copy, source))[t] == if Includes(copy, source, t) then multiset(tiers)[t] else 0
  {
    if tiers != [] {
      var init := tiers[..|tiers| - 1];
      IncludedMultiset(init, copy, source, t);
      assert tiers == init + [tiers[|tiers| - 1]];
    }
  }

  ghost predicate Descends(tiers: seq<Tier>) {
    forall i, j :: 0 <= i < j < |tiers| ==> tiers[i].height >= tiers[j].height
  }

  lemma {:induction false} IncludedDescends(tiers: seq<Tier>, copy: bool, source: int)
    requires Descends(tiers)
    ensures Descends(Included(tiers, copy, source))
    ensures forall i :: 0 <= i < |Included(tiers, copy, source)| ==>
      Includes(copy, source, Included(tiers, copy, source)[i]) && Included(tiers, copy, source)[i] in tiers
  {
    if tiers != [] {
      var init, last := tiers[..|tiers| - 1], tiers[|tiers| - 1];
      IncludedDescends(init, copy, source);
      assert tiers == init + [last];
    }
  }

  ghost predicate WellOrdered(tiers: seq<VideoTier>, source: int, copy: bool) {
    && (forall i :: 0 <= i < |tiers| ==> tiers[i].index == i)
    && (forall i, j :: 0 <= i < j < |tiers| ==> tiers[i].height >= tiers[j].height)
    && (forall i :: 1 <= i < |tiers| ==>
          !tiers[i].copy && (if copy then tiers[i].height < source else tiers[i].height <= source))
  }

  lemma ParsedDescends(raw: string)
    ensures Descends(ParseTiers(raw))
  {
    TallerIsTotalPreorder();
    StableSortCorrect(ParseTiersInOrder(raw), Taller);
    forall i, j | 0 <= i < j < |ParseTiers(raw)| ensures ParseTiers(raw)[i].height >= ParseTiers(raw)[j].height {
      assert Taller(ParseTiers(raw)[i], ParseTiers(raw)[j]);
    }
  }

  lemma RowsWellOrdered(first: VideoTier, below: seq<Tier>, source: int, copy: bool)
    requires first.index == 0 && first.height == source
    requires Descends(below) && forall i :: 0 <= i < |below| ==> Includes(copy, source, below[i])
    ensures WellOrdered([first] + Rows(below), source, copy)
  {
    var tiers := [first] + Rows(below);
    forall i | 1 <= i < |tiers| ensures tiers[i] == VideoTier(i, below[i - 1].height, below[i - 1].bitrate, false) {}
  }

  lemma BelowFits(cfg: Config, codec: string, source: int, raw: string)
    ensures var below := Below(cfg, codec, source, raw);
      Descends(below) && forall i :: 0 <= i < |below| ==> Includes(Copies(cfg, codec), source, below[i])
  {
    ParsedDescends(raw);
    IncludedDescends(ParseTiers(raw), Copies(cfg, codec), source);
  }

  /** Tiers are numbered by position, heights never rise, the source comes first, and
      nothing stands above it, or beside it when it is copied. */
  lemma SelectionWellOrdered(cfg: Config, codec: string, source: int, raw: string, tiers: seq<VideoTier>)
    requires IsSelection(cfg, codec, source, raw, tiers)
    ensures WellOrdered(tiers, source, Copies(cfg, codec))
  {
    BelowFits(cfg, codec, source, raw);
    RowsWellOrdered(tiers[0], Below(cfg, codec, source, raw), source, Copies(cfg, codec));
    assert tiers == [tiers[0]] + tiers[1..];
  }

  function PairOf(t: VideoTier): Tier { Tier(t.height, t.bitrate) }

  lemma PairsOfRows(tiers: seq<Tier>)
    ensures Map(PairOf, Rows(tiers)) == tiers
  {
  }

  /** With adaptive tiers on, every configured pair that fits is used, as often as it is
      configured: one that is not above the source, or below it when that is copied. */
  lemma SelectionComplete(cfg: Config, codec: string, source: int, raw: string, tiers: seq<VideoTier>, t: Tier)
    requires cfg.abrEnabled && !cfg.virtualAbrTiers && IsSelection(cfg, codec, source, raw, tiers)
    ensures t.height < source || (t.height == source && !tiers[0].copy) ==>
      multiset(Map(PairOf, tiers[1..]))[t] == multiset(ParseTiersInOrder(raw))[t]
    ensures t.height > source || (t.height == source && tiers[0].copy) ==> t !in Map(PairOf, tiers[1..])
  {
    TallerIsTotalPreorder();
    StableSortCorrect(ParseTiersInOrder(raw), Taller);
    IncludedMultiset(ParseTiers(raw), Copies(cfg, codec), source, t);
    PairsOfRows(Below(cfg, codec, source, raw));
  }
}
