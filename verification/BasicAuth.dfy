/** The Basic credential check: base64 with a wrapping 32-bit accumulator, comparison
    in constant time, and the admission of a request. */
module BasicAuth {
  import opened Options
  import opened Bits
  import opened Unicode

  const PAD: Byte := 61
  const COLON: Byte := 58

  /** Table 1 of section 4 of RFC 4648. */
  function Symbol(v: nat): Byte
    requires v < 64
  {
    if v < 26 then 65 + v
    else if v < 52 then 97 + (v - 26)
    else if v < 62 then 48 + (v - 52)
    else if v == 62 then 43
    else 47
  }

  const UPPER := "ABCDEFGHIJKLMNOPQRSTUVWXYZ"
  const LOWER := "abcdefghijklmnopqrstuvwxyz"
  const DIGITS := "0123456789"
  const ALPHABET := UPPER + LOWER + DIGITS + "+/"

  lemma UpperSymbols(v: nat)
    requires v < 26
    ensures UPPER[v] as int == 65 + v
  {
    match v
    case 0 => case 1 => case 2 => case 3 => case 4 => case 5 => case 6 => case 7 => case 8 => case 9 => case 10 =>
    case 11 => case 12 => case 13 => case 14 => case 15 => case 16 => case 17 => case 18 => case 19 => case 20 =>
    case 21 => case 22 => case 23 => case 24 => case _ =>
  }

  lemma LowerSymbols(v: nat)
    requires v < 26
    ensures LOWER[v] as int == 97 + v
  {
    match v
    case 0 => case 1 => case 2 => case 3 => case 4 => case 5 => case 6 => case 7 => case 8 => case 9 => case 10 =>
    case 11 => case 12 => case 13 => case 14 => case 15 => case 16 => case 17 => case 18 => case 19 => case 20 =>
    case 21 => case 22 => case 23 => case 24 => case _ =>
  }

  lemma DigitSymbols(v: nat)
    requires v < 10
    ensures DIGITS[v] as int == 48 + v
  {
    match v
    case 0 => case 1 => case 2 => case 3 => case 4 => case 5 => case 6 => case 7 => case 8 => case _ =>
  }

  lemma SymbolIs(v: nat)
    requires v < 64
    ensures Symbol(v) == ALPHABET[v] as int
  {
    if v < 26 { UpperSymbols(v); }
    else if v < 52 { LowerSymbols(v - 26); }
    else if v < 62 { DigitSymbols(v - 52); }
  }

  /** The position of a byte in the alphabet. */
  function Position(b: Byte): (r: Option<nat>)
    ensures r.Some? ==> r.value < 64 && Symbol(r.value) == b
    ensures r.None? ==> forall v: nat :: v < 64 ==> Symbol(v) != b
  {
    if 65 <= b <= 90 then Some(b - 65)
    else if 97 <= b <= 122 then Some(b - 97 + 26)
    else if 48 <= b <= 57 then Some(b - 48 + 52)
    else if b == 43 then Some(62)
    else if b == 47 then Some(63)
    else None
  }

  // --- What base64 text means --------------------------------------------------------

  type Sextet = v: int | 0 <= v < 64

  // The three bytes of a group of four values.
  function FirstByte(p: Sextet, q: Sextet): Byte { p * 4 + q / 16 }
  function SecondByte(q: Sextet, s: Sextet): Byte { q % 16 * 16 + s / 4 }
  function ThirdByte(s: Sextet, t: Sextet): Byte { s % 4 * 64 + t }

  /** The place of the next value in its group of four. */
  function Succ(place: nat): nat { if place >= 3 then 0 else place + 1 }

  /** What a value adds, by its place: every value after the first of a group completes
      a byte with the low bits of the value before it. */
  function Contribution(place: nat, before: Sextet, v: Sextet): seq<Byte> {
    if place == 0 then []
    else if place == 1 then [FirstByte(before, v)]
    else if place == 2 then [SecondByte(before, v)]
    else [ThirdByte(before, v)]
  }

  function BytesFrom(vals: seq<Sextet>, place: nat, before: Sextet): seq<Byte> {
    if vals == [] then []
    else Contribution(place, before, vals[0]) + BytesFrom(vals[1..], Succ(place), vals[0])
  }

  /** The bytes spelled by a row of six-bit values. */
  function Bytes(vals: seq<Sextet>): seq<Byte> { BytesFrom(vals, 0, 0) }

  /** The text before the first padding character. */
  function Body(input: seq<Byte>): (r: seq<Byte>)
    ensures PAD !in r
    ensures r <= input
    ensures r == input || input[|r|] == PAD
  {
    if input == [] || input[0] == PAD then [] else [input[0]] + Body(input[1..])
  }

  predicate InAlphabet(s: seq<Byte>) {
    forall i :: 0 <= i < |s| ==> Position(s[i]).Some?
  }

  function Values(s: seq<Byte>): seq<Sextet>
    requires InAlphabet(s)
  {
    seq(|s|, i requires 0 <= i < |s| => Position(s[i]).value)
  }

  /** The meaning of a base64 text. The decoder reports an empty result as an error
      unless the input is empty as well. */
  function Decoded(input: seq<Byte>): Option<seq<Byte>> {
    if !InAlphabet(Body(input)) then None
    else
      var out := Bytes(Values(Body(input)));
      if out == [] && input != [] then None else Some(out)
  }

  // --- The decoder -------------------------------------------------------------------

  const WORD: nat := 0x1_0000_0000

  function ShiftDivisor(bits: nat): (d: nat)
    ensures d > 0
  {
    if bits == 0 then 1 else 2 * ShiftDivisor(bits - 1)
  }

  /** What the accumulator still has to deliver: only its low `bits` bits matter. */
  ghost predicate Pending(place: nat, last: Sextet, buf: nat, bits: nat) {
    && place <= 3
    && (place == 0 ==> bits == 0)
    && (place == 1 ==> bits == 6 && buf % 64 == last)
    && (place == 2 ==> bits == 4 && buf % 16 == last % 16)
    && (place == 3 ==> bits == 2 && buf % 4 == last % 4)
  }

  /** The accumulator after taking in one value, as the code computes it in 32 bits. */
  function Accumulate(buf: nat, v: Sextet): nat {
    Or((buf * 64) % WORD, v)
  }

  /** The wrapping shift drops high bits only. */
  lemma AccumulateIs(buf: nat, v: Sextet)
    ensures Accumulate(buf, v) == 64 * (buf % 0x400_0000) + v
  {
    var kept := buf % 0x400_0000;
    assert (buf * 64) % WORD == 64 * kept;
    SixShifts(kept);
    SixShifts(1);
    OrShifted(kept, v, 6);
  }

  lemma SixShifts(a: nat)
    ensures Shifted(a, 6) == 64 * a
  {
    assert Shifted(a, 1) == 2 * a;
    assert Shifted(a, 2) == 4 * a;
    assert Shifted(a, 4) == 16 * a;
  }

  // Dropping high bits keeps the low ones.

  lemma KeepsSixBits(n: nat)
    ensures n % 0x400_0000 % 64 == n % 64
  {
  }

  lemma KeepsFourBits(n: nat)
    ensures n % 0x400_0000 % 16 == n % 16
  {
  }

  lemma KeepsTwoBits(n: nat)
    ensures n % 0x400_0000 % 4 == n % 4
  {
  }

  // One step of the accumulator, for each position in a group of four values.

  lemma StepFromZero(buf: nat, v: Sextet)
    ensures Accumulate(buf, v) % 64 == v
  {
    AccumulateIs(buf, v);
  }

  lemma StepFromSix(buf: nat, u: Sextet, v: Sextet)
    requires buf % 64 == u
    ensures Accumulate(buf, v) / 16 % 256 == FirstByte(u, v)
    ensures Accumulate(buf, v) % 16 == v % 16
  {
    var kept := buf % 0x400_0000;
    AccumulateIs(buf, v);
    KeepsSixBits(buf);
    assert kept == 64 * (kept / 64) + u;
    EmitFirst(kept / 64, u, v);
  }

  lemma EmitFirst(q: nat, u: Sextet, v: Sextet)
    ensures (4096 * q + 64 * u + v) / 16 % 256 == FirstByte(u, v)
    ensures (4096 * q + 64 * u + v) % 16 == v % 16
  {
    assert (4096 * q + 64 * u + v) / 16 == 256 * q + FirstByte(u, v);
  }

  lemma StepFromFour(buf: nat, u: Sextet, v: Sextet)
    requires buf % 16 == u % 16
    ensures Accumulate(buf, v) / 4 % 256 == SecondByte(u, v)
    ensures Accumulate(buf, v) % 4 == v % 4
  {
    var kept := buf % 0x400_0000;
    AccumulateIs(buf, v);
    KeepsFourBits(buf);
    assert kept == 16 * (kept / 16) + u % 16;
    EmitSecond(kept / 16, u, v);
  }

  lemma EmitSecond(q: nat, u: Sextet, v: Sextet)
    ensures (1024 * q + 64 * (u % 16) + v) / 4 % 256 == SecondByte(u, v)
    ensures (1024 * q + 64 * (u % 16) + v) % 4 == v % 4
  {
    assert (1024 * q + 64 * (u % 16) + v) / 4 == 256 * q + SecondByte(u, v);
  }

  lemma StepFromTwo(buf: nat, u: Sextet, v: Sextet)
    requires buf % 4 == u % 4
    ensures Accumulate(buf, v) % 256 == ThirdByte(u, v)
  {
    var kept := buf % 0x400_0000;
    AccumulateIs(buf, v);
    KeepsTwoBits(buf);
    assert kept == 4 * (kept / 4) + u % 4;
    EmitThird(kept / 4, u, v);
  }

  lemma EmitThird(q: nat, u: Sextet, v: Sextet)
    ensures (256 * q + 64 * (u % 4) + v) % 256 == ThirdByte(u, v)
  {
  }

  ghost function PlaceAfter(n: nat, place: nat): nat {
    if n == 0 then place else PlaceAfter(n - 1, Succ(place))
  }

  ghost function Last(vals: seq<Sextet>, before: Sextet): Sextet {
    if vals == [] then before else vals[|vals| - 1]
  }

  lemma {:induction false} BytesSnoc(vals: seq<Sextet>, v: Sextet, place: nat, before: Sextet)
    ensures BytesFrom(vals + [v], place, before)
      == BytesFrom(vals, place, before) + Contribution(PlaceAfter(|vals|, place), Last(vals, before), v)
    ensures PlaceAfter(|vals| + 1, place) == Succ(PlaceAfter(|vals|, place))
  {
    var all := vals + [v];
    if vals == [] {
      assert all[1..] == [];
    } else {
      BytesSnoc(vals[1..], v, Succ(place), vals[0]);
      assert all[1..] == vals[1..] + [v];
      assert Last(vals[1..], vals[0]) == Last(vals, before);
    }
  }

  /** One step of the decoder: what it emits and what it keeps. */
  ghost predicate Steps(place: nat, last: Sextet, buf: nat, bits: nat, v: Sextet) {
    var r := Accumulate(buf, v);
    if bits + 6 < 8 then Contribution(place, last, v) == [] && Pending(Succ(place), v, r, bits + 6)
    else Contribution(place, last, v) == [r / ShiftDivisor(bits - 2) % 256] && Pending(Succ(place), v, r, bits - 2)
  }

  lemma StepOne(last: Sextet, buf: nat, v: Sextet)
    requires Pending(1, last, buf, 6)
    ensures Steps(1, last, buf, 6, v)
  {
    StepFromSix(buf, last, v);
    assert ShiftDivisor(2) == 4;
    assert ShiftDivisor(4) == 16;
  }

  lemma StepTwo(last: Sextet, buf: nat, v: Sextet)
    requires Pending(2, last, buf, 4)
    ensures Steps(2, last, buf, 4, v)
  {
    StepFromFour(buf, last, v);
    assert ShiftDivisor(2) == 4;
  }

  lemma StepZero(last: Sextet, buf: nat, v: Sextet)
    ensures Steps(0, last, buf, 0, v)
  {
    StepFromZero(buf, v);
  }

  lemma StepThree(last: Sextet, buf: nat, v: Sextet)
    requires Pending(3, last, buf, 2)
    ensures Steps(3, last, buf, 2, v)
  {
    StepFromTwo(buf, last, v);
  }

  lemma PendingBits(place: nat, last: Sextet, buf: nat, bits: nat)
    requires Pending(place, last, buf, bits)
    ensures place <= 3 && bits == if place == 0 then 0 else if place == 1 then 6 else if place == 2 then 4 else 2
  {
  }

  lemma PendingStep(place: nat, last: Sextet, buf: nat, bits: nat, v: Sextet)
    requires Pending(place, last, buf, bits)
    ensures Steps(place, last, buf, bits, v)
  {
    PendingBits(place, last, buf, bits);
    match place
    case 0 => StepZero(last, buf, v);
    case 1 => StepOne(last, buf, v);
    case 2 => StepTwo(last, buf, v);
    case 3 => StepThree(last, buf, v);
  }

  lemma {:induction false} BodyAt(input: seq<Byte>, i: nat)
    requires i <= |input| && PAD !in input[..i]
    requires i < |input| ==> input[i] == PAD
    ensures Body(input) == input[..i]
  {
    if i > 0 {
      assert input[..i][0] == input[0];
      assert input[1..][..i - 1] == input[..i][1..];
      BodyAt(input[1..], i - 1);
    }
  }

  lemma {:induction false} BodyHas(input: seq<Byte>, i: nat)
    requires i < |input| && PAD !in input[..i] && input[i] != PAD
    ensures i < |Body(input)| && Body(input)[i] == input[i]
  {
    if i > 0 {
      assert input[..i][0] == input[0];
      assert input[1..][..i - 1] == input[..i][1..];
      BodyHas(input[1..], i - 1);
    }
  }

  /** The loop invariant: the bytes emitted for the first `i` characters, and the bits
      of the last of them still to be emitted. */
  ghost predicate Progress(input: seq<Byte>, i: nat, out: seq<Byte>, buf: nat, bits: nat) {
    && i <= |input| && PAD !in input[..i] && InAlphabet(input[..i])
    && out == Bytes(Values(input[..i]))
    && Pending(PlaceAfter(i, 0), Last(Values(input[..i]), 0), buf, bits)
  }

  lemma ProgressStep(input: seq<Byte>, i: nat, out: seq<Byte>, buf: nat, bits: nat)
    requires Progress(input, i, out, buf, bits)
    requires i < |input| && input[i] != PAD && Position(input[i]).Some?
    ensures var r := Accumulate(buf, Position(input[i]).value);
      if bits + 6 >= 8 then Progress(input, i + 1, out + [r / ShiftDivisor(bits - 2) % 256], r, bits - 2)
      else Progress(input, i + 1, out, r, bits + 6)
  {
    var v, vals := Position(input[i]).value, Values(input[..i]);
    BytesSnoc(vals, v, 0, 0);
    PendingStep(PlaceAfter(i, 0), Last(vals, 0), buf, bits, v);
    assert input[..i + 1] == input[..i] + [input[i]];
    assert Values(input[..i + 1]) == vals + [v];
  }

  /** `base64_decode`: dropping the high bits of the accumulator never loses a byte. */
  method Base64Decode(input: seq<Byte>) returns (r: Option<seq<Byte>>)
    ensures r == Decoded(input)
    ensures r == Some([]) <==> input == []
  {
    var out: seq<Byte> := [];
    var buf: nat, bits: nat := 0, 0;
    var i := 0;
    while i < |input|
      invariant Progress(input, i, out, buf, bits)
    {
      if input[i] == PAD { break; }
      var position := Position(input[i]);
      if position.None? {
        BodyHas(input, i);
        return None;
      }
      ProgressStep(input, i, out, buf, bits);
      buf, bits := Accumulate(buf, position.value), bits + 6;
      if bits >= 8 {
        bits := bits - 8;
        out := out + [buf / ShiftDivisor(bits) % 256];
      }
      i := i + 1;
    }
    BodyAt(input, i);
    if out == [] && input != [] { return None; }
    return Some(out);
  }

  // --- The encoding of RFC 4648, section 4 -------------------------------------------

  // The values of a group, and the bytes they spell again.
  function FirstValue(x: Byte): Sextet { x / 4 }
  function SecondValue(x: Byte, y: Byte): Sextet { x % 4 * 16 + y / 16 }
  function ThirdValue(y: Byte, z: Byte): Sextet { y % 16 * 4 + z / 64 }
  function FourthValue(z: Byte): Sextet { z % 64 }

  lemma SecondComesBack(x: Byte, y: Byte)
    ensures SecondValue(x, y) / 16 == x % 4 && SecondValue(x, y) % 16 == y / 16
  {
  }

  lemma ThirdComesBack(y: Byte, z: Byte)
    ensures ThirdValue(y, z) / 4 == y % 16 && ThirdValue(y, z) % 4 == z / 64
  {
  }

  lemma GroupRoundTrip(x: Byte, y: Byte, z: Byte)
    ensures FirstByte(FirstValue(x), SecondValue(x, y)) == x
    ensures SecondByte(SecondValue(x, y), ThirdValue(y, z)) == y
    ensures ThirdByte(ThirdValue(y, z), FourthValue(z)) == z
  {
    SecondComesBack(x, y);
    ThirdComesBack(y, z);
  }

  /** Twenty-four-bit groups cut into four values; a short last group is filled with zero bits. */
  function Sextets(b: seq<Byte>): seq<Sextet> {
    if b == [] then []
    else if |b| == 1 then [FirstValue(b[0]), SecondValue(b[0], 0)]
    else if |b| == 2 then [FirstValue(b[0]), SecondValue(b[0], b[1]), ThirdValue(b[1], 0)]
    else
      [FirstValue(b[0]), SecondValue(b[0], b[1]), ThirdValue(b[1], b[2]), FourthValue(b[2])] + Sextets(b[3..])
  }

  lemma BytesOfTwo(p: Sextet, q: Sextet)
    ensures Bytes([p, q]) == [FirstByte(p, q)]
  {
    assert [p, q][1..] == [q] && [q][1..] == [];
    assert BytesFrom([q], 1, p) == [FirstByte(p, q)];
  }

  lemma BytesOfThree(p: Sextet, q: Sextet, s: Sextet)
    ensures Bytes([p, q, s]) == [FirstByte(p, q), SecondByte(q, s)]
  {
    assert [p, q, s][1..] == [q, s] && [q, s][1..] == [s] && [s][1..] == [];
    assert BytesFrom([s], 2, q) == [SecondByte(q, s)];
    assert BytesFrom([q, s], 1, p) == [FirstByte(p, q)] + [SecondByte(q, s)];
  }

  /** A full group of values spells three bytes, whatever follows. */
  lemma BytesOfFour(p: Sextet, q: Sextet, s: Sextet, t: Sextet, rest: seq<Sextet>)
    ensures Bytes([p, q, s, t] + rest) == [FirstByte(p, q), SecondByte(q, s), ThirdByte(s, t)] + Bytes(rest)
  {
    var v4, v3, v2, v1 := [p, q, s, t] + rest, [q, s, t] + rest, [s, t] + rest, [t] + rest;
    assert v4[1..] == v3 && v3[1..] == v2 && v2[1..] == v1 && v1[1..] == rest;
    assert BytesFrom(rest, 0, t) == Bytes(rest);
    assert BytesFrom(v1, 3, s) == [ThirdByte(s, t)] + Bytes(rest);
    assert BytesFrom(v2, 2, q) == [SecondByte(q, s)] + BytesFrom(v1, 3, s);
    assert BytesFrom(v3, 1, p) == [FirstByte(p, q)] + BytesFrom(v2, 2, q);
    assert BytesFrom(v4, 0, 0) == [] + BytesFrom(v3, 1, p);
  }

  lemma OneByte(x: Byte)
    ensures Bytes(Sextets([x])) == [x]
  {
    GroupRoundTrip(x, 0, 0);
    BytesOfTwo(FirstValue(x), SecondValue(x, 0));
  }

  lemma TwoBytes(x: Byte, y: Byte)
    ensures Bytes(Sextets([x, y])) == [x, y]
  {
    GroupRoundTrip(x, y, 0);
    BytesOfThree(FirstValue(x), SecondValue(x, y), ThirdValue(y, 0));
  }

  lemma ThreeBytes(x: Byte, y: Byte, z: Byte, rest: seq<Sextet>)
    ensures Bytes([FirstValue(x), SecondValue(x, y), ThirdValue(y, z), FourthValue(z)] + rest)
      == [x, y, z] + Bytes(rest)
  {
    GroupRoundTrip(x, y, z);
    BytesOfFour(FirstValue(x), SecondValue(x, y), ThirdValue(y, z), FourthValue(z), rest);
  }

  /** Cutting bytes into values loses nothing. */
  lemma {:induction false} BytesOfSextets(b: seq<Byte>)
    ensures Bytes(Sextets(b)) == b
  {
    if b == [] {
    } else if |b| == 1 {
      OneByte(b[0]);
      assert b == [b[0]];
    } else if |b| == 2 {
      TwoBytes(b[0], b[1]);
      assert b == [b[0], b[1]];
    } else {
      BytesOfSextets(b[3..]);
      ThreeBytes(b[0], b[1], b[2], Sextets(b[3..]));
      assert b == [b[0], b[1], b[2]] + b[3..];
    }
  }

  /** A row of digits as one number. */
  ghost function Joined(digits: seq<int>, base: int): int {
    if digits == [] then 0 else Joined(digits[..|digits| - 1], base) * base + digits[|digits| - 1]
  }

  /** Section 4 of RFC 4648: a group of 24 bits is three bytes, and it is four values of six
      bits; a short last group is filled up with zero bits to whole values. */
  ghost predicate IsGrouping(b: seq<Byte>, vals: seq<Sextet>) {
    if |b| == 0 then vals == []
    else if |b| == 1 then |vals| == 2 && Joined(vals, 64) == 16 * Joined(b, 256)
    else if |b| == 2 then |vals| == 3 && Joined(vals, 64) == 4 * Joined(b, 256)
    else |vals| >= 4 && Joined(vals[..4], 64) == Joined(b[..3], 256) && IsGrouping(b[3..], vals[4..])
  }

  lemma JoinedThree(x: int, y: int, z: int, base: int)
    ensures Joined([x], base) == x
    ensures Joined([x, y], base) == x * base + y
    ensures Joined([x, y, z], base) == (x * base + y) * base + z
  {
    assert [x][..0] == [] && [x, y][..1] == [x] && [x, y, z][..2] == [x, y];
  }

  lemma JoinedFour(x: int, y: int, z: int, t: int, base: int)
    ensures Joined([x, y, z, t], base) == ((x * base + y) * base + z) * base + t
  {
    JoinedThree(x, y, z, base);
    assert [x, y, z, t][..3] == [x, y, z];
  }

  lemma GroupOfFour(x: Byte, y: Byte, z: Byte)
    ensures Joined([FirstValue(x), SecondValue(x, y), ThirdValue(y, z), FourthValue(z)], 64) == Joined([x, y, z], 256)
  {
    JoinedFour(FirstValue(x), SecondValue(x, y), ThirdValue(y, z), FourthValue(z), 64);
    JoinedThree(x, y, z, 256);
  }

  lemma {:induction false} SextetsGroup(b: seq<Byte>)
    ensures IsGrouping(b, Sextets(b))
  {
    if |b| == 1 {
      assert b == [b[0]];
      JoinedThree(FirstValue(b[0]), SecondValue(b[0], 0), 0, 64);
      JoinedThree(b[0], 0, 0, 256);
    } else if |b| == 2 {
      assert b == [b[0], b[1]];
      JoinedThree(FirstValue(b[0]), SecondValue(b[0], b[1]), ThirdValue(b[1], 0), 64);
      JoinedThree(b[0], b[1], 0, 256);
    } else if |b| >= 3 {
      SextetsGroup(b[3..]);
      assert b[..3] == [b[0], b[1], b[2]];
      GroupOfFour(b[0], b[1], b[2]);
      assert Sextets(b)[4..] == Sextets(b[3..]);
      assert Sextets(b)[..4]
        == [FirstValue(b[0]), SecondValue(b[0], b[1]), ThirdValue(b[1], b[2]), FourthValue(b[2])];
    }
  }

  function Symbols(vals: seq<Sextet>): (r: seq<Byte>)
    ensures |r| == |vals|
  {
    seq(|vals|, i requires 0 <= i < |vals| => Symbol(vals[i]))
  }

  /** The encoding without padding; `Padding` completes the last group of four. */
  function Encoded(b: seq<Byte>): seq<Byte> { Symbols(Sextets(b)) }

  function Padding(b: seq<Byte>): seq<Byte> {
    if |b| % 3 == 1 then [PAD, PAD] else if |b| % 3 == 2 then [PAD] else []
  }

  ghost predicate Spelled(text: seq<Byte>, vals: seq<Sextet>) {
    |text| == |vals| && forall i :: 0 <= i < |vals| ==> text[i] == ALPHABET[vals[i]] as int
  }

  /** The encoding spells the groups of the bytes in the alphabet. */
  lemma EncodesGroups(b: seq<Byte>)
    ensures exists vals: seq<Sextet> :: IsGrouping(b, vals) && Spelled(Encoded(b), vals)
  {
    var vals := Sextets(b);
    SextetsGroup(b);
    forall i | 0 <= i < |vals| ensures Encoded(b)[i] == ALPHABET[vals[i]] as int { SymbolIs(vals[i]); }
    assert Spelled(Encoded(b), vals);
  }

  lemma SymbolsDecode(vals: seq<Sextet>)
    ensures PAD !in Symbols(vals) && InAlphabet(Symbols(vals))
    ensures Values(Symbols(vals)) == vals
  {
    forall i | 0 <= i < |vals| ensures Position(Symbols(vals)[i]) == Some(vals[i]) {}
  }

  /** The decoder inverts the encoding of every byte string, padded, unpadded, or
      followed by anything after a padding character. */
  lemma DecodeInvertsEncode(b: seq<Byte>, tail: seq<Byte>)
    requires tail == [] || (tail[0] == PAD && b != [])
    ensures Decoded(Encoded(b) + tail) == Some(b)
    ensures Decoded(Encoded(b) + Padding(b)) == Some(b)
  {
    var vals := Sextets(b);
    SymbolsDecode(vals);
    BytesOfSextets(b);
    forall t: seq<Byte> | t == [] || (t[0] == PAD && b != []) ensures Decoded(Encoded(b) + t) == Some(b) {
      var input := Encoded(b) + t;
      assert input[..|Encoded(b)|] == Encoded(b);
      BodyAt(input, |Encoded(b)|);
    }
  }

  // --- Comparison in constant time ---------------------------------------------------

  function Get(s: seq<Byte>, i: nat): Byte { if i < |s| then s[i] else 0 }

  ghost predicate AgreeUpTo(left: seq<Byte>, right: seq<Byte>, n: nat) {
    forall j: nat :: j < n ==> Get(left, j) == Get(right, j)
  }

  /** `constant_time_eq`: the accumulated difference vanishes exactly on equal inputs. */
  method ConstantTimeEq(left: seq<Byte>, right: seq<Byte>) returns (same: bool)
    ensures same <==> left == right
  {
    var maxLen := if |left| >= |right| then |left| else |right|;
    var diff := Xor(|left|, |right|);
    XorZero(|left|, |right|);
    for i := 0 to maxLen
      invariant diff == 0 <==> |left| == |right| && AgreeUpTo(left, right, i)
    {
      var a, b := Get(left, i), Get(right, i);
      XorZero(a, b);
      OrZero(diff, Xor(a, b));
      diff := Or(diff, Xor(a, b));
    }
    same := diff == 0;
    if same { forall j | 0 <= j < |left| ensures left[j] == right[j] { assert Get(left, j) == Get(right, j); } }
  }

  // --- Admission ---------------------------------------------------------------------

  /** `"Basic "`, the scheme and the space of section 2 of RFC 7617. */
  const SCHEME: seq<Byte> := [66, 97, 115, 105, 99, 32]

  /** `HeaderValue::to_str` succeeds on visible ASCII and tabs only. */
  predicate IsVisible(header: seq<Byte>) {
    forall i :: 0 <= i < |header| ==> header[i] == 9 || 32 <= header[i] < 127
  }

  method SplitAtColon(s: seq<Byte>) returns (r: Option<(seq<Byte>, seq<Byte>)>)
    ensures r.None? <==> COLON !in s
    ensures r.Some? ==> s == r.value.0 + [COLON] + r.value.1 && COLON !in r.value.0
  {
    var i := 0;
    while i < |s| && s[i] != COLON
      invariant i <= |s| && COLON !in s[..i]
    {
      i := i + 1;
    }
    if i == |s| {
      assert s[..i] == s;
      return None;
    }
    assert s == s[..i] + [COLON] + s[i + 1..];
    return Some((s[..i], s[i + 1..]));
  }

  lemma FirstColon(a: seq<Byte>, b: seq<Byte>, i: nat)
    requires COLON !in a && i <= |a| + |b| && (a + [COLON] + b)[i] == COLON
    ensures |a| <= i
  {
    assert forall j :: 0 <= j < |a| ==> (a + [COLON] + b)[j] == a[j];
  }

  lemma ColonSplitsOnce(a: seq<Byte>, b: seq<Byte>, c: seq<Byte>, d: seq<Byte>)
    requires COLON !in a && a + [COLON] + b == c + [COLON] + d
    ensures COLON !in c ==> a == c && b == d
  {
    var s := a + [COLON] + b;
    FirstColon(a, b, |c|);
    if COLON !in c {
      FirstColon(c, d, |a|);
      assert a == s[..|a|] && c == s[..|c|];
      assert b == s[|a| + 1..] && d == s[|c| + 1..];
    }
  }

  /** The header carries exactly these credentials. */
  ghost predicate Carries(header: Option<seq<Byte>>, creds: seq<Byte>) {
    && header.Some? && IsVisible(header.value) && SCHEME <= header.value
    && Decoded(header.value[|SCHEME|..]) == Some(creds)
  }

  ghost predicate Admits(adminUser: seq<Byte>, adminPass: seq<Byte>, header: Option<seq<Byte>>) {
    || adminUser == []
    || (COLON !in adminUser && Carries(header, adminUser + [COLON] + adminPass))
  }

  /** The decision of `require_auth`. Configured names are Rust strings, hence UTF-8. A
      request is admitted exactly when authentication is off or its header decodes to
      `user:pass`; a configured user that contains a colon admits nobody. */
  method RequireAuth(adminUser: seq<Byte>, adminPass: seq<Byte>, header: Option<seq<Byte>>) returns (admitted: bool)
    requires ValidUtf8(adminUser) && ValidUtf8(adminPass)
    ensures admitted <==> Admits(adminUser, adminPass, header)
  {
    if adminUser == [] { return true; }
    if header.None? || !IsVisible(header.value) || !(SCHEME <= header.value) { return false; }
    var decoded := Base64Decode(header.value[|SCHEME|..]);
    if decoded.None? { return false; }
    CredentialsAreUtf8(adminUser, adminPass);
    if !ValidUtf8(decoded.value) { return false; }
    var split := SplitAtColon(decoded.value);
    if split.None? { return false; }
    var (user, pass) := split.value;
    var sameUser := ConstantTimeEq(user, adminUser);
    var samePass := ConstantTimeEq(pass, adminPass);
    if decoded.value == adminUser + [COLON] + adminPass { ColonSplitsOnce(user, pass, adminUser, adminPass); }
    admitted := sameUser && samePass;
  }

  lemma CredentialsAreUtf8(user: seq<Byte>, pass: seq<Byte>)
    requires ValidUtf8(user) && ValidUtf8(pass)
    ensures ValidUtf8(user + [COLON] + pass)
  {
    assert [COLON][1..] == [];
    ValidAppend(user, [COLON]);
    ValidAppend(user + [COLON], pass);
  }

  lemma SchemeIs()
    ensures SCHEME == Utf8("Basic ")
  {
    var s := "Basic ";
    assert s[1..] == "asic " && s[2..] == "sic " && s[3..] == "ic " && s[4..] == "c " && s[5..] == " ";
    assert Utf8(" ") == [32] by { assert " "[1..] == ""; }
    assert "c "[1..] == " " && "ic "[1..] == "c " && "sic "[1..] == "ic " && "asic "[1..] == "sic ";
    assert Utf8("c ") == [99, 32];
    assert Utf8("ic ") == [105, 99, 32];
    assert Utf8("sic ") == [115, 105, 99, 32];
    assert Utf8("asic ") == [97, 115, 105, 99, 32];
  }

  /** Behind the padding a header may hold anything that is visible or a tab; with any other
      byte it is refused. */
  lemma OnlyVisibleTails(creds: seq<Byte>, tail: seq<Byte>)
    requires creds != []
    ensures Carries(Some(Utf8("Basic ") + Encoded(creds) + [PAD] + tail), creds) <==>
      forall i :: 0 <= i < |tail| ==> tail[i] == 9 || 32 <= tail[i] <= 126
  {
    SchemeIs();
    AfterScheme(Encoded(creds), [PAD], tail);
    DecodeInvertsEncode(creds, [PAD] + tail);
    TailIsVisible(creds, tail);
  }

  lemma AfterScheme(a: seq<Byte>, b: seq<Byte>, c: seq<Byte>)
    ensures SCHEME <= SCHEME + a + b + c && (SCHEME + a + b + c)[|SCHEME|..] == a + (b + c)
  {
  }

  lemma TailIsVisible(creds: seq<Byte>, tail: seq<Byte>)
    ensures IsVisible(SCHEME + Encoded(creds) + [PAD] + tail) <==> IsVisible(tail)
  {
    VisibleParts(SCHEME + Encoded(creds), [PAD]);
    VisibleParts(SCHEME, Encoded(creds));
    VisibleParts(SCHEME + Encoded(creds) + [PAD], tail);
    EncodedIsVisible(creds);
  }

  lemma VisibleParts(a: seq<Byte>, b: seq<Byte>)
    ensures IsVisible(a + b) <==> IsVisible(a) && IsVisible(b)
  {
    if IsVisible(a + b) {
      forall i | 0 <= i < |a| ensures a[i] == (a + b)[i] {}
      forall i | 0 <= i < |b| ensures b[i] == (a + b)[|a| + i] {}
    }
  }

  lemma EncodedIsVisible(creds: seq<Byte>)
    ensures IsVisible(Encoded(creds))
  {
    assert forall i :: 0 <= i < |Encoded(creds)| ==> 32 <= Encoded(creds)[i] < 127;
  }

  lemma HeaderIsVisible(creds: seq<Byte>)
    ensures IsVisible(SCHEME + (Encoded(creds) + Padding(creds)))
  {
    var text := Encoded(creds) + Padding(creds);
    assert forall i :: 0 <= i < |text| ==> 32 <= text[i] < 127;
  }

  /** A client that encodes its credentials is admitted with the configured ones and
      with no others. */
  lemma ClientIsAdmitted(user: seq<Byte>, pass: seq<Byte>, creds: seq<Byte>)
    ensures Carries(Some(Utf8("Basic ") + (Encoded(creds) + Padding(creds))), user + [COLON] + pass)
      <==> creds == user + [COLON] + pass
  {
    SchemeIs();
    var text := Encoded(creds) + Padding(creds);
    assert (SCHEME + text)[|SCHEME|..] == text;
    DecodeInvertsEncode(creds, []);
    HeaderIsVisible(creds);
  }

  /** A client that sends the configured user and password carries exactly these, and is
      still locked out when the user contains a colon. */
  lemma ColonLocksOut(user: seq<Byte>, pass: seq<Byte>)
    requires user != []
    ensures var creds := user + [COLON] + pass;
      var header := Some(Utf8("Basic ") + (Encoded(creds) + Padding(creds)));
      Carries(header, creds) && (Admits(user, pass, header) <==> COLON !in user)
  {
    ClientIsAdmitted(user, pass, user + [COLON] + pass);
  }
}
