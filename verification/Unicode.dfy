/** UTF-8 of RFC 3629: encoding characters (section 3) and recognising encoded text
    (section 4), which are the same thing. */
module Unicode {
  import opened Folds
  import opened Bits

  /** The bytes of one character. */
  function Utf8Char(c: char): (r: seq<Byte>)
    ensures r != []
  {
    var n := c as int;
    if n < 0x80 then [n]
    else if n < 0x800 then [0xC0 + n / 64, 0x80 + n % 64]
    else if n < 0x1_0000 then [0xE0 + n / 4096, 0x80 + n / 64 % 64, 0x80 + n % 64]
    else [0xF0 + n / 262144, 0x80 + n / 4096 % 64, 0x80 + n / 64 % 64, 0x80 + n % 64]
  }

  function Utf8(s: string): seq<Byte> {
    if s == [] then [] else Utf8Char(s[0]) + Utf8(s[1..])
  }

  lemma {:induction false} Utf8Append(a: string, b: string)
    ensures Utf8(a + b) == Utf8(a) + Utf8(b)
  {
    if a == [] {
      assert a + b == b;
    } else {
      Utf8Append(a[1..], b);
      assert (a + b)[1..] == a[1..] + b;
      Associate(Utf8Char(a[0]), Utf8(a[1..]), Utf8(b));
    }
  }

  predicate Continues(s: seq<Byte>, i: nat) { i < |s| && 0x80 <= s[i] <= 0xBF }

  /** The length of the character at the start of `s`, or zero if there is none. */
  function CharWidth(s: seq<Byte>): (w: nat)
    ensures w <= |s|
  {
    if s == [] then 0
    else if s[0] <= 0x7F then 1
    else if !Continues(s, 1) then 0
    else if 0xC2 <= s[0] <= 0xDF then 2
    else if !Continues(s, 2) then 0
    else if (s[0] == 0xE0 && 0xA0 <= s[1]) || (s[0] == 0xED && s[1] <= 0x9F) || 0xE1 <= s[0] <= 0xEC
      || 0xEE <= s[0] <= 0xEF
    then 3
    else if !Continues(s, 3) then 0
    else if (s[0] == 0xF0 && 0x90 <= s[1]) || 0xF1 <= s[0] <= 0xF3 || (s[0] == 0xF4 && s[1] <= 0x8F) then 4
    else 0
  }

  predicate ValidUtf8(s: seq<Byte>) {
    s == [] || (CharWidth(s) > 0 && ValidUtf8(s[CharWidth(s)..]))
  }

  lemma CharWidthExtends(a: seq<Byte>, b: seq<Byte>)
    requires CharWidth(a) > 0
    ensures CharWidth(a + b) == CharWidth(a)
  {
  }

  lemma ValidCons(s: seq<Byte>, w: nat)
    requires CharWidth(s) == w > 0
    ensures ValidUtf8(s) <==> ValidUtf8(s[w..])
  {
  }

  lemma {:induction false} ValidAppend(a: seq<Byte>, b: seq<Byte>)
    requires ValidUtf8(a) && ValidUtf8(b)
    ensures ValidUtf8(a + b)
    decreases |a|
  {
    if a == [] {
      assert a + b == b;
    } else {
      var w := CharWidth(a);
      ValidAppend(a[w..], b);
      CharWidthExtends(a, b);
      assert (a + b)[w..] == a[w..] + b;
      ValidCons(a + b, w);
    }
  }

  // --- Valid text is encoded text --------------------------------------------------------

  // The surrogates, which are no characters, are what the bound after 0xED excludes.

  lemma ThreeBytesAreWide(c: char)
    requires 0x800 <= c as int < 0x1_0000
    ensures CharWidth(Utf8Char(c)) == 3
  {
  }

  lemma FourBytesAreWide(c: char)
    requires 0x1_0000 <= c as int
    ensures CharWidth(Utf8Char(c)) == 4
  {
  }

  lemma CharIsWide(c: char)
    ensures CharWidth(Utf8Char(c)) == |Utf8Char(c)|
  {
    if 0x1_0000 <= c as int { FourBytesAreWide(c); } else if 0x800 <= c as int { ThreeBytesAreWide(c); }
  }

  lemma {:induction false} EncodedIsValid(s: string)
    ensures ValidUtf8(Utf8(s))
  {
    if s != [] {
      EncodedIsValid(s[1..]);
      CharIsWide(s[0]);
      var first, rest := Utf8Char(s[0]), Utf8(s[1..]);
      CharWidthExtends(first, rest);
      assert (first + rest)[|first|..] == rest;
      ValidCons(first + rest, |first|);
    }
  }

  /** The six bits of a continuation byte. */
  function Low(s: seq<Byte>, i: nat): (n: nat)
    requires Continues(s, i)
    ensures n < 64
  {
    s[i] as int - 0x80
  }

  /** The number of the character at the start of `s`. */
  function CodePoint(s: seq<Byte>): nat
    requires CharWidth(s) > 0
  {
    var first := s[0] as int;
    if CharWidth(s) == 1 then first
    else if CharWidth(s) == 2 then (first - 0xC0) * 64 + Low(s, 1)
    else if CharWidth(s) == 3 then (first - 0xE0) * 4096 + Low(s, 1) * 64 + Low(s, 2)
    else (first - 0xF0) * 262144 + Low(s, 1) * 4096 + Low(s, 2) * 64 + Low(s, 3)
  }

  predicate IsScalar(n: nat) { n < 0xD800 || 0xE000 <= n < 0x11_0000 }

  lemma CodePointIsScalar(s: seq<Byte>)
    requires CharWidth(s) > 0
    ensures IsScalar(CodePoint(s))
    ensures CharWidth(s) == 1 ==> CodePoint(s) < 0x80
    ensures CharWidth(s) == 2 ==> 0x80 <= CodePoint(s) < 0x800
    ensures CharWidth(s) == 3 ==> 0x800 <= CodePoint(s) < 0x1_0000
    ensures CharWidth(s) == 4 ==> 0x1_0000 <= CodePoint(s)
  {
  }

  lemma SixBits(high: nat, low: nat)
    requires low < 64
    ensures (high * 64 + low) / 64 == high && (high * 64 + low) % 64 == low
  {
  }

  lemma TwoSixBits(a: nat, b: nat, c: nat)
    requires b < 64 && c < 64
    ensures var n := a * 4096 + b * 64 + c; n / 4096 == a && n / 64 == a * 64 + b && n / 64 % 64 == b && n % 64 == c
  {
    SixBits(a * 64 + b, c);
    SixBits(a, b);
  }

  lemma ThreeSixBits(a: nat, b: nat, c: nat, d: nat)
    requires b < 64 && c < 64 && d < 64
    ensures var n := a * 262144 + b * 4096 + c * 64 + d;
      n / 262144 == a && n / 4096 % 64 == b && n / 64 % 64 == c && n % 64 == d
  {
    TwoSixBits(a * 64 + b, c, d);
    SixBits(a, b);
  }

  lemma CodePointEncodes(s: seq<Byte>)
    requires CharWidth(s) > 0 && IsScalar(CodePoint(s))
    ensures Utf8Char(CodePoint(s) as char) == s[..CharWidth(s)]
  {
    CodePointIsScalar(s);
    var first := s[0] as int;
    if CharWidth(s) == 2 {
      SixBits(first - 0xC0, Low(s, 1));
    } else if CharWidth(s) == 3 {
      TwoSixBits(first - 0xE0, Low(s, 1), Low(s, 2));
    } else if CharWidth(s) == 4 {
      ThreeSixBits(first - 0xF0, Low(s, 1), Low(s, 2), Low(s, 3));
    }
  }

  /** The bytes that pass the check are exactly the encodings of strings. */
  lemma {:induction false} ValidIsEncoded(b: seq<Byte>) returns (s: string)
    requires ValidUtf8(b)
    ensures Utf8(s) == b
    decreases |b|
  {
    if b == [] { return []; }
    var w := CharWidth(b);
    CodePointIsScalar(b);
    CodePointEncodes(b);
    var rest := ValidIsEncoded(b[w..]);
    s := [CodePoint(b) as char] + rest;
    assert s[1..] == rest && b == b[..w] + b[w..];
  }

  /** `str::from_utf8` accepts exactly what encoding produces. */
  lemma ValidExactly(b: seq<Byte>)
    ensures ValidUtf8(b) <==> exists s :: Utf8(s) == b
  {
    if ValidUtf8(b) {
      var s := ValidIsEncoded(b);
    }
    if s :| Utf8(s) == b { EncodedIsValid(s); }
  }
}
