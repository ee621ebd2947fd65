/** Bytes, hexadecimal digits, and bitwise operations on unsigned machine words as
    functions on natural numbers. Exclusive or, or, and the count of set bits act digit
    by digit in base 2. */
module Bits {
  import opened Options

  type Byte = b: int | 0 <= b < 256

  function HexValue(c: char): (r: Option<nat>)
    ensures r.Some? ==> r.value < 16
  {
    if '0' <= c <= '9' then Some(c as int - '0' as int)
    else if 'A' <= c <= 'F' then Some(c as int - 'A' as int + 10)
    else if 'a' <= c <= 'f' then Some(c as int - 'a' as int + 10)
    else None
  }

  function UpperHexDigit(n: nat): (c: char)
    requires n < 16
    ensures HexValue(c) == Some(n)
  {
    if n < 10 then ('0' as int + n) as char else ('A' as int + n - 10) as char
  }

  function LowerHexDigit(n: nat): (c: char)
    requires n < 16
    ensures HexValue(c) == Some(n)
  {
    if n < 10 then ('0' as int + n) as char else ('a' as int + n - 10) as char
  }

  function Xor(a: nat, b: nat): nat
    decreases a + b
  {
    if a == 0 && b == 0 then 0
    else 2 * Xor(a / 2, b / 2) + (if a % 2 == b % 2 then 0 else 1)
  }

  function Or(a: nat, b: nat): nat
    decreases a + b
  {
    if a == 0 && b == 0 then 0
    else 2 * Or(a / 2, b / 2) + (if a % 2 == 1 || b % 2 == 1 then 1 else 0)
  }

  function CountOnes(a: nat): nat {
    if a == 0 then 0 else CountOnes(a / 2) + a % 2
  }

  /** The value of the bit at place `i`. */
  function Bit(a: nat, i: nat): nat { if i == 0 then a % 2 else Bit(a / 2, i - 1) }

  /** The places, of the lowest `n`, at which two numbers differ. */
  ghost function Differing(a: nat, b: nat, n: nat): set<int> { set i: nat | i < n && Bit(a, i) != Bit(b, i) }

  ghost function Raised(places: set<int>): set<int> { set i | i in places :: i + 1 }

  lemma Pick<T>(s: set<T>) returns (x: T)
    requires s != {}
    ensures x in s
  {
    x :| x in s;
  }

  lemma RaisedHolds(places: set<int>, i: int)
    ensures i in Raised(places) <==> i - 1 in places
  {
    if i - 1 in places { assert (i - 1) + 1 in Raised(places); }
  }

  lemma {:induction false} RaisedCount(places: set<int>)
    ensures |Raised(places)| == |places|
    decreases places
  {
    if places == {} {
      assert Raised(places) == {};
    } else {
      var i := Pick(places);
      RaisedHolds(places - {i}, i + 1);
      var rest := places - {i};
      RaisedCount(rest);
      forall j ensures j in Raised(places) <==> j in Raised(rest) + {i + 1} {
        RaisedHolds(places, j);
        RaisedHolds(rest, j);
      }
      assert Raised(places) == Raised(rest) + {i + 1};
      assert i + 1 !in Raised(rest);
    }
  }

  lemma DifferingStep(a: nat, b: nat, n: nat)
    requires n > 0
    ensures Differing(a, b, n) == Raised(Differing(a / 2, b / 2, n - 1)) + (if a % 2 != b % 2 then {0} else {})
  {
    var rest := Differing(a / 2, b / 2, n - 1);
    forall i: int
      ensures i in Differing(a, b, n) <==> (i in Raised(rest) || (i == 0 && a % 2 != b % 2))
    {
      RaisedHolds(rest, i);
      if 0 < i < n { assert Bit(a, i) == Bit(a / 2, i - 1) && Bit(b, i) == Bit(b / 2, i - 1); }
    }
  }

  lemma CountDouble(z: nat, d: nat)
    requires d < 2
    ensures CountOnes(2 * z + d) == CountOnes(z) + d
  {
    assert (2 * z + d) / 2 == z && (2 * z + d) % 2 == d;
  }

  /** The ones of an exclusive or are the places at which the two numbers differ. */
  lemma {:induction false} OnesDiffer(a: nat, b: nat, n: nat)
    requires a < Shifted(1, n) && b < Shifted(1, n)
    ensures CountOnes(Xor(a, b)) == |Differing(a, b, n)|
    decreases n
  {
    if n == 0 {
      assert Differing(a, b, 0) == {};
    } else {
      OnesDiffer(a / 2, b / 2, n - 1);
      CountDouble(Xor(a / 2, b / 2), if a % 2 == b % 2 then 0 else 1);
      DifferingStep(a, b, n);
      RaisedCount(Differing(a / 2, b / 2, n - 1));
      assert 0 !in Raised(Differing(a / 2, b / 2, n - 1));
    }
  }

  lemma ShiftedWord()
    ensures Shifted(1, 32) == 0x1_0000_0000
  {
    assert Shifted(1, 4) == 16 by { ShiftedFour(1); }
    assert Shifted(1, 6) == 64;
    assert Shifted(1, 8) == 256;
    assert Shifted(1, 10) == 1024;
    assert Shifted(1, 12) == 4096;
    assert Shifted(1, 14) == 16384;
    assert Shifted(1, 16) == 65536;
    assert Shifted(1, 18) == 262144;
    assert Shifted(1, 20) == 1048576;
    assert Shifted(1, 22) == 4194304;
    assert Shifted(1, 24) == 16777216;
    assert Shifted(1, 26) == 67108864;
    assert Shifted(1, 28) == 268435456;
    assert Shifted(1, 30) == 1073741824;
  }

  lemma {:induction false} XorZero(a: nat, b: nat)
    ensures Xor(a, b) == 0 <==> a == b
    decreases a + b
  {
    if a != 0 || b != 0 { XorZero(a / 2, b / 2); }
  }

  lemma {:induction false} OrZero(a: nat, b: nat)
    ensures Or(a, b) == 0 <==> a == 0 && b == 0
    decreases a + b
  {
    if a != 0 || b != 0 { OrZero(a / 2, b / 2); }
  }

  lemma OrDouble(a: nat, b: nat)
    ensures Or(2 * a, b) == 2 * Or(a, b / 2) + b % 2
  {
    assert (2 * a) / 2 == a;
  }

  /** A left shift. */
  function Shifted(a: nat, n: nat): nat {
    if n == 0 then a else 2 * Shifted(a, n - 1)
  }

  /** Or-ing a small number into the zero bits a shift has made is an addition. */
  lemma {:induction false} OrShifted(a: nat, v: nat, n: nat)
    requires v < Shifted(1, n)
    ensures Or(Shifted(a, n), v) == Shifted(a, n) + v
  {
    if n == 0 {
      OrNone(a);
    } else {
      OrShifted(a, v / 2, n - 1);
      OrDouble(Shifted(a, n - 1), v);
    }
  }

  lemma {:induction false} OrNone(a: nat)
    ensures Or(a, 0) == a
  {
    if a != 0 { OrNone(a / 2); }
  }

  lemma ShiftedFour(a: nat)
    ensures Shifted(a, 4) == 16 * a
  {
    assert Shifted(a, 1) == 2 * a;
    assert Shifted(a, 2) == 4 * a;
  }

  lemma OrNibble(a: nat, v: nat)
    requires v < 16
    ensures Or(16 * a, v) == 16 * a + v
  {
    ShiftedFour(a);
    ShiftedFour(1);
    OrShifted(a, v, 4);
  }
}
