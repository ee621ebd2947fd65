/** The payload encryption of uploaded files, with the cipher itself left abstract: a
    pair of functions of which only their inverse law and the tag length are known. */
module Crypto {
  import opened Options
  import opened Text
  import opened Decimal
  import opened Bits
  import opened Folds

  const NONCE_LEN: nat := 12
  const TAG_LEN: nat := 16

  // --- Hexadecimal text --------------------------------------------------------------

  function HexPair(b: Byte): string { [LowerHexDigit(b / 16), LowerHexDigit(b % 16)] }

  function HexEncoded(bytes: seq<Byte>): string { FlatMap(HexPair, bytes) }

  const HEX_DIGITS := "0123456789abcdef"

  lemma DigitTable(n: nat)
    requires n < 16
    ensures LowerHexDigit(n) == HEX_DIGITS[n]
  {
    match n
    case 0 => case 1 => case 2 => case 3 => case 4 => case 5 => case 6 => case 7 =>
    case 8 => case 9 => case 10 => case 11 => case 12 => case 13 => case 14 => case _ =>
  }

  lemma {:induction false} HexLength(bytes: seq<Byte>)
    ensures |HexEncoded(bytes)| == 2 * |bytes|
  {
    if bytes != [] { HexLength(bytes[..|bytes| - 1]); }
  }

  lemma {:induction false} HexDigitsAt(bytes: seq<Byte>, i: nat)
    requires i < |bytes|
    ensures |HexEncoded(bytes)| == 2 * |bytes|
    ensures HexEncoded(bytes)[2 * i] == HEX_DIGITS[bytes[i] / 16]
    ensures HexEncoded(bytes)[2 * i + 1] == HEX_DIGITS[bytes[i] % 16]
    decreases |bytes|
  {
    var init, last := bytes[..|bytes| - 1], bytes[|bytes| - 1];
    HexLength(init);
    assert HexEncoded(bytes) == HexEncoded(init) + HexPair(last);
    if i < |init| {
      HexDigitsAt(init, i);
    } else {
      DigitTable(last / 16);
      DigitTable(last % 16);
    }
  }

  /** `hex_encode`. */
  method HexEncode(bytes: seq<Byte>) returns (out: string)
    ensures out == HexEncoded(bytes)
    ensures |out| == 2 * |bytes|
    ensures forall i :: 0 <= i < |bytes| ==>
      out[2 * i] == HEX_DIGITS[bytes[i] / 16] && out[2 * i + 1] == HEX_DIGITS[bytes[i] % 16]
  {
    out := "";
    for i := 0 to |bytes|
      invariant out == HexEncoded(bytes[..i])
    {
      FlatMapSnoc(HexPair, bytes[..i], bytes[i]);
      assert bytes[..i + 1] == bytes[..i] + [bytes[i]];
      out := out + [LowerHexDigit(bytes[i] / 16)];
      out := out + [LowerHexDigit(bytes[i] % 16)];
    }
    assert bytes[..|bytes|] == bytes;
    forall i | 0 <= i < |bytes|
      ensures |out| == 2 * |bytes| && out[2 * i] == HEX_DIGITS[bytes[i] / 16]
        && out[2 * i + 1] == HEX_DIGITS[bytes[i] % 16]
    {
      HexDigitsAt(bytes, i);
    }
  }

  predicate IsHex(s: string) { forall i :: 0 <= i < |s| ==> HexValue(s[i]).Some? }

  /** The bytes a row of digits denotes, two digits each. */
  function HexBytes(s: string): (r: seq<Byte>)
    requires IsHex(s)
    ensures |r| == |s| / 2
  {
    if |s| < 2 then [] else [16 * HexValue(s[0]).value + HexValue(s[1]).value] + HexBytes(s[2..])
  }

  function ParsedHex(raw: string, n: nat): Option<seq<Byte>> {
    var s := Trim(raw);
    if |s| == 2 * n && IsHex(s) then Some(HexBytes(s)) else None
  }

  lemma {:induction false} HexBytesSnoc(s: string, hi: char, lo: char)
    requires IsHex(s) && |s| % 2 == 0 && HexValue(hi).Some? && HexValue(lo).Some?
    ensures IsHex(s + [hi, lo])
    ensures HexBytes(s + [hi, lo]) == HexBytes(s) + [16 * HexValue(hi).value + HexValue(lo).value]
  {
    var t := s + [hi, lo];
    if s == [] {
      assert t[2..] == [];
    } else {
      HexBytesSnoc(s[2..], hi, lo);
      assert t[2..] == s[2..] + [hi, lo];
    }
  }

  /** `(hi << 4) | lo`. */
  method Nibbles(hi: nat, lo: nat) returns (b: Byte)
    requires hi < 16 && lo < 16
    ensures b == 16 * hi + lo
  {
    OrNibble(hi, lo);
    b := Or(16 * hi, lo);
  }

  lemma NextPair(s: string, i: nat)
    requires 2 * i + 1 < |s|
    ensures s[..2 * (i + 1)] == s[..2 * i] + [s[2 * i], s[2 * i + 1]]
  {
  }

  /** The loop shared by `parse_nonce` and `from_hex`: a fixed buffer filled pair by pair. */
  method ParseHex(raw: string, n: nat) returns (r: Option<seq<Byte>>)
    ensures r == ParsedHex(raw, n)
  {
    var s := Trim(raw);
    if |s| != 2 * n { return None; }
    var bytes := new Byte[n](_ => 0);
    for i := 0 to n
      invariant IsHex(s[..2 * i])
      invariant bytes[..i] == HexBytes(s[..2 * i])
    {
      var hi, lo := HexValue(s[2 * i]), HexValue(s[2 * i + 1]);
      if hi.None? || lo.None? {
        assert !IsHex(s);
        return None;
      }
      HexBytesSnoc(s[..2 * i], s[2 * i], s[2 * i + 1]);
      NextPair(s, i);
      var b := Nibbles(hi.value, lo.value);
      bytes[i] := b;
    }
    assert s[..2 * n] == s && bytes[..n] == bytes[..];
    return Some(bytes[..]);
  }

  lemma {:induction false} HexRoundTrip(bytes: seq<Byte>)
    ensures IsHex(HexEncoded(bytes)) && |HexEncoded(bytes)| == 2 * |bytes|
    ensures HexBytes(HexEncoded(bytes)) == bytes
  {
    if bytes != [] {
      var init, b := bytes[..|bytes| - 1], bytes[|bytes| - 1];
      HexRoundTrip(init);
      HexBytesSnoc(HexEncoded(init), LowerHexDigit(b / 16), LowerHexDigit(b % 16));
      assert bytes == init + [b];
    }
  }

  /** A nonce written by `hex_encode` is read back by `parse_nonce`. */
  lemma ParseEncoded(bytes: seq<Byte>)
    ensures ParsedHex(HexEncoded(bytes), |bytes|) == Some(bytes)
    ensures bytes != [] ==> Trim(HexEncoded(bytes)) != ""
  {
    var s := HexEncoded(bytes);
    HexRoundTrip(bytes);
    if s != [] { assert HexValue(s[0]).Some? && HexValue(s[|s| - 1]).Some?; }
    TrimmedFixed(s);
  }

  // Which texts are read.

  /** The digits at one pair of places spell a byte. */
  predicate IsPair(s: string, i: nat, b: Byte)
    requires 2 * i + 1 < |s|
  {
    HexValue(s[2 * i]) == Some(b / 16) && HexValue(s[2 * i + 1]) == Some(b % 16)
  }

  ghost predicate Spells(s: string, bytes: seq<Byte>) {
    |s| == 2 * |bytes| && forall i :: 0 <= i < |bytes| ==> IsPair(s, i, bytes[i])
  }

  lemma IsHexCons(s: string)
    requires |s| >= 2
    ensures IsHex(s) <==> HexValue(s[0]).Some? && HexValue(s[1]).Some? && IsHex(s[2..])
  {
    if IsHex(s[2..]) {
      forall j | 2 <= j < |s| ensures HexValue(s[j]).Some? { assert s[j] == s[2..][j - 2]; }
    }
  }

  lemma HexBytesCons(s: string, b: Byte, rest: seq<Byte>)
    requires |s| >= 2 && IsHex(s) && IsHex(s[2..])
    ensures HexBytes(s) == [b] + rest <==> IsPair(s, 0, b) && HexBytes(s[2..]) == rest
  {
    var first := 16 * HexValue(s[0]).value + HexValue(s[1]).value;
    assert HexBytes(s) == [first] + HexBytes(s[2..]);
    assert first == b <==> IsPair(s, 0, b);
    SameCons(first, HexBytes(s[2..]), b, rest);
  }

  lemma SameCons<T>(x: T, xs: seq<T>, y: T, ys: seq<T>)
    ensures [x] + xs == [y] + ys <==> x == y && xs == ys
  {
    assert ([x] + xs)[0] == x && ([y] + ys)[0] == y && ([x] + xs)[1..] == xs && ([y] + ys)[1..] == ys;
  }

  lemma {:induction false} SpellsHex(s: string, bytes: seq<Byte>)
    ensures Spells(s, bytes) <==> |s| == 2 * |bytes| && IsHex(s) && HexBytes(s) == bytes
  {
    if |s| == 2 * |bytes| && bytes != [] {
      SpellsHex(s[2..], bytes[1..]);
      SpellsCons(s, bytes);
      IsHexCons(s);
      if IsHex(s) { HexBytesCons(s, bytes[0], bytes[1..]); }
      assert bytes == [bytes[0]] + bytes[1..];
    }
  }

  lemma SpellsCons(s: string, bytes: seq<Byte>)
    requires |s| == 2 * |bytes| && bytes != []
    ensures Spells(s, bytes) <==> IsPair(s, 0, bytes[0]) && Spells(s[2..], bytes[1..])
  {
    forall i | 1 <= i < |bytes| ensures IsPair(s, i, bytes[i]) <==> IsPair(s[2..], i - 1, bytes[1..][i - 1]) {}
    if Spells(s[2..], bytes[1..]) {
      forall i | 1 <= i < |bytes| ensures IsPair(s, i, bytes[i]) { assert IsPair(s[2..], i - 1, bytes[1..][i - 1]); }
    }
  }

  lemma LowerSpells(c: char, n: nat)
    requires n < 16
    ensures LowerChar(c) == HEX_DIGITS[n] <==> HexValue(c) == Some(n)
  {
    DigitTable(n);
  }

  lemma PairIsWritten(s: string, bytes: seq<Byte>, i: nat)
    requires |s| == 2 * |bytes| == |HexEncoded(bytes)| && i < |bytes|
    ensures IsPair(s, i, bytes[i]) <==>
      LowerChar(s[2 * i]) == HexEncoded(bytes)[2 * i] && LowerChar(s[2 * i + 1]) == HexEncoded(bytes)[2 * i + 1]
  {
    HexDigitsAt(bytes, i);
    LowerSpells(s[2 * i], bytes[i] / 16);
    LowerSpells(s[2 * i + 1], bytes[i] % 16);
  }

  lemma DigitIsWritten(s: string, bytes: seq<Byte>, j: nat)
    requires |HexEncoded(bytes)| == 2 * |bytes| == |s| && j < |s| && IsPair(s, j / 2, bytes[j / 2])
    ensures LowerChar(s[j]) == HexEncoded(bytes)[j]
  {
    PairIsWritten(s, bytes, j / 2);
    assert j == 2 * (j / 2) || j == 2 * (j / 2) + 1;
  }

  lemma WrittenFrom(s: string, bytes: seq<Byte>)
    requires |HexEncoded(bytes)| == 2 * |bytes| && Spells(s, bytes)
    ensures Map(LowerChar, s) == HexEncoded(bytes)
  {
    forall j | 0 <= j < |s| ensures Map(LowerChar, s)[j] == HexEncoded(bytes)[j] { DigitIsWritten(s, bytes, j); }
  }

  lemma ReadFrom(s: string, bytes: seq<Byte>)
    requires |HexEncoded(bytes)| == 2 * |bytes| && Map(LowerChar, s) == HexEncoded(bytes)
    ensures Spells(s, bytes)
  {
    forall i | 0 <= i < |bytes| ensures IsPair(s, i, bytes[i]) {
      assert Map(LowerChar, s)[2 * i] == LowerChar(s[2 * i]);
      assert Map(LowerChar, s)[2 * i + 1] == LowerChar(s[2 * i + 1]);
      PairIsWritten(s, bytes, i);
    }
  }

  lemma SpellsWritten(s: string, bytes: seq<Byte>)
    ensures Spells(s, bytes) <==> Map(LowerChar, s) == HexEncoded(bytes)
  {
    HexLength(bytes);
    if Spells(s, bytes) { WrittenFrom(s, bytes); }
    if Map(LowerChar, s) == HexEncoded(bytes) { ReadFrom(s, bytes); }
  }

  /** The bytes read are those whose digits the text holds, in either case and with blanks
      around them. */
  lemma ParsesDigits(raw: string, bytes: seq<Byte>)
    ensures ParsedHex(raw, |bytes|) == Some(bytes) <==> Map(LowerChar, Trim(raw)) == HexEncoded(bytes)
  {
    SpellsHex(Trim(raw), bytes);
    SpellsWritten(Trim(raw), bytes);
  }

  // --- Encryption --------------------------------------------------------------------

  datatype EncryptionKey = EncryptionKey(bytes: seq<Byte>)

  /** Sealing and opening with a key, a nonce and associated data. */
  datatype Cipher = Cipher(
    seal: (EncryptionKey, seq<Byte>, string, seq<Byte>) -> seq<Byte>,
    open: (EncryptionKey, seq<Byte>, string, seq<Byte>) -> Option<seq<Byte>>)

  /** Section 2.8 of RFC 8439: opening inverts sealing, and the tag is sixteen bytes. */
  ghost predicate Lawful(c: Cipher) {
    forall key, nonce, aad, plain ::
      c.open(key, nonce, aad, c.seal(key, nonce, aad, plain)) == Some(plain)
      && |c.seal(key, nonce, aad, plain)| == |plain| + TAG_LEN
  }

  function Overhead(encrypted: bool): nat { if encrypted then TAG_LEN else 0 }

  datatype SizeError = ZeroSize | NoRoomForTag

  /** `max_plaintext_size`. */
  function MaxPlaintextSize(maxFileSize: nat, encrypted: bool): (r: Result<nat, SizeError>)
    ensures r.Ok? ==> r.value + Overhead(encrypted) == maxFileSize
    ensures r.Ok? <==> !encrypted || maxFileSize > 16
    ensures r.Ok? && maxFileSize > 0 ==> r.value > 0
  {
    if !encrypted then Ok(maxFileSize)
    else if maxFileSize > TAG_LEN then Ok(maxFileSize - TAG_LEN)
    else Err(NoRoomForTag)
  }

  /** `decrypt_optional`: a payload without a nonce is taken as it is. */
  function DecryptOptional(c: Cipher, key: Option<EncryptionKey>, nonce: Option<string>, aad: string,
                           bytes: seq<Byte>): Option<seq<Byte>> {
    if nonce.None? || Trim(nonce.value) == "" then Some(bytes)
    else if key.None? then None
    else
      match ParsedHex(nonce.value, NONCE_LEN)
      case None => None
      case Some(n) => c.open(key.value, n, aad, bytes)
  }

  /** A nonce is twelve bytes, written as digits. */
  ghost predicate IsNonceText(text: string, n: seq<Byte>) {
    |n| == 12 && Map(LowerChar, Trim(text)) == HexEncoded(n)
  }

  /** Without a nonce, or with a blank one, the payload is taken as it is; with one it is opened under the key, and
      it is lost if there is no key or the text is not a nonce. */
  lemma DecryptsExactly(c: Cipher, key: Option<EncryptionKey>, nonce: Option<string>, aad: string, bytes: seq<Byte>)
    ensures nonce.None? || IsBlank(nonce.value) ==> DecryptOptional(c, key, nonce, aad, bytes) == Some(bytes)
    ensures nonce.Some? && Trim(nonce.value) != "" && key.None? ==> DecryptOptional(c, key, nonce, aad, bytes) == None
    ensures forall n :: nonce.Some? && key.Some? && IsNonceText(nonce.value, n) ==>
      DecryptOptional(c, key, nonce, aad, bytes) == c.open(key.value, n, aad, bytes)
    ensures nonce.Some? && Trim(nonce.value) != "" && (forall n :: !IsNonceText(nonce.value, n)) ==>
      DecryptOptional(c, key, nonce, aad, bytes) == None
  {
    if nonce.Some? {
      forall n | IsNonceText(nonce.value, n)
        ensures ParsedHex(nonce.value, NONCE_LEN) == Some(n) && Trim(nonce.value) != ""
      {
        ParsesDigits(nonce.value, n);
        HexLength(n);
      }
      if IsBlank(nonce.value) {
        TrimPadded(nonce.value, "", "");
        assert nonce.value + "" + "" == nonce.value;
      }
      var parsed := ParsedHex(nonce.value, NONCE_LEN);
      if parsed.Some? && Trim(nonce.value) != "" {
        ParsesDigits(nonce.value, parsed.value);
        assert IsNonceText(nonce.value, parsed.value);
      }
    }
  }

  /** `db_sync_aad`. */
  function DbSyncAad(snapshotId: string, part: int): string { "db-sync/" + snapshotId + "/" + FormatInt(part) }

  /** Different parts of different snapshots never share their associated data. */
  lemma AadInjective(id: string, part: int, id': string, part': int)
    requires DbSyncAad(id, part) == DbSyncAad(id', part')
    ensures id == id' && part == part'
  {
    var a, b := "db-sync/" + id, "db-sync/" + id';
    var n, m := FormatInt(part), FormatInt(part');
    NumberHasNoSlash(part);
    NumberHasNoSlash(part');
    LastPartAfter(a, '/', n);
    LastPartAfter(b, '/', m);
    assert DbSyncAad(id, part) == a + ['/'] + n && DbSyncAad(id', part') == b + ['/'] + m;
    assert n == m;
    var low, high := if part < part' then part else part', if part < part' then part' else part;
    var min, max := if low < 0 then low else 0, if high > 0 then high else 0;
    ParseFormatInt(part, min, max);
    ParseFormatInt(part', min, max);
    var whole := DbSyncAad(id, part);
    assert a == whole[..|whole| - |n| - 1] && b == whole[..|whole| - |m| - 1];
    assert id == a[8..] && id' == b[8..];
  }

  lemma NumberHasNoSlash(i: int)
    ensures '/' !in FormatInt(i)
    ensures LastPart(FormatInt(i), '/') == FormatInt(i)
  {
    if i < 0 { assert FormatInt(i) == "-" + Format(-i); }
  }
}
