/** Bytes, 64-byte digests and their lowercase hexadecimal rendering (Go's `fmt.Sprintf("%x", …)`,
    Python's `hexdigest()`, Go's `hex.DecodeString`). */
module Hex {
  import opened Wrappers
  import opened Strings

  newtype byte = x: int | 0 <= x < 256

  /** The output of SHA-512 and of HMAC-SHA512: 64 bytes. */
  type Digest = d: seq<byte> | |d| == 64 witness seq(64, _ => 0 as byte)

  /** A keyed MAC over (key, message), standing for HMAC-SHA512 over the UTF-8 bytes of both. */
  type Hmac = (string, string) -> Digest

  /** A hash of the UTF-8 bytes of a string, standing for SHA-512. */
  type Hash = string -> Digest

  predicate IsLowerHexChar(c: char)
  {
    '0' <= c <= '9' || 'a' <= c <= 'f'
  }

  predicate IsLowerHex(s: string)
  {
    forall i :: 0 <= i < |s| ==> IsLowerHexChar(s[i])
  }

  function HexDigit(n: nat): (c: char)
    requires n < 16
    ensures IsLowerHexChar(c)
  {
    if n < 10 then ('0' as int + n) as char else ('a' as int + n - 10) as char
  }

  /** The value of a hexadecimal digit in either case, as `hex.DecodeString` reads it. */
  function DigitValue(c: char): (r: Option<nat>)
    ensures r.Some? ==> r.value < 16
  {
    if '0' <= c <= '9' then Some(c as int - '0' as int)
    else if 'a' <= c <= 'f' then Some(c as int - 'a' as int + 10)
    else if 'A' <= c <= 'F' then Some(c as int - 'A' as int + 10)
    else None
  }

  lemma DigitValueOfHexDigit(n: nat)
    requires n < 16
    ensures DigitValue(HexDigit(n)) == Some(n)
  {
  }

  /** Two lowercase hex digits per byte, high nibble first. */
  function HexLower(b: seq<byte>): (r: string)
    ensures |r| == 2 * |b|
    ensures IsLowerHex(r)
  {
    if b == [] then ""
    else [HexDigit(b[0] as int / 16), HexDigit(b[0] as int % 16)] + HexLower(b[1..])
  }

  /** Every digest renders as exactly 128 lowercase hex characters. */
  lemma DigestHexShape(d: Digest)
    ensures |HexLower(d)| == 128 && IsLowerHex(HexLower(d))
  {
  }

  /** `hex.DecodeString`: an odd length or a non-hex character is an error. */
  function HexDecode(s: string): (r: Option<seq<byte>>)
    ensures r.Some? ==> 2 * |r.value| == |s|
    decreases |s|
  {
    if |s| == 0 then Some([])
    else if |s| == 1 then None
    else match (DigitValue(s[0]), DigitValue(s[1]), HexDecode(s[2..]))
      case (Some(hi), Some(lo), Some(rest)) => Some([(hi * 16 + lo) as byte] + rest)
      case _ => None
  }

  /** Decoding the rendering gives the bytes back. */
  lemma {:induction false} HexDecodeHexLower(b: seq<byte>)
    ensures HexDecode(HexLower(b)) == Some(b)
  {
    if b != [] {
      var s := HexLower(b);
      var hi, lo := b[0] as int / 16, b[0] as int % 16;
      assert s[0] == HexDigit(hi) && s[1] == HexDigit(lo);
      assert s[2..] == HexLower(b[1..]);
      DigitValueOfHexDigit(hi);
      DigitValueOfHexDigit(lo);
      HexDecodeHexLower(b[1..]);
      assert (hi * 16 + lo) as byte == b[0];
      assert HexDecode(s) == Some([b[0]] + b[1..]);
      assert [b[0]] + b[1..] == b;
    }
  }

  /** Distinct byte strings render differently, so comparing renderings compares the bytes. */
  lemma HexLowerInjective(a: seq<byte>, b: seq<byte>)
    ensures HexLower(a) == HexLower(b) <==> a == b
  {
    if HexLower(a) == HexLower(b) {
      HexDecodeHexLower(a);
      HexDecodeHexLower(b);
    }
  }

  /** A comparison that inspects every position (Go's `subtle.ConstantTimeCompare`, Python's
      `hmac.compare_digest`); it answers exactly equality. */
  function ConstantTimeEquals<T(==)>(a: seq<T>, b: seq<T>): (r: bool)
    ensures r <==> a == b
  {
    |a| == |b| && forall i :: 0 <= i < |a| ==> a[i] == b[i]
  }

  /** A s equals the rendering of a digest exactly when it is lowercase and decodes to it. */
  lemma LowercaseHexIsRendering(s: string, d: seq<byte>)
    ensures s == HexLower(d) <==> HexDecode(s) == Some(d) && s == Lower(s)
  {
    HexDecodeHexLower(d);
    if HexDecode(s) == Some(d) && s == Lower(s) {
      DecodedLowercaseIsRendering(s, d);
    }
  }

  lemma {:induction false} DecodedLowercaseIsRendering(s: string, b: seq<byte>)
    requires HexDecode(s) == Some(b) && s == Lower(s)
    ensures s == HexLower(b)
    decreases |s|
  {
    if |s| > 0 {
      var hi, lo := DigitValue(s[0]).value, DigitValue(s[1]).value;
      var rest := HexDecode(s[2..]).value;
      assert b == [(hi * 16 + lo) as byte] + rest;
      assert b[1..] == rest;
      assert s[2..] == Lower(s[2..]);
      DecodedLowercaseIsRendering(s[2..], b[1..]);
      assert b[0] as int / 16 == hi && b[0] as int % 16 == lo;
      LowerDigitIsHexDigit(s[0], hi);
      LowerDigitIsHexDigit(s[1], lo);
    }
  }

  lemma LowerDigitIsHexDigit(c: char, n: nat)
    requires DigitValue(c) == Some(n) && c == LowerChar(c)
    ensures HexDigit(n) == c
  {
  }

}
