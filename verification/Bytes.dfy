/** Big-endian integers and hexadecimal strings. */
module Bytes {
  import Collections
  import opened Wrappers

  type byte = x: int | 0 <= x < 256
  type digit = x: int | 0 <= x < 16

  function Pow(b: nat, n: nat): nat {
    if n == 0 then 1 else b * Pow(b, n - 1)
  }

  /** The n-byte big-endian encoding of v modulo 256^n. */
  function BigEndian(v: nat, n: nat): (r: seq<byte>)
    ensures |r| == n
  {
    if n == 0 then [] else BigEndian(v / 256, n - 1) + [v % 256]
  }

  /** The number a byte string denotes. */
  function Value(bytes: seq<byte>): nat {
    if bytes == [] then 0 else 256 * Value(bytes[..|bytes| - 1]) + bytes[|bytes| - 1]
  }

  /** Decoding inverts encoding on numbers that fit. */
  lemma {:induction false} ValueOfBigEndian(v: nat, n: nat)
    requires v < Pow(256, n)
    ensures Value(BigEndian(v, n)) == v
  {
    if n > 0 {
      ValueOfBigEndian(v / 256, n - 1);
      assert BigEndian(v, n)[..n - 1] == BigEndian(v / 256, n - 1);
    }
  }

  lemma BigEndianInjective(v: nat, w: nat, n: nat)
    requires v < Pow(256, n) && w < Pow(256, n) && BigEndian(v, n) == BigEndian(w, n)
    ensures v == w
  {
    ValueOfBigEndian(v, n);
    ValueOfBigEndian(w, n);
  }

  // Hexadecimal

  function HexChar(d: digit): char { "0123456789abcdef"[d] }

  /** The value of a hexadecimal digit of either case. */
  function DigitOf(c: char): Option<digit> {
    if '0' <= c <= '9' then Some(c as int - '0' as int)
    else if 'a' <= c <= 'f' then Some(c as int - 'a' as int + 10)
    else if 'A' <= c <= 'F' then Some(c as int - 'A' as int + 10)
    else None
  }

  /** Digits of both cases, and nothing else. */
  lemma DigitsAre(d: digit, c: char)
    ensures DigitOf("0123456789abcdef"[d]) == DigitOf("0123456789ABCDEF"[d]) == Some(d)
    ensures DigitOf(c).Some? ==> c == "0123456789abcdef"[DigitOf(c).value] || c == "0123456789ABCDEF"[DigitOf(c).value]
  {
  }

  lemma DigitOfHexChar(d: digit)
    ensures DigitOf(HexChar(d)) == Some(d)
  {
  }

  /** '{:x}'.format(v) */
  function Hex(v: nat): (s: string)
    ensures |s| > 0
  {
    if v < 16 then [HexChar(v)] else Hex(v / 16) + [HexChar(v % 16)]
  }

  function Zeros(n: nat): string { Collections.Repeat('0', n) }

  /** str.zfill on a string without a sign. */
  function Zfill(s: string, width: nat): string {
    if |s| < width then Zeros(width - |s|) + s else s
  }

  /** Bytes from pairs of hexadecimal digits; odd lengths and other characters are errors. */
  function DecodeHex(s: string): Option<seq<byte>> {
    if s == [] then Some([])
    else if |s| == 1 then None
    else
      match DecodeHex(s[..|s| - 2])
      case None => None
      case Some(front) =>
        match (DigitOf(s[|s| - 2]), DigitOf(s[|s| - 1]))
        case (Some(h), Some(l)) =>
          var b: byte := 16 * (h as int) + (l as int);
          Some(front + [b])
        case _ => None
  }

  /** The k lowest hexadecimal digits of v. */
  function HexDigits(v: nat, k: nat): (s: string)
    ensures |s| == k
  {
    if k == 0 then [] else HexDigits(v / 16, k - 1) + [HexChar(v % 16)]
  }

  lemma {:induction false} HexDigitsOfZero(k: nat)
    ensures HexDigits(0, k) == Zeros(k)
  {
    if k > 0 {
      HexDigitsOfZero(k - 1);
      assert Zeros(k) == Zeros(k - 1) + ['0'];
    }
  }

  /** The number of digits of v decides how it compares with powers of 16. */
  lemma {:induction false} HexLength(v: nat, k: nat)
    requires k > 0
    ensures |Hex(v)| <= k <==> v < Pow(16, k)
  {
    if v >= 16 {
      if k == 1 {
        assert Pow(16, 1) == 16 * Pow(16, 0);
      } else {
        HexLength(v / 16, k - 1);
      }
    } else {
      PowPositive(16, k - 1);
    }
  }

  lemma {:induction false} PowPositive(b: nat, n: nat)
    requires b > 0
    ensures Pow(b, n) > 0
  {
    if n > 0 {
      PowPositive(b, n - 1);
    }
  }

  /** Formatting and zero-filling produce the fixed-width digits of a number that fits. */
  lemma {:induction false} ZfillHex(v: nat, k: nat)
    requires k > 0 && v < Pow(16, k)
    ensures Zfill(Hex(v), k) == HexDigits(v, k)
  {
    if v < 16 {
      HexDigitsOfZero(k - 1);
      assert v / 16 == 0 && v % 16 == v;
    } else {
      assert Pow(16, 1) == 16 * Pow(16, 0);
      ZfillHex(v / 16, k - 1);
      HexLength(v / 16, k - 1);
      ZfillSnoc(Hex(v / 16), HexChar(v % 16), k - 1);
    }
  }

  lemma ZfillSnoc(s: string, c: char, k: nat)
    ensures Zfill(s + [c], k + 1) == Zfill(s, k) + [c]
  {
  }

  lemma TwoDigits(v: nat)
    ensures v / 16 / 16 == v / 256
    ensures 16 * (v / 16 % 16) + v % 16 == v % 256
  {
  }

  lemma HexDigitsTwo(v: nat, k: nat)
    ensures HexDigits(v, k + 2) == HexDigits(v / 256, k) + [HexChar(v / 16 % 16), HexChar(v % 16)]
  {
    TwoDigits(v);
    assert HexDigits(v / 16, k + 1) == HexDigits(v / 16 / 16, k) + [HexChar(v / 16 % 16)];
  }

  lemma DecodePair(s: string, front: seq<byte>, c: char, d: char, h: digit, l: digit)
    requires DecodeHex(s) == Some(front) && DigitOf(c) == Some(h) && DigitOf(d) == Some(l)
    ensures DecodeHex(s + [c, d]) == Some(front + [16 * h + l])
  {
    var t := s + [c, d];
    assert t[..|t| - 2] == s && t[|t| - 2] == c && t[|t| - 1] == d;
  }

  /** The digits h and l decode to the byte they denote. */
  lemma DecodeDigits(s: string, front: seq<byte>, h: digit, l: digit, b: byte)
    requires DecodeHex(s) == Some(front) && 16 * h + l == b
    ensures DecodeHex(s + [HexChar(h), HexChar(l)]) == Some(front + [b])
  {
    DigitOfHexChar(h);
    DigitOfHexChar(l);
    DecodePair(s, front, HexChar(h), HexChar(l), h, l);
  }

  /** Both representations of v without its lowest byte b, whose digits are h and l. */
  lemma SplitByte(v: nat, n: nat) returns (rest: nat, h: digit, l: digit, b: byte)
    requires n > 0
    ensures 16 * h + l == b
    ensures HexDigits(v, 2 * n) == HexDigits(rest, 2 * n - 2) + [HexChar(h), HexChar(l)]
    ensures BigEndian(v, n) == BigEndian(rest, n - 1) + [b]
  {
    rest, h, l, b := v / 256, v / 16 % 16, v % 16, v % 256;
    HexDigitsTwo(v, 2 * n - 2);
    TwoDigits(v);
  }

  /** Decoding the 2n digits of v yields its n-byte big-endian encoding. */
  lemma {:induction false} DecodeHexDigits(v: nat, n: nat)
    ensures DecodeHex(HexDigits(v, 2 * n)) == Some(BigEndian(v, n))
    decreases n
  {
    if n > 0 {
      var rest, h, l, b := SplitByte(v, n);
      DecodeHexDigits(rest, n - 1);
      DecodeDigits(HexDigits(rest, 2 * n - 2), BigEndian(rest, n - 1), h, l, b);
    }
  }

  lemma {:induction false} DecodeLength(s: string)
    ensures DecodeHex(s).Some? ==> |s| == 2 * |DecodeHex(s).value|
  {
    if |s| > 1 {
      DecodeLength(s[..|s| - 2]);
    }
  }

  lemma {:induction false} Pow16Twice(n: nat)
    ensures Pow(16, 2 * n) == Pow(256, n)
  {
    if n > 0 {
      Pow16Twice(n - 1);
      assert Pow(16, 2 * n) == 16 * (16 * Pow(16, 2 * n - 2));
    }
  }

  /** Text as bytes, for characters below 128. */
  type ascii = s: string | forall i :: 0 <= i < |s| ==> s[i] < 128 as char

  function Encode(s: ascii): (r: seq<byte>)
    ensures |r| == |s|
  {
    seq(|s|, i requires 0 <= i < |s| => s[i] as int)
  }
}
