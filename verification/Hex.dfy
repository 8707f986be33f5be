/** Hexadecimal text of byte strings (section 8 of RFC 4648), written in lower case. */
module Hex {
  import opened Domain

  const DIGITS := "0123456789abcdef"

  /** The value of a digit in either case. */
  function DigitValue(c: char): (v: Option<byte>)
    ensures v.Some? ==> v.value < 16
  {
    if '0' <= c <= '9' then Some((c as int - '0' as int) as byte)
    else if 'a' <= c <= 'f' then Some((c as int - 'a' as int + 10) as byte)
    else if 'A' <= c <= 'F' then Some((c as int - 'A' as int + 10) as byte)
    else None
  }

  function Encode(bs: Bytes): string {
    if bs == [] then ""
    else [DIGITS[bs[0] / 16], DIGITS[bs[0] % 16]] + Encode(bs[1..])
  }

  /** Both cases are read; an odd length or any other character is an error. */
  function Decode(s: string): Option<Bytes> {
    if s == "" then Some([])
    else if |s| == 1 then None
    else
      match (DigitValue(s[0]), DigitValue(s[1]), Decode(s[2..]))
      case (Some(hi), Some(lo), Some(rest)) => Some([16 * hi + lo] + rest)
      case _ => None
  }

  function LowerChar(c: char): char {
    if 'A' <= c <= 'Z' then (c as int + 32) as char else c
  }

  function Lower(s: string): string {
    seq(|s|, i requires 0 <= i < |s| => LowerChar(s[i]))
  }

  lemma DigitRoundTrip(v: byte)
    requires v < 16
    ensures DigitValue(DIGITS[v]) == Some(v)
  {
    assert v < 10 ==> DIGITS[v] == ('0' as int + v as int) as char;
    assert v >= 10 ==> DIGITS[v] == ('a' as int + v as int - 10) as char;
  }

  lemma DigitIff(c: char, v: byte)
    requires v < 16
    ensures DigitValue(c) == Some(v) <==> LowerChar(c) == DIGITS[v]
  {
    DigitRoundTrip(v);
    if DigitValue(c) == Some(v) {
      assert DigitValue(LowerChar(c)) == Some(v);
      assert v < 10 ==> DIGITS[v] == ('0' as int + v as int) as char;
      assert v >= 10 ==> DIGITS[v] == ('a' as int + v as int - 10) as char;
    }
  }

  /** A text decodes to `bs` exactly when it is, up to the case of its letters, the encoding of `bs`. */
  lemma {:induction false} DecodesIff(s: string, bs: Bytes)
    ensures Decode(s) == Some(bs) <==> Lower(s) == Encode(bs)
    decreases |s|
  {
    if s != "" && |s| != 1 && bs != [] {
      var hi, lo := bs[0] / 16, bs[0] % 16;
      DecodesIff(s[2..], bs[1..]);
      DigitIff(s[0], hi);
      DigitIff(s[1], lo);
      assert Lower(s) == [LowerChar(s[0]), LowerChar(s[1])] + Lower(s[2..]);
      assert Encode(bs) == [DIGITS[hi], DIGITS[lo]] + Encode(bs[1..]);
      if Lower(s) == Encode(bs) {
        assert Lower(s)[0] == DIGITS[hi] && Lower(s)[1] == DIGITS[lo];
        assert Lower(s)[2..] == Lower(s[2..]) && Encode(bs)[2..] == Encode(bs[1..]);
        assert [bs[0]] + bs[1..] == bs;
      }
      if Decode(s) == Some(bs) {
        PartsOfDecode(s, bs);
      }
    }
  }

  lemma PartsOfDecode(s: string, bs: Bytes)
    requires |s| >= 2 && bs != [] && Decode(s) == Some(bs)
    ensures DigitValue(s[0]) == Some(bs[0] / 16) && DigitValue(s[1]) == Some(bs[0] % 16)
    ensures Decode(s[2..]) == Some(bs[1..])
  {
    var hi, lo := DigitValue(s[0]).value, DigitValue(s[1]).value;
    assert bs[0] == 16 * hi + lo;
    assert bs[0] / 16 == hi && bs[0] % 16 == lo;
  }

  lemma EncodeIsLower(bs: Bytes)
    ensures Lower(Encode(bs)) == Encode(bs)
  {
    if bs == [] {
    } else {
      EncodeIsLower(bs[1..]);
      var hi, lo := bs[0] / 16, bs[0] % 16;
      assert LowerChar(DIGITS[hi]) == DIGITS[hi] && LowerChar(DIGITS[lo]) == DIGITS[lo] by {
        DigitRoundTrip(hi);
        DigitRoundTrip(lo);
        DigitIff(DIGITS[hi], hi);
        DigitIff(DIGITS[lo], lo);
      }
      assert Lower(Encode(bs)) == [LowerChar(DIGITS[hi]), LowerChar(DIGITS[lo])] + Lower(Encode(bs[1..]));
    }
  }

  lemma RoundTrip(bs: Bytes)
    ensures Decode(Encode(bs)) == Some(bs)
  {
    EncodeIsLower(bs);
    DecodesIff(Encode(bs), bs);
  }

  lemma EncodeInjective(a: Bytes, b: Bytes)
    ensures Encode(a) == Encode(b) <==> a == b
  {
    RoundTrip(a);
    RoundTrip(b);
  }
}
