/** Rendering of a digest as text, as `hash` in src/targets/xbps.rs and
    `validate` in src/main.rs do it: `format!("{:02x}", d.plain_hex(false))`
    prints every byte as two lowercase hexadecimal digits, with no separator. */
module Hex {
  import opened Wrappers

  newtype byte = x: int | 0 <= x < 256

  /** A character `{:x}` may print: `0`-`9` and the lowercase `a`-`f`. */
  predicate IsHexDigit(c: char) {
    '0' <= c <= '9' || 'a' <= c <= 'f'
  }

  predicate IsLowerHex(s: string) {
    forall i :: 0 <= i < |s| ==> IsHexDigit(s[i])
  }

  /** The digit `{:x}` prints for a value below sixteen. */
  function Digit(n: nat): (c: char)
    requires n < 16
    ensures IsHexDigit(c)
  {
    if n < 10 then ('0' as int + n) as char else ('a' as int + (n - 10)) as char
  }

  /** One byte as exactly two digits, high nibble first (`{:02x}`). */
  function HexByte(b: byte): (s: string)
    ensures |s| == 2
  {
    [Digit(b as int / 16), Digit(b as int % 16)]
  }

  /** The digest as text: the bytes' renderings concatenated in order. */
  function ToHex(bs: seq<byte>): (s: string)
    ensures |s| == 2 * |bs|
  {
    if bs == [] then "" else HexByte(bs[0]) + ToHex(bs[1..])
  }

  /** The rendering uses only the sixteen lowercase digits. */
  lemma {:induction false} ToHexIsLowerHex(bs: seq<byte>)
    ensures IsLowerHex(ToHex(bs))
  {
    if bs != [] {
      ToHexIsLowerHex(bs[1..]);
      var h, t := HexByte(bs[0]), ToHex(bs[1..]);
      assert IsHexDigit(h[0]) && IsHexDigit(h[1]);
      forall i | 0 <= i < |h + t| ensures IsHexDigit((h + t)[i]) {
        if i < |h| { assert (h + t)[i] == h[i]; } else { assert (h + t)[i] == t[i - |h|]; }
      }
    }
  }

  /** The value of one lowercase digit; anything else (an upper-case digit
      included) is not a digit. */
  function DigitValue(c: char): (v: Option<nat>)
    ensures v.Some? ==> v.value < 16
  {
    if '0' <= c <= '9' then Some(c as int - '0' as int)
    else if 'a' <= c <= 'f' then Some(c as int - 'a' as int + 10)
    else None
  }

  /** `DigitValue` inverts `Digit`: exactly the sixteen digits have a value,
      and `Digit` prints that value as the same character. */
  lemma DigitValueMeaning(c: char)
    ensures DigitValue(c).Some? <==> IsHexDigit(c)
    ensures DigitValue(c).Some? ==> Digit(DigitValue(c).value) == c
  {
  }

  /** Reading a lowercase hex text back into bytes; `None` for an odd length or
      for any character outside the alphabet. */
  function FromHex(s: string): (r: Option<seq<byte>>)
    ensures r.Some? ==> 2 * |r.value| == |s|
  {
    if |s| < 2 then (if s == "" then Some([]) else None)
    else
      var hi, lo, rest := DigitValue(s[0]), DigitValue(s[1]), FromHex(s[2..]);
      if hi.Some? && lo.Some? && rest.Some? then Some([(hi.value * 16 + lo.value) as byte] + rest.value)
      else None
  }

  /** Digit `k` reads back as `k`. */
  lemma DigitValueOfDigit(k: nat)
    requires k < 16
    ensures DigitValue(Digit(k)) == Some(k)
  {
  }

  /** Two digits in front of a readable text read as one more byte in front. */
  lemma FromHexPair(c0: char, c1: char, rest: string, b: byte)
    requires DigitValue(c0) == Some(b as int / 16) && DigitValue(c1) == Some(b as int % 16)
    requires FromHex(rest).Some?
    ensures FromHex([c0, c1] + rest) == Some([b] + FromHex(rest).value)
  {
    assert ([c0, c1] + rest)[2..] == rest;
  }

  /** The two digits of a byte read back as that byte. */
  lemma FromHexByte(b: byte, rest: string)
    requires FromHex(rest).Some?
    ensures FromHex(HexByte(b) + rest) == Some([b] + FromHex(rest).value)
  {
    var hi, lo := b as int / 16, b as int % 16;
    assert HexByte(b) + rest == [Digit(hi), Digit(lo)] + rest;
    DigitValueOfDigit(hi);
    DigitValueOfDigit(lo);
    FromHexPair(Digit(hi), Digit(lo), rest, b);
  }

  /** Reading the rendering back gives the digest: the rendering loses nothing. */
  lemma {:induction false} FromToHex(bs: seq<byte>)
    ensures FromHex(ToHex(bs)) == Some(bs)
  {
    if bs != [] {
      FromToHex(bs[1..]);
      FromHexByte(bs[0], ToHex(bs[1..]));
      assert [bs[0]] + bs[1..] == bs;
    }
  }

  /** Two digests render alike only when they are the same digest, so comparing
      renderings is comparing digests. */
  lemma ToHexInjective(a: seq<byte>, b: seq<byte>)
    ensures ToHex(a) == ToHex(b) <==> a == b
  {
    if ToHex(a) == ToHex(b) {
      FromToHex(a);
      FromToHex(b);
    }
  }

  /** The byte two digits stand for renders as those two digits. */
  lemma HexBytePair(c0: char, c1: char, hi: nat, lo: nat)
    requires DigitValue(c0) == Some(hi) && DigitValue(c1) == Some(lo)
    ensures HexByte((hi * 16 + lo) as byte) == [c0, c1]
  {
    DigitValueMeaning(c0);
    DigitValueMeaning(c1);
    var b := (hi * 16 + lo) as byte;
    assert b as int / 16 == hi && b as int % 16 == lo;
  }

  lemma ToHexCons(b: byte, rest: seq<byte>)
    ensures ToHex([b] + rest) == HexByte(b) + ToHex(rest)
  {
    assert ([b] + rest)[1..] == rest;
  }

  /** Reading a text and rendering the bytes gives the text back: whatever
      `FromHex` accepts is already in the one rendering `ToHex` produces. */
  lemma {:induction false} ToFromHex(s: string)
    requires FromHex(s).Some?
    ensures ToHex(FromHex(s).value) == s
  {
    if |s| >= 2 {
      var hi, lo := DigitValue(s[0]).value, DigitValue(s[1]).value;
      var b := (hi * 16 + lo) as byte;
      var rest := FromHex(s[2..]).value;
      assert FromHex(s).value == [b] + rest;
      ToFromHex(s[2..]);
      HexBytePair(s[0], s[1], hi, lo);
      ToHexCons(b, rest);
      assert s == [s[0], s[1]] + s[2..];
    }
  }

  /** A text is the rendering of a digest exactly when it reads back as that
      digest. */
  lemma ToHexIffFromHex(d: seq<byte>, s: string)
    ensures ToHex(d) == s <==> FromHex(s) == Some(d)
  {
    FromToHex(d);
    if FromHex(s) == Some(d) {
      ToFromHex(s);
    }
  }
}
