/** The base 64 encoding of section 4 of RFC 4648 (alphabet `A-Z a-z 0-9 + /`,
    `=` padding), as `Buffer.prototype.toString('base64')` produces it, and a
    decoder that inverts it. */
module Base64 {
  import opened Utf8
  import opened Wrappers

  /** The character for a 6-bit value (Table 1 of RFC 4648). */
  function Sextet(i: nat): (c: char)
    requires i < 64
  {
    if i < 26 then ('A' as int + i) as char
    else if i < 52 then ('a' as int + (i - 26)) as char
    else if i < 62 then ('0' as int + (i - 52)) as char
    else if i == 62 then '+'
    else '/'
  }

  /** The 6-bit value of an alphabet character; `None` for any other character. */
  function SextetValue(c: char): (r: Option<nat>)
    ensures r.Some? ==> r.value < 64
  {
    if 'A' <= c <= 'Z' then Some(c as int - 'A' as int)
    else if 'a' <= c <= 'z' then Some(c as int - 'a' as int + 26)
    else if '0' <= c <= '9' then Some(c as int - '0' as int + 52)
    else if c == '+' then Some(62)
    else if c == '/' then Some(63)
    else None
  }

  /** Every 6-bit value is read back from its character. */
  lemma SextetRoundTrip(i: nat)
    requires i < 64
    ensures SextetValue(Sextet(i)) == Some(i)
  {
  }

  predicate IsAlphabetOrPad(c: char) {
    SextetValue(c).Some? || c == '='
  }

  /** One group of one to three bytes as four characters; a group of one or
      two bytes is completed with `==` or `=`. */
  function EncodeGroup(g: seq<byte>): (r: string)
    requires 1 <= |g| <= 3
    ensures |r| == 4
  {
    var b0 := g[0];
    var b1 := if |g| > 1 then g[1] else 0;
    var b2 := if |g| > 2 then g[2] else 0;
    [Sextet(b0 / 4), Sextet((b0 % 4) * 16 + b1 / 16),
     if |g| > 1 then Sextet((b1 % 16) * 4 + b2 / 64) else '=',
     if |g| > 2 then Sextet(b2 % 64) else '=']
  }

  /** The whole byte sequence, three bytes at a time. */
  function Encode(b: seq<byte>): (r: string)
    ensures |r| == (|b| + 2) / 3 * 4
  {
    if b == [] then ""
    else if |b| <= 3 then EncodeGroup(b)
    else
      assert (|b| + 2) / 3 == (|b[3..]| + 2) / 3 + 1;
      EncodeGroup(b[..3]) + Encode(b[3..])
  }

  /** Four characters back to their bytes; padding is accepted only in the
      final group. */
  function DecodeGroup(q: string, final: bool): (r: Option<seq<byte>>)
    requires |q| == 4
    ensures r.Some? ==> 1 <= |r.value| <= 3 && (!final ==> |r.value| == 3)
  {
    var v0, v1, v2, v3 := SextetValue(q[0]), SextetValue(q[1]), SextetValue(q[2]), SextetValue(q[3]);
    if v0.None? || v1.None? then None
    else if final && q[2] == '=' && q[3] == '=' then
      Some([v0.value * 4 + v1.value / 16])
    else if v2.None? then None
    else if final && q[3] == '=' then
      Some([v0.value * 4 + v1.value / 16, (v1.value % 16) * 16 + v2.value / 4])
    else if v3.None? then None
    else
      Some([v0.value * 4 + v1.value / 16, (v1.value % 16) * 16 + v2.value / 4,
            (v2.value % 4) * 64 + v3.value])
  }

  /** Decodes four characters at a time; `None` for text that is not base 64. */
  function Decode(s: string): Option<seq<byte>>
    decreases |s|
  {
    if s == [] then Some([])
    else if |s| < 4 then None
    else match DecodeGroup(s[..4], |s| == 4)
      case None => None
      case Some(g) =>
        match Decode(s[4..])
        case None => None
        case Some(rest) => Some(g + rest)
  }

  /** The bit-field arithmetic of one group: the 6-bit values computed from
      three bytes give those bytes back. */
  lemma GroupArithmetic(b0: int, b1: int, b2: int)
    requires 0 <= b0 < 256 && 0 <= b1 < 256 && 0 <= b2 < 256
    ensures var c1, c2 := (b0 % 4) * 16 + b1 / 16, (b1 % 16) * 4 + b2 / 64;
      && (b0 / 4) * 4 + c1 / 16 == b0
      && (c1 % 16) * 16 + c2 / 4 == b1
      && (c2 % 4) * 64 + b2 % 64 == b2
  {
    var c1, c2 := (b0 % 4) * 16 + b1 / 16, (b1 % 16) * 4 + b2 / 64;
    assert c1 / 16 == b0 % 4 && c1 % 16 == b1 / 16;
    assert c2 / 4 == b1 % 16 && c2 % 4 == b2 / 64;
  }

  lemma DecodeEncodeOne(b0: byte)
    ensures DecodeGroup(EncodeGroup([b0]), true) == Some([b0])
  {
    SextetRoundTrip(b0 / 4);
    SextetRoundTrip((b0 % 4) * 16);
    GroupArithmetic(b0, 0, 0);
  }

  lemma DecodeEncodeTwo(b0: byte, b1: byte)
    ensures DecodeGroup(EncodeGroup([b0, b1]), true) == Some([b0, b1])
  {
    SextetRoundTrip(b0 / 4);
    SextetRoundTrip((b0 % 4) * 16 + b1 / 16);
    SextetRoundTrip((b1 % 16) * 4);
    GroupArithmetic(b0, b1, 0);
  }

  lemma DecodeEncodeThree(b0: byte, b1: byte, b2: byte, final: bool)
    ensures DecodeGroup(EncodeGroup([b0, b1, b2]), final) == Some([b0, b1, b2])
  {
    var c0, c1, c2, c3 := b0 / 4, (b0 % 4) * 16 + b1 / 16, (b1 % 16) * 4 + b2 / 64, b2 % 64;
    var q := EncodeGroup([b0, b1, b2]);
    assert q == [Sextet(c0), Sextet(c1), Sextet(c2), Sextet(c3)];
    SextetRoundTrip(c0);
    SextetRoundTrip(c1);
    SextetRoundTrip(c2);
    SextetRoundTrip(c3);
    assert q[3] != '=';
    GroupArithmetic(b0, b1, b2);
    assert DecodeGroup(q, final) == Some([c0 * 4 + c1 / 16, (c1 % 16) * 16 + c2 / 4, (c2 % 4) * 64 + c3]);
  }

  /** A group decodes back to its bytes; a short group only as the final one. */
  lemma DecodeEncodeGroup(g: seq<byte>, final: bool)
    requires 1 <= |g| <= 3 && (|g| < 3 ==> final)
    ensures DecodeGroup(EncodeGroup(g), final) == Some(g)
  {
    if |g| == 1 {
      assert g == [g[0]];
      DecodeEncodeOne(g[0]);
    } else if |g| == 2 {
      assert g == [g[0], g[1]];
      DecodeEncodeTwo(g[0], g[1]);
    } else {
      assert g == [g[0], g[1], g[2]];
      DecodeEncodeThree(g[0], g[1], g[2], final);
    }
  }

  /** Decoding what `Encode` produced gives the bytes back. */
  lemma {:induction false} DecodeEncode(b: seq<byte>)
    ensures Decode(Encode(b)) == Some(b)
    decreases |b|
  {
    if 1 <= |b| <= 3 {
      DecodeEncodeGroup(b, true);
      DecodeLast(EncodeGroup(b), b);
    } else if |b| > 3 {
      var g, t := EncodeGroup(b[..3]), Encode(b[3..]);
      assert Encode(b) == g + t;
      DecodeEncodeGroup(b[..3], false);
      DecodeEncode(b[3..]);
      DecodeCons(g, t, b[..3], b[3..]);
      assert b == b[..3] + b[3..];
    }
  }

  /** A last group on its own decodes as that group. */
  lemma DecodeLast(g: string, x: seq<byte>)
    requires |g| == 4 && DecodeGroup(g, true) == Some(x)
    ensures Decode(g) == Some(x)
  {
    assert g[..4] == g && g[4..] == [];
    assert x + [] == x;
  }

  /** A group in front of more text decodes as that group followed by the rest. */
  lemma DecodeCons(g: string, t: string, x: seq<byte>, y: seq<byte>)
    requires |g| == 4 && |t| >= 4
    requires DecodeGroup(g, false) == Some(x) && Decode(t) == Some(y)
    ensures Decode(g + t) == Some(x + y)
  {
    var s := g + t;
    assert s[..4] == g && s[4..] == t;
  }

  /** The four characters of a group are alphabet characters or `=`. */
  lemma GroupAlphabet(g: seq<byte>)
    requires 1 <= |g| <= 3
    ensures forall i :: 0 <= i < 4 ==> IsAlphabetOrPad(EncodeGroup(g)[i])
  {
    var b0 := g[0];
    var b1 := if |g| > 1 then g[1] else 0;
    var b2 := if |g| > 2 then g[2] else 0;
    SextetRoundTrip(b0 / 4);
    SextetRoundTrip((b0 % 4) * 16 + b1 / 16);
    SextetRoundTrip((b1 % 16) * 4 + b2 / 64);
    SextetRoundTrip(b2 % 64);
  }

  /** Every character of the encoding is an alphabet character or `=`. */
  lemma {:induction false} EncodeAlphabet(b: seq<byte>)
    ensures forall i :: 0 <= i < |Encode(b)| ==> IsAlphabetOrPad(Encode(b)[i])
    decreases |b|
  {
    if 1 <= |b| <= 3 {
      GroupAlphabet(b);
    } else if |b| > 3 {
      GroupAlphabet(b[..3]);
      EncodeAlphabet(b[3..]);
      var s, g, t := Encode(b), EncodeGroup(b[..3]), Encode(b[3..]);
      assert s == g + t;
      forall i | 0 <= i < |s| ensures IsAlphabetOrPad(s[i]) {
        if i < 4 {
          assert s[i] == g[i];
        } else {
          assert s[i] == t[i - 4];
        }
      }
    }
  }

  /** `Buffer.from(text).toString('base64')`: the base 64 form of the UTF-8 bytes. */
  function EncodeText(text: string): string {
    Encode(Utf8.Encode(text))
  }

  /** Decoding the base 64 form and then the UTF-8 bytes gives the text back. */
  lemma DecodeEncodeText(text: string)
    ensures Decode(EncodeText(text)) == Some(Utf8.Encode(text))
    ensures Utf8.Decode(Utf8.Encode(text)) == Some(text)
  {
    DecodeEncode(Utf8.Encode(text));
    Utf8.DecodeEncode(text);
  }
}
