/**
 * Base64 as section 4 of RFC 4648 defines it, with the basic decoder of
 * java.util.Base64 that the session filter uses on Basic credentials: the
 * padding is optional, but when it is present it must be complete, nothing
 * may follow it, and every character before it must be in the alphabet.
 * Anything else throws IllegalArgumentException.
 */
module Base64 {
  import opened Wrappers

  newtype byte = x: int | 0 <= x < 256

  /** The 64 characters of Table 1 of RFC 4648. */
  predicate IsBase64Char(c: char) {
    ('A' <= c <= 'Z') || ('a' <= c <= 'z') || ('0' <= c <= '9') || c == '+' || c == '/'
  }

  /** The 6-bit value an alphabet character stands for. */
  function CharValue(c: char): (v: nat)
    requires IsBase64Char(c)
    ensures v < 64
  {
    if 'A' <= c <= 'Z' then c as int - 'A' as int
    else if 'a' <= c <= 'z' then c as int - 'a' as int + 26
    else if '0' <= c <= '9' then c as int - '0' as int + 52
    else if c == '+' then 62
    else 63
  }

  /** The alphabet character of a 6-bit value. */
  function ValueChar(v: nat): (c: char)
    requires v < 64
    ensures IsBase64Char(c) && CharValue(c) == v
  {
    if v < 26 then ('A' as int + v) as char
    else if v < 52 then ('a' as int + (v - 26)) as char
    else if v < 62 then ('0' as int + (v - 52)) as char
    else if v == 62 then '+'
    else '/'
  }

  lemma ValueOfCharInverse(c: char)
    requires IsBase64Char(c)
    ensures ValueChar(CharValue(c)) == c
  {
  }

  predicate AllBase64(s: string) {
    forall i :: 0 <= i < |s| ==> IsBase64Char(s[i])
  }

  /** The four characters of a 24-bit group of three bytes. */
  function EncodeTriple(a: byte, b: byte, c: byte): (s: string)
    ensures |s| == 4 && AllBase64(s)
  {
    [ValueChar(a as int / 4), ValueChar(a as int % 4 * 16 + b as int / 16),
     ValueChar(b as int % 16 * 4 + c as int / 64), ValueChar(c as int % 64)]
  }

  /** The number of characters before the padding that `n` bytes encode to. */
  function UnpaddedLength(n: nat): nat {
    4 * (n / 3) + (if n % 3 == 0 then 0 else n % 3 + 1)
  }

  /**
   * The encoding without its padding: full groups of four, then two
   * characters for one final byte or three for two, the unused bits zero.
   */
  function EncodeUnpadded(b: seq<byte>): (s: string)
    ensures AllBase64(s) && |s| % 4 != 1
    decreases |b|
  {
    if |b| == 0 then []
    else if |b| == 1 then [ValueChar(b[0] as int / 4), ValueChar(b[0] as int % 4 * 16)]
    else if |b| == 2 then
      [ValueChar(b[0] as int / 4), ValueChar(b[0] as int % 4 * 16 + b[1] as int / 16),
       ValueChar(b[1] as int % 16 * 4)]
    else EncodeTriple(b[0], b[1], b[2]) + EncodeUnpadded(b[3..])
  }

  /** The '=' characters that complete the last group of `n` bytes. */
  function Padding(n: nat): string {
    if n % 3 == 1 then "==" else if n % 3 == 2 then "=" else ""
  }

  /** The encoding of section 4 of RFC 4648, padded to a whole number of groups. */
  function Encode(b: seq<byte>): string {
    EncodeUnpadded(b) + Padding(|b|)
  }

  /** Every three bytes take four characters, and a final one or two bytes are padded to four. */
  lemma {:induction false} EncodedLength(b: seq<byte>)
    ensures |EncodeUnpadded(b)| == UnpaddedLength(|b|)
    ensures |Encode(b)| == 4 * ((|b| + 2) / 3)
    decreases |b|
  {
    if |b| >= 3 {
      EncodedLength(b[3..]);
      UnpaddedHead(b);
      var n := |b|;
      assert UnpaddedLength(n) == 4 + UnpaddedLength(n - 3) by {
        assert (n - 3) / 3 == n / 3 - 1 && (n - 3) % 3 == n % 3;
      }
      assert (n + 2) / 3 == (n - 3 + 2) / 3 + 1;
    }
  }

  /** The position of the first '=', or the length of `s` when there is none. */
  function PadStart(s: string): (n: nat)
    ensures n <= |s| && (n < |s| ==> s[n] == '=')
    ensures forall i :: 0 <= i < n ==> s[i] != '='
  {
    if s == [] || s[0] == '=' then 0 else 1 + PadStart(s[1..])
  }

  /** The three bytes of a group of four characters. */
  function DecodeQuad(v0: nat, v1: nat, v2: nat, v3: nat): (r: seq<byte>)
    requires v0 < 64 && v1 < 64 && v2 < 64 && v3 < 64
    ensures |r| == 3
  {
    [(v0 * 4 + v1 / 16) as byte, (v1 % 16 * 16 + v2 / 4) as byte, (v2 % 4 * 64 + v3) as byte]
  }

  /**
   * The bytes of the characters before the padding: three per group of four,
   * then one for two trailing characters, two for three; the bits of the last
   * character that do not make a whole byte are ignored.
   */
  function DecodeGroups(body: string): (r: seq<byte>)
    requires AllBase64(body) && |body| % 4 != 1
    decreases |body|
  {
    if |body| == 0 then []
    else if |body| < 4 then
      var v0, v1 := CharValue(body[0]), CharValue(body[1]);
      if |body| == 2 then [(v0 * 4 + v1 / 16) as byte]
      else
        var v2 := CharValue(body[2]);
        [(v0 * 4 + v1 / 16) as byte, (v1 % 16 * 16 + v2 / 4) as byte]
    else
      DecodeQuad(CharValue(body[0]), CharValue(body[1]), CharValue(body[2]), CharValue(body[3]))
        + DecodeGroups(body[4..])
  }

  /** The padding after `n` characters is complete, or absent. */
  predicate PaddingFits(pad: string, n: nat) {
    pad == [] || (pad == "==" && n % 4 == 2) || (pad == "=" && n % 4 == 3)
  }

  /** Base64.Decoder.decode of the basic decoder. */
  function Decode(s: string): (r: Result<seq<byte>>)
    ensures r.Err? ==> r.error == IllegalArgument
    ensures r.Ok? <==> AllBase64(s[..PadStart(s)]) && PadStart(s) % 4 != 1 && PaddingFits(s[PadStart(s)..], PadStart(s))
  {
    var n := PadStart(s);
    if !AllBase64(s[..n]) || n % 4 == 1 || !PaddingFits(s[n..], n) then Err(IllegalArgument)
    else Ok(DecodeGroups(s[..n]))
  }

  /** The first byte of a group comes back from its first six bits and the next two. */
  lemma FirstByteBack(a: int, b: int)
    requires 0 <= a < 256 && 0 <= b < 256
    ensures a / 4 * 4 + (a % 4 * 16 + b / 16) / 16 == a
  {
    assert (a % 4 * 16 + b / 16) / 16 == a % 4;
  }

  /** The second byte comes back from the low four bits of the second character and the high four of the third. */
  lemma SecondByteBack(a: int, b: int, c: int)
    requires 0 <= a < 256 && 0 <= b < 256 && 0 <= c < 256
    ensures (a % 4 * 16 + b / 16) % 16 * 16 + (b % 16 * 4 + c / 64) / 4 == b
  {
    assert (a % 4 * 16 + b / 16) % 16 == b / 16;
    assert (b % 16 * 4 + c / 64) / 4 == b % 16;
  }

  /** The third byte comes back from the low two bits of the third character and the fourth. */
  lemma ThirdByteBack(b: int, c: int)
    requires 0 <= b < 256 && 0 <= c < 256
    ensures (b % 16 * 4 + c / 64) % 4 * 64 + c % 64 == c
  {
    assert (b % 16 * 4 + c / 64) % 4 == c / 64;
  }

  /** One group decodes to the three bytes it encodes. */
  lemma DecodeTriple(a: byte, b: byte, c: byte)
    ensures var e := EncodeTriple(a, b, c);
      DecodeQuad(CharValue(e[0]), CharValue(e[1]), CharValue(e[2]), CharValue(e[3])) == [a, b, c]
  {
    var e := EncodeTriple(a, b, c);
    var v0, v1, v2, v3 := CharValue(e[0]), CharValue(e[1]), CharValue(e[2]), CharValue(e[3]);
    assert v0 == a as int / 4 && v1 == a as int % 4 * 16 + b as int / 16;
    assert v2 == b as int % 16 * 4 + c as int / 64 && v3 == c as int % 64;
    FirstByteBack(a as int, b as int);
    SecondByteBack(a as int, b as int, c as int);
    ThirdByteBack(b as int, c as int);
  }

  /** One final byte: two characters, decoded back to the byte. */
  lemma DecodeOneByte(b: seq<byte>)
    requires |b| == 1
    ensures DecodeGroups(EncodeUnpadded(b)) == b
  {
    var e := EncodeUnpadded(b);
    assert CharValue(e[0]) == b[0] as int / 4;
    assert CharValue(e[1]) == b[0] as int % 4 * 16;
    FirstByteBack(b[0] as int, 0);
  }

  /** Two final bytes: three characters, decoded back to the bytes. */
  lemma DecodeTwoBytes(b: seq<byte>)
    requires |b| == 2
    ensures DecodeGroups(EncodeUnpadded(b)) == b
  {
    var e := EncodeUnpadded(b);
    assert CharValue(e[0]) == b[0] as int / 4;
    assert CharValue(e[1]) == b[0] as int % 4 * 16 + b[1] as int / 16;
    assert CharValue(e[2]) == b[1] as int % 16 * 4;
    FirstByteBack(b[0] as int, b[1] as int);
    SecondByteBack(b[0] as int, b[1] as int, 0);
  }

  /** The characters before the padding decode back to the bytes. */
  lemma {:induction false} DecodeGroupsOfUnpadded(b: seq<byte>)
    ensures |EncodeUnpadded(b)| % 4 != 1
    ensures DecodeGroups(EncodeUnpadded(b)) == b
    decreases |b|
  {
    if |b| == 1 {
      DecodeOneByte(b);
    } else if |b| == 2 {
      DecodeTwoBytes(b);
    } else if |b| >= 3 {
      DecodeGroupsOfUnpadded(b[3..]);
      DecodeGroupsStep(b);
    }
  }

  /** The encoding of three bytes or more starts with the group of the first three. */
  lemma UnpaddedHead(b: seq<byte>)
    requires |b| >= 3
    ensures EncodeUnpadded(b) == EncodeTriple(b[0], b[1], b[2]) + EncodeUnpadded(b[3..])
  {
  }

  /** The group of the first three bytes decodes to them. */
  lemma DecodeFirstTriple(b: seq<byte>)
    requires |b| >= 3
    ensures var head := EncodeTriple(b[0], b[1], b[2]);
      DecodeQuad(CharValue(head[0]), CharValue(head[1]), CharValue(head[2]), CharValue(head[3])) == b[..3]
  {
    DecodeTriple(b[0], b[1], b[2]);
    assert [b[0], b[1], b[2]] == b[..3];
  }

  /** A group of four valid characters decoding to three bytes, ahead of the rest, decodes to all of them. */
  lemma DecodeHead(b: seq<byte>, head: string, rest: string)
    requires |b| >= 3 && |head| == 4 && AllBase64(head) && AllBase64(rest) && |rest| % 4 != 1
    requires DecodeQuad(CharValue(head[0]), CharValue(head[1]), CharValue(head[2]), CharValue(head[3])) == b[..3]
    requires DecodeGroups(rest) == b[3..]
    ensures AllBase64(head + rest) && |head + rest| % 4 != 1
    ensures DecodeGroups(head + rest) == b
  {
    var e := head + rest;
    assert e[..4] == head && e[4..] == rest;
    assert b == b[..3] + b[3..];
  }

  /** A leading group decodes to its three bytes, ahead of the rest. */
  lemma DecodeGroupsStep(b: seq<byte>)
    requires |b| >= 3
    requires DecodeGroups(EncodeUnpadded(b[3..])) == b[3..]
    ensures DecodeGroups(EncodeUnpadded(b)) == b
  {
    UnpaddedHead(b);
    DecodeFirstTriple(b);
    DecodeHead(b, EncodeTriple(b[0], b[1], b[2]), EncodeUnpadded(b[3..]));
  }

  /** The first '=' of a text whose first part has none is the start of its second part. */
  lemma {:induction false} PadStartAfter(u: string, p: string)
    requires forall i :: 0 <= i < |u| ==> u[i] != '='
    requires p == [] || p[0] == '='
    ensures PadStart(u + p) == |u|
  {
    if u != [] {
      assert (u + p)[1..] == u[1..] + p;
      PadStartAfter(u[1..], p);
    }
  }

  /** Decoding undoes encoding, for every byte string. */
  lemma DecodeEncode(b: seq<byte>)
    ensures Decode(Encode(b)) == Ok(b)
  {
    var u, p := EncodeUnpadded(b), Padding(|b|);
    PadStartAfter(u, p);
    DecodeGroupsOfUnpadded(b);
    EncodedLength(b);
    PaddingOfEncoding(|b|);
    DecodeSplit(u, p);
  }

  /** The padding of `n` bytes fits the characters they encode to. */
  lemma PaddingOfEncoding(n: nat)
    ensures PaddingFits(Padding(n), UnpaddedLength(n))
  {
    var k := n / 3;
    assert UnpaddedLength(n) == 4 * k + (if n % 3 == 0 then 0 else n % 3 + 1);
    assert (4 * k + 2) % 4 == 2 && (4 * k + 3) % 4 == 3;
  }

  /** Text made of a valid body and a padding that fits it decodes to the body's bytes. */
  lemma DecodeSplit(u: string, p: string)
    requires PadStart(u + p) == |u| && AllBase64(u) && |u| % 4 != 1 && PaddingFits(p, |u|)
    ensures Decode(u + p) == Ok(DecodeGroups(u))
  {
    assert (u + p)[..|u|] == u && (u + p)[|u|..] == p;
  }

  /** The first '=' comes after every position that holds none and has none before it. */
  lemma {:induction false} PadStartBeyond(s: string, i: nat)
    requires i < |s| && forall j :: 0 <= j <= i ==> s[j] != '='
    ensures i < PadStart(s)
  {
    if i > 0 {
      PadStartBeyond(s[1..], i - 1);
    }
  }

  /** A character outside the alphabet before the padding makes the decoder throw. */
  lemma ForeignCharacterRejected(s: string, i: nat)
    requires i < |s| && !IsBase64Char(s[i]) && s[i] != '='
    requires forall j :: 0 <= j < i ==> s[j] != '='
    ensures Decode(s) == Err(IllegalArgument)
  {
    PadStartBeyond(s, i);
    var n := PadStart(s);
    assert s[..n][i] == s[i];
  }

  /** Characters after a complete padding make the decoder throw. */
  lemma TrailingAfterPaddingRejected(b: seq<byte>, tail: string)
    requires |b| % 3 != 0 && tail != []
    ensures Decode(Encode(b) + tail) == Err(IllegalArgument)
  {
    var u := EncodeUnpadded(b);
    EncodedLength(b);
    assert Encode(b) + tail == u + (Padding(|b|) + tail);
    PadStartAfter(u, Padding(|b|) + tail);
    var s := Encode(b) + tail;
    assert s[|u|..] == Padding(|b|) + tail;
  }
}
