/**
 * UTF-8, as `Buffer.from(s, "utf8")` produces it. Dafny's `char` is a
 * Unicode scalar value, so every string here has an encoding; an encoder
 * and its decoder show that the encoding loses nothing.
 */
module Utf8 {

  type Byte = b: int | 0 <= b < 256

  /** The number of bytes a sequence takes, read from its lead byte. */
  function SequenceLength(lead: Byte): (n: nat)
    ensures 1 <= n <= 4
  {
    if lead < 0x80 then 1 else if lead < 0xE0 then 2 else if lead < 0xF0 then 3 else 4
  }

  /** The one to four bytes that encode one scalar value. */
  function EncodeChar(c: char): (bs: seq<Byte>)
    ensures 1 <= |bs| <= 4
    ensures |bs| == SequenceLength(bs[0])
  {
    var cp := c as int;
    if cp < 0x80 then [cp]
    else if cp < 0x800 then [0xC0 + cp / 64, 0x80 + cp % 64]
    else if cp < 0x1_0000 then [0xE0 + cp / 4096, 0x80 + (cp / 64) % 64, 0x80 + cp % 64]
    else [0xF0 + cp / 262144, 0x80 + (cp / 4096) % 64, 0x80 + (cp / 64) % 64, 0x80 + cp % 64]
  }

  /** The UTF-8 encoding of a whole string. */
  function Encode(s: string): (bs: seq<Byte>)
    ensures |s| <= |bs| <= 4 * |s|
  {
    if s == [] then [] else EncodeChar(s[0]) + Encode(s[1..])
  }

  /** The scalar value that one to four bytes stand for. */
  function DecodeChar(bs: seq<Byte>): int
    requires 1 <= |bs| <= 4
  {
    var b := seq(|bs|, i requires 0 <= i < |bs| => bs[i] as int);
    if |b| == 1 then b[0]
    else if |b| == 2 then (b[0] - 0xC0) * 64 + (b[1] - 0x80)
    else if |b| == 3 then (b[0] - 0xE0) * 4096 + (b[1] - 0x80) * 64 + (b[2] - 0x80)
    else (b[0] - 0xF0) * 262144 + (b[1] - 0x80) * 4096 + (b[2] - 0x80) * 64 + (b[3] - 0x80)
  }

  /** The scalar values of a byte string, one sequence at a time. */
  function Decode(bs: seq<Byte>): seq<int>
  {
    if bs == [] then []
    else
      var n := if SequenceLength(bs[0]) <= |bs| then SequenceLength(bs[0]) else |bs|;
      [DecodeChar(bs[..n])] + Decode(bs[n..])
  }

  /** The scalar values of a string. */
  function CodePoints(s: string): (cps: seq<int>)
    ensures |cps| == |s|
  {
    seq(|s|, i requires 0 <= i < |s| => s[i] as int)
  }

  /** Decoding one character's bytes gives back its scalar value. */
  lemma {:induction false} DecodeEncodeChar(c: char)
    ensures DecodeChar(EncodeChar(c)) == c as int
  {
    var cp := c as int;
    if cp < 0x80 {
    } else if cp < 0x800 {
      TwoByteDigits(cp);
    } else if cp < 0x1_0000 {
      ThreeByteDigits(cp);
    } else {
      FourByteDigits(cp);
    }
  }

  lemma {:induction false} TwoByteDigits(cp: nat)
    ensures (cp / 64) * 64 + cp % 64 == cp
  {
  }

  lemma {:induction false} ThreeByteDigits(cp: nat)
    ensures (cp / 4096) * 4096 + ((cp / 64) % 64) * 64 + cp % 64 == cp
  {
    assert cp / 4096 == (cp / 64) / 64;
  }

  lemma {:induction false} FourByteDigits(cp: nat)
    ensures (cp / 262144) * 262144 + ((cp / 4096) % 64) * 4096 + ((cp / 64) % 64) * 64 + cp % 64 == cp
  {
    assert cp / 4096 == (cp / 64) / 64;
    assert cp / 262144 == (cp / 4096) / 64;
    ThreeByteDigits(cp);
  }

  /** Decoding undoes encoding. */
  lemma {:induction false} DecodeEncode(s: string)
    ensures Decode(Encode(s)) == CodePoints(s)
  {
    if s != [] {
      DecodeEncodeChar(s[0]);
      DecodeStep(EncodeChar(s[0]), Encode(s[1..]));
      DecodeEncode(s[1..]);
      CodePointsCons(s);
    }
  }

  lemma {:induction false} CodePointsCons(s: string)
    requires s != []
    ensures CodePoints(s) == [s[0] as int] + CodePoints(s[1..])
  {
  }

  /** A complete leading sequence is decoded on its own, then the rest. */
  lemma {:induction false} DecodeStep(head: seq<Byte>, rest: seq<Byte>)
    requires 1 <= |head| <= 4 && |head| == SequenceLength(head[0])
    ensures Decode(head + rest) == [DecodeChar(head)] + Decode(rest)
  {
    var bs := head + rest;
    assert bs[0] == head[0];
    assert bs[..|head|] == head;
    assert bs[|head|..] == rest;
  }

  /** Two strings with the same encoding are the same string. */
  lemma {:induction false} EncodeInjective(a: string, b: string)
    requires Encode(a) == Encode(b)
    ensures a == b
  {
    DecodeEncode(a);
    DecodeEncode(b);
    assert |a| == |b|;
    forall i | 0 <= i < |a|
      ensures a[i] == b[i]
    {
      assert CodePoints(a)[i] == CodePoints(b)[i];
    }
  }
}
