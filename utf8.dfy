/** UTF-8 encoding of identifier strings.
    A Rust `&str` is serialised as its UTF-8 bytes; Dafny strings are
    sequences of Unicode scalar values, so the encoding is written out here
    together with a decoder that proves it loses nothing. */
module Utf8 {
  import opened Wrappers

  type byte = x: int | 0 <= x < 256

  /** The UTF-8 bytes of one scalar value (1 to 4 bytes). */
  function EncodeChar(c: char): (r: seq<byte>)
    ensures 1 <= |r| <= 4
    ensures |r| == Width(r[0])
  {
    var cp := c as int;
    var q1, r1 := cp / 64, cp % 64;
    var q2, r2 := q1 / 64, q1 % 64;
    var q3, r3 := q2 / 64, q2 % 64;
    if cp < 0x80 then [cp]
    else if cp < 0x800 then [0xC0 + q1, 0x80 + r1]
    else if cp < 0x1_0000 then [0xE0 + q2, 0x80 + r2, 0x80 + r1]
    else [0xF0 + q3, 0x80 + r3, 0x80 + r2, 0x80 + r1]
  }

  /** The UTF-8 bytes of a string, character by character. */
  function Encode(s: string): (r: seq<byte>)
    ensures |s| <= |r| <= 4 * |s|
  {
    if s == [] then [] else EncodeChar(s[0]) + Encode(s[1..])
  }

  /** Number of bytes of the sequence that starts with lead byte `b`. */
  function Width(b: byte): (n: nat)
    ensures 1 <= n <= 4
  {
    if b < 0x80 then 1 else if b < 0xE0 then 2 else if b < 0xF0 then 3 else 4
  }

  predicate IsScalar(cp: int) {
    (0 <= cp < 0xD800) || (0xE000 <= cp < 0x11_0000)
  }

  /** Decodes one complete multi-byte sequence (lead byte first). */
  function DecodeChar(bs: seq<byte>): Option<char>
    requires |bs| > 0 && |bs| == Width(bs[0])
  {
    var cp: int :=
      if |bs| == 1 then (bs[0] as int)
      else if |bs| == 2 then ((bs[0] as int) - 0xC0) * 64 + ((bs[1] as int) - 0x80)
      else if |bs| == 3 then (((bs[0] as int) - 0xE0) * 64 + ((bs[1] as int) - 0x80)) * 64 + ((bs[2] as int) - 0x80)
      else ((((bs[0] as int) - 0xF0) * 64 + ((bs[1] as int) - 0x80)) * 64 + ((bs[2] as int) - 0x80)) * 64 + ((bs[3] as int) - 0x80);
    if IsScalar(cp) then Some(cp as char) else None
  }

  /** Decodes a whole byte sequence, or None if it is not a sequence of
      complete UTF-8 code sequences. */
  function Decode(bs: seq<byte>): Option<string>
    decreases |bs|
  {
    if bs == [] then Some([])
    else
      var n := Width(bs[0]);
      if |bs| < n then None
      else match DecodeChar(bs[..n])
        case None => None
        case Some(c) =>
          match Decode(bs[n..])
          case None => None
          case Some(rest) => Some([c] + rest)
  }

  lemma DecodeEncodeChar(c: char)
    ensures DecodeChar(EncodeChar(c)) == Some(c)
  {
    var cp := c as int;
    var q1, r1 := cp / 64, cp % 64;
    var q2, r2 := q1 / 64, q1 % 64;
    assert cp == q1 * 64 + r1;
    assert q1 == q2 * 64 + r2;
    assert q2 == (q2 / 64) * 64 + q2 % 64;
  }

  /** Decoding undoes encoding, so Encode is injective. */
  lemma {:induction false} DecodeEncode(s: string)
    ensures Decode(Encode(s)) == Some(s)
  {
    if s != [] {
      var head := EncodeChar(s[0]);
      var bs := Encode(s);
      assert bs == head + Encode(s[1..]);
      assert Width(bs[0]) == |head|;
      assert bs[..|head|] == head;
      assert bs[|head|..] == Encode(s[1..]);
      DecodeEncodeChar(s[0]);
      DecodeEncode(s[1..]);
      assert [s[0]] + s[1..] == s;
    }
  }

  lemma EncodeInjective(s: string, t: string)
    requires Encode(s) == Encode(t)
    ensures s == t
  {
    DecodeEncode(s);
    DecodeEncode(t);
  }
}
