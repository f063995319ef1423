/**
  * The base 64 encoding of section 4 of RFC 4648 (the alphabet of its
  * Table 1 with `=` padding), as `Buffer.prototype.toString("base64")`
  * produces it, and a decoder for it.
  */
module Base64 {
  import opened Wrappers
  import opened Utf8

  /** A 6-bit group. */
  type sextet = x: int | 0 <= x < 64

  /** The character Table 1 of RFC 4648 assigns to a 6-bit value. */
  function CharOf(v: sextet): char {
    if v < 26 then ('A' as int + v) as char
    else if v < 52 then ('a' as int + (v - 26)) as char
    else if v < 62 then ('0' as int + (v - 52)) as char
    else if v == 62 then '+'
    else '/'
  }

  /** The 6-bit value of an alphabet character; `None` for any other character, `=` included. */
  function ValueOf(c: char): (r: Option<int>)
    ensures r.Some? ==> 0 <= r.value < 64 && CharOf(r.value) == c
  {
    if 'A' <= c <= 'Z' then Some(c as int - 'A' as int)
    else if 'a' <= c <= 'z' then Some(c as int - 'a' as int + 26)
    else if '0' <= c <= '9' then Some(c as int - '0' as int + 52)
    else if c == '+' then Some(62)
    else if c == '/' then Some(63)
    else None
  }

  /** Every alphabet character decodes to the value it encodes. */
  lemma ValueOfCharOf(v: sextet)
    ensures ValueOf(CharOf(v)) == Some(v)
  {
  }

  /** Encoding: every 3 octets become 4 characters; a final 1 or 2 octets are padded with `=`. */
  function Encode(b: seq<byte>): (r: string)
    ensures |r| == 4 * ((|b| + 2) / 3)
  {
    if |b| == 0 then ""
    else if |b| == 1 then
      [CharOf(b[0] / 4), CharOf((b[0] % 4) * 16), '=', '=']
    else if |b| == 2 then
      [CharOf(b[0] / 4), CharOf((b[0] % 4) * 16 + b[1] / 16), CharOf((b[1] % 16) * 4), '=']
    else Quantum(b[0], b[1], b[2]) + Encode(b[3..])
  }

  /**
    * Decodes one 4-character quantum. Padding is accepted only in the final
    * quantum (`last`): `xx==` holds one octet and `xxx=` two.
    */
  function DecodeQuantum(q: string, last: bool): (r: Option<seq<byte>>)
    requires |q| == 4
    ensures r.Some? ==> 1 <= |r.value| <= 3
    ensures r.Some? && !last ==> |r.value| == 3
  {
    var v0, v1, v2, v3 := ValueOf(q[0]), ValueOf(q[1]), ValueOf(q[2]), ValueOf(q[3]);
    if last && q[2] == '=' && q[3] == '=' then
      if v0.Some? && v1.Some? then Some([v0.value * 4 + v1.value / 16]) else None
    else if last && q[3] == '=' then
      if v0.Some? && v1.Some? && v2.Some? then
        Some([v0.value * 4 + v1.value / 16, (v1.value % 16) * 16 + v2.value / 4])
      else None
    else if v0.Some? && v1.Some? && v2.Some? && v3.Some? then
      Some([v0.value * 4 + v1.value / 16, (v1.value % 16) * 16 + v2.value / 4, (v2.value % 4) * 64 + v3.value])
    else None
  }

  /** Decoding: `None` unless the text is a sequence of quanta with padding only at the end. */
  function Decode(s: string): (r: Option<seq<byte>>)
    ensures r.Some? ==> |s| % 4 == 0
    decreases |s|
  {
    if |s| == 0 then Some([])
    else if |s| < 4 then None
    else
      match DecodeQuantum(s[..4], |s| == 4)
      case None => None
      case Some(head) =>
        if |s| == 4 then Some(head)
        else
          match Decode(s[4..])
          case None => None
          case Some(tail) => Some(head + tail)
  }

  /** The four characters that encode three octets. */
  function Quantum(b0: byte, b1: byte, b2: byte): (q: string)
    ensures |q| == 4 && '=' !in q
  {
    [CharOf(b0 / 4), CharOf((b0 % 4) * 16 + b1 / 16), CharOf((b1 % 16) * 4 + b2 / 64), CharOf(b2 % 64)]
  }

  /** One full quantum decodes back to the three octets it was made from. */
  lemma QuantumRoundTrip(b0: byte, b1: byte, b2: byte, last: bool)
    ensures DecodeQuantum(Quantum(b0, b1, b2), last) == Some([b0, b1, b2])
  {
    var c0, c1, c2, c3 := b0 / 4, (b0 % 4) * 16 + b1 / 16, (b1 % 16) * 4 + b2 / 64, b2 % 64;
    ValueOfCharOf(c0); ValueOfCharOf(c1);
    ValueOfCharOf(c2); ValueOfCharOf(c3);
    assert c0 * 4 + c1 / 16 == b0;
    assert (c1 % 16) * 16 + c2 / 4 == b1;
    assert (c2 % 4) * 64 + c3 == b2;
  }

  /** A final quantum padded with `==` decodes to one octet. */
  lemma PaddedOneRoundTrip(b0: byte)
    ensures DecodeQuantum([CharOf(b0 / 4), CharOf((b0 % 4) * 16), '=', '='], true) == Some([b0])
  {
    var c0, c1 := b0 / 4, (b0 % 4) * 16;
    ValueOfCharOf(c0); ValueOfCharOf(c1);
    assert c0 * 4 + c1 / 16 == b0;
  }

  /** A final quantum padded with `=` decodes to two octets. */
  lemma PaddedTwoRoundTrip(b0: byte, b1: byte)
    ensures DecodeQuantum([CharOf(b0 / 4), CharOf((b0 % 4) * 16 + b1 / 16), CharOf((b1 % 16) * 4), '='], true)
         == Some([b0, b1])
  {
    var c0, c1, c2 := b0 / 4, (b0 % 4) * 16 + b1 / 16, (b1 % 16) * 4;
    ValueOfCharOf(c0); ValueOfCharOf(c1); ValueOfCharOf(c2);
    assert c0 * 4 + c1 / 16 == b0;
    assert (c1 % 16) * 16 + c2 / 4 == b1;
  }

  /** A single octet encodes to one padded quantum, which decodes back to it. */
  lemma OneOctetRoundTrip(b: seq<byte>)
    requires |b| == 1
    ensures Decode(Encode(b)) == Some(b)
  {
    PaddedOneRoundTrip(b[0]);
    assert Encode(b)[..4] == Encode(b);
    assert [b[0]] == b;
  }

  /** Two octets encode to one padded quantum, which decodes back to them. */
  lemma TwoOctetsRoundTrip(b: seq<byte>)
    requires |b| == 2
    ensures Decode(Encode(b)) == Some(b)
  {
    PaddedTwoRoundTrip(b[0], b[1]);
    assert Encode(b)[..4] == Encode(b);
    assert [b[0], b[1]] == b;
  }

  /** Decoding a text that starts with a well-formed quantum. */
  lemma {:induction false} DecodeCons(q: string, rest: string, head: seq<byte>, tail: seq<byte>)
    requires |q| == 4
    requires DecodeQuantum(q, rest == []) == Some(head)
    requires Decode(rest) == Some(tail)
    ensures Decode(q + rest) == Some(head + tail)
  {
    var s := q + rest;
    assert s[..4] == q && s[4..] == rest;
    if rest == [] {
      assert head + tail == head;
    }
  }

  /** Three or more octets encode as the quantum of the first three, then the encoding of the rest. */
  lemma EncodeStep(b: seq<byte>)
    requires |b| >= 3
    ensures Encode(b) == Quantum(b[0], b[1], b[2]) + Encode(b[3..])
  {
  }

  /** A leading full quantum decodes back to its octets, followed by whatever the rest decodes to. */
  lemma {:induction false} FullQuantumStep(b: seq<byte>)
    requires |b| >= 3
    requires Decode(Encode(b[3..])) == Some(b[3..])
    ensures Decode(Encode(b)) == Some(b)
  {
    var q, rest := Quantum(b[0], b[1], b[2]), Encode(b[3..]);
    EncodeStep(b);
    QuantumRoundTrip(b[0], b[1], b[2], rest == []);
    var head := [b[0], b[1], b[2]];
    DecodeCons(q, rest, head, b[3..]);
    assert head + b[3..] == b;
    assert Decode(q + rest) == Some(b);
  }

  /** Decoding undoes encoding, for every octet sequence. */
  lemma {:induction false} DecodeEncode(b: seq<byte>)
    ensures Decode(Encode(b)) == Some(b)
    decreases |b|
  {
    if |b| == 1 {
      OneOctetRoundTrip(b);
    } else if |b| == 2 {
      TwoOctetsRoundTrip(b);
    } else if |b| >= 3 {
      DecodeEncode(b[3..]);
      FullQuantumStep(b);
    }
  }
}
