/**
 * The base 64 encoding of section 4 of RFC 4648 (standard alphabet, `=` padding),
 * as computed by Python's `base64.b64encode`.
 */
module Base64 {
  import opened Wrappers
  import opened Utf8

  /** The character of the alphabet for a 6-bit value: A-Z, a-z, 0-9, `+`, `/`. */
  function Symbol(v: int): (c: char)
    requires 0 <= v < 64
    ensures Value(c) == Some(v)
  {
    if v < 26 then ('A' as int + v) as char
    else if v < 52 then ('a' as int + (v - 26)) as char
    else if v < 62 then ('0' as int + (v - 52)) as char
    else if v == 62 then '+'
    else '/'
  }

  /** The 6-bit value of an alphabet character; None for any other character, `=` included. */
  function Value(c: char): (r: Option<int>)
    ensures r.Some? ==> 0 <= r.value < 64
  {
    var n := c as int;
    if 'A' as int <= n <= 'Z' as int then Some(n - 'A' as int)
    else if 'a' as int <= n <= 'z' as int then Some(n - 'a' as int + 26)
    else if '0' as int <= n <= '9' as int then Some(n - '0' as int + 52)
    else if c == '+' then Some(62)
    else if c == '/' then Some(63)
    else None
  }

  /** A character that can appear in an encoding: the alphabet or the pad. */
  predicate IsEncodingChar(c: char) {
    c == '=' || Value(c).Some?
  }

  /** Three bytes as four characters, no padding. */
  function EncodeTriple(b0: byte, b1: byte, b2: byte): (q: seq<char>)
    ensures |q| == 4 && forall k | 0 <= k < 4 :: Value(q[k]).Some?
  {
    [Symbol(b0 / 4), Symbol((b0 % 4) * 16 + b1 / 16), Symbol((b1 % 16) * 4 + b2 / 64), Symbol(b2 % 64)]
  }

  /** A final pair of bytes as three characters and one `=`. */
  function EncodePair(b0: byte, b1: byte): (q: seq<char>)
    ensures |q| == 4 && q[3] == '=' && forall k | 0 <= k < 3 :: Value(q[k]).Some?
  {
    [Symbol(b0 / 4), Symbol((b0 % 4) * 16 + b1 / 16), Symbol((b1 % 16) * 4), '=']
  }

  /** A final single byte as two characters and two `=`. */
  function EncodeSingle(b0: byte): (q: seq<char>)
    ensures |q| == 4 && q[2] == '=' && q[3] == '=' && forall k | 0 <= k < 2 :: Value(q[k]).Some?
  {
    [Symbol(b0 / 4), Symbol((b0 % 4) * 16), '=', '=']
  }

  /**
   * The encoding of a byte string: each group of three bytes becomes four
   * characters; a final group of two or one bytes is padded with one or two `=`.
   */
  function Encode(b: seq<byte>): (s: string)
    ensures |s| == (|b| + 2) / 3 * 4
    ensures forall k :: 0 <= k < |s| ==> IsEncodingChar(s[k])
    decreases |b|
  {
    if |b| == 0 then []
    else if |b| == 1 then EncodeSingle(b[0])
    else if |b| == 2 then EncodePair(b[0], b[1])
    else
      var q, rest := EncodeTriple(b[0], b[1], b[2]), Encode(b[3..]);
      assert forall k | 0 <= k < |q + rest| :: (q + rest)[k] == if k < 4 then q[k] else rest[k - 4];
      q + rest
  }

  /** Decodes one group of four characters; padding is accepted only in the final group. */
  function DecodeQuad(q: seq<char>, final: bool): (r: Option<seq<byte>>)
    requires |q| == 4
    ensures r.Some? ==> 1 <= |r.value| <= 3
    ensures r.Some? && |r.value| < 3 ==> final
  {
    match (Value(q[0]), Value(q[1]), Value(q[2]), Value(q[3]))
    case (Some(v0), Some(v1), Some(v2), Some(v3)) =>
      Some([v0 * 4 + v1 / 16, (v1 % 16) * 16 + v2 / 4, (v2 % 4) * 64 + v3])
    case (Some(v0), Some(v1), Some(v2), None) =>
      if final && q[3] == '=' then Some([v0 * 4 + v1 / 16, (v1 % 16) * 16 + v2 / 4]) else None
    case (Some(v0), Some(v1), None, None) =>
      if final && q[2] == '=' && q[3] == '=' then Some([v0 * 4 + v1 / 16]) else None
    case _ => None
  }

  /** Strict decoding: the length must be a multiple of four and only the last group may be padded. */
  function Decode(s: string): (r: Option<seq<byte>>)
    decreases |s|
  {
    if |s| == 0 then Some([])
    else if |s| < 4 then None
    else
      match DecodeQuad(s[..4], |s| == 4)
      case None => None
      case Some(front) =>
        match Decode(s[4..])
        case None => None
        case Some(back) => Some(front + back)
  }

  lemma DecodeTriple(b0: byte, b1: byte, b2: byte, final: bool)
    ensures DecodeQuad(EncodeTriple(b0, b1, b2), final) == Some([b0, b1, b2])
  {
    var v0, v1, v2, v3 := b0 / 4, (b0 % 4) * 16 + b1 / 16, (b1 % 16) * 4 + b2 / 64, b2 % 64;
    assert v1 / 16 == b0 % 4 && v1 % 16 == b1 / 16;
    assert v2 / 4 == b1 % 16 && v2 % 4 == b2 / 64;
  }

  lemma DecodeLastPair(b0: byte, b1: byte)
    ensures DecodeQuad(EncodePair(b0, b1), true) == Some([b0, b1])
  {
    var v0, v1, v2 := b0 / 4, (b0 % 4) * 16 + b1 / 16, (b1 % 16) * 4;
    assert v1 / 16 == b0 % 4 && v1 % 16 == b1 / 16 && v2 / 4 == b1 % 16;
  }

  lemma DecodeLastSingle(b0: byte)
    ensures DecodeQuad(EncodeSingle(b0), true) == Some([b0])
  {
    var v0, v1 := b0 / 4, (b0 % 4) * 16;
    assert v1 / 16 == b0 % 4;
  }

  /** Decoding a leading group followed by more text decodes the group, then the rest. */
  lemma DecodeCons(q: seq<char>, rest: string, front: seq<byte>, back: seq<byte>)
    requires |q| == 4
    requires DecodeQuad(q, rest == []) == Some(front) && Decode(rest) == Some(back)
    ensures Decode(q + rest) == Some(front + back)
  {
    assert (q + rest)[..4] == q;
    assert (q + rest)[4..] == rest;
  }

  lemma DecodeEncodeSingle(b: seq<byte>)
    requires |b| == 1
    ensures Decode(Encode(b)) == Some(b)
  {
    DecodeLastSingle(b[0]);
    DecodeCons(Encode(b), [], [b[0]], []);
    assert Encode(b) + [] == Encode(b) && [b[0]] + [] == b;
  }

  lemma DecodeEncodePair(b: seq<byte>)
    requires |b| == 2
    ensures Decode(Encode(b)) == Some(b)
  {
    DecodeLastPair(b[0], b[1]);
    DecodeCons(Encode(b), [], [b[0], b[1]], []);
    assert Encode(b) + [] == Encode(b) && [b[0], b[1]] + [] == b;
  }

  /** The encoding of three or more bytes starts with the group of the first three. */
  lemma EncodeFirstTriple(b: seq<byte>)
    requires |b| >= 3
    ensures Encode(b) == EncodeTriple(b[0], b[1], b[2]) + Encode(b[3..])
  {
  }

  lemma SplitThree<T>(b: seq<T>)
    requires |b| >= 3
    ensures [b[0], b[1], b[2]] + b[3..] == b
  {
  }

  /** The round trip for three or more bytes, given the round trip for all but the first three. */
  lemma DecodeEncodeLong(b: seq<byte>)
    requires |b| >= 3 && Decode(Encode(b[3..])) == Some(b[3..])
    ensures Decode(Encode(b)) == Some(b)
  {
    var triple, rest := EncodeTriple(b[0], b[1], b[2]), Encode(b[3..]);
    EncodeFirstTriple(b);
    DecodeTriple(b[0], b[1], b[2], rest == []);
    DecodeCons(triple, rest, [b[0], b[1], b[2]], b[3..]);
    SplitThree(b);
  }

  /** Round trip: decoding the encoding of any byte string gives those bytes back. */
  lemma {:induction false} DecodeEncode(b: seq<byte>)
    ensures Decode(Encode(b)) == Some(b)
    decreases |b|
  {
    if |b| == 1 {
      DecodeEncodeSingle(b);
    } else if |b| == 2 {
      DecodeEncodePair(b);
    } else if |b| >= 3 {
      DecodeEncode(b[3..]);
      DecodeEncodeLong(b);
    }
  }

  /** An encoding never contains a space, so splitting a header on `" "` isolates it. */
  lemma NoSpace(b: seq<byte>)
    ensures ' ' !in Encode(b)
  {
    var s := Encode(b);
    forall k | 0 <= k < |s| ensures s[k] != ' ' {
      assert IsEncodingChar(s[k]);
    }
  }

  /** The test vectors of section 10 of RFC 4648 for "f", "fo", "foo" and "foobar". */
  lemma Rfc4648VectorF()
    ensures Encode([102]) == ['Z', 'g', '=', '=']
  {
  }

  lemma Rfc4648VectorFo()
    ensures Encode([102, 111]) == ['Z', 'm', '8', '=']
  {
  }

  lemma FooGroup()
    ensures EncodeTriple(102, 111, 111) == ['Z', 'm', '9', 'v']
  {
  }

  lemma BarGroup()
    ensures EncodeTriple(98, 97, 114) == ['Y', 'm', 'F', 'y']
  {
  }

  lemma Rfc4648VectorFoo()
    ensures Encode([102, 111, 111]) == ['Z', 'm', '9', 'v']
  {
    FooGroup();
    EncodeFirstTriple([102, 111, 111]);
    assert [102, 111, 111][3..] == [];
  }

  lemma Rfc4648VectorFoobar()
    ensures Encode([102, 111, 111, 98, 97, 114]) == ['Z', 'm', '9', 'v', 'Y', 'm', 'F', 'y']
  {
    FooGroup();
    BarGroup();
    EncodeFirstTriple([102, 111, 111, 98, 97, 114]);
    assert [102, 111, 111, 98, 97, 114][3..] == [98, 97, 114];
    EncodeFirstTriple([98, 97, 114]);
    assert [98, 97, 114][3..] == [];
  }
}
