/**
 * Base64 with padding, the encoding of section 4 of RFC 4648, as Python's
 * `base64.b64encode` produces it and `base64.b64decode` reads it back. The
 * backend uses it for thought signatures given as bytes, for uploaded
 * media inlined into Gemini requests, and for image data Gemini returns.
 */
module Base64 {
  import opened Wrappers

  newtype byte = x: int | 0 <= x < 256

  /** The character for a 6-bit value. */
  function CharOf(v: int): (c: char)
    requires 0 <= v < 64
  {
    if v < 26 then ('A' as int + v) as char
    else if v < 52 then ('a' as int + v - 26) as char
    else if v < 62 then ('0' as int + v - 52) as char
    else if v == 62 then '+'
    else '/'
  }

  /** The 6-bit value of an alphabet character, or None. */
  function ValueOf(c: char): (v: Option<int>)
    ensures v.Some? ==> 0 <= v.value < 64 && CharOf(v.value) == c
  {
    if 'A' <= c <= 'Z' then Some(c as int - 'A' as int)
    else if 'a' <= c <= 'z' then Some(c as int - 'a' as int + 26)
    else if '0' <= c <= '9' then Some(c as int - '0' as int + 52)
    else if c == '+' then Some(62)
    else if c == '/' then Some(63)
    else None
  }

  lemma ValueOfChar(v: int)
    requires 0 <= v < 64
    ensures ValueOf(CharOf(v)) == Some(v)
  {
  }

  /** The four characters of three bytes. */
  function Quad3(x: byte, y: byte, z: byte): string {
    var a, b, c := x as int, y as int, z as int;
    [CharOf(a / 4), CharOf((a % 4) * 16 + b / 16), CharOf((b % 16) * 4 + c / 64), CharOf(c % 64)]
  }

  /** Two bytes: three characters and one pad. */
  function Quad2(x: byte, y: byte): string {
    var a, b := x as int, y as int;
    [CharOf(a / 4), CharOf((a % 4) * 16 + b / 16), CharOf((b % 16) * 4), '=']
  }

  /** One byte: two characters and two pads. */
  function Quad1(x: byte): string {
    var a := x as int;
    [CharOf(a / 4), CharOf((a % 4) * 16), '=', '=']
  }

  /** `base64.b64encode(b).decode()`. */
  function Encode(b: seq<byte>): (s: string)
    ensures forall i :: 0 <= i < |s| && s[i] == '=' ==> |s| - 2 <= i
    decreases |b|
  {
    if |b| == 0 then ""
    else if |b| == 1 then Quad1(b[0])
    else if |b| == 2 then Quad2(b[0], b[1])
    else Quad3(b[0], b[1], b[2]) + Encode(b[3..])
  }

  /** Every three bytes, and a final one or two, take four characters. */
  lemma {:induction false} EncodeLength(b: seq<byte>)
    ensures |Encode(b)| == 4 * ((|b| + 2) / 3)
    decreases |b|
  {
    if |b| > 2 {
      EncodeLength(b[3..]);
      EncodeSplit(b);
      assert (|b| + 2) / 3 == (|b[3..]| + 2) / 3 + 1;
    }
  }

  /** The bytes of one group of four characters; `last` allows padding. */
  function DecodeQuad(q: string, last: bool): (r: Option<seq<byte>>)
    requires |q| == 4
    ensures r.Some? ==> 1 <= |r.value| <= 3 && (!last ==> |r.value| == 3)
  {
    var v0, v1 := ValueOf(q[0]), ValueOf(q[1]);
    if v0.None? || v1.None? then None
    else if q[2] == '=' && q[3] == '=' then
      if last && v1.value % 16 == 0 then Some([(v0.value * 4 + v1.value / 16) as byte]) else None
    else
      var v2 := ValueOf(q[2]);
      if v2.None? then None
      else if q[3] == '=' then
        if last && v2.value % 4 == 0
        then Some([(v0.value * 4 + v1.value / 16) as byte, ((v1.value % 16) * 16 + v2.value / 4) as byte])
        else None
      else
        var v3 := ValueOf(q[3]);
        if v3.None? then None
        else Some([(v0.value * 4 + v1.value / 16) as byte, ((v1.value % 16) * 16 + v2.value / 4) as byte,
                   ((v2.value % 4) * 64 + v3.value) as byte])
  }

  /** `base64.b64decode(s)` for canonical input: None when `s` is not the padded encoding of any bytes. */
  function Decode(s: string): (r: Option<seq<byte>>)
    ensures r.Some? ==> |s| % 4 == 0 && |r.value| <= |s| / 4 * 3
    decreases |s|
  {
    if s == [] then Some([])
    else if |s| < 4 then None
    else
      var head := DecodeQuad(s[..4], |s| == 4);
      if head.None? then None
      else
        var rest := Decode(s[4..]);
        if rest.None? then None else Some(head.value + rest.value)
  }

  lemma Quad3RoundTrip(x: byte, y: byte, z: byte)
    ensures DecodeQuad(Quad3(x, y, z), false) == Some([x, y, z])
    ensures DecodeQuad(Quad3(x, y, z), true) == Some([x, y, z])
  {
    var a, b, c := x as int, y as int, z as int;
    ValueOfChar(a / 4);
    ValueOfChar((a % 4) * 16 + b / 16);
    ValueOfChar((b % 16) * 4 + c / 64);
    ValueOfChar(c % 64);
    assert ((a % 4) * 16 + b / 16) / 16 == a % 4;
    assert ((a % 4) * 16 + b / 16) % 16 == b / 16;
    assert ((b % 16) * 4 + c / 64) / 4 == b % 16;
    assert ((b % 16) * 4 + c / 64) % 4 == c / 64;
  }

  lemma Quad2RoundTrip(x: byte, y: byte)
    ensures DecodeQuad(Quad2(x, y), true) == Some([x, y])
  {
    var a, b := x as int, y as int;
    ValueOfChar(a / 4);
    ValueOfChar((a % 4) * 16 + b / 16);
    ValueOfChar((b % 16) * 4);
    assert ((a % 4) * 16 + b / 16) / 16 == a % 4;
    assert ((a % 4) * 16 + b / 16) % 16 == b / 16;
    assert ((b % 16) * 4) / 4 == b % 16;
  }

  lemma Quad1RoundTrip(x: byte)
    ensures DecodeQuad(Quad1(x), true) == Some([x])
  {
    var a := x as int;
    ValueOfChar(a / 4);
    ValueOfChar((a % 4) * 16);
    assert ((a % 4) * 16) / 16 == a % 4;
  }

  /** Decoding reads one group of four and then the rest. */
  lemma DecodeStep(s: string, head: seq<byte>, rest: seq<byte>)
    requires |s| >= 4 && DecodeQuad(s[..4], |s| == 4) == Some(head) && Decode(s[4..]) == Some(rest)
    ensures Decode(s) == Some(head + rest)
  {
  }

  lemma DecodeEncode1(x: byte)
    ensures Decode(Encode([x])) == Some([x])
  {
    var s := Encode([x]);
    assert s == Quad1(x);
    assert s[..4] == s && s[4..] == [];
    Quad1RoundTrip(x);
    DecodeStep(s, [x], []);
    assert [x] + [] == [x];
  }

  lemma DecodeEncode2(x: byte, y: byte)
    ensures Decode(Encode([x, y])) == Some([x, y])
  {
    var s := Encode([x, y]);
    assert s == Quad2(x, y);
    assert s[..4] == s && s[4..] == [];
    Quad2RoundTrip(x, y);
    DecodeStep(s, [x, y], []);
    assert [x, y] + [] == [x, y];
  }

  lemma EncodeSplit(b: seq<byte>)
    requires |b| > 2
    ensures |Encode(b)| >= 4 && Encode(b)[..4] == Quad3(b[0], b[1], b[2]) && Encode(b)[4..] == Encode(b[3..])
  {
    assert Encode(b) == Quad3(b[0], b[1], b[2]) + Encode(b[3..]);
  }

  lemma SplitThree(b: seq<byte>)
    requires |b| > 2
    ensures b == [b[0], b[1], b[2]] + b[3..]
  {
    assert b == b[..3] + b[3..];
    assert b[..3] == [b[0], b[1], b[2]];
  }

  lemma DecodeEncodeGroup(b: seq<byte>)
    requires |b| > 2 && Decode(Encode(b[3..])) == Some(b[3..])
    ensures Decode(Encode(b)) == Some(b)
  {
    EncodeSplit(b);
    Quad3RoundTrip(b[0], b[1], b[2]);
    DecodeStep(Encode(b), [b[0], b[1], b[2]], b[3..]);
    SplitThree(b);
  }

  /** Decoding an encoding gives the bytes back. */
  lemma {:induction false} DecodeEncode(b: seq<byte>)
    ensures Decode(Encode(b)) == Some(b)
    decreases |b|
  {
    if |b| == 1 {
      DecodeEncode1(b[0]);
      assert b == [b[0]];
    } else if |b| == 2 {
      DecodeEncode2(b[0], b[1]);
      assert b == [b[0], b[1]];
    } else if |b| > 2 {
      DecodeEncode(b[3..]);
      DecodeEncodeGroup(b);
    }
  }
}
