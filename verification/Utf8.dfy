/**
 Identifiers as texts: UTF-8 as the Encoding Standard defines TextEncoder and TextDecoder, sections 8.1.1
 and 8.1.2.  A text is a sequence of scalar values.
 */
module Utf8 {
  import opened Prelude
  import opened Hex

  const REPLACEMENT: int := 0xFFFD
  const BYTE_ORDER_MARK: int := 0xFEFF

  /** Code points other than surrogates. */
  type Scalar = x: int | 0 <= x < 0x110000 && !(0xD800 <= x < 0xE000)

  /** The continuation byte for six bits. */
  function Tail(bits: nat): uint8 {
    0x80 + bits % 64
  }

  function EncodeOne(c: Scalar): (b: seq<uint8>)
    ensures 1 <= |b| <= 4
  {
    if c < 0x80 then [c]
    else if c < 0x800 then [0xC0 + c / 64, Tail(c)]
    else if c < 0x10000 then [0xE0 + c / 4096, Tail(c / 64), Tail(c)]
    else [0xF0 + c / 262144, Tail(c / 4096), Tail(c / 64), Tail(c)]
  }

  /** TextEncoder.encode. */
  function EncodeText(s: seq<Scalar>): seq<uint8> {
    if s == [] then [] else EncodeOne(s[0]) + EncodeText(s[1..])
  }

  /** The decoder between characters. Anything malformed becomes a replacement character. */
  function Decoded(b: seq<uint8>): seq<int>
    decreases |b|, 0
  {
    if b == [] then []
    else if b[0] < 0x80 then [b[0]] + Decoded(b[1..])
    else if 0xC2 <= b[0] <= 0xDF then Continued(b[1..], 1, b[0] - 0xC0, 0x80, 0xBF)
    else if 0xE0 <= b[0] <= 0xEF then
      Continued(b[1..], 2, b[0] - 0xE0, if b[0] == 0xE0 then 0xA0 else 0x80, if b[0] == 0xED then 0x9F else 0xBF)
    else if 0xF0 <= b[0] <= 0xF4 then
      Continued(b[1..], 3, b[0] - 0xF0, if b[0] == 0xF0 then 0x90 else 0x80, if b[0] == 0xF4 then 0x8F else 0xBF)
    else [REPLACEMENT] + Decoded(b[1..])
  }

  /** The decoder inside a character; a byte out of bounds is looked at again on its own. */
  function Continued(b: seq<uint8>, needed: nat, point: nat, lower: int, upper: int): seq<int>
    requires needed > 0
    decreases |b|, 1
  {
    if b == [] then [REPLACEMENT]
    else if !(0x80 <= lower <= b[0] <= upper) then [REPLACEMENT] + Decoded(b)
    else
      var point := point * 64 + (b[0] - 0x80);
      if needed == 1 then [point] + Decoded(b[1..]) else Continued(b[1..], needed - 1, point, 0x80, 0xBF)
  }

  /** TextDecoder.decode, which drops a byte order mark in front. */
  function DecodeText(b: seq<uint8>): seq<int> {
    WithoutMark(Decoded(b))
  }

  function WithoutMark(s: seq<int>): seq<int> {
    if s != [] && s[0] == BYTE_ORDER_MARK then s[1..] else s
  }

  /** What bytes32HexToString returns. */
  function TextOf(h: string): seq<int> {
    DecodeText(FromBytes32(h))
  }

  method Bytes32HexToString(h: string) returns (text: seq<int>)
    ensures text == TextOf(h)
  {
    var id := TrimBytes32(h);
    text := DecodeText(id);
  }

  // ---- decoding what was encoded ----

  lemma DecodesOne(c: Scalar, rest: seq<uint8>)
    ensures Decoded(EncodeOne(c) + rest) == [c] + Decoded(rest)
  {
    var b := EncodeOne(c) + rest;
    if c < 0x80 {
      assert b[1..] == rest;
    } else if c < 0x800 {
      assert b[1..] == [Tail(c)] + rest;
      LastTail(c / 64, c, rest, 0x80, 0xBF);
    } else if c < 0x10000 {
      DecodesThree(c, rest);
    } else {
      DecodesFour(c, rest);
    }
  }

  lemma DecodesThree(c: Scalar, rest: seq<uint8>)
    requires 0x800 <= c < 0x10000
    ensures Decoded(EncodeOne(c) + rest) == [c] + Decoded(rest)
  {
    var b := EncodeOne(c) + rest;
    assert b[1..] == [Tail(c / 64)] + ([Tail(c)] + rest);
    var lower, upper := if b[0] == 0xE0 then 0xA0 else 0x80, if b[0] == 0xED then 0x9F else 0xBF;
    NextTail(c / 4096, c / 64, [Tail(c)] + rest, 2, lower, upper);
    LastTail(c / 64, c, rest, 0x80, 0xBF);
  }

  lemma DecodesFour(c: Scalar, rest: seq<uint8>)
    requires 0x10000 <= c
    ensures Decoded(EncodeOne(c) + rest) == [c] + Decoded(rest)
  {
    var b := EncodeOne(c) + rest;
    assert b[1..] == [Tail(c / 4096)] + ([Tail(c / 64)] + ([Tail(c)] + rest));
    var lower, upper := if b[0] == 0xF0 then 0x90 else 0x80, if b[0] == 0xF4 then 0x8F else 0xBF;
    NextTail(c / 262144, c / 4096, [Tail(c / 64)] + ([Tail(c)] + rest), 3, lower, upper);
    NextTail(c / 4096, c / 64, [Tail(c)] + rest, 2, 0x80, 0xBF);
    LastTail(c / 64, c, rest, 0x80, 0xBF);
  }

  lemma LastTail(point: nat, c: nat, rest: seq<uint8>, lower: int, upper: int)
    requires point == c / 64 && 0x80 <= lower <= Tail(c) <= upper
    ensures Continued([Tail(c)] + rest, 1, point, lower, upper) == [c] + Decoded(rest)
  {
    assert ([Tail(c)] + rest)[1..] == rest;
  }

  lemma NextTail(point: nat, c: nat, rest: seq<uint8>, needed: nat, lower: int, upper: int)
    requires needed > 1 && point == c / 64 && 0x80 <= lower <= Tail(c) <= upper
    ensures Continued([Tail(c)] + rest, needed, point, lower, upper) == Continued(rest, needed - 1, c, 0x80, 0xBF)
  {
    assert ([Tail(c)] + rest)[1..] == rest;
  }

  /** Every text survives UTF-8. */
  lemma {:induction false} DecodesText(s: seq<Scalar>)
    ensures Decoded(EncodeText(s)) == s
  {
    if s != [] {
      DecodesOne(s[0], EncodeText(s[1..]));
      DecodesText(s[1..]);
    }
  }

  // ---- malformed bytes ----

  /** Decoding took these bytes for this character. */
  predicate Took(b: seq<uint8>, n: nat, c: int) {
    && n <= |b| && IsScalar(c) && b[..n] == EncodeOne(c) && Decoded(b) == [c] + Decoded(b[n..])
  }

  predicate IsScalar(c: int) {
    0 <= c < 0x110000 && !(0xD800 <= c < 0xE000)
  }

  /** The six bits of a continuation byte. */
  function Six(b: uint8): int {
    b as int - 0x80
  }

  predicate IsTail(b: uint8) {
    0x80 <= b <= 0xBF
  }

  lemma LastByte(b: seq<uint8>, point: nat, lower: int, upper: int)
    requires 0x80 <= lower <= upper <= 0xBF && 0xFFFD !in Continued(b, 1, point, lower, upper)
    ensures b != [] && lower <= b[0] <= upper
    ensures Continued(b, 1, point, lower, upper) == [point * 64 + Six(b[0])] + Decoded(b[1..])
  {
  }

  lemma NextByte(b: seq<uint8>, needed: nat, point: nat, lower: int, upper: int)
    requires needed > 1 && 0x80 <= lower <= upper <= 0xBF && 0xFFFD !in Continued(b, needed, point, lower, upper)
    ensures b != [] && lower <= b[0] <= upper
    ensures Continued(b, needed, point, lower, upper)
            == Continued(b[1..], needed - 1, point * 64 + Six(b[0]), 0x80, 0xBF)
  {
  }

  lemma EncodesTwo(x: nat, t: uint8)
    requires 2 <= x < 32 && IsTail(t)
    ensures IsScalar(x * 64 + Six(t)) && EncodeOne(x * 64 + Six(t)) == [0xC0 + x, t]
  {
  }

  lemma EncodesThree(x: nat, t: uint8, u: uint8)
    requires x < 16 && IsTail(t) && IsTail(u) && (x == 0 ==> t >= 0xA0) && (x == 13 ==> t <= 0x9F)
    ensures var c := (x * 64 + Six(t)) * 64 + Six(u);
      IsScalar(c) && EncodeOne(c) == [0xE0 + x, t, u]
  {
    var c := (x * 64 + Six(t)) * 64 + Six(u);
    assert c / 64 == x * 64 + Six(t) && c / 4096 == x;
  }

  lemma EncodesFour(x: nat, t: uint8, u: uint8, v: uint8)
    requires x <= 4 && IsTail(t) && IsTail(u) && IsTail(v) && (x == 0 ==> t >= 0x90) && (x == 4 ==> t <= 0x8F)
    ensures var c := ((x * 64 + Six(t)) * 64 + Six(u)) * 64 + Six(v);
      IsScalar(c) && EncodeOne(c) == [0xF0 + x, t, u, v]
  {
    var c := ((x * 64 + Six(t)) * 64 + Six(u)) * 64 + Six(v);
    assert c / 64 == (x * 64 + Six(t)) * 64 + Six(u) && c / 4096 == x * 64 + Six(t) && c / 262144 == x;
  }

  lemma TookTwo(b: seq<uint8>) returns (c: int)
    requires b != [] && 0xC2 <= b[0] <= 0xDF && 0xFFFD !in Decoded(b)
    ensures Took(b, 2, c)
  {
    var x: nat := b[0] as int - 0xC0;
    LastByte(b[1..], x, 0x80, 0xBF);
    EncodesTwo(x, b[1]);
    c := x * 64 + Six(b[1]);
    assert b[1..][1..] == b[2..] && b[..2] == [b[0], b[1]];
  }

  lemma TookThree(b: seq<uint8>) returns (c: int)
    requires b != [] && 0xE0 <= b[0] <= 0xEF && 0xFFFD !in Decoded(b)
    ensures Took(b, 3, c)
  {
    var x: nat := b[0] as int - 0xE0;
    NextByte(b[1..], 2, x, if x == 0 then 0xA0 else 0x80, if x == 13 then 0x9F else 0xBF);
    assert b[1..][1..] == b[2..];
    LastByte(b[2..], x * 64 + Six(b[1]), 0x80, 0xBF);
    EncodesThree(x, b[1], b[2]);
    c := (x * 64 + Six(b[1])) * 64 + Six(b[2]);
    assert b[2..][1..] == b[3..] && b[..3] == [b[0], b[1], b[2]];
  }

  lemma LastTwoBytes(b: seq<uint8>, point: nat)
    requires 0xFFFD !in Continued(b, 2, point, 0x80, 0xBF)
    ensures |b| >= 2 && IsTail(b[0]) && IsTail(b[1])
    ensures Continued(b, 2, point, 0x80, 0xBF) == [(point * 64 + Six(b[0])) * 64 + Six(b[1])] + Decoded(b[2..])
  {
    NextByte(b, 2, point, 0x80, 0xBF);
    LastByte(b[1..], point * 64 + Six(b[0]), 0x80, 0xBF);
    assert b[1..][1..] == b[2..];
  }

  lemma TookFour(b: seq<uint8>) returns (c: int)
    requires b != [] && 0xF0 <= b[0] <= 0xF4 && 0xFFFD !in Decoded(b)
    ensures Took(b, 4, c)
  {
    var x: nat := b[0] as int - 0xF0;
    NextByte(b[1..], 3, x, if x == 0 then 0x90 else 0x80, if x == 4 then 0x8F else 0xBF);
    assert b[1..][1..] == b[2..];
    LastTwoBytes(b[2..], x * 64 + Six(b[1]));
    EncodesFour(x, b[1], b[2], b[3]);
    c := ((x * 64 + Six(b[1])) * 64 + Six(b[2])) * 64 + Six(b[3]);
    assert b[2..][2..] == b[4..] && b[..4] == [b[0], b[1], b[2], b[3]];
  }

  lemma LeadByte(b: seq<uint8>)
    requires b != [] && 0xFFFD !in Decoded(b)
    ensures b[0] < 0x80 || 0xC2 <= b[0] <= 0xF4
  {
  }

  lemma TookOne(b: seq<uint8>) returns (n: nat, c: int)
    requires b != [] && 0xFFFD !in Decoded(b)
    ensures 0 < n && Took(b, n, c)
  {
    LeadByte(b);
    if b[0] < 0x80 {
      n, c := 1, b[0];
      assert b[..1] == [b[0]];
    } else if b[0] <= 0xDF {
      n := 2;
      c := TookTwo(b);
    } else if b[0] <= 0xEF {
      n := 3;
      c := TookThree(b);
    } else {
      n := 4;
      c := TookFour(b);
    }
  }

  /**
   Malformed bytes never pass unnoticed: what decodes without a replacement character is the encoding of
   what it decodes to.
   */
  lemma {:induction false} DecodedIsEncoded(b: seq<uint8>) returns (s: seq<Scalar>)
    requires 0xFFFD !in Decoded(b)
    ensures Decoded(b) == s && EncodeText(s) == b
    decreases |b|
  {
    s := [];
    if b != [] {
      var n, c := TookOne(b);
      var rest := DecodedIsEncoded(b[n..]);
      s := [c] + rest;
      assert s[1..] == rest && b == b[..n] + b[n..];
    }
  }

  /** The ASCII characters among these numbers. */
  function Ascii(s: seq<int>): seq<int> {
    if s == [] then [] else (if s[0] < 0x80 then [s[0]] else []) + Ascii(s[1..])
  }

  lemma AsciiFirst(x: int, rest: seq<int>)
    ensures Ascii([x] + rest) == (if x < 0x80 then [x] else []) + Ascii(rest)
  {
    assert ([x] + rest)[1..] == rest;
  }

  /** Whatever stands around them, ASCII bytes decode to themselves, and nothing else decodes to ASCII. */
  lemma {:induction false} AsciiKept(b: seq<uint8>)
    ensures Ascii(Decoded(b)) == Ascii(b)
    decreases |b|, 0
  {
    if b != [] {
      AsciiFirst(b[0], b[1..]);
      assert b == [b[0]] + b[1..];
      if b[0] < 0x80 {
        AsciiKept(b[1..]);
        AsciiFirst(b[0], Decoded(b[1..]));
      } else if 0xC2 <= b[0] <= 0xF4 {
        AsciiLead(b[0], b[1..]);
      } else {
        AsciiKept(b[1..]);
        AsciiFirst(0xFFFD, Decoded(b[1..]));
      }
    }
  }

  lemma {:induction false} AsciiLead(lead: uint8, rest: seq<uint8>)
    requires 0xC2 <= lead <= 0xF4
    ensures Ascii(Decoded([lead] + rest)) == Ascii(rest)
    decreases |rest|, 2
  {
    assert ([lead] + rest)[1..] == rest;
    var x: nat := lead as int;
    if x <= 0xDF {
      AsciiContinued(rest, 1, x - 0xC0, 0x80, 0xBF);
    } else if x <= 0xEF {
      AsciiContinued(rest, 2, x - 0xE0, if x == 0xE0 then 0xA0 else 0x80, if x == 0xED then 0x9F else 0xBF);
    } else {
      AsciiContinued(rest, 3, x - 0xF0, if x == 0xF0 then 0x90 else 0x80, if x == 0xF4 then 0x8F else 0xBF);
    }
  }

  lemma {:induction false} AsciiContinued(b: seq<uint8>, needed: nat, point: nat, lower: int, upper: int)
    requires needed > 0 && 0x80 <= lower
    requires if needed == 1 then point >= 2 else point > 0 || lower >= 0x90
    ensures Ascii(Continued(b, needed, point, lower, upper)) == Ascii(b)
    decreases |b|, 1
  {
    if b == [] {
      AsciiFirst(0xFFFD, []);
    } else if !(0x80 <= lower <= b[0] <= upper) {
      AsciiKept(b);
      AsciiFirst(0xFFFD, Decoded(b));
    } else {
      var next: nat := point * 64 + Six(b[0]);
      AsciiFirst(b[0], b[1..]);
      assert b == [b[0]] + b[1..];
      if needed == 1 {
        AsciiKept(b[1..]);
        AsciiFirst(next, Decoded(b[1..]));
      } else {
        AsciiContinued(b[1..], needed - 1, next, 0x80, 0xBF);
      }
    }
  }

  // ---- trailing zero bytes ----

  function WithoutNuls(s: seq<Scalar>): seq<Scalar> {
    if s != [] && s[|s| - 1] == 0 then WithoutNuls(s[..|s| - 1]) else s
  }

  lemma {:induction false} EncodeAppend(s: seq<Scalar>, c: Scalar)
    ensures EncodeText(s + [c]) == EncodeText(s) + EncodeOne(c)
  {
    if s == [] {
      assert [] + [c] == [c] && [c][1..] == [];
    } else {
      assert (s + [c])[1..] == s[1..] + [c];
      EncodeAppend(s[1..], c);
    }
  }

  /** Only the scalar 0 is encoded with a zero byte at its end. */
  lemma {:induction false} TrimmedText(s: seq<Scalar>)
    ensures Trimmed(EncodeText(s)) == EncodeText(WithoutNuls(s))
  {
    if s != [] {
      var init, c := s[..|s| - 1], s[|s| - 1];
      var b := EncodeText(s);
      assert s == init + [c];
      EncodeAppend(init, c);
      assert b[|b| - 1] == EncodeOne(c)[|EncodeOne(c)| - 1];
      if c == 0 {
        assert b[..|b| - 1] == EncodeText(init);
        TrimmedText(init);
      }
    }
  }

  lemma {:induction false} NulsShorten(s: seq<Scalar>)
    ensures |WithoutNuls(s)| <= |s|
    ensures |WithoutNuls(s)| == |s| <==> s == [] || s[|s| - 1] != 0
  {
    if s != [] && s[|s| - 1] == 0 {
      NulsShorten(s[..|s| - 1]);
    }
  }

  /**
   A text that fits into 32 bytes comes back from its identifier exactly when it neither ends in a zero
   character nor starts with a byte order mark.
   */
  lemma TextRoundTrip(s: seq<Scalar>)
    requires |EncodeText(s)| <= 32
    ensures TextOf(ToBytes32(EncodeText(s)).value) == s
            <==> s == [] || (s[|s| - 1] != 0 && s[0] != 0xFEFF)
  {
    SlotReadsTrimmed(EncodeText(s), ToBytes32(EncodeText(s)).value);
    TrimmedText(s);
    DecodesText(WithoutNuls(s));
    NulsShorten(s);
  }
}
