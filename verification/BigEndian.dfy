/**
 Big-endian words.  `Minimal` is Go's big.Int.Bytes, `AbiWord` is the uint encoding of the
 Solidity Contract ABI Specification, section "Formal Specification of the Encoding", written
 digit by digit, and `LeftPadWord` is the enclave's buffer-filling version of it.
 */
module BigEndian {
  import opened Prelude

  function Pow256(n: nat): (p: nat)
    ensures p > 0
  {
    if n == 0 then 1 else 256 * Pow256(n - 1)
  }

  /** The number a byte string denotes, most significant byte first. */
  function Value(s: seq<uint8>): nat {
    if s == [] then 0 else 256 * Value(s[..|s| - 1]) + s[|s| - 1]
  }

  /** The shortest big-endian representation; zero is the empty string. */
  function Minimal(v: nat): seq<uint8> {
    if v == 0 then [] else Minimal(v / 256) + [v % 256]
  }

  /** The n low-order base-256 digits of v. */
  function Fixed(v: nat, n: nat): (s: seq<uint8>)
    ensures |s| == n
  {
    if n == 0 then [] else Fixed(v / 256, n - 1) + [v % 256]
  }

  /** Byte i of a 32-byte word has weight 256^(31-i). */
  function AbiWord(v: nat): (s: seq<uint8>) {
    seq(32, i requires 0 <= i < 32 => (v / Pow256(31 - i)) % 256)
  }

  /** The reading of exactly one word. */
  function WordValue(s: seq<uint8>): uint256
    requires |s| == 32
  {
    ValueBound(s);
    Pow256Of32();
    Value(s)
  }

  lemma Pow256Of32()
    ensures Pow256(32) == POW256
  {
    assert Pow256(8) == POW64;
    assert Pow256(16) == POW64 * POW64;
    assert Pow256(24) == POW64 * POW64 * POW64;
  }

  lemma {:induction false} ValueBound(s: seq<uint8>)
    ensures Value(s) < Pow256(|s|)
  {
    if s != [] {
      ValueBound(s[..|s| - 1]);
    }
  }

  lemma {:induction false} ValueOfFixed(v: nat, n: nat)
    requires v < Pow256(n)
    ensures Value(Fixed(v, n)) == v
  {
    if n > 0 {
      ValueOfFixed(v / 256, n - 1);
      assert Fixed(v, n)[..n - 1] == Fixed(v / 256, n - 1);
    }
  }

  lemma {:induction false} FixedOfValue(s: seq<uint8>)
    ensures Fixed(Value(s), |s|) == s
  {
    if s != [] {
      FixedOfValue(s[..|s| - 1]);
    }
  }

  lemma MultiplyMonotone(d: nat, x: nat, y: nat)
    requires x <= y
    ensures d * x <= d * y
  {
  }

  lemma QuotientIsUnique(v: nat, d: nat, q: nat, r: nat)
    requires d > 0 && r < d && v == d * q + r
    ensures v / d == q
  {
    var q' := v / d;
    assert v == d * q' + v % d;
    assert d * (q + 1) == d * q + d && d * (q' + 1) == d * q' + d;
    if q < q' {
      MultiplyMonotone(d, q + 1, q');
      assert false;
    } else if q' < q {
      MultiplyMonotone(d, q' + 1, q);
      assert false;
    }
  }

  /** Division by a product is division by its factors in turn. */
  lemma DivideTwice(v: nat, b: nat)
    requires b > 0
    ensures (v / 256) / b == v / (256 * b)
  {
    var x := v / 256;
    var q, r := x / b, x % b;
    assert x == b * q + r;
    assert 256 * (b * q) == (256 * b) * q;
    QuotientIsUnique(v, 256 * b, q, 256 * r + v % 256);
  }

  lemma {:induction false} FixedDigit(v: nat, n: nat, i: nat)
    requires i < n
    ensures Fixed(v, n)[i] == (v / Pow256(n - 1 - i)) % 256
  {
    if i < n - 1 {
      FixedDigit(v / 256, n - 1, i);
      DivideTwice(v, Pow256(n - 2 - i));
    }
  }

  /** The digit-by-digit ABI word is the recursive 32-byte encoding. */
  lemma AbiWordIsFixed(v: nat)
    ensures AbiWord(v) == Fixed(v, 32)
  {
    forall i | 0 <= i < 32
      ensures AbiWord(v)[i] == Fixed(v, 32)[i]
    {
      FixedDigit(v, 32, i);
    }
  }

  /** Encoding a 256-bit value and reading the word back is the identity. */
  lemma WordRoundTrip(v: uint256)
    ensures |AbiWord(v)| == 32 && WordValue(AbiWord(v)) == v
  {
    AbiWordIsFixed(v);
    Pow256Of32();
    ValueOfFixed(v, 32);
  }

  /** Reading any 32 bytes and encoding the value gives the same bytes. */
  lemma WordRoundTripBack(s: seq<uint8>)
    requires |s| == 32
    ensures AbiWord(WordValue(s)) == s
  {
    AbiWordIsFixed(WordValue(s));
    FixedOfValue(s);
  }

  lemma {:induction false} MinimalLength(v: nat, n: nat)
    requires v < Pow256(n)
    ensures |Minimal(v)| <= n
  {
    if v > 0 {
      MinimalLength(v / 256, n - 1);
    }
  }

  /** Left-padding the shortest form with zero bytes is the fixed-width encoding. */
  lemma {:induction false} PaddedMinimal(v: nat, n: nat)
    requires v < Pow256(n) && |Minimal(v)| <= n
    ensures Repeat(0, n - |Minimal(v)|) + Minimal(v) == Fixed(v, n)
  {
    if v == 0 {
      FixedOfZero(n);
    } else {
      MinimalLength(v / 256, n - 1);
      PaddedMinimal(v / 256, n - 1);
      assert n - |Minimal(v)| == n - 1 - |Minimal(v / 256)|;
      assert Repeat(0, n - |Minimal(v)|) + Minimal(v)
          == (Repeat(0, n - |Minimal(v)|) + Minimal(v / 256)) + [v % 256];
    }
  }

  lemma {:induction false} FixedOfZero(n: nat)
    ensures Fixed(0, n) == Repeat(0, n)
  {
    if n > 0 {
      FixedOfZero(n - 1);
    }
  }

  /**
   The enclave's leftPadWord: a zeroed 32-byte buffer whose tail is overwritten with the
   shortest form of v.  It is the ABI word of v for every 256-bit value.
   */
  method LeftPadWord(v: uint256) returns (out: array<uint8>)
    ensures fresh(out) && out[..] == AbiWord(v)
  {
    var b := Minimal(v);
    Pow256Of32();
    MinimalLength(v, 32);
    out := new uint8[32](_ => 0);
    var i := 0;
    while i < |b|
      invariant 0 <= i <= |b| <= 32
      invariant forall k | 0 <= k < 32 - |b| :: out[k] == 0
      invariant out[32 - |b|..32 - |b| + i] == b[..i]
    {
      out[32 - |b| + i] := b[i];
      i := i + 1;
    }
    assert out[..] == Repeat(0, 32 - |b|) + b;
    PaddedMinimal(v, 32);
    AbiWordIsFixed(v);
  }
}
