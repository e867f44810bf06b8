/** Hex and bytes32 identifiers on the wire, at the level of bytes. */
module Hex {
  import opened Prelude

  const HEX_DIGITS: string := "0123456789abcdef"

  function Nibble(d: nat): char
    requires d < 16
  {
    HEX_DIGITS[d]
  }

  predicate IsHex(c: char) {
    '0' <= c <= '9' || 'a' <= c <= 'f' || 'A' <= c <= 'F'
  }

  function NibbleValue(c: char): (d: nat)
    requires IsHex(c)
    ensures d < 16
  {
    if c <= '9' then c as int - '0' as int
    else if c <= 'F' then c as int - 'A' as int + 10
    else c as int - 'a' as int + 10
  }

  /** String.toLowerCase on ASCII. */
  function Lower(s: string): (r: string)
    ensures |r| == |s|
  {
    seq(|s|, i requires 0 <= i < |s| => if 'A' <= s[i] <= 'Z' then (s[i] as int + 32) as char else s[i])
  }

  function Strip(s: string): string {
    if s[..if |s| < 2 then |s| else 2] in ["0x", "0X"] then s[2..] else s
  }

  predicate AllHex(s: string) {
    forall i | 0 <= i < |s| :: IsHex(s[i])
  }

  datatype HexError = OddLength | NonHex | TooLong

  function Byte(a: char, b: char): uint8
    requires IsHex(a) && IsHex(b)
  {
    16 * NibbleValue(a) + NibbleValue(b)
  }

  /** The bytes of an even-length run of hex digits. */
  function Bytes(s: string): (b: seq<uint8>)
    requires |s| % 2 == 0 && AllHex(s)
  {
    seq(|s| / 2, i requires 0 <= i < |s| / 2 => Byte(s[2 * i], s[2 * i + 1]))
  }

  function Decode(h: Option<string>): Result<seq<uint8>, HexError> {
    match h
    case None => Success([])
    case Some(text) =>
      var s := Strip(text);
      if |s| % 2 != 0 then Failure(OddLength)
      else if !AllHex(s) then Failure(NonHex)
      else Success(Bytes(s))
  }

  function Encode(b: seq<uint8>): string {
    "0x" + Digits(b)
  }

  function Digits(b: seq<uint8>): (s: string)
    ensures |s| == 2 * |b|
  {
    seq(2 * |b|, i requires 0 <= i < 2 * |b| =>
      Nibble(if i % 2 == 0 then b[i / 2] / 16 else b[i / 2] % 16))
  }

  /** hexToBytes: strip, reject, then fill an array pair by pair. */
  method HexToBytes(h: Option<string>) returns (r: Result<seq<uint8>, HexError>)
    ensures r == Decode(h)
  {
    if h.None? { return Success([]); }
    var s := Strip(h.value);
    if |s| == 0 {
      assert Bytes(s) == [];
      return Success([]);
    }
    if |s| % 2 != 0 { return Failure(OddLength); }
    if !AllHex(s) { return Failure(NonHex); }
    var out := new uint8[|s| / 2];
    var i := 0;
    while i < out.Length
      invariant 0 <= i <= out.Length
      invariant forall k | 0 <= k < i :: out[k] == Byte(s[2 * k], s[2 * k + 1])
    {
      out[i] := Byte(s[2 * i], s[2 * i + 1]);
      i := i + 1;
    }
    assert out[..] == Bytes(s);
    r := Success(out[..]);
  }

  /** bytesToHex: grow the string byte by byte. */
  method BytesToHex(b: seq<uint8>) returns (s: string)
    ensures s == Encode(b)
  {
    s := "0x";
    for k := 0 to |b|
      invariant s == "0x" + Digits(b)[..2 * k]
    {
      s := s + [Nibble(b[k] / 16), Nibble(b[k] % 16)];
      assert Digits(b)[..2 * (k + 1)] == Digits(b)[..2 * k] + [Nibble(b[k] / 16), Nibble(b[k] % 16)];
    }
    assert Digits(b)[..2 * |b|] == Digits(b);
  }

  lemma StripPrefixed(s: string)
    ensures Strip("0x" + s) == s
  {
    assert ("0x" + s)[..2] == "0x" && ("0x" + s)[2..] == s;
  }

  /** Every byte string survives encoding and decoding. */
  lemma DecodeEncode(b: seq<uint8>)
    ensures Decode(Some(Encode(b))) == Success(b)
  {
    StripPrefixed(Digits(b));
    BytesOfDigits(b);
  }

  lemma DigitsAreHex(b: seq<uint8>)
    ensures AllHex(Digits(b))
  {
    forall i | 0 <= i < |Digits(b)|
      ensures IsHex(Digits(b)[i])
    {
      DigitPair(b, i / 2);
      assert i == 2 * (i / 2) || i == 2 * (i / 2) + 1;
    }
  }

  lemma BytesOfDigits(b: seq<uint8>)
    ensures AllHex(Digits(b)) && Bytes(Digits(b)) == b
  {
    DigitsAreHex(b);
    forall i | 0 <= i < |b|
      ensures Bytes(Digits(b))[i] == b[i]
    {
      DigitPair(b, i);
    }
  }

  lemma NibbleRoundTrip(d: nat)
    requires d < 16
    ensures IsHex(Nibble(d)) && NibbleValue(Nibble(d)) == d
  {
  }

  lemma DigitPair(b: seq<uint8>, i: nat)
    requires i < |b|
    ensures var s := Digits(b);
      IsHex(s[2 * i]) && IsHex(s[2 * i + 1]) && Byte(s[2 * i], s[2 * i + 1]) == b[i]
  {
    var s := Digits(b);
    assert s[2 * i] == Nibble(b[i] / 16) by { assert (2 * i) / 2 == i; }
    assert s[2 * i + 1] == Nibble(b[i] % 16) by { assert (2 * i + 1) / 2 == i; }
    NibbleRoundTrip(b[i] / 16);
    NibbleRoundTrip(b[i] % 16);
  }

  /** Every accepted text re-encodes to its prefixed lower-case form, so lengths and digits are kept. */
  lemma EncodeDecode(text: string)
    requires Decode(Some(text)).Success?
    ensures Encode(Decode(Some(text)).value) == "0x" + Lower(Strip(text))
  {
    var s := Strip(text);
    var b := Bytes(s);
    forall i | 0 <= i < |s|
      ensures Digits(b)[i] == Lower(s)[i]
    {
      NibbleKept(s, i);
    }
    assert Digits(b) == Lower(s);
  }

  lemma NibbleKept(s: string, i: nat)
    requires |s| % 2 == 0 && AllHex(s) && i < |s|
    ensures Digits(Bytes(s))[i] == Lower(s)[i]
  {
    var b, k := Bytes(s), i / 2;
    assert b[k] == Byte(s[2 * k], s[2 * k + 1]);
    assert b[k] / 16 == NibbleValue(s[2 * k]) && b[k] % 16 == NibbleValue(s[2 * k + 1]);
    assert i == 2 * k || i == 2 * k + 1;
  }

  /** The hex digits of a text, after a prefix 0x or 0X if it has one. */
  ghost predicate HasDigits(text: string, digits: string) {
    || text == "0x" + digits || text == "0X" + digits
    || (text == digits && !("0x" <= text) && !("0X" <= text))
  }

  lemma SplitPrefix(text: string, prefix: string, rest: string)
    requires |prefix| == 2
    ensures prefix <= text <==> |text| >= 2 && text[..2] == prefix
    ensures text == prefix + rest <==> prefix <= text && rest == text[2..]
  {
    if prefix <= text {
      assert text == text[..2] + text[2..];
    }
    if text == prefix + rest {
      assert text[..2] == prefix && text[2..] == rest;
    }
  }

  lemma StripIs(text: string, digits: string)
    ensures HasDigits(text, digits) <==> digits == Strip(text)
  {
    SplitPrefix(text, "0x", digits);
    SplitPrefix(text, "0X", digits);
  }

  /** When a text is rejected and why; the length is checked before the digits. */
  lemma DecodeRejects(text: string, digits: string)
    requires HasDigits(text, digits)
    ensures Decode(Some(text)) == Failure(OddLength) <==> |digits| % 2 == 1
    ensures Decode(Some(text)) == Failure(NonHex) <==>
      |digits| % 2 == 0 && exists c | c in digits :: !('0' <= c <= '9' || 'a' <= c <= 'f' || 'A' <= c <= 'F')
    ensures Decode(Some(text)).Success? ==> 2 * |Decode(Some(text)).value| == |digits|
  {
    StripIs(text, digits);
    if !AllHex(digits) {
      var i :| 0 <= i < |digits| && !IsHex(digits[i]);
      assert digits[i] in digits;
    }
  }

  /** The high digit comes first, and digits are lower case. */
  lemma EncodesHighDigitFirst()
    ensures Encode([0x1f, 0xa0]) == "0x1fa0"
  {
    assert Digits([0x1f, 0xa0]) == "1fa0";
  }

  // ---- bytes32 identifiers ----

  /** stringToBytes32Hex on the encoded identifier: right-padded to 32 bytes, or too long. */
  function ToBytes32(id: seq<uint8>): Result<string, HexError> {
    if |id| > 32 then Failure(TooLong) else Success(Encode(Padded(id)))
  }

  function Padded(id: seq<uint8>): seq<uint8>
    requires |id| <= 32
  {
    id + Repeat(0, 32 - |id|)
  }

  function Trimmed(b: seq<uint8>): seq<uint8> {
    if b != [] && b[|b| - 1] == 0 then Trimmed(b[..|b| - 1]) else b
  }

  /** The bytes bytes32HexToString decodes as text; malformed hex gives none. */
  function FromBytes32(h: string): seq<uint8> {
    match Decode(Some(h))
    case Success(b) => Trimmed(b)
    case Failure(_) => []
  }

  /** bytes32HexToString up to the final text decoding: drop zeros from the end. */
  method TrimBytes32(h: string) returns (id: seq<uint8>)
    ensures id == FromBytes32(h)
  {
    var b := HexToBytes(Some(h));
    if b.Failure? { return []; }
    var end := |b.value|;
    assert b.value[..end] == b.value;
    while end > 0 && b.value[end - 1] == 0
      invariant 0 <= end <= |b.value|
      invariant Trimmed(b.value[..end]) == Trimmed(b.value)
    {
      assert b.value[..end][..end - 1] == b.value[..end - 1];
      end := end - 1;
    }
    id := b.value[..end];
  }

  predicate EndsInZero(b: seq<uint8>) {
    b != [] && b[|b| - 1] == 0
  }

  lemma {:induction false} TrimPadded(b: seq<uint8>, n: nat, padded: seq<uint8>)
    requires padded == b + Repeat(0, n)
    ensures Trimmed(padded) == Trimmed(b)
  {
    if n == 0 {
      assert padded == b;
    } else {
      assert padded[..|padded| - 1] == b + Repeat(0, n - 1);
      TrimPadded(b, n - 1, padded[..|padded| - 1]);
    }
  }

  lemma {:induction false} TrimmedPrefix(b: seq<uint8>)
    ensures Trimmed(b) <= b && (Trimmed(b) == b <==> !EndsInZero(b))
    ensures b == Trimmed(b) + Repeat(0, |b| - |Trimmed(b)|)
  {
    if EndsInZero(b) {
      TrimmedPrefix(b[..|b| - 1]);
      assert b == b[..|b| - 1] + [0];
    }
  }

  lemma ReadsEncoded(b: seq<uint8>, h: string)
    requires h == Encode(b)
    ensures FromBytes32(h) == Trimmed(b)
  {
    DecodeEncode(b);
  }

  /** Reading an identifier's slot gives it back without zero bytes at the end. */
  lemma SlotReadsTrimmed(id: seq<uint8>, slot: string)
    requires ToBytes32(id) == Success(slot)
    ensures FromBytes32(slot) == Trimmed(id)
  {
    TrimPadded(id, 32 - |id|, Padded(id));
    ReadsEncoded(Padded(id), slot);
  }

  /** A slot is 32 bytes of hex, the identifier first and zero bytes behind it; longer identifiers have none. */
  lemma SlotIs(id: seq<uint8>)
    ensures ToBytes32(id).Success? <==> |id| <= 32
    ensures ToBytes32(id).Success? ==>
      var slot := ToBytes32(id).value;
      && |slot| == 66 && slot[..2] == "0x"
      && Decode(Some(slot)).Success? && |Decode(Some(slot)).value| == 32
      && id <= Decode(Some(slot)).value
      && forall i | |id| <= i < 32 :: Decode(Some(slot)).value[i] == 0
  {
    if |id| <= 32 {
      DecodeEncode(Padded(id));
    }
  }

  /** An identifier of at most 32 bytes comes back exactly when it does not end in a zero byte. */
  lemma Bytes32RoundTrip(id: seq<uint8>)
    requires |id| <= 32
    ensures FromBytes32(ToBytes32(id).value) == id <==> !EndsInZero(id)
  {
    SlotReadsTrimmed(id, ToBytes32(id).value);
    TrimmedPrefix(id);
  }

  /** Two identifiers share a slot exactly when they differ only in zero bytes at the end. */
  lemma SlotsCollideIff(a: seq<uint8>, b: seq<uint8>)
    requires |a| <= 32 && |b| <= 32
    ensures ToBytes32(a) == ToBytes32(b) <==> Trimmed(a) == Trimmed(b)
  {
    SameSlotSameTrim(a, b);
    if Trimmed(a) == Trimmed(b) {
      SlotFromTrimmed(a);
      SlotFromTrimmed(b);
    }
  }

  lemma SameSlotSameTrim(a: seq<uint8>, b: seq<uint8>)
    requires |a| <= 32 && |b| <= 32
    ensures ToBytes32(a) == ToBytes32(b) ==> Trimmed(a) == Trimmed(b)
  {
    SlotReadsTrimmed(a, ToBytes32(a).value);
    SlotReadsTrimmed(b, ToBytes32(b).value);
  }

  lemma SlotFromTrimmed(a: seq<uint8>)
    requires |a| <= 32
    ensures |Trimmed(a)| <= 32 && ToBytes32(a) == ToBytes32(Trimmed(a))
  {
    TrimmedPrefix(a);
    var t := Trimmed(a);
    assert Padded(a) == Padded(t);
  }
}
