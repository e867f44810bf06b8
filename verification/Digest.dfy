/**
 The bytes a guardian signature covers: the EIP-191 prefix followed by the hash of five ABI words.
 Keccak is modelled symbolically as the identity on its preimage, so that "different actions have
 different digests" is a theorem about the packing and not an assumption about the hash.
 */
module Digest {
  import opened Prelude
  import opened BigEndian
  import Decimal

  /** EIP-191 "Specification", version 0x45: 0x19, then "Ethereum Signed Message:\n32". */
  const PREFIX: seq<uint8> :=
    [0x19, 0x45, 0x74, 0x68, 0x65, 0x72, 0x65, 0x75, 0x6d, 0x20, 0x53, 0x69, 0x67, 0x6e,
     0x65, 0x64, 0x20, 0x4d, 0x65, 0x73, 0x73, 0x61, 0x67, 0x65, 0x3a, 0x0a, 0x33, 0x32]

  function Keccak(preimage: seq<uint8>): seq<uint8> {
    preimage
  }

  /** abi.encode of the five signed values, in the order the registry and digest.mjs list them. */
  function Preimage(chainId: uint256, guardId: uint256, actionType: uint8, amount: uint256, nonce: uint64)
    : (s: seq<uint8>)
  {
    AbiWord(chainId) + AbiWord(guardId) + AbiWord(actionType) + AbiWord(amount) + AbiWord(nonce)
  }

  /** The digest postAction recomputes and guardDigest of the relayer reproduces. */
  function GuardDigest(chainId: uint256, guardId: uint256, actionType: uint8, amount: uint256, nonce: uint64)
    : seq<uint8>
  {
    Keccak(PREFIX + Keccak(Preimage(chainId, guardId, actionType, amount, nonce)))
  }

  /** The five words of a 160-byte preimage, read back. */
  function Decode(s: seq<uint8>): (uint256, uint256, uint256, uint256, uint256)
    requires |s| == 160
  {
    (WordValue(s[0..32]), WordValue(s[32..64]), WordValue(s[64..96]), WordValue(s[96..128]),
     WordValue(s[128..160]))
  }

  /** The preimage is 160 bytes long and decodes to exactly the five values packed into it. */
  lemma PreimageDecodes(chainId: uint256, guardId: uint256, actionType: uint8, amount: uint256, nonce: uint64)
    ensures var s := Preimage(chainId, guardId, actionType, amount, nonce);
      |s| == 160 && Decode(s) == (chainId, guardId, actionType, amount, nonce)
  {
    WordRoundTrip(chainId);
    WordRoundTrip(guardId);
    WordRoundTrip(actionType);
    WordRoundTrip(amount);
    WordRoundTrip(nonce);
    var s := Preimage(chainId, guardId, actionType, amount, nonce);
    assert s[0..32] == AbiWord(chainId) && s[32..64] == AbiWord(guardId)
        && s[64..96] == AbiWord(actionType) && s[96..128] == AbiWord(amount)
        && s[128..160] == AbiWord(nonce);
  }

  /** Every 160-byte string is the packing of the five words it decodes to. */
  lemma DecodedRepacks(s: seq<uint8>)
    requires |s| == 160
    ensures var d := Decode(s);
      AbiWord(d.0) + AbiWord(d.1) + AbiWord(d.2) + AbiWord(d.3) + AbiWord(d.4) == s
  {
    WordRoundTripBack(s[0..32]);
    WordRoundTripBack(s[32..64]);
    WordRoundTripBack(s[64..96]);
    WordRoundTripBack(s[96..128]);
    WordRoundTripBack(s[128..160]);
  }

  /** The 160-byte strings that are packed actions: those whose type and nonce are in range, and no others. */
  lemma PackedIff(s: seq<uint8>)
    requires |s| == 160
    ensures (exists c: uint256, g: uint256, t: uint8, a: uint256, n: uint64 :: s == Preimage(c, g, t, a, n))
            <==> Decode(s).2 < 0x100 && Decode(s).4 < POW64
  {
    var (c, g, t, a, n) := Decode(s);
    DecodedRepacks(s);
    if t < 0x100 && n < POW64 {
      assert s == Preimage(c, g, t, a, n);
    }
    if c: uint256, g: uint256, t: uint8, a: uint256, n: uint64 :| s == Preimage(c, g, t, a, n) {
      PreimageDecodes(c, g, t, a, n);
    }
  }

  /** 0x19 and the text of EIP-191, version 0x45, for a message of 32 bytes. */
  ghost predicate StartsSigned(d: seq<uint8>) {
    && |d| >= 28 && d[0] == 0x19
    && forall i | 1 <= i < 28 :: d[i] == "Ethereum Signed Message:\n32"[i - 1] as int
  }

  /**
   Byte by byte, what is signed: the EIP-191 prefix, and after its 28 bytes the five words in the order
   chain, guard, type, amount, nonce.
   */
  ghost predicate CoversAction(d: seq<uint8>, chainId: uint256, guardId: uint256, actionType: uint8, amount: uint256,
                               nonce: uint64) {
    && |d| == 188 && StartsSigned(d)
    && Decode(d[28..]) == (chainId, guardId, actionType, amount, nonce)
  }

  lemma PrefixPart(from: nat, to: nat)
    requires from < to && (from, to) in {(1, 10), (10, 19), (19, 28)}
    ensures |PREFIX| == 28
    ensures forall i | from <= i < to :: PREFIX[i] == "Ethereum Signed Message:\n32"[i - 1] as int
  {
  }

  lemma PrefixIsText()
    ensures |PREFIX| == 28 && StartsSigned(PREFIX)
  {
    PrefixPart(1, 10);
    PrefixPart(10, 19);
    PrefixPart(19, 28);
  }

  lemma SamePrefix(a: seq<uint8>, b: seq<uint8>)
    requires StartsSigned(a) && StartsSigned(b)
    ensures a[..28] == b[..28]
  {
    forall i | 0 <= i < 28
      ensures a[i] == b[i]
    {
    }
  }

  lemma PrefixedStarts(a: seq<uint8>, b: seq<uint8>)
    requires |a| == 28 && StartsSigned(a)
    ensures StartsSigned(a + b)
  {
    forall i | 1 <= i < 28
      ensures (a + b)[i] == "Ethereum Signed Message:\n32"[i - 1] as int
    {
      assert (a + b)[i] == a[i];
    }
  }

  /** The digest consists of exactly that. */
  lemma DigestCovers(chainId: uint256, guardId: uint256, actionType: uint8, amount: uint256, nonce: uint64)
    ensures CoversAction(GuardDigest(chainId, guardId, actionType, amount, nonce), chainId, guardId, actionType,
                         amount, nonce)
  {
    var p := Preimage(chainId, guardId, actionType, amount, nonce);
    PrefixIsText();
    PrefixedStarts(PREFIX, p);
    PreimageDecodes(chainId, guardId, actionType, amount, nonce);
    assert (PREFIX + p)[28..] == p;
  }

  /** These bytes are determined by the action, so whatever covers it is the digest. */
  lemma CoveredIsDigest(d: seq<uint8>, chainId: uint256, guardId: uint256, actionType: uint8, amount: uint256,
                        nonce: uint64)
    requires CoversAction(d, chainId, guardId, actionType, amount, nonce)
    ensures d == GuardDigest(chainId, guardId, actionType, amount, nonce)
  {
    PrefixIsText();
    SamePrefix(d, PREFIX);
    DecodedRepacks(d[28..]);
    assert PREFIX[..28] == PREFIX && d == d[..28] + d[28..];
  }

  /** One digest, one action: equal digests agree in all five fields. */
  lemma DigestInjective(c: uint256, g: uint256, t: uint8, a: uint256, n: uint64,
                        c': uint256, g': uint256, t': uint8, a': uint256, n': uint64)
    requires GuardDigest(c, g, t, a, n) == GuardDigest(c', g', t', a', n')
    ensures c == c' && g == g' && t == t' && a == a' && n == n'
  {
    PreimageDecodes(c, g, t, a, n);
    PreimageDecodes(c', g', t', a', n');
    var p, p' := Preimage(c, g, t, a, n), Preimage(c', g', t', a', n');
    assert p == (PREFIX + p)[|PREFIX|..] && p' == (PREFIX + p')[|PREFIX|..];
  }

  /** The amount the enclave packs: SetString's value, or zero when the text is not a number. */
  function AmountOf(text: string): nat {
    match Decimal.Parse(text)
    case Some(v) => v
    case None => 0
  }

  /**
   The enclave's registryDigest.  Its parameters come in another order (nonce before amount) and the
   amount arrives as decimal text; the bytes are those of the contract's digest.
   */
  method RegistryDigest(chainId: uint64, guardId: uint64, actionType: uint8, nonce: uint64, amount: string)
    returns (digest: seq<uint8>)
    requires AmountOf(amount) < POW256
    ensures digest == GuardDigest(chainId, guardId, actionType, AmountOf(amount), nonce)
    ensures CoversAction(digest, chainId, guardId, actionType,
                         match Decimal.Parse(amount) case Some(v) => v case None => 0, nonce)
  {
    var words: seq<uint8> := [];
    var w := LeftPadWord(chainId);
    words := words + w[..];
    w := LeftPadWord(guardId);
    words := words + w[..];
    w := LeftPadWord(actionType);
    words := words + w[..];
    var a := Decimal.Parse(amount);
    w := LeftPadWord(match a case Some(v) => v case None => 0);
    words := words + w[..];
    w := LeftPadWord(nonce);
    words := words + w[..];
    assert words == Preimage(chainId, guardId, actionType, AmountOf(amount), nonce);
    var inner := Keccak(words);
    digest := Keccak(PREFIX + inner);
    DigestCovers(chainId, guardId, actionType, AmountOf(amount), nonce);
  }
}
