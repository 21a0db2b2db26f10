/** The cryptographic primitives, as constants about which only the stated laws are known.

    Go strings and byte slices are both `string` here: one character stands for one byte.
    Each abstract type carries a witness, so the assumed laws are jointly satisfiable. */
module Crypto {
  import Witnesses

  predicate IsLowerHex(c: char) {
    '0' <= c <= '9' || 'a' <= c <= 'f'
  }

  predicate IsHex(c: char) {
    IsLowerHex(c) || 'A' <= c <= 'F'
  }

  predicate LowerHex(s: string) {
    forall i :: 0 <= i < |s| ==> IsLowerHex(s[i])
  }

  /** `PubKeyFromHex` succeeds on exactly these strings: 32 hex-encoded bytes. */
  predicate IsPubKeyHex(s: string) {
    |s| == 64 && forall i :: 0 <= i < |s| ==> IsHex(s[i])
  }

  // ---- Hex encoding ----

  type Byte = n: nat | n < 256

  const HEX_DIGITS: string := "0123456789abcdef"

  /** `hex.EncodeToString`: two lower-case digits for each byte, the high one first. */
  function HexEncode(bytes: seq<Byte>): (s: string)
    ensures |s| == 2 * |bytes|
  {
    seq(2 * |bytes|, i requires 0 <= i < 2 * |bytes| =>
      HEX_DIGITS[if i % 2 == 0 then bytes[i / 2] / 16 else bytes[i / 2] % 16])
  }

  /** Decoding does not distinguish upper-case from lower-case digits. */
  function LowerCase(c: char): char {
    if 'A' <= c <= 'F' then c - 'A' + 'a' else c
  }

  function DigitValue(c: char): (d: nat)
    requires IsHex(c)
    ensures d < 16 && HEX_DIGITS[d] == LowerCase(c)
  {
    if '0' <= c <= '9' then (c - '0') as nat
    else if 'a' <= c <= 'f' then (c - 'a') as nat + 10
    else (c - 'A') as nat + 10
  }

  /** The string is the hex encoding of these 32 bytes, in upper or lower case. */
  ghost predicate EncodesKey(s: string, bytes: seq<Byte>) {
    |bytes| == 32 && |s| == 64 && forall i :: 0 <= i < 64 ==> LowerCase(s[i]) == HexEncode(bytes)[i]
  }

  lemma PubKeyHexExact(s: string)
    ensures IsPubKeyHex(s) <==> exists bytes: seq<Byte> :: EncodesKey(s, bytes)
  {
    if IsPubKeyHex(s) {
      var bytes: seq<Byte> :=
        seq(32, i requires 0 <= i < 32 => 16 * DigitValue(s[2 * i]) + DigitValue(s[2 * i + 1]));
      forall i | 0 <= i < 64
        ensures LowerCase(s[i]) == HexEncode(bytes)[i]
      {
        var k := i / 2;
        assert bytes[k] / 16 == DigitValue(s[2 * k]) && bytes[k] % 16 == DigitValue(s[2 * k + 1]);
      }
      assert EncodesKey(s, bytes);
    }
    if bytes: seq<Byte> :| EncodesKey(s, bytes) {
      forall i | 0 <= i < 64
        ensures IsHex(s[i])
      {
        assert LowerCase(s[i]) in HEX_DIGITS;
      }
    }
  }

  /** Collision freedom is modelled as injectivity; digests are non-empty lower-case hex. */
  ghost predicate IsDigest(h: string -> string) {
    && (forall x, y :: h(x) == h(y) ==> x == y)
    && (forall x :: h(x) != "" && LowerHex(h(x)))
  }

  lemma WitnessIsDigest()
    ensures IsDigest(Witnesses.Digest)
  {
    forall x, y | Witnesses.Digest(x) == Witnesses.Digest(y)
      ensures x == y
    {
      Witnesses.DigestInjective(x, y);
    }
    forall x
      ensures Witnesses.Digest(x) != "" && LowerHex(Witnesses.Digest(x))
    {
      Witnesses.DigestBinary(x);
    }
  }

  type DigestFunction = h: string -> string | IsDigest(h)
    witness (WitnessIsDigest(); Witnesses.Digest)

  /** `crypto.Hash`. */
  const Hash: DigestFunction

  type PrivateKey = string

  datatype Signatures = Signatures(
    publicHex: PrivateKey -> string,
    sign: (PrivateKey, string) -> string,
    verify: (string, string, string) -> bool)

  /** What the rest of the system needs from ed25519: a key's own signatures verify. */
  ghost predicate IsSignatureScheme(s: Signatures) {
    && (forall k :: IsPubKeyHex(s.publicHex(k)))
    && (forall k, m :: s.verify(s.publicHex(k), m, s.sign(k, m)))
  }

  function SixtyFourZeros(): (r: string)
    ensures IsPubKeyHex(r)
  {
    seq(64, _ => '0')
  }

  type SignatureScheme = s: Signatures | IsSignatureScheme(s)
    witness Signatures(_ => SixtyFourZeros(), (_, _) => "", (_, _, _) => true)

  const Ed25519: SignatureScheme

  /** The separator in derived identifiers cannot occur inside a digest, so a digest that is
      followed by a separator can be read back from the text. */
  lemma DigestPrefixUnique(t: string, x: string, u: string, y: string)
    requires LowerHex(t) && LowerHex(u)
    requires t + [':'] + x == u + [':'] + y
    ensures t == u && x == y
  {
    var w := t + [':'] + x;
    assert w[|t|] == ':' && w[|u|] == ':';
    assert t == w[..|t|] == u;
    assert x == w[|t| + 1..] == y;
  }
}
