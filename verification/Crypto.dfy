/**
 Ed25519 and SHA-256 as functions nothing is known about, except that digests and keys have their
 lengths and that an honest signature verifies. Messages are texts of one `char` per byte.
 */
module Crypto {
  import opened Prelude
  import opened Base64Url

  const NONCE_BYTES := 16
  const NONCE_CHARS := 22
  const SIGNATURE_BYTES := 64
  const PUBKEY_BYTES := 32
  const DEVICE_ID_CHARS := 22

  type Bytes = seq<byte>

  datatype Primitives = Primitives(
    sha256: Bytes -> Bytes,
    publicKey: Bytes -> Bytes,
    sign: (Bytes, string) -> Bytes,
    verify: (Bytes, string, Bytes) -> bool)

  ghost predicate Sound(p: Primitives)
  {
    && (forall m: Bytes :: |p.sha256(m)| == 32)
    && (forall seed: Bytes :: |p.publicKey(seed)| == PUBKEY_BYTES)
    && (forall seed: Bytes, m: string :: |p.sign(seed, m)| == SIGNATURE_BYTES)
    && (forall seed: Bytes, m: string :: p.verify(p.publicKey(seed), m, p.sign(seed, m)))
  }

  /** The bytes of a text. */
  function ToBytes(s: string): Bytes
  {
    seq(|s|, i requires 0 <= i < |s| => s[i] as int % 256)
  }

  function Sha256B64u(p: Primitives, data: Bytes): string { Encode(p.sha256(data)) }

  function Fingerprint(p: Primitives, pubkey: Bytes): string { Encode(p.sha256(pubkey)) }

  /** The identifier is derived from the key and never taken from a client. */
  function DeviceIdFor(p: Primitives, pubkey: Bytes): string
  {
    var digest := p.sha256(pubkey);
    Encode(if |digest| >= 16 then digest[..16] else digest)
  }

  /** A derived identifier is 22 symbols that decode to 16 bytes. */
  lemma DeviceIdWellFormed(p: Primitives, pubkey: Bytes)
    requires Sound(p)
    ensures |DeviceIdFor(p, pubkey)| == DEVICE_ID_CHARS
    ensures Decode(DeviceIdFor(p, pubkey)).Some? && |Decode(DeviceIdFor(p, pubkey)).value| == 16
  {
    var raw := p.sha256(pubkey)[..16];
    EncodeLength(raw);
    DecodeIsInverse(Encode(raw), raw);
  }

  /** The identifier spells the first 16 bytes of the digest of the key, the fingerprint all of it. */
  lemma IdentifiersSpell(p: Primitives, pubkey: Bytes)
    requires Sound(p)
    ensures Decode(DeviceIdFor(p, pubkey)) == Some(p.sha256(pubkey)[..16])
    ensures Decode(Fingerprint(p, pubkey)) == Some(p.sha256(pubkey))
  {
    DecodeIsInverse(DeviceIdFor(p, pubkey), p.sha256(pubkey)[..16]);
    DecodeIsInverse(Fingerprint(p, pubkey), p.sha256(pubkey));
    hide Decode, Encode;
  }
}
