/**
 * Cryptographic constants and collaborators. The constants are symbolic: the model
 * only relies on the bounds stated by their types. The operations (point encoding,
 * program-hash derivation, signature verification) are foreign code and enter the
 * model as function values gathered in a CryptoSuite.
 */
module Crypto {
  import opened Common

  /**
   * Length of one signature record (crypto.SignatureScriptLength): a length byte
   * followed by the signature, so at most 256.
   */
  const SignatureScriptLength: RecordLength
  type RecordLength = n: nat | 0 < n <= 256 witness 1

  /**
   * Length of a public-key script (crypto.PublicKeyScriptLength); one key record of a
   * multi-sign redeem script is one byte shorter. At least 2, so that key records are non-empty.
   */
  const PublicKeyScriptLength: KeyScriptLength
  type KeyScriptLength = n: nat | 2 <= n < 0x1_0000_0000 witness 2

  /**
   * Smallest accepted multi-sign redeem script (crypto.MinMultiSignCodeLength). At least 3,
   * the M byte, the N byte and the trailing marker that the parser strips.
   */
  const MinMultiSignCodeLength: MinCodeLength
  type MinCodeLength = n: nat | n >= 3 witness 3

  /** Marker byte closing a cross-chain multi-sign redeem script (common.CROSSCHAIN). */
  const CROSSCHAIN: byte

  /** Marker byte closing a standard single-key script (common.STANDARD). */
  const STANDARD: byte

  /** An elliptic-curve public key; compared as a point, as crypto.Equal does. */
  type PublicKey(==)

  /** A 21-byte program hash (common.Uint168). */
  type Uint168 = s: seq<byte> | |s| == 21 witness ZeroUint168

  const ZeroUint168: seq<byte> := seq(21, _ => 0)

  /** The foreign cryptographic operations the core calls; each may fail. */
  datatype CryptoSuite = CryptoSuite(
    /** PublicKey.EncodePoint(true): the compressed encoding of a key. */
    encodePoint: PublicKey -> Option<seq<byte>>,
    /** crypto.DecodePoint: the key encoded by some bytes. */
    decodePoint: seq<byte> -> Option<PublicKey>,
    /** contract.PublicKeyToStandardProgramHash: program hash of an encoded key. */
    toProgramHash: seq<byte> -> Option<Uint168>,
    /** StandardAcccountPublicKeyToProgramHash: program hash of a decoded key. */
    keyToProgramHash: PublicKey -> Option<Uint168>,
    /** base.PublicKeyFromString: the key named by a hexadecimal string. */
    publicKeyFromString: string -> Option<PublicKey>,
    /** crypto.Verify(key, data, signature) == nil. */
    verify: (PublicKey, seq<byte>, seq<byte>) -> bool)
}
