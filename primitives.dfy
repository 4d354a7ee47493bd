/**
 * The cryptographic and encoding primitives the envelope layer relies on
 * (base64, RSA with SHA-256, AES, the entity XML codec). They stay
 * uninterpreted: a `Suite` supplies them, and `Sound` states the only facts
 * the protocol depends on.
 */
module Primitives {
  import opened Entities

  /** Byte strings; Ruby strings are byte strings. */
  type Bytes = string

  /** An RSA key pair, of which the signer and the recipient hold the private half. */
  datatype RsaKey = RsaKey(id: nat)

  /** The public half of an RSA key pair. */
  datatype PublicKey = PublicKey(id: nat)

  function PublicHalf(k: RsaKey): PublicKey {
    PublicKey(k.id)
  }

  datatype Suite = Suite(
    urlsafeEncode64: Bytes -> Bytes,             // Base64.urlsafe_encode64
    urlsafeDecode64: Bytes -> Bytes,             // Base64.urlsafe_decode64
    strictEncode64: Bytes -> Bytes,              // Base64.strict_encode64
    decode64: Bytes -> Bytes,                    // Base64.decode64
    sign: (RsaKey, Bytes) -> Bytes,              // RSA signature over the SHA-256 digest
    verify: (PublicKey, Bytes, Bytes) -> bool,   // verify(key, signature, subject)
    aesEncrypt: (Bytes, Bytes, Bytes) -> Bytes,  // aesEncrypt(key, iv, plaintext)
    aesDecrypt: (Bytes, Bytes, Bytes) -> Bytes,  // aesDecrypt(key, iv, ciphertext)
    pack: Entity -> Bytes,                       // entity to its XML text
    unpack: Bytes -> Entity)                     // XML text back to the entity
  {
    /** url-safe base64 decoding inverts encoding, and an encoding never contains '.'. */
    ghost predicate Base64Sound() {
      && (forall b :: urlsafeDecode64(urlsafeEncode64(b)) == b)
      && (forall b :: '.' !in urlsafeEncode64(b))
    }

    /** Strict base64 decoding inverts strict encoding. */
    ghost predicate StrictSound() {
      forall b :: decode64(strictEncode64(b)) == b
    }

    /** A signature verifies under the signer's public half, for the signed subject. */
    ghost predicate SignaturesVerify() {
      forall k, m :: verify(PublicHalf(k), sign(k, m), m)
    }

    /**
     * A signature verifies only under the signer's public half and only for
     * the signed subject (an idealised, unforgeable signature).
     */
    ghost predicate SignaturesBind() {
      forall p, k, m, m' :: verify(p, sign(k, m), m') ==> p == PublicHalf(k) && m' == m
    }

    /** Signatures verify exactly where they should. */
    ghost predicate SignatureSound() {
      SignaturesVerify() && SignaturesBind()
    }

    /** AES decryption under the same key and IV inverts encryption. */
    ghost predicate CipherSound() {
      forall key, iv, b :: aesDecrypt(key, iv, aesEncrypt(key, iv, b)) == b
    }

    /** Parsing an entity's XML text gives the entity back. */
    ghost predicate CodecSound() {
      forall e :: unpack(pack(e)) == e
    }

    /** All the facts the protocol relies on. */
    ghost predicate Sound() {
      Base64Sound() && StrictSound() && SignatureSound() && CipherSound() && CodecSound()
    }
  }
}
