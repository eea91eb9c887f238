/**
 * The helpers of the crypto utilities: private-key string normalisation, and the thin wrappers
 * around key agreement, key derivation and authenticated encryption.
 */
module Crypto {
  import opened Wrappers
  import JsString

  /** An element of a `Uint8Array`. */
  newtype uint8 = x: int | 0 <= x < 0x100

  type Bytes = seq<uint8>

  // ---------------------------------------------------------------------------------------------
  // Private-key strings

  predicate IsHexDigit(c: char) {
    '0' <= c <= '9' || 'a' <= c <= 'f' || 'A' <= c <= 'F'
  }

  predicate IsHexDigits(s: string) {
    forall i | 0 <= i < |s| :: IsHexDigit(s[i])
  }

  /** Hex digits in a 32-byte private key. */
  const KeyDigits := 64

  /** Matches `/^[0-9a-fA-F]{64}$/`. */
  predicate IsBareKey(s: string) {
    |s| == KeyDigits && IsHexDigits(s)
  }

  /** Matches `/^0x[0-9a-fA-F]{64}$/`: a lower-case `0x`, then exactly 64 hex digits. */
  predicate IsPrefixedKey(s: string) {
    |s| == KeyDigits + 2 && s[..2] == "0x" && IsBareKey(s[2..])
  }

  const InvalidKeyFormat := "Invalid private key format"

  /**
   * `parseMaybeHex`: a 32-byte key written in hex, with or without `0x`, surrounded by any white
   * space, comes back trimmed and in `0x` form; any other input throws.
   */
  function ParseMaybeHex(input: string): (r: Result<string>)
    ensures r.Ok? <==> IsPrefixedKey(JsString.Trim(input)) || IsBareKey(JsString.Trim(input))
    ensures r.Ok? ==> IsPrefixedKey(r.value) && r.value[2..] == JsString.Trim(input)[|JsString.Trim(input)| - KeyDigits..]
    ensures r.Err? ==> r.error == Thrown(InvalidKeyFormat)
  {
    var trimmed := JsString.Trim(input);
    if IsPrefixedKey(trimmed) then Ok(trimmed)
    else if IsBareKey(trimmed) then
      assert ("0x" + trimmed)[2..] == trimmed;
      Ok("0x" + trimmed)
    else Err(Thrown(InvalidKeyFormat))
  }

  lemma HexDigitsHaveNoWhiteSpace(s: string)
    requires IsHexDigits(s)
    ensures JsString.NoWhiteSpace(s)
  {
  }

  lemma PrefixedKeyHasNoWhiteSpace(s: string)
    requires IsPrefixedKey(s)
    ensures JsString.NoWhiteSpace(s)
  {
    forall i | 0 <= i < |s| ensures !JsString.IsWhiteSpace(s[i]) {
      if i < 2 {
        assert s[i] == s[..2][i];
      } else {
        assert s[i] == s[2..][i - 2];
      }
    }
  }

  /** A `0x` key, padded with any white space, comes back exactly as written: no case change, no rewriting. */
  lemma ParseKeepsPrefixedKey(w1: string, key: string, w2: string)
    requires JsString.AllWhiteSpace(w1) && JsString.AllWhiteSpace(w2)
    requires IsPrefixedKey(key)
    ensures ParseMaybeHex(w1 + key + w2) == Ok(key)
  {
    PrefixedKeyHasNoWhiteSpace(key);
    JsString.TrimKeeps(key);
    JsString.TrimIgnoresPadding(w1, key, w2);
  }

  /** 64 bare hex digits, padded with any white space, come back with `0x` in front. */
  lemma ParsePrefixesBareKey(w1: string, digits: string, w2: string)
    requires JsString.AllWhiteSpace(w1) && JsString.AllWhiteSpace(w2)
    requires IsBareKey(digits)
    ensures ParseMaybeHex(w1 + digits + w2) == Ok("0x" + digits)
  {
    assert JsString.Trim(w1 + digits + w2) == digits by {
      HexDigitsHaveNoWhiteSpace(digits);
      JsString.TrimKeeps(digits);
      JsString.TrimIgnoresPadding(w1, digits, w2);
    }
    assert !IsPrefixedKey(digits);
  }

  /** Leading and trailing white space never change the outcome. */
  lemma ParseIgnoresPadding(w1: string, s: string, w2: string)
    requires JsString.AllWhiteSpace(w1) && JsString.AllWhiteSpace(w2)
    ensures ParseMaybeHex(w1 + s + w2) == ParseMaybeHex(s)
  {
    JsString.TrimIgnoresPadding(w1, s, w2);
  }

  /** Normalising an already normalised key changes nothing. */
  lemma ParseIdempotent(input: string)
    requires ParseMaybeHex(input).Ok?
    ensures ParseMaybeHex(ParseMaybeHex(input).value) == ParseMaybeHex(input)
  {
    var r := ParseMaybeHex(input).value;
    PrefixedKeyHasNoWhiteSpace(r);
    JsString.TrimKeeps(r);
  }

  /** A run of hex digits of any length but 64, padded or not, is rejected: the empty string, 63 and 65 digits among them. */
  lemma ParseRejectsDigitCount(w1: string, digits: string, w2: string)
    requires JsString.AllWhiteSpace(w1) && JsString.AllWhiteSpace(w2)
    requires IsHexDigits(digits) && |digits| != KeyDigits
    ensures ParseMaybeHex(w1 + digits + w2) == Err(Thrown(InvalidKeyFormat))
  {
    assert JsString.Trim(w1 + digits + w2) == digits by {
      HexDigitsHaveNoWhiteSpace(digits);
      JsString.TrimKeeps(digits);
      JsString.TrimIgnoresPadding(w1, digits, w2);
    }
    if |digits| == KeyDigits + 2 {
      assert digits[1] == digits[..2][1];
      assert !IsPrefixedKey(digits);
    }
  }

  /** `0x` followed by a number of hex digits other than 64 is rejected. */
  lemma ParseRejectsPrefixedDigitCount(w1: string, digits: string, w2: string)
    requires JsString.AllWhiteSpace(w1) && JsString.AllWhiteSpace(w2)
    requires IsHexDigits(digits) && |digits| != KeyDigits
    ensures ParseMaybeHex(w1 + ("0x" + digits) + w2) == Err(Thrown(InvalidKeyFormat))
  {
    var s := "0x" + digits;
    assert s[2..] == digits;
    assert JsString.Trim(w1 + s + w2) == s by {
      forall i | 0 <= i < |s| ensures !JsString.IsWhiteSpace(s[i]) {
        if i >= 2 { assert s[i] == digits[i - 2]; }
      }
      JsString.TrimKeeps(s);
      JsString.TrimIgnoresPadding(w1, s, w2);
    }
    assert s[1] == 'x';
  }

  /** An upper-case `0X` prefix is rejected even before 64 valid digits. */
  lemma ParseRejectsUpperCasePrefix(digits: string)
    requires IsBareKey(digits)
    ensures ParseMaybeHex("0X" + digits) == Err(Thrown(InvalidKeyFormat))
  {
    var s := "0X" + digits;
    assert s[1] == 'X' && s[..2] == "0X";
    forall i | 0 <= i < |s| ensures !JsString.IsWhiteSpace(s[i]) {
      if i >= 2 { assert s[i] == digits[i - 2]; }
    }
    JsString.TrimKeeps(s);
  }

  /** Input without white space that matches neither pattern is rejected as it stands. */
  lemma ParseRejectsUnpadded(s: string)
    requires JsString.NoWhiteSpace(s) && !IsPrefixedKey(s) && !IsBareKey(s)
    ensures ParseMaybeHex(s) == Err(Thrown(InvalidKeyFormat))
  {
    JsString.TrimKeeps(s);
  }

  /** Replacing one character of a string without white space by another non-white-space character keeps it so. */
  lemma ReplaceKeepsNoWhiteSpace(s: string, i: nat, c: char)
    requires JsString.NoWhiteSpace(s) && i < |s| && !JsString.IsWhiteSpace(c)
    ensures JsString.NoWhiteSpace(s[i := c])
  {
    var d := s[i := c];
    forall k | 0 <= k < |d| ensures !JsString.IsWhiteSpace(d[k]) {
      if k != i { assert d[k] == s[k]; }
    }
  }

  /** A 64-character string with a character that is not a hex digit (nor white space) is rejected. */
  lemma ParseRejectsNonHexDigit(digits: string, i: nat, c: char)
    requires IsBareKey(digits) && i < KeyDigits
    requires !IsHexDigit(c) && !JsString.IsWhiteSpace(c)
    ensures ParseMaybeHex(digits[i := c]) == Err(Thrown(InvalidKeyFormat))
  {
    var d := digits[i := c];
    HexDigitsHaveNoWhiteSpace(digits);
    ReplaceKeepsNoWhiteSpace(digits, i, c);
    assert !IsHexDigit(d[i]);
    ParseRejectsUnpadded(d);
  }

  /** `0x` followed by such a string is rejected as well. */
  lemma ParseRejectsPrefixedNonHexDigit(digits: string, i: nat, c: char)
    requires IsBareKey(digits) && i < KeyDigits
    requires !IsHexDigit(c) && !JsString.IsWhiteSpace(c)
    ensures ParseMaybeHex("0x" + digits[i := c]) == Err(Thrown(InvalidKeyFormat))
  {
    var d := digits[i := c];
    var s := "0x" + d;
    assert s == ("0x" + digits)[i + 2 := c];
    PrefixedKeyHasNoWhiteSpace("0x" + digits);
    ReplaceKeepsNoWhiteSpace("0x" + digits, i + 2, c);
    assert s[2..] == d;
    assert !IsHexDigit(s[2..][i]);
    ParseRejectsUnpadded(s);
  }

  /** Input that is only white space, the empty string among it, is rejected. */
  lemma ParseRejectsBlank(w: string)
    requires JsString.AllWhiteSpace(w)
    ensures ParseMaybeHex(w) == Err(Thrown(InvalidKeyFormat))
  {
    assert w == w + [] + [];
    JsString.TrimCanonical(w, [], []);
  }

  // ---------------------------------------------------------------------------------------------
  // Key agreement, derivation and authenticated encryption

  const SecretKeyLength := 32
  const NonceLength := 12
  /** Length in bytes of the HKDF output and so of the AES-GCM key. */
  const DerivedKeyLength := 32
  /** The HKDF salt: a fresh `Uint8Array(32)`, all zeros. */
  const HkdfSalt: Bytes := seq(32, _ => 0)

  datatype KeyPair = KeyPair(publicKey: Bytes, secretKey: Bytes)

  /** What `encryptMessage` returns. */
  datatype Sealed = Sealed(nonce: Bytes, ciphertext: Bytes)

  /**
   * The library calls the wrappers delegate to, left uninterpreted: everything proved here holds
   * whatever they compute. `K` stands for the platform's AES-GCM `CryptoKey`.
   */
  datatype Primitives<!K> = Primitives(
    utf8Encode: string -> Bytes,                              // new TextEncoder().encode(s)
    x25519Base: Bytes -> Bytes,                               // public half of a secret key, as `nacl.box.keyPair` computes it
    boxBefore: (Bytes, Bytes) -> Result<Bytes>,               // nacl.box.before(theirPublicKey, mySecretKey)
    hkdfSha256: (Bytes, Bytes, Bytes, nat) -> Result<Bytes>,  // hkdf(sha256, ikm, salt, info, length)
    importAesGcmKey: Bytes -> Result<K>,                      // crypto.subtle.importKey('raw', bytes, AES-GCM, …)
    aesGcmEncrypt: (K, Bytes, Bytes) -> Result<Bytes>,        // crypto.subtle.encrypt({AES-GCM, iv}, key, data)
    aesGcmDecrypt: (K, Bytes, Bytes) -> Result<Bytes>)        // crypto.subtle.decrypt({AES-GCM, iv}, key, data)

  /**
   * `generateEphemeralKeyPair`: the 32 random bytes `nacl.box.keyPair` draws become the secret key,
   * and the public key is derived from exactly that secret.
   */
  function GenerateEphemeralKeyPair<K>(p: Primitives<K>, randomSecret: Bytes): (kp: KeyPair)
    requires |randomSecret| == SecretKeyLength
    ensures |kp.secretKey| == SecretKeyLength && kp.secretKey == randomSecret
    ensures kp.publicKey == p.x25519Base(kp.secretKey)
  {
    KeyPair(p.x25519Base(randomSecret), randomSecret)
  }

  /** `deriveSharedSecret`: the library is handed the peer's public key first and our secret key second. */
  function DeriveSharedSecret<K>(p: Primitives<K>, mySecretKey: Bytes, theirPublicKey: Bytes): (r: Result<Bytes>)
    ensures r == p.boxBefore(theirPublicKey, mySecretKey)
  {
    p.boxBefore(theirPublicKey, mySecretKey)
  }

  /**
   * `hkdfDeriveKey`: a deterministic function of the secret and the label. The key imported is the
   * 32-byte HKDF-SHA-256 output under a 32-byte all-zero salt with the UTF-8 bytes of `info`.
   */
  function HkdfDeriveKey<K>(p: Primitives<K>, sharedSecret: Bytes, info: string): (r: Result<K>)
    ensures var prk := p.hkdfSha256(sharedSecret, HkdfSalt, p.utf8Encode(info), DerivedKeyLength);
      r.Ok? <==> prk.Ok? && p.importAesGcmKey(prk.value).Ok?
    ensures r.Ok? ==> r == p.importAesGcmKey(p.hkdfSha256(sharedSecret, HkdfSalt, p.utf8Encode(info), DerivedKeyLength).value)
  {
    var prk :- p.hkdfSha256(sharedSecret, HkdfSalt, p.utf8Encode(info), DerivedKeyLength);
    p.importAesGcmKey(prk)
  }

  /**
   * `encryptMessage`: the nonce returned is the 12 random bytes drawn, and it is the very IV the
   * ciphertext was produced under.
   */
  function EncryptMessage<K>(p: Primitives<K>, key: K, plaintext: Bytes, randomNonce: Bytes): (r: Result<Sealed>)
    requires |randomNonce| == NonceLength
    ensures r.Ok? <==> p.aesGcmEncrypt(key, randomNonce, plaintext).Ok?
    ensures r.Ok? ==> |r.value.nonce| == NonceLength && r.value.nonce == randomNonce
    ensures r.Ok? ==> p.aesGcmEncrypt(key, r.value.nonce, plaintext) == Ok(r.value.ciphertext)
  {
    var ct :- p.aesGcmEncrypt(key, randomNonce, plaintext);
    Ok(Sealed(randomNonce, ct))
  }

  /** `decryptMessage`: the nonce is passed as the IV, with no check of its length. */
  function DecryptMessage<K>(p: Primitives<K>, key: K, nonce: Bytes, ciphertext: Bytes): (r: Result<Bytes>)
    ensures r == p.aesGcmDecrypt(key, nonce, ciphertext)
  {
    p.aesGcmDecrypt(key, nonce, ciphertext)
  }

  /** The AES-GCM calls are a correct authenticated cipher: what encryption seals, decryption under the same key and IV opens. */
  ghost predicate AeadCorrect<K(!new)>(p: Primitives<K>) {
    forall key: K, iv: Bytes, data: Bytes | p.aesGcmEncrypt(key, iv, data).Ok? ::
      p.aesGcmDecrypt(key, iv, p.aesGcmEncrypt(key, iv, data).value) == Ok(data)
  }

  /**
   * X25519 agreement: for any two 32-byte secret keys, each side's secret with the other's public key
   * gives the same shared secret. Keys of other lengths are left unconstrained, since the library
   * rejects them naming whichever argument is at fault.
   */
  ghost predicate KeyAgreement<K>(p: Primitives<K>) {
    forall a: Bytes, b: Bytes | |a| == SecretKeyLength && |b| == SecretKeyLength ::
      p.boxBefore(p.x25519Base(b), a) == p.boxBefore(p.x25519Base(a), b)
  }

  /** Over a correct cipher, `decryptMessage` opens what `encryptMessage` sealed. */
  lemma DecryptOpensEncrypt<K(!new)>(p: Primitives<K>, key: K, plaintext: Bytes, randomNonce: Bytes)
    requires AeadCorrect(p) && |randomNonce| == NonceLength
    requires EncryptMessage(p, key, plaintext, randomNonce).Ok?
    ensures var sealed := EncryptMessage(p, key, plaintext, randomNonce).value;
      DecryptMessage(p, key, sealed.nonce, sealed.ciphertext) == Ok(plaintext)
  {
    var sealed := EncryptMessage(p, key, plaintext, randomNonce).value;
    assert p.aesGcmEncrypt(key, randomNonce, plaintext).Ok?;
  }

  /**
   * Under X25519 agreement `deriveSharedSecret` is symmetric: an ephemeral secret against a static
   * public key gives what the static secret gives against the ephemeral public key.
   */
  lemma SharedSecretAgrees<K>(p: Primitives<K>, randomSecret: Bytes, staticSecret: Bytes)
    requires KeyAgreement(p) && |randomSecret| == SecretKeyLength && |staticSecret| == SecretKeyLength
    ensures var eph := GenerateEphemeralKeyPair(p, randomSecret);
      DeriveSharedSecret(p, eph.secretKey, p.x25519Base(staticSecret))
      == DeriveSharedSecret(p, staticSecret, eph.publicKey)
  {
    var eph := GenerateEphemeralKeyPair(p, randomSecret);
    assert p.boxBefore(p.x25519Base(staticSecret), randomSecret) == p.boxBefore(p.x25519Base(randomSecret), staticSecret);
  }
}
