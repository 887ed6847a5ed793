/** The hybrid-encryption envelope of ChainChain: a message is encrypted with a
    fresh AES-256-GCM key under a fresh 96-bit IV (NIST SP 800-38D), the raw AES
    key is wrapped with the recipient's RSA-OAEP-SHA256 public key (section 7.1
    of RFC 8017), and the three binary results travel base64-encoded (section 4
    of RFC 4648) in a fixed five-field record.

    The Web Crypto primitives are not implemented: they are the fields of a
    `WebCrypto` record, and what the model relies on about them is stated by the
    predicates `AesGcmCorrect`, `RsaOaepCorrect` and `Utf8RoundTrips`, which the
    lemmas take as preconditions. Random values (the AES key, the IV, the OAEP
    seed) are parameters. */
module Crypto {
  import opened Wrappers
  import opened Bytes
  import Base64

  /** An RSA-OAEP public key imported from its SPKI encoding. */
  type RsaPublicKey(!new)
  /** An RSA-OAEP private key imported from its PKCS #8 encoding. */
  type RsaPrivateKey(!new)

  /** The exceptions the Web Crypto API and `atob` reject with. */
  datatype CryptoError =
    | InvalidCharacterError  // atob: the text is not base64
    | DataError              // importKey: malformed key material
    | OperationError         // encrypt/decrypt: the operation failed

  /** The browser's cryptographic and text-codec capabilities. */
  datatype WebCrypto = WebCrypto(
    importSpki: seq<uint8> -> Option<RsaPublicKey>,
    importPkcs8: seq<uint8> -> Option<RsaPrivateKey>,
    /** the two halves of one generated key pair */
    keysMatch: (RsaPublicKey, RsaPrivateKey) -> bool,
    /** k, the length of the modulus in bytes */
    modulusBytes: RsaPublicKey -> nat,
    /** RSA-OAEP encryption of a message under a public key with a random seed */
    rsaOaepEncrypt: (RsaPublicKey, seq<uint8>, seq<uint8>) -> Option<seq<uint8>>,
    rsaOaepDecrypt: (RsaPrivateKey, seq<uint8>) -> Option<seq<uint8>>,
    /** AES-GCM encryption: key, iv, plaintext to ciphertext with its tag */
    aesGcmEncrypt: (seq<uint8>, seq<uint8>, seq<uint8>) -> seq<uint8>,
    aesGcmDecrypt: (seq<uint8>, seq<uint8>, seq<uint8>) -> Option<seq<uint8>>,
    /** TextEncoder.encode and TextDecoder.decode */
    utf8Encode: string -> seq<uint8>,
    utf8Decode: seq<uint8> -> string)

  /** Length in bytes of an AES key `importKey("raw", ...)` accepts. */
  predicate IsAesKeyLength(n: nat) {
    n == 16 || n == 24 || n == 32
  }

  const AesKeyBytes: nat := 32
  const IvBytes: nat := 12
  /** hLen of SHA-256, the OAEP hash */
  const Sha256Bytes: nat := 32
  /** GCM authentication tag length (the Web Crypto default of 128 bits) */
  const TagBytes: nat := 16

  const Algorithm: string := "AES-256-GCM + RSA-OAEP-SHA256"
  const Version: string := "1.0"

  /** The raw bytes of a key from `generateKey({name: "AES-GCM", length: 256})`. */
  type AesKey = k: seq<uint8> | |k| == AesKeyBytes witness seq(32, _ => 0)
  /** The bytes of `getRandomValues(new Uint8Array(12))`. */
  type Iv = v: seq<uint8> | |v| == IvBytes witness seq(12, _ => 0)

  /** Decryption under the same key and IV undoes AES-GCM encryption, whose
      output is the plaintext's length plus the tag. */
  ghost predicate AesGcmCorrect(c: WebCrypto) {
    forall key, iv, m {:trigger c.aesGcmEncrypt(key, iv, m)} ::
      IsAesKeyLength(|key|) && |iv| > 0 ==>
        |c.aesGcmEncrypt(key, iv, m)| == |m| + TagBytes &&
        c.aesGcmDecrypt(key, iv, c.aesGcmEncrypt(key, iv, m)) == Some(m)
  }

  /** Section 7.1 of RFC 8017 with SHA-256: a message of at most k - 2hLen - 2
      bytes is encrypted and the matching private key recovers it; a longer one
      is refused ("message too long"). */
  ghost predicate RsaOaepCorrect(c: WebCrypto) {
    (forall pub, seed, m {:trigger c.rsaOaepEncrypt(pub, seed, m)} ::
      (c.rsaOaepEncrypt(pub, seed, m).Some? <==> |m| + 2 * Sha256Bytes + 2 <= c.modulusBytes(pub)))
    &&
    (forall pub, priv, seed, m {:trigger c.keysMatch(pub, priv), c.rsaOaepEncrypt(pub, seed, m)} ::
      c.keysMatch(pub, priv) && c.rsaOaepEncrypt(pub, seed, m).Some? ==>
        c.rsaOaepDecrypt(priv, c.rsaOaepEncrypt(pub, seed, m).value) == Some(m))
  }

  /** TextDecoder gives back every string TextEncoder encoded. */
  ghost predicate Utf8RoundTrips(c: WebCrypto) {
    forall s {:trigger c.utf8Encode(s)} :: c.utf8Decode(c.utf8Encode(s)) == s
  }

  ghost predicate Correct(c: WebCrypto) {
    AesGcmCorrect(c) && RsaOaepCorrect(c) && Utf8RoundTrips(c)
  }

  // ---------------------------------------------------------------------------
  // The byte/text helpers.

  /** What `base64ToArrayBuffer` and `base64ToUint8Array` yield: the codes of the
      binary string `atob` returns, or the error `atob` throws. */
  function Base64ToBytes(text: string): (r: Result<seq<uint8>, CryptoError>)
    ensures r.Err? ==> r.error == InvalidCharacterError
  {
    match Base64.AtoB(text)
    case None => Err(InvalidCharacterError)
    case Some(binary) => Ok(CharCodes(binary))
  }

  /** `arrayBufferToBase64`: one character per byte, then `btoa`. */
  method ArrayBufferToBase64(buffer: seq<uint8>) returns (r: string)
    ensures r == Base64.Encode(buffer)
  {
    var bytes := buffer;
    var binary := "";
    for i := 0 to |bytes|
      invariant |binary| == i
      invariant forall k :: 0 <= k < i ==> binary[k] as int == bytes[k] as int
    {
      binary := binary + [bytes[i] as int as char];
    }
    assert binary == BinaryString(bytes);
    CharCodesOfBinaryString(bytes);
    r := Base64.BtoA(binary).value;
  }

  /** `base64ToArrayBuffer`: `atob`, then one byte per character, returned as a
      copy of the filled buffer. */
  method Base64ToArrayBuffer(base64: string) returns (r: Result<seq<uint8>, CryptoError>)
    ensures r == Base64ToBytes(base64)
  {
    var decoded := Base64.AtoB(base64);
    if decoded.None? {
      return Err(InvalidCharacterError);
    }
    var binary := decoded.value;
    var bytes := new uint8[|binary|];
    for i := 0 to |binary|
      invariant forall k :: 0 <= k < i ==> bytes[k] as int == binary[k] as int
    {
      bytes[i] := (binary[i] as int % 256) as uint8;
    }
    assert bytes[..] == CharCodes(binary);
    r := Ok(bytes[..]);
  }

  /** `uint8ArrayToBase64`: the same string `arrayBufferToBase64` gives for the
      array's bytes. */
  method Uint8ArrayToBase64(arr: array<uint8>) returns (r: string)
    ensures r == Base64.Encode(arr[..])
  {
    var binary := "";
    for i := 0 to arr.Length
      invariant |binary| == i
      invariant forall k :: 0 <= k < i ==> binary[k] as int == arr[k] as int
    {
      binary := binary + [arr[i] as int as char];
    }
    assert binary == BinaryString(arr[..]);
    CharCodesOfBinaryString(arr[..]);
    r := Base64.BtoA(binary).value;
  }

  /** `base64ToUint8Array`: a fresh array holding the bytes
      `base64ToArrayBuffer` gives. */
  method Base64ToUint8Array(base64: string) returns (r: Result<array<uint8>, CryptoError>)
    ensures r.Ok? <==> Base64ToBytes(base64).Ok?
    ensures r.Err? ==> r.error == InvalidCharacterError
    ensures r.Ok? ==> fresh(r.value) && r.value[..] == Base64ToBytes(base64).value
  {
    var decoded := Base64.AtoB(base64);
    if decoded.None? {
      return Err(InvalidCharacterError);
    }
    var binary := decoded.value;
    var bytes := new uint8[|binary|];
    for i := 0 to |binary|
      invariant forall k :: 0 <= k < i ==> bytes[k] as int == binary[k] as int
    {
      bytes[i] := (binary[i] as int % 256) as uint8;
    }
    assert bytes[..] == CharCodes(binary);
    r := Ok(bytes);
  }

  /** Decoding the base64 text of some bytes gives those bytes. */
  lemma Base64RoundTrip(b: seq<uint8>)
    ensures Base64ToBytes(Base64.Encode(b)) == Ok(b)
  {
    Base64.DecodeEncode(b);
    CharCodesOfBinaryString(b);
  }

  // ---------------------------------------------------------------------------
  // Keys and the envelope.

  /** `importPublicKey`: base64 text of an SPKI structure to an RSA-OAEP key. */
  function ImportPublicKey(c: WebCrypto, keyBase64: string): (r: Result<RsaPublicKey, CryptoError>)
    ensures r.Ok? <==> Base64ToBytes(keyBase64).Ok? && c.importSpki(Base64ToBytes(keyBase64).value).Some?
    ensures r.Ok? ==> Some(r.value) == c.importSpki(Base64ToBytes(keyBase64).value)
  {
    match Base64ToBytes(keyBase64)
    case Err(e) => Err(e)
    case Ok(keyData) =>
      match c.importSpki(keyData)
      case None => Err(DataError)
      case Some(key) => Ok(key)
  }

  /** `importPrivateKey`: base64 text of a PKCS #8 structure to an RSA-OAEP key. */
  function ImportPrivateKey(c: WebCrypto, keyBase64: string): (r: Result<RsaPrivateKey, CryptoError>)
    ensures r.Ok? <==> Base64ToBytes(keyBase64).Ok? && c.importPkcs8(Base64ToBytes(keyBase64).value).Some?
    ensures r.Ok? ==> Some(r.value) == c.importPkcs8(Base64ToBytes(keyBase64).value)
  {
    match Base64ToBytes(keyBase64)
    case Err(e) => Err(e)
    case Ok(keyData) =>
      match c.importPkcs8(keyData)
      case None => Err(DataError)
      case Some(key) => Ok(key)
  }

  /** The record stored on IPFS. */
  datatype EncryptedBundle = EncryptedBundle(
    encryptedKey: string,
    encryptedMessage: string,
    iv: string,
    algorithm: string,
    version: string)

  /** `createEncryptedBundle`: encrypt the UTF-8 bytes of `message` under a fresh
      AES key and IV, then import the recipient's key and wrap the raw AES key.
      A malformed recipient key is found only after the message is encrypted;
      every failure rejects with no bundle. */
  function CreateEncryptedBundle(c: WebCrypto, message: string, recipientPublicKey: string,
                                 aesKey: AesKey, iv: Iv, oaepSeed: seq<uint8>)
    : (r: Result<EncryptedBundle, CryptoError>)
    ensures r.Ok? ==> r.value.algorithm == Algorithm && r.value.version == Version
    ensures r.Ok? <==>
      ImportPublicKey(c, recipientPublicKey).Ok? &&
      c.rsaOaepEncrypt(ImportPublicKey(c, recipientPublicKey).value, oaepSeed, aesKey).Some?
    ensures r.Err? && ImportPublicKey(c, recipientPublicKey).Err? ==>
      r.error == ImportPublicKey(c, recipientPublicKey).error
  {
    var ciphertext := c.aesGcmEncrypt(aesKey, iv, c.utf8Encode(message));
    var aesKeyRaw := aesKey;
    match ImportPublicKey(c, recipientPublicKey)
    case Err(e) => Err(e)
    case Ok(publicKey) =>
      match c.rsaOaepEncrypt(publicKey, oaepSeed, aesKeyRaw)
      case None => Err(OperationError)
      case Some(encryptedAesKey) =>
        Ok(EncryptedBundle(
          encryptedKey := Base64.Encode(encryptedAesKey),
          encryptedMessage := Base64.Encode(ciphertext),
          iv := Base64.Encode(iv),
          algorithm := Algorithm,
          version := Version))
  }

  /** `decryptBundle`: import the private key, unwrap the AES key, decode the
      ciphertext and IV, decrypt and decode UTF-8. Only `encryptedKey`,
      `encryptedMessage` and `iv` are read. */
  function DecryptBundle(c: WebCrypto, bundle: EncryptedBundle, privateKeyBase64: string)
    : (r: Result<string, CryptoError>)
    ensures ImportPrivateKey(c, privateKeyBase64).Err? ==> r == Err(ImportPrivateKey(c, privateKeyBase64).error)
    ensures (Base64ToBytes(bundle.encryptedKey).Err? || Base64ToBytes(bundle.encryptedMessage).Err? ||
             Base64ToBytes(bundle.iv).Err?) ==> r.Err?
  {
    match ImportPrivateKey(c, privateKeyBase64)
    case Err(e) => Err(e)
    case Ok(privateKey) =>
      match Base64ToBytes(bundle.encryptedKey)
      case Err(e) => Err(e)
      case Ok(encryptedAesKey) =>
        match c.rsaOaepDecrypt(privateKey, encryptedAesKey)
        case None => Err(OperationError)
        case Some(aesKeyRaw) =>
          if !IsAesKeyLength(|aesKeyRaw|) then Err(DataError)
          else
            match Base64ToBytes(bundle.encryptedMessage)
            case Err(e) => Err(e)
            case Ok(ciphertext) =>
              match Base64ToBytes(bundle.iv)
              case Err(e) => Err(e)
              case Ok(iv) =>
                match c.aesGcmDecrypt(aesKeyRaw, iv, ciphertext)
                case None => Err(OperationError)
                case Some(plaintext) => Ok(c.utf8Decode(plaintext))
  }

  // ---------------------------------------------------------------------------
  // Properties of the envelope.

  /** Each field of a bundle decodes to what was put there: the wrapped key,
      the AES-GCM ciphertext of the message, and the 12-byte IV. */
  lemma BundleFieldsDecode(c: WebCrypto, message: string, recipientPublicKey: string,
                           aesKey: AesKey, iv: Iv, oaepSeed: seq<uint8>)
    requires CreateEncryptedBundle(c, message, recipientPublicKey, aesKey, iv, oaepSeed).Ok?
    ensures var b := CreateEncryptedBundle(c, message, recipientPublicKey, aesKey, iv, oaepSeed).value;
      var pub := ImportPublicKey(c, recipientPublicKey).value;
      Base64ToBytes(b.encryptedKey) == Ok(c.rsaOaepEncrypt(pub, oaepSeed, aesKey).value) &&
      Base64ToBytes(b.encryptedMessage) == Ok(c.aesGcmEncrypt(aesKey, iv, c.utf8Encode(message))) &&
      Base64ToBytes(b.iv) == Ok(iv)
  {
    var pub := ImportPublicKey(c, recipientPublicKey).value;
    Base64RoundTrip(c.rsaOaepEncrypt(pub, oaepSeed, aesKey).value);
    Base64RoundTrip(c.aesGcmEncrypt(aesKey, iv, c.utf8Encode(message)));
    Base64RoundTrip(iv);
  }

  /** A 2048-bit key, as the key generator makes, leaves room for the 32-byte
      AES key: 32 + 2 * 32 + 2 = 98 <= 256. */
  predicate WrapsAesKey(c: WebCrypto, pub: RsaPublicKey) {
    AesKeyBytes + 2 * Sha256Bytes + 2 <= c.modulusBytes(pub)
  }

  /** With correct primitives, a recipient public key that imports and is long
      enough, the bundle is always produced. */
  lemma CreateSucceeds(c: WebCrypto, message: string, recipientPublicKey: string,
                       aesKey: AesKey, iv: Iv, oaepSeed: seq<uint8>)
    requires RsaOaepCorrect(c)
    requires ImportPublicKey(c, recipientPublicKey).Ok?
    requires WrapsAesKey(c, ImportPublicKey(c, recipientPublicKey).value)
    ensures CreateEncryptedBundle(c, message, recipientPublicKey, aesKey, iv, oaepSeed).Ok?
  {
    var pub := ImportPublicKey(c, recipientPublicKey).value;
    assert c.rsaOaepEncrypt(pub, oaepSeed, aesKey).Some?;
  }

  /** A key too short for OAEP padding of the AES key fails with OperationError. */
  lemma CreateFailsOnShortKey(c: WebCrypto, message: string, recipientPublicKey: string,
                              aesKey: AesKey, iv: Iv, oaepSeed: seq<uint8>)
    requires RsaOaepCorrect(c)
    requires ImportPublicKey(c, recipientPublicKey).Ok?
    requires !WrapsAesKey(c, ImportPublicKey(c, recipientPublicKey).value)
    ensures CreateEncryptedBundle(c, message, recipientPublicKey, aesKey, iv, oaepSeed) == Err(OperationError)
  {
    var pub := ImportPublicKey(c, recipientPublicKey).value;
    assert c.rsaOaepEncrypt(pub, oaepSeed, aesKey).None?;
  }

  /** The envelope round trip: the holder of the matching private key reads the
      message back out of the bundle. */
  lemma {:induction false} RoundTrip(c: WebCrypto, message: string,
                                     recipientPublicKey: string, recipientPrivateKey: string,
                                     aesKey: AesKey, iv: Iv, oaepSeed: seq<uint8>)
    requires Correct(c)
    requires ImportPublicKey(c, recipientPublicKey).Ok? && ImportPrivateKey(c, recipientPrivateKey).Ok?
    requires c.keysMatch(ImportPublicKey(c, recipientPublicKey).value, ImportPrivateKey(c, recipientPrivateKey).value)
    requires WrapsAesKey(c, ImportPublicKey(c, recipientPublicKey).value)
    ensures CreateEncryptedBundle(c, message, recipientPublicKey, aesKey, iv, oaepSeed).Ok?
    ensures DecryptBundle(c, CreateEncryptedBundle(c, message, recipientPublicKey, aesKey, iv, oaepSeed).value,
                          recipientPrivateKey) == Ok(message)
  {
    CreateSucceeds(c, message, recipientPublicKey, aesKey, iv, oaepSeed);
    BundleFieldsDecode(c, message, recipientPublicKey, aesKey, iv, oaepSeed);
    var pub := ImportPublicKey(c, recipientPublicKey).value;
    var priv := ImportPrivateKey(c, recipientPrivateKey).value;
    var wrapped := c.rsaOaepEncrypt(pub, oaepSeed, aesKey).value;
    assert c.rsaOaepDecrypt(priv, wrapped) == Some(aesKey);
    var plaintext := c.utf8Encode(message);
    var ciphertext := c.aesGcmEncrypt(aesKey, iv, plaintext);
    assert c.aesGcmDecrypt(aesKey, iv, ciphertext) == Some(plaintext);
    assert c.utf8Decode(plaintext) == message;
  }

  /** `algorithm` and `version` are never checked: bundles that agree on the
      other three fields decrypt alike. */
  lemma DecryptIgnoresMetadata(c: WebCrypto, bundle: EncryptedBundle, algorithm: string, version: string,
                               privateKeyBase64: string)
    ensures DecryptBundle(c, bundle.(algorithm := algorithm, version := version), privateKeyBase64)
         == DecryptBundle(c, bundle, privateKeyBase64)
  {
  }

  /** A failed unwrap or a failed authenticated decryption rejects with
      OperationError and no plaintext. */
  lemma DecryptFailuresPropagate(c: WebCrypto, bundle: EncryptedBundle, privateKeyBase64: string)
    requires ImportPrivateKey(c, privateKeyBase64).Ok?
    requires Base64ToBytes(bundle.encryptedKey).Ok?
    ensures var priv := ImportPrivateKey(c, privateKeyBase64).value;
      var unwrapped := c.rsaOaepDecrypt(priv, Base64ToBytes(bundle.encryptedKey).value);
      unwrapped.None? ==> DecryptBundle(c, bundle, privateKeyBase64) == Err(OperationError)
    ensures var priv := ImportPrivateKey(c, privateKeyBase64).value;
      var unwrapped := c.rsaOaepDecrypt(priv, Base64ToBytes(bundle.encryptedKey).value);
      unwrapped.Some? && IsAesKeyLength(|unwrapped.value|) &&
      Base64ToBytes(bundle.encryptedMessage).Ok? && Base64ToBytes(bundle.iv).Ok? &&
      c.aesGcmDecrypt(unwrapped.value, Base64ToBytes(bundle.iv).value,
                      Base64ToBytes(bundle.encryptedMessage).value).None?
      ==> DecryptBundle(c, bundle, privateKeyBase64) == Err(OperationError)
  {
  }
}
