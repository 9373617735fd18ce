/**
 * The library calls the backend makes and this model does not reimplement:
 * UTF-8 encoding, PBKDF2-HMAC-SHA256 (section 5.2 of RFC 8018), AES-GCM
 * (NIST SP 800-38D) and the zip archive writer and reader. They are passed in
 * as one value, so every statement about the routes holds for any choice of them;
 * the properties real implementations have are named predicates that lemmas
 * take as hypotheses.
 */
module Foreign {
  import opened Wrappers
  import opened Envelope

  const KdfIterations: nat := 200000
  const KeyLength: nat := 32

  datatype Library = Library(
    /** `str.encode()` */
    utf8: string -> Bytes,
    /** PBKDF2-HMAC-SHA256(password, salt, iterations, key length) */
    pbkdf2Sha256: (Bytes, Bytes, nat, nat) -> Bytes,
    /** `AESGCM(key).encrypt(nonce, plain, None)` */
    seal: (Bytes, Bytes, Bytes) -> Bytes,
    /** `AESGCM(key).decrypt(nonce, ct, None)`; `None` when it raises */
    open: (Bytes, Bytes, Bytes) -> Option<Bytes>,
    /** a fresh deflated archive holding one entry (`ZipFile.writestr`) */
    zip: (string, Bytes) -> Bytes,
    /** `ZipFile(archive).namelist()`; `None` when opening raises `BadZipFile` */
    names: Bytes -> Option<seq<string>>,
    /** `ZipFile(archive).read(name)`; `None` when it raises `BadZipFile` */
    read: (Bytes, string) -> Option<Bytes>
  )

  /** `derive_key`: a 32-byte key from the UTF-8 password and the salt, 200000 iterations. */
  function DeriveKey(lib: Library, password: string, salt: Bytes): Bytes
  {
    lib.pbkdf2Sha256(lib.utf8(password), salt, KdfIterations, KeyLength)
  }

  /** PBKDF2 returns as many bytes as it is asked for. */
  ghost predicate Pbkdf2GivesLength(lib: Library) {
    forall password, salt, iterations, length :: |lib.pbkdf2Sha256(password, salt, iterations, length)| == length
  }

  /** The derived key is a 32-byte AES-256 key, whatever the password and salt. */
  lemma DerivedKeyLength(lib: Library, password: string, salt: Bytes)
    requires Pbkdf2GivesLength(lib)
    ensures |DeriveKey(lib, password, salt)| == KeyLength == 32
  {
  }

  /** AES-GCM decryption under the same key and nonce undoes encryption. */
  ghost predicate OpenInvertsSeal(lib: Library) {
    forall key, nonce, plain :: lib.open(key, nonce, lib.seal(key, nonce, plain)) == Some(plain)
  }

  /** Every AES-GCM ciphertext carries a 16-byte tag. */
  ghost predicate SealAddsTag(lib: Library) {
    forall key, nonce, plain :: |lib.seal(key, nonce, plain)| >= TagSize
  }

  /** Reading back a one-entry archive lists that entry and returns its bytes. */
  ghost predicate ZipRoundTrips(lib: Library) {
    forall name, data :: lib.names(lib.zip(name, data)) == Some([name])
                         && lib.read(lib.zip(name, data), name) == Some(data)
  }
}
