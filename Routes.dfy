/**
 * The two POST routes of the backend. Each runs a fixed sequence of checks and
 * stops at the first that fails, answering with that check's status and detail;
 * when all pass it streams the result as a download.
 */
module Routes {
  import opened Wrappers
  import opened Text
  import opened Envelope
  import opened Http
  import opened Foreign

  const PasswordRequired := "Password required"
  const BadEnvelope := "Invalid encrypted file format or size."
  const DecryptionFailed := "Decryption failed. Bad password or corrupted file."
  const EmptyArchive := "Decrypted content is an empty zip archive."
  const NotAZip := "Decrypted content is not a valid zip file."

  /** An uploaded file: its client-side name, which may be absent, and its bytes. */
  datatype Upload = Upload(filename: Option<string>, content: Bytes)

  /** The name the upload is stored under inside the archive. */
  function EntryName(filename: Option<string>): (r: string)
    ensures r != ""
    ensures filename.Some? && filename.value != "" ==> r == filename.value
    ensures filename.None? || filename.value == "" ==> r == "file"
  {
    OrDefault(filename, "file")
  }

  /** The download name of an encrypted file: never empty before the suffix, always ending in ".enc". */
  function EncryptedName(filename: Option<string>): (r: string)
    ensures |r| > |".enc"| && r[|r| - 4..] == ".enc"
    ensures filename.Some? && filename.value != "" ==> r == filename.value + ".enc"
    ensures filename.None? || filename.value == "" ==> r == "uploaded_file.enc"
  {
    OrDefault(filename, "uploaded_file") + ".enc"
  }

  /**
   * POST /encrypt. `salt` and `nonce` are the random bytes the route draws;
   * they have the sizes it asks for.
   */
  function Encrypt(lib: Library, upload: Upload, password: string, salt: Bytes, nonce: Bytes): (r: Response)
    requires |salt| == SaltSize && |nonce| == NonceSize
    ensures password == "" ==> r == Err(400, PasswordRequired)
    ensures password != "" ==> (r.Ok? <==> IsLatin1(EncryptedName(upload.filename)))
    ensures password != "" && r.Err? ==> r == Err(500, InternalServerError)
    ensures r.Ok? ==> |r.body| >= SaltSize + NonceSize
    ensures r.Ok? ==> r.body[..SaltSize] == salt && r.body[SaltSize..SaltSize + NonceSize] == nonce
    ensures r.Ok? ==> r.headers.Keys == {ContentDispositionHeader, ContentLengthHeader}
    ensures r.Ok? ==> r.headers[ContentDispositionHeader] == ContentDisposition(EncryptedName(upload.filename))
    ensures r.Ok? ==> ParseDecimal(r.headers[ContentLengthHeader]) == Some(|r.body|)
  {
    if password == "" then Err(400, PasswordRequired)
    else
      var plain := lib.zip(EntryName(upload.filename), upload.content);
      var key := DeriveKey(lib, password, salt);
      var ct := lib.seal(key, nonce, plain);
      Attachment(EncryptedName(upload.filename), Serialize(salt, nonce, ct))
  }

  /** POST /decrypt. The upload's own name plays no part. */
  function Decrypt(lib: Library, upload: Upload, password: string): (r: Response)
    ensures password == "" ==> r == Err(400, PasswordRequired)
    ensures password != "" && |upload.content| < MinEnvelopeSize ==> r == Err(400, BadEnvelope)
    ensures r.Err? ==> r.status in {400, 403, 500}
    ensures r.Ok? ==> r.headers.Keys == {ContentDispositionHeader, ContentLengthHeader}
    ensures r.Ok? ==> ParseDecimal(r.headers[ContentLengthHeader]) == Some(|r.body|)
    ensures r.Ok? ==> exists name :: '/' !in name && IsLatin1(name)
                       && r.headers[ContentDispositionHeader] == ContentDisposition(name)
  {
    if password == "" then Err(400, PasswordRequired)
    else match Parse(upload.content)
      case None => Err(400, BadEnvelope)
      case Some(f) =>
        match lib.open(DeriveKey(lib, password, f.salt), f.nonce, f.ct)
        case None => Err(403, DecryptionFailed)
        case Some(plain) =>
          match lib.names(plain)
          case None => Err(400, NotAZip)
          case Some(names) =>
            if names == [] then Err(400, EmptyArchive)
            else match lib.read(plain, names[0])
              case None => Err(400, NotAZip)
              case Some(extracted) => Attachment(Basename(names[0]), extracted)
  }

  /** The plaintext an accepted decrypt upload opens to, if the key derived from `password` opens it. */
  function Opened(lib: Library, data: Bytes, password: string): Option<Bytes>
    requires |data| >= MinEnvelopeSize
  {
    var f := Parse(data).value;
    lib.open(DeriveKey(lib, password, f.salt), f.nonce, f.ct)
  }

  /** 403 is the answer exactly when the envelope is well-sized and AES-GCM refuses it. */
  lemma DecryptForbiddenExactly(lib: Library, upload: Upload, password: string)
    ensures Decrypt(lib, upload, password).Err? && Decrypt(lib, upload, password).status == 403
        <==> password != "" && |upload.content| >= MinEnvelopeSize && Opened(lib, upload.content, password).None?
    ensures Decrypt(lib, upload, password).Err? && Decrypt(lib, upload, password).status == 403
        ==> Decrypt(lib, upload, password).detail == DecryptionFailed
  {
  }

  /** Once the ciphertext opens, the archive decides: bad zip, empty zip, or the first entry. */
  lemma DecryptArchiveOutcome(lib: Library, upload: Upload, password: string, plain: Bytes)
    requires password != "" && |upload.content| >= MinEnvelopeSize
    requires Opened(lib, upload.content, password) == Some(plain)
    ensures lib.names(plain).None? ==> Decrypt(lib, upload, password) == Err(400, NotAZip)
    ensures lib.names(plain) == Some([]) ==> Decrypt(lib, upload, password) == Err(400, EmptyArchive)
    ensures lib.names(plain).Some? && lib.names(plain).value != [] ==>
      var first := lib.names(plain).value[0];
      var r := Decrypt(lib, upload, password);
      && (lib.read(plain, first).None? ==> r == Err(400, NotAZip))
      && (lib.read(plain, first).Some? && IsLatin1(Basename(first)) <==> r.Ok?)
      && (r.Ok? ==> r.body == lib.read(plain, first).value
                    && r.headers[ContentDispositionHeader] == ContentDisposition(Basename(first)))
      && (lib.read(plain, first).Some? && !IsLatin1(Basename(first)) ==> r == Err(500, InternalServerError))
  {
  }

  /**
   * With AES-GCM's inverse property, the body of a successful encrypt is an
   * envelope that opens, under the key derived from the same password, to the
   * zipped upload.
   */
  lemma EncryptedBodyOpens(lib: Library, upload: Upload, password: string, salt: Bytes, nonce: Bytes)
    requires OpenInvertsSeal(lib) && SealAddsTag(lib)
    requires |salt| == SaltSize && |nonce| == NonceSize
    requires Encrypt(lib, upload, password, salt, nonce).Ok?
    ensures var body := Encrypt(lib, upload, password, salt, nonce).body;
            |body| >= MinEnvelopeSize &&
            Parse(body).Some? && Parse(body).value.salt == salt && Parse(body).value.nonce == nonce &&
            Opened(lib, body, password) == Some(lib.zip(EntryName(upload.filename), upload.content))
  {
  }

  /** A base name is a suffix of its path, so it stays within Latin-1 when the path does. */
  lemma BasenameLatin1(path: string)
    requires IsLatin1(path)
    ensures IsLatin1(Basename(path))
  {
  }

  /** The archive entry name is Latin-1 whenever the encrypted download name is. */
  lemma EntryNameLatin1(filename: Option<string>)
    requires IsLatin1(EncryptedName(filename))
    ensures IsLatin1(EntryName(filename))
  {
  }

  /**
   * Round trip through both routes: decrypting, with the same password, what a
   * successful encrypt returned gives back the uploaded bytes under the base name
   * of the archive entry, whatever name the encrypted upload carries.
   */
  lemma EncryptThenDecrypt(lib: Library, upload: Upload, password: string, salt: Bytes, nonce: Bytes,
                           encryptedName: Option<string>)
    requires OpenInvertsSeal(lib) && SealAddsTag(lib) && ZipRoundTrips(lib)
    requires |salt| == SaltSize && |nonce| == NonceSize
    requires Encrypt(lib, upload, password, salt, nonce).Ok?
    ensures var sealed := Encrypt(lib, upload, password, salt, nonce).body;
            var r := Decrypt(lib, Upload(encryptedName, sealed), password);
            r == Attachment(Basename(EntryName(upload.filename)), upload.content) && r.Ok?
  {
    var name := EntryName(upload.filename);
    var sealed := Encrypt(lib, upload, password, salt, nonce).body;
    EncryptedBodyOpens(lib, upload, password, salt, nonce);
    var plain := lib.zip(name, upload.content);
    assert lib.names(plain) == Some([name]) && lib.read(plain, name) == Some(upload.content);
    EntryNameLatin1(upload.filename);
    BasenameLatin1(name);
    var f := Parse(sealed).value;
    assert Decrypt(lib, Upload(encryptedName, sealed), password)
        == Attachment(Basename(name), upload.content);
  }
}
