# Encrypted-file backend: envelope and route rules

A Dafny model of the FastAPI backend `athenc-main/api/app.py`, which encrypts an
uploaded file under a password and decrypts it again. The model covers the
deterministic logic around the library calls:

- the **encrypted-file envelope**: a 16-byte salt, a 12-byte nonce, then the AES-GCM
  ciphertext with its tag, concatenated with no framing (`Envelope`);
- the **decrypt size check and slicing** that read the envelope back (`Envelope.Parse`);
- the **checks of the two routes**, their order, and the status and detail of each
  error (`Routes.Encrypt`, `Routes.Decrypt`);
- the **download metadata**: the output file names and the `Content-Disposition` and
  `Content-Length` header values (`Routes.EncryptedName`, `Http.Attachment`, `Text`).

PBKDF2-HMAC-SHA256 (section 5.2 of RFC 8018), AES-GCM (NIST SP 800-38D), UTF-8
encoding and the zip writer and reader are not reimplemented. They are fields of a
`Foreign.Library` value passed to every route, so each statement about the routes
holds for any implementation of them. The properties the real libraries have are
named predicates, and only lemmas take them as hypotheses:

- `OpenInvertsSeal`: opening undoes sealing under the same key and nonce;
- `SealAddsTag`: every ciphertext is at least 16 bytes long;
- `ZipRoundTrips`: a one-entry archive lists that entry and reads back its bytes.

The random salt and nonce that `encrypt` draws are parameters of `Routes.Encrypt`.

Modules: `Wrappers` (Option), `Text` (Python's `x or default`, `str(n)`,
`os.path.basename`), `Envelope` (the byte layout), `Http` (responses and headers),
`Foreign` (the library calls and key derivation), `Routes` (the two POST routes).

## Model

| member | source | states |
|---|---|---|
| Envelope.Serialize | athenc-main/api/app.py:95 | the output holds the salt at its start, the nonce right after it and the ciphertext after that, and its length is the sum of the three |
| Envelope.Parse | athenc-main/api/app.py:119-125 | an input is refused exactly when it is shorter than 29 = 16 + 12 + 1 bytes; an accepted one yields a 16-byte salt, a 12-byte nonce and a non-empty ciphertext whose concatenation is the input |
| Envelope.ParseSerialize | athenc-main/api/app.py:123-125 | parsing an envelope built from a 16-byte salt, a 12-byte nonce and a non-empty ciphertext passes the size check and returns those three fields |
| Envelope.SealedEnvelopePassesSizeCheck | athenc-main/api/app.py:119-120 | when the ciphertext carries a full 16-byte GCM tag, the envelope encrypt writes is never refused by decrypt's size check |
| Foreign.DerivedKeyLength | athenc-main/api/app.py:47-56 | `derive_key` asks PBKDF2-HMAC-SHA256 for 32 bytes from the UTF-8 password and the salt at 200000 iterations; when PBKDF2 returns the length asked for, the key is 32 bytes for every password and salt |
| Text.OrDefault | athenc-main/api/app.py:98 | Python's `name or default`: the name when it is present and non-empty, the default when it is `None` or empty |
| Text.DecimalString | athenc-main/api/app.py:107 | `str(n)` is a canonical decimal numeral: digits only, at least one, no leading zero |
| Text.DecimalRoundTrip | athenc-main/api/app.py:107 | reading a `Content-Length` value written by `str(n)` gives back `n` |
| Text.CanonicalDecimalRoundTrip | athenc-main/api/app.py:158 | every canonical numeral is what `str` writes for its value, so writing and reading `Content-Length` are inverse both ways |
| Text.Basename | athenc-main/api/app.py:146 | the base name is the longest suffix of the path that holds no '/' |
| Http.ContentDisposition | athenc-main/api/app.py:157 | the header value is `attachment; filename="`, the name unescaped, then `"`; it is Latin-1 exactly when the name is |
| Http.QuotedBodyOfPlainName | athenc-main/api/app.py:106 | a quoted-string reader (value ends at the first unescaped `"`, `\` escapes) reads back a name with no `"` and no `\` whole, whatever follows its closing quote |
| Http.DispositionRoundTrip | athenc-main/api/app.py:106 | a `Content-Disposition` value built for a name with no `"` and no `\` is read back by a quoted-string reader to exactly that name |
| Http.UnescapedQuoteCutsName | athenc-main/api/app.py:106 | because the name is not escaped, a download named `x".txt` is read back by a quoted-string reader as `x` |
| Http.Attachment | athenc-main/api/app.py:102-108 | the response is built exactly when the download name is Latin-1, and is otherwise a 500; a built response streams the body as `application/octet-stream` with exactly two headers: `Content-Disposition` for the name (read back whole when it has no `"` or `\`) and a `Content-Length` that reads back to the body's length |
| Routes.EntryName | athenc-main/api/app.py:83 | the archive entry is named after the upload, or "file" when the upload has no name or an empty one; it is never empty |
| Routes.EncryptedName | athenc-main/api/app.py:98 | the encrypted download is named `<upload name>.enc`, or `uploaded_file.enc` when the name is absent or empty; it always ends in ".enc" after a non-empty stem |
| Routes.Encrypt | athenc-main/api/app.py:72-109 | an empty password gives 400 "Password required"; otherwise the route succeeds exactly when the download name is Latin-1 and fails with 500 otherwise; a success's body starts with the salt and then the nonce, and its headers carry `EncryptedName` and the body's length |
| Routes.Decrypt | athenc-main/api/app.py:112-160 | an empty password gives 400 "Password required" before anything else; a non-empty password with fewer than 29 bytes gives 400 "Invalid encrypted file format or size."; every error is 400, 403 or 500; a success names a Latin-1 file with no '/' and gives the body's length |
| Routes.DecryptForbiddenExactly | athenc-main/api/app.py:130-135 | decrypt answers 403 if and only if the password is non-empty, the envelope passes the size check and AES-GCM refuses the ciphertext; the detail is then "Decryption failed. Bad password or corrupted file." |
| Routes.DecryptArchiveOutcome | athenc-main/api/app.py:137-150 | after a successful open: an unreadable archive gives 400 "not a valid zip file", an empty one gives 400 "empty zip archive"; otherwise, if the reader fails on the first entry's name, 400 "not a valid zip file"; if it returns bytes, the route succeeds exactly when the entry's base name is Latin-1, with the bytes the archive reader returns for the first entry's name as body and that base name in `Content-Disposition`, and answers 500 otherwise |
| Routes.EncryptedBodyOpens | athenc-main/api/app.py:86-95 | the body a successful encrypt returns parses back to the salt and nonce it was built with, and its ciphertext opens, under the key derived from the same password, to the zipped upload |
| Routes.EncryptThenDecrypt | athenc-main/api/app.py:79-147 | decrypting, with the same password, what a successful encrypt returned succeeds and gives back the uploaded bytes under the base name of the archive entry name, whatever name the encrypted file is uploaded under |

Remarks on the behaviour the model pins down:

- The archive entry falls back to "file" (line 83) and the download to
  "uploaded_file" (line 98). So an upload with no name is encrypted as
  `uploaded_file.enc` and decrypts to a file named `file` (`EncryptThenDecrypt`).
- The name returned by decrypt is the base name of the archive entry, not the name
  the encrypted file was uploaded under.
- A download name outside Latin-1 (an upload named `报告.pdf`, say) makes building the
  response raise, because header values are encoded as Latin-1, and the server answers 500.
- Decrypt maps a `BadZipFile` raised by `zf.read` to the same 400 as one raised when
  the archive is opened, because both sit inside the same `try`.

## Left out

- Key derivation, AES-GCM, UTF-8 encoding and zip compression/parsing: foreign library calls. They are fields of `Foreign.Library`. The zip round-trip hypothesis ignores `zipfile`'s name normalisation (a name is cut at its first NUL character).
- Exceptions other than `BadZipFile` raised while reading the archive (a `zlib` error, for example) escape the route as a 500. The model's `read` only distinguishes success from `BadZipFile`.
- Routes.Decrypt: the contract does not restate the full success case. `DecryptArchiveOutcome` states it.
- Routes.Encrypt, Routes.Decrypt, Http.Attachment: the 422 that FastAPI's request validation answers before either handler runs is not modelled. It is sent when the `password` form field is missing and, in FastAPI's form parsing, when it is empty. So the 400 "Password required" is what the handler answers, not always what the endpoint answers. The 500 for a non-Latin-1 download name is modelled; the server's plain-text 500 body is modelled as the detail "Internal Server Error".
- Http.Attachment: the name is written into `Content-Disposition` without escaping `"` or `\` (lines 106 and 157). A name holding either is not promised to read back; `Http.UnescapedQuoteCutsName` shows `x".txt` read back as `x`.
- Randomness: `secrets.token_bytes` becomes the `salt` and `nonce` parameters of `Routes.Encrypt`, which require the sizes the route asks for.
- Web plumbing: the FastAPI app, static mounting, CORS, the index page, the asynchronous `file.read()`, streaming, logging and the uvicorn entry point. These are I/O.
- The `Content-Type` header that `StreamingResponse` derives from the media type is not listed among the headers. The media type is a field of `Http.Response`.
- HTTP header names are compared case-sensitively in the model's header map.
- The browser client that calls these routes is not part of this model.
