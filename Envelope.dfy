/**
 * The encrypted-file envelope: a 16-byte PBKDF2 salt, a 12-byte AES-GCM nonce,
 * then the AES-GCM ciphertext (which carries its authentication tag), with no
 * length fields and no separators.
 */
module Envelope {
  import opened Wrappers

  newtype Byte = b: int | 0 <= b < 256
  type Bytes = seq<Byte>

  const SaltSize: nat := 16
  const NonceSize: nat := 12
  /** Length of an AES-GCM authentication tag; only the lemmas' hypotheses use it. */
  const TagSize: nat := 16
  /** The shortest input the decrypt route lets through: header plus one ciphertext byte. */
  const MinEnvelopeSize: nat := SaltSize + NonceSize + 1

  datatype Fields = Fields(salt: Bytes, nonce: Bytes, ct: Bytes)

  /** The encrypt route's output: salt, nonce and ciphertext, back to back. */
  function Serialize(salt: Bytes, nonce: Bytes, ct: Bytes): (out: Bytes)
    ensures |out| == |salt| + |nonce| + |ct|
    ensures out[..|salt|] == salt && out[|salt|..|salt| + |nonce|] == nonce
    ensures out[|salt| + |nonce|..] == ct
  {
    salt + nonce + ct
  }

  /**
   * The decrypt route's size check and slicing: inputs shorter than
   * `MinEnvelopeSize` are refused; the rest are cut at byte 16 and byte 28.
   */
  function Parse(data: Bytes): (r: Option<Fields>)
    ensures r.None? <==> |data| < MinEnvelopeSize
    ensures r.Some? ==> |r.value.salt| == SaltSize && |r.value.nonce| == NonceSize
    ensures r.Some? ==> |r.value.ct| >= 1
    ensures r.Some? ==> Serialize(r.value.salt, r.value.nonce, r.value.ct) == data
  {
    if |data| < MinEnvelopeSize then None
    else
      var salt := data[..SaltSize];
      var nonce := data[SaltSize..SaltSize + NonceSize];
      var ct := data[SaltSize + NonceSize..];
      assert salt + nonce + ct == data;
      Some(Fields(salt, nonce, ct))
  }

  /** Parsing what was serialised from well-sized fields gives those fields back. */
  lemma ParseSerialize(salt: Bytes, nonce: Bytes, ct: Bytes)
    requires |salt| == SaltSize && |nonce| == NonceSize && |ct| >= 1
    ensures Parse(Serialize(salt, nonce, ct)) == Some(Fields(salt, nonce, ct))
  {
  }

  /** A ciphertext that carries a full GCM tag always makes an envelope the size check accepts. */
  lemma SealedEnvelopePassesSizeCheck(salt: Bytes, nonce: Bytes, ct: Bytes)
    requires |salt| == SaltSize && |nonce| == NonceSize && |ct| >= TagSize
    ensures |Serialize(salt, nonce, ct)| >= MinEnvelopeSize
    ensures Parse(Serialize(salt, nonce, ct)).Some?
  {
  }
}
