/**
 * The backend's symmetric encryption helpers (backend/src/utils/crypto.js).
 * A key is derived from the secret with PBKDF2 over a fresh salt; the text is
 * sealed with AES-256-GCM; salt, IV, authentication tag and ciphertext are
 * concatenated and written as base64.  The cryptographic primitives and the
 * random bytes are parameters: the model is about the packing and the
 * parameters the code passes to them.
 */
module Crypto {
  import opened Wrappers
  import Base64

  type Byte = Base64.Byte

  const DefaultSecret := "your-secret-key"
  const Algorithm := "aes-256-gcm"
  const Digest := "sha512"
  const Iterations := 2145
  const KeyLength := 32
  const IvLength := 16
  const SaltLength := 64
  const TagLength := 16

  /** `process.env.SECRET_KEY || 'your-secret-key'`. */
  function SecretKey(env: Option<string>): (secret: string)
    ensures env.Some? && env.value != "" ==> secret == env.value
    ensures env.None? || env.value == "" ==> secret == DefaultSecret
    ensures secret != ""
  {
    if env.Some? && env.value != "" then env.value else DefaultSecret
  }

  /**
   * The primitives of Node's `crypto` module the helpers call:
   * `pbkdf2(password, salt, iterations, keyLength, digest)`,
   * `seal(algorithm, key, iv, text)` giving the ciphertext and the
   * authentication tag, and `open(algorithm, key, iv, tag, ciphertext)`, None
   * when the decipher throws (a wrong tag, a bad IV length, invalid data).
   */
  datatype Primitives = Primitives(
    pbkdf2: (string, seq<Byte>, nat, nat, string) -> seq<Byte>,
    seal: (string, seq<Byte>, seq<Byte>, string) -> (seq<Byte>, seq<Byte>),
    open: (string, seq<Byte>, seq<Byte>, seq<Byte>, seq<Byte>) -> Option<string>)

  /**
   * What the helpers rely on from GCM: the tag is 16 bytes, and opening what
   * was sealed with the same key and IV gives back the text.
   */
  ghost predicate Sound(p: Primitives) {
    forall algorithm, key, iv, text ::
      var (ciphertext, tag) := p.seal(algorithm, key, iv, text);
      |tag| == TagLength && p.open(algorithm, key, iv, tag, ciphertext) == Some(text)
  }

  /** `pbkdf2Sync(SECRET_KEY, salt, 2145, 32, 'sha512')`. */
  function DeriveKey(p: Primitives, secret: string, salt: seq<Byte>): seq<Byte> {
    p.pbkdf2(secret, salt, Iterations, KeyLength, Digest)
  }

  /** The four parts of a sealed message. */
  datatype Envelope = Envelope(salt: seq<Byte>, iv: seq<Byte>, tag: seq<Byte>, ciphertext: seq<Byte>)

  /** `Buffer.concat([salt, iv, authTag, encrypted])`. */
  function Pack(e: Envelope): (buffer: seq<Byte>)
    ensures |buffer| == |e.salt| + |e.iv| + |e.tag| + |e.ciphertext|
  {
    e.salt + e.iv + e.tag + e.ciphertext
  }

  /** `buffer.slice(start, end)`: both ends are clamped to the buffer. */
  function Slice(buffer: seq<Byte>, start: nat, end: nat): (r: seq<Byte>)
    ensures |r| == if start <= end && start <= |buffer| then (if end <= |buffer| then end else |buffer|) - start else 0
    ensures forall i :: 0 <= i < |r| ==> start + i < |buffer| && r[i] == buffer[start + i]
  {
    var s := if start <= |buffer| then start else |buffer|;
    var e := if end <= |buffer| then end else |buffer|;
    if s <= e then buffer[s..e] else []
  }

  /** The four slices `decrypt` takes: 0-64, 64-80, 80-96 and the rest. */
  function Unpack(buffer: seq<Byte>): (e: Envelope)
    ensures |buffer| >= 96 ==> Pack(e) == buffer
    ensures |buffer| >= 96 ==> |e.salt| == SaltLength && |e.iv| == IvLength && |e.tag| == TagLength
  {
    Envelope(Slice(buffer, 0, 64), Slice(buffer, 64, 80), Slice(buffer, 80, 96), Slice(buffer, 96, |buffer|))
  }

  /** Unpacking a packed envelope with the lengths `encrypt` uses gives back its parts. */
  lemma UnpackPack(e: Envelope)
    requires |e.salt| == SaltLength && |e.iv| == IvLength && |e.tag| == TagLength
    ensures Unpack(Pack(e)) == e
  {
    var b := Pack(e);
    assert b[0..64] == e.salt;
    assert b[64..80] == e.iv;
    assert b[80..96] == e.tag;
    assert b[96..|b|] == e.ciphertext;
  }

  /**
   * `encrypt(text)`, given the 16 random IV bytes and the 64 random salt
   * bytes it draws.
   */
  function Encrypt(p: Primitives, secret: string, iv: seq<Byte>, salt: seq<Byte>, text: string): (s: string)
    requires |iv| == IvLength && |salt| == SaltLength
    ensures |s| % 4 == 0
    ensures Base64.Decode(s).Ok? && |Base64.Decode(s).value| >= SaltLength + IvLength
  {
    var key := DeriveKey(p, secret, salt);
    var (ciphertext, tag) := p.seal(Algorithm, key, iv, text);
    var buffer := Pack(Envelope(salt, iv, tag, ciphertext));
    EncodedBuffer(buffer);
    Base64.Encode(buffer)
  }

  /** The base64 text of a buffer reads back as the buffer. */
  lemma EncodedBuffer(buffer: seq<Byte>)
    ensures Base64.Decode(Base64.Encode(buffer)) == Ok(buffer)
  {
    Base64.DecodeEncode(buffer);
  }

  /**
   * `decrypt(encryptedData)`: text that is not canonical base64, or that the
   * decipher rejects, is an error.
   */
  function Decrypt(p: Primitives, secret: string, data: string): (r: Result<string, string>)
    ensures r.Ok? ==> Base64.Decode(data).Ok?
  {
    var buffer := Base64.Decode(data);
    if buffer.Err? then Err(buffer.error)
    else
      var e := Unpack(buffer.value);
      var key := DeriveKey(p, secret, e.salt);
      var text := p.open(Algorithm, key, e.iv, e.tag, e.ciphertext);
      if text.None? then Err("Unsupported state or unable to authenticate data") else Ok(text.value)
  }

  /** With sound primitives, decrypting with the same secret gives back the text. */
  lemma DecryptEncrypt(p: Primitives, secret: string, iv: seq<Byte>, salt: seq<Byte>, text: string)
    requires Sound(p)
    requires |iv| == IvLength && |salt| == SaltLength
    ensures Decrypt(p, secret, Encrypt(p, secret, iv, salt, text)) == Ok(text)
  {
    var key := DeriveKey(p, secret, salt);
    var (ciphertext, tag) := p.seal(Algorithm, key, iv, text);
    var e := Envelope(salt, iv, tag, ciphertext);
    Base64.DecodeEncode(Pack(e));
    UnpackPack(e);
  }

  /** The salt and the IV travel in the clear at the front of the decoded buffer. */
  lemma EncryptCarriesSaltAndIv(p: Primitives, secret: string, iv: seq<Byte>, salt: seq<Byte>, text: string)
    requires |iv| == IvLength && |salt| == SaltLength
    ensures var b := Base64.Decode(Encrypt(p, secret, iv, salt, text));
      b.Ok? && |b.value| >= SaltLength + IvLength && b.value[..SaltLength] == salt && b.value[SaltLength..SaltLength + IvLength] == iv
  {
    var key := DeriveKey(p, secret, salt);
    var (ciphertext, tag) := p.seal(Algorithm, key, iv, text);
    var b := Pack(Envelope(salt, iv, tag, ciphertext));
    assert Encrypt(p, secret, iv, salt, text) == Base64.Encode(b);
    EncodedBuffer(b);
    assert b[..64] == salt;
    assert b[64..80] == iv;
  }
}
