/** The signed envelope: a magic, a format, and three length-prefixed blobs. */
module Fsig {
  import opened Wrappers
  import opened Text
  import opened Wire

  const MAGIC: bytes := [70, 83, 73, 71]
  const FORMAT: nat := 1
  const KEY_LEN: nat := 32
  const SIGNATURE_LEN: nat := 64

  datatype Envelope = Envelope(key: bytes, signature: bytes, raw: bytes)

  predicate Sized(e: Envelope) {
    |e.key| == KEY_LEN && |e.signature| == SIGNATURE_LEN
  }

  function Layout(e: Envelope): bytes
    requires |e.key| <= U32_MAX && |e.signature| <= U32_MAX && |e.raw| <= U32_MAX
  {
    MAGIC + (PutU32(FORMAT) + (PutBlob(e.key) + (PutBlob(e.signature) + PutBlob(e.raw))))
  }

  function Encoded(e: Envelope): Result<bytes> {
    if !Sized(e) || |e.raw| > U32_MAX then Err(Integrity) else Ok(Layout(e))
  }

  /** `encode_fsig`, appending to a growing buffer. */
  method EncodeFsig(raw: bytes, signature: bytes, key: bytes) returns (r: Result<bytes>)
    ensures r == Encoded(Envelope(key, signature, raw))
    ensures r.Ok? <==> |key| == 32 && |signature| == 64 && |raw| <= 0xFFFF_FFFF
    ensures r.Ok? ==> r.value[..8] == [0x46, 0x53, 0x49, 0x47, 1, 0, 0, 0]
  {
    if |signature| == 0 || |key| != KEY_LEN || |signature| != SIGNATURE_LEN {
      return Err(Integrity);
    }
    var out := MAGIC + PutU32(FORMAT);
    var appended := AppendLenPrefixed(out, key);
    if appended.None? {
      return Err(Integrity);
    }
    appended := AppendLenPrefixed(appended.value, signature);
    if appended.None? {
      return Err(Integrity);
    }
    appended := AppendLenPrefixed(appended.value, raw);
    if appended.None? {
      return Err(Integrity);
    }
    Flatten(MAGIC, PutU32(FORMAT), PutBlob(key), PutBlob(signature), PutBlob(raw));
    return Ok(appended.value);
  }

  method AppendLenPrefixed(out: bytes, blob: bytes) returns (r: Option<bytes>)
    ensures r == if |blob| <= U32_MAX then Some(out + PutBlob(blob)) else None
  {
    if |blob| > U32_MAX {
      return None;
    }
    r := Some(out + PutU32(|blob|));
    r := Some(r.value + blob);
    assert out + PutU32(|blob|) + blob == out + PutBlob(blob);
  }

  lemma Flatten(a: bytes, b: bytes, c: bytes, d: bytes, e: bytes)
    ensures a + b + c + d + e == a + (b + (c + (d + e)))
  {
  }

  // ---- Reading ---------------------------------------------------------------------

  /** The three blobs after the format, and nothing after them. */
  function ParseBlobs(b: bytes): Option<Envelope> {
    match GetBlob(b)
    case Short => None
    case Got(key, b1) =>
      match GetBlob(b1)
      case Short => None
      case Got(signature, b2) =>
        match GetBlob(b2)
        case Short => None
        case Got(raw, b3) => if b3 == [] then Some(Envelope(key, signature, raw)) else None
  }

  function ParseFormat(b: bytes): Option<Envelope> {
    match GetU32(b)
    case Short => None
    case Got(format, rest) => if format != FORMAT then None else ParseBlobs(rest)
  }

  function Decoded(b: bytes): Result<Envelope> {
    match Take(4, b)
    case Short => Err(Integrity)
    case Got(magic, rest) =>
      if magic != MAGIC then Err(Integrity)
      else
        match ParseFormat(rest)
        case None => Err(Integrity)
        case Some(e) => if Sized(e) then Ok(e) else Err(Integrity)
  }

  /** `decode_fsig`, with the cursor it uses. */
  method DecodeFsig(b: bytes) returns (r: Result<Envelope>)
    ensures r == Decoded(b)
    ensures r.Ok? ==> |r.value.key| == 32 && |r.value.signature| == 64
  {
    var reader := new Reader(b);
    var magic := reader.Next(4);
    if magic.None? || magic.value != MAGIC {
      return Err(Integrity);
    }
    var format := reader.NextU32();
    if format.None? || format.value != FORMAT {
      return Err(Integrity);
    }
    var e := ReadBlobs(reader);
    if e.None? || |e.value.signature| == 0 || |e.value.key| != KEY_LEN || |e.value.signature| != SIGNATURE_LEN {
      return Err(Integrity);
    }
    return Ok(e.value);
  }

  method ReadBlobs(reader: Reader) returns (r: Option<Envelope>)
    requires reader.Valid()
    modifies reader`pos
    ensures r == ParseBlobs(old(reader.Rest()))
  {
    var key := reader.NextBlob();
    if key.None? {
      return None;
    }
    var signature := reader.NextBlob();
    if signature.None? {
      return None;
    }
    var raw := reader.NextBlob();
    if raw.None? || reader.pos != |reader.buf| {
      return None;
    }
    return Some(Envelope(key.value, signature.value, raw.value));
  }

  // ---- A bijection -----------------------------------------------------------------

  lemma BlobsRoundTrip(e: Envelope)
    requires |e.key| <= U32_MAX && |e.signature| <= U32_MAX && |e.raw| <= U32_MAX
    ensures ParseBlobs(PutBlob(e.key) + (PutBlob(e.signature) + PutBlob(e.raw))) == Some(e)
  {
    BlobFraming(e.key, PutBlob(e.signature) + PutBlob(e.raw));
    BlobFraming(e.signature, PutBlob(e.raw));
    BlobFraming(e.raw, []);
    assert PutBlob(e.raw) + [] == PutBlob(e.raw);
  }

  lemma BlobsExact(b: bytes)
    requires ParseBlobs(b).Some?
    ensures var e := ParseBlobs(b).value;
            && |e.key| <= U32_MAX && |e.signature| <= U32_MAX && |e.raw| <= U32_MAX
            && b == PutBlob(e.key) + (PutBlob(e.signature) + PutBlob(e.raw))
  {
    BlobFramingBack(b);
    BlobFramingBack(GetBlob(b).rest);
    var b2 := GetBlob(GetBlob(b).rest).rest;
    BlobFramingBack(b2);
    assert b2 == PutBlob(GetBlob(b2).value);
  }

  lemma FormatRoundTrip(e: Envelope)
    requires |e.key| <= U32_MAX && |e.signature| <= U32_MAX && |e.raw| <= U32_MAX
    ensures ParseFormat(PutU32(FORMAT) + (PutBlob(e.key) + (PutBlob(e.signature) + PutBlob(e.raw)))) == Some(e)
  {
    U32Framing(FORMAT, PutBlob(e.key) + (PutBlob(e.signature) + PutBlob(e.raw)));
    BlobsRoundTrip(e);
  }

  /** Decoding an encoding gives the same key, signature and payload ... */
  lemma DecodeEncode(e: Envelope)
    requires Encoded(e).Ok?
    ensures Decoded(Encoded(e).value) == Ok(e)
  {
    TakeFraming(MAGIC, PutU32(FORMAT) + (PutBlob(e.key) + (PutBlob(e.signature) + PutBlob(e.raw))));
    FormatRoundTrip(e);
  }

  /** ... and whatever is accepted is the encoding of what it decoded to, byte for byte. */
  lemma EncodeDecode(b: bytes)
    requires Decoded(b).Ok?
    ensures Encoded(Decoded(b).value) == Ok(b)
  {
    var tail := b[4..];
    assert b == MAGIC + tail by {
      assert b == b[..4] + b[4..];
    }
    U32FramingBack(tail);
    BlobsExact(GetU32(tail).rest);
  }

  lemma DecodeInjective(a: bytes, b: bytes)
    requires Decoded(a).Ok? && Decoded(a) == Decoded(b)
    ensures a == b
  {
    EncodeDecode(a);
    EncodeDecode(b);
  }
}
