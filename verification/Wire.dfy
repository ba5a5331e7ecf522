/**
 Little-endian integers and length prefixes, written and read. A parser takes bytes and gives
 back a value and the bytes after it; each comes with its framing law: reading what was
 written, in front of anything, gives the value and leaves exactly that anything.
 */
module Wire {
  import opened Wrappers
  import opened Text

  type bytes = seq<byte>

  const U16_MAX: nat := 0xFFFF
  const U32_MAX: nat := 0xFFFF_FFFF

  // ---- Integers --------------------------------------------------------------------

  function PutU16(n: nat): (b: bytes)
    requires n <= U16_MAX
    ensures |b| == 2
  {
    [n % 256, n / 256]
  }

  function PutU32(n: nat): (b: bytes)
    requires n <= U32_MAX
    ensures |b| == 4
  {
    PutU16(n % 65536) + PutU16(n / 65536)
  }

  function U16Of(b: bytes): (n: nat)
    requires |b| == 2
    ensures n <= U16_MAX
  {
    b[0] as nat + 256 * b[1] as nat
  }

  function U32Of(b: bytes): (n: nat)
    requires |b| == 4
    ensures n <= U32_MAX
  {
    U16Of(b[..2]) + 65536 * U16Of(b[2..])
  }

  lemma U16RoundTrip(n: nat)
    requires n <= U16_MAX
    ensures U16Of(PutU16(n)) == n
  {
  }

  lemma U16Exact(b: bytes)
    requires |b| == 2
    ensures PutU16(U16Of(b)) == b
  {
  }

  lemma U32RoundTrip(n: nat)
    requires n <= U32_MAX
    ensures U32Of(PutU32(n)) == n
  {
    var b := PutU32(n);
    assert b[..2] == PutU16(n % 65536) && b[2..] == PutU16(n / 65536);
    U16RoundTrip(n % 65536);
    U16RoundTrip(n / 65536);
  }

  lemma U32Exact(b: bytes)
    requires |b| == 4
    ensures PutU32(U32Of(b)) == b
  {
    var lo, hi := U16Of(b[..2]), U16Of(b[2..]);
    assert U32Of(b) % 65536 == lo && U32Of(b) / 65536 == hi;
    U16Exact(b[..2]);
    U16Exact(b[2..]);
    assert b == b[..2] + b[2..];
  }

  // ---- Parsers ---------------------------------------------------------------------

  /** What was read, and what is left. */
  datatype Read<+T> = Short | Got(value: T, rest: bytes)

  function Take(n: nat, b: bytes): Read<bytes> {
    if n <= |b| then Got(b[..n], b[n..]) else Short
  }

  function GetU32(b: bytes): Read<nat> {
    if |b| < 4 then Short else Got(U32Of(b[..4]), b[4..])
  }

  function GetU16(b: bytes): Read<nat> {
    if |b| < 2 then Short else Got(U16Of(b[..2]), b[2..])
  }

  function PutBlob(x: bytes): bytes
    requires |x| <= U32_MAX
  {
    PutU32(|x|) + x
  }

  /** A u32 length, then that many bytes. */
  function GetBlob(b: bytes): Read<bytes> {
    match GetU32(b)
    case Short => Short
    case Got(n, rest) => Take(n, rest)
  }

  lemma TakeFraming(x: bytes, rest: bytes)
    ensures Take(|x|, x + rest) == Got(x, rest)
  {
    assert (x + rest)[..|x|] == x && (x + rest)[|x|..] == rest;
  }

  lemma U32Framing(n: nat, rest: bytes)
    requires n <= U32_MAX
    ensures GetU32(PutU32(n) + rest) == Got(n, rest)
  {
    var b := PutU32(n) + rest;
    assert b[..4] == PutU32(n) && b[4..] == rest;
    U32RoundTrip(n);
  }

  lemma U16Framing(n: nat, rest: bytes)
    requires n <= U16_MAX
    ensures GetU16(PutU16(n) + rest) == Got(n, rest)
  {
    var b := PutU16(n) + rest;
    assert b[..2] == PutU16(n) && b[2..] == rest;
    U16RoundTrip(n);
  }

  lemma U32FramingBack(b: bytes)
    requires GetU32(b).Got?
    ensures b == PutU32(GetU32(b).value) + GetU32(b).rest
  {
    U32Exact(b[..4]);
    assert b == b[..4] + b[4..];
  }

  lemma BlobFraming(x: bytes, rest: bytes)
    requires |x| <= U32_MAX
    ensures GetBlob(PutBlob(x) + rest) == Got(x, rest)
  {
    assert PutBlob(x) + rest == PutU32(|x|) + (x + rest);
    U32Framing(|x|, x + rest);
    assert (x + rest)[..|x|] == x && (x + rest)[|x|..] == rest;
  }

  lemma BlobFramingBack(b: bytes)
    requires GetBlob(b).Got?
    ensures |GetBlob(b).value| <= U32_MAX && b == PutBlob(GetBlob(b).value) + GetBlob(b).rest
  {
    U32FramingBack(b);
    var n, rest := GetU32(b).value, GetU32(b).rest;
    assert rest == rest[..n] + rest[n..];
    assert b == PutU32(n) + rest[..n] + rest[n..];
  }

  // ---- The cursor ------------------------------------------------------------------

  /** A buffer and a position in it, as both bundle readers keep one. */
  class Reader {
    const buf: bytes
    var pos: nat

    constructor (buf: bytes)
      ensures this.buf == buf && pos == 0 && Valid() && Rest() == buf
    {
      this.buf, pos := buf, 0;
    }

    predicate Valid()
      reads this
    {
      pos <= |buf|
    }

    function Rest(): bytes
      reads this
      requires Valid()
    {
      buf[pos..]
    }

    /** The next `n` bytes, or nothing and no movement. */
    method Next(n: nat) returns (r: Option<bytes>)
      requires Valid()
      modifies this`pos
      ensures Valid()
      ensures match Take(n, old(Rest()))
              case Got(value, rest) => r == Some(value) && Rest() == rest
              case Short => r.None? && pos == old(pos)
    {
      if n > |buf| - pos {
        return None;
      }
      assert buf[pos..][..n] == buf[pos..pos + n] && buf[pos..][n..] == buf[pos + n..];
      r := Some(buf[pos..pos + n]);
      pos := pos + n;
    }

    method NextU32() returns (r: Option<nat>)
      requires Valid()
      modifies this`pos
      ensures Valid()
      ensures match GetU32(old(Rest()))
              case Got(value, rest) => r == Some(value) && Rest() == rest
              case Short => r.None?
    {
      var b := Next(4);
      if b.None? {
        return None;
      }
      return Some(U32Of(b.value));
    }

    method NextBlob() returns (r: Option<bytes>)
      requires Valid()
      modifies this`pos
      ensures Valid()
      ensures match GetBlob(old(Rest()))
              case Got(value, rest) => r == Some(value) && Rest() == rest
              case Short => r.None?
    {
      var n := NextU32();
      if n.None? {
        return None;
      }
      r := Next(n.value);
    }
  }
}
