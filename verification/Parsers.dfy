/**
 Parsers as functions from bytes to a value and the bytes after it, and the two laws the
 binary formats rest on. A stable parser never looks beyond what it consumed, so more bytes
 at the end change nothing; an inverse reads back what was written and leaves the rest.
 */
module Parsers {
  import opened Wrappers
  import opened Text
  import opened Wire

  ghost predicate Stable<T(!new)>(p: bytes -> Read<T>) {
    forall b, extra :: p(b).Got? ==> p(b + extra) == Got(p(b).value, p(b).rest + extra)
  }

  ghost predicate Inverts<T(!new)>(p: bytes -> Read<T>, put: T -> bytes, ok: T -> bool) {
    forall x, rest :: ok(x) ==> p(put(x) + rest) == Got(x, rest)
  }

  // ---- One after the other ---------------------------------------------------------

  function Both<A, B>(p: bytes -> Read<A>, q: bytes -> Read<B>): bytes -> Read<(A, B)> {
    b =>
      match p(b)
      case Short => Short
      case Got(x, rest) =>
        match q(rest)
        case Short => Short
        case Got(y, rest) => Got((x, y), rest)
  }

  function PutBoth<A, B>(f: A -> bytes, g: B -> bytes): ((A, B)) -> bytes {
    (xy: (A, B)) => f(xy.0) + g(xy.1)
  }

  function BothOk<A, B>(f: A -> bool, g: B -> bool): ((A, B)) -> bool {
    (xy: (A, B)) => f(xy.0) && g(xy.1)
  }

  lemma BothStable<A(!new), B(!new)>(p: bytes -> Read<A>, q: bytes -> Read<B>)
    requires Stable(p) && Stable(q)
    ensures Stable(Both(p, q))
  {
  }

  lemma BothInverts<A(!new), B(!new)>(p: bytes -> Read<A>, q: bytes -> Read<B>, f: A -> bytes, g: B -> bytes,
                                      okA: A -> bool, okB: B -> bool)
    requires Inverts(p, f, okA) && Inverts(q, g, okB)
    ensures Inverts(Both(p, q), PutBoth(f, g), BothOk(okA, okB))
  {
    forall xy: (A, B), rest: bytes | BothOk(okA, okB)(xy)
      ensures Both(p, q)(PutBoth(f, g)(xy) + rest) == Got(xy, rest)
    {
      assert PutBoth(f, g)(xy) + rest == f(xy.0) + (g(xy.1) + rest);
    }
  }

  // ---- As something else -----------------------------------------------------------

  /** A parsed value turned into what it stands for, or refused. */
  function As<A, B>(p: bytes -> Read<A>, f: A -> Option<B>): bytes -> Read<B> {
    b =>
      match p(b)
      case Short => Short
      case Got(x, rest) => match f(x) case None => Short case Some(y) => Got(y, rest)
  }

  lemma AsStable<A(!new), B(!new)>(p: bytes -> Read<A>, f: A -> Option<B>)
    requires Stable(p)
    ensures Stable(As(p, f))
  {
  }

  /** `back` takes a value apart the way `f` puts it together. */
  lemma AsInverts<A(!new), B(!new)>(p: bytes -> Read<A>, f: A -> Option<B>, put: A -> bytes, ok: A -> bool,
                                    back: B -> A, putB: B -> bytes, okB: B -> bool)
    requires Inverts(p, put, ok)
    requires forall y :: okB(y) ==> ok(back(y)) && f(back(y)) == Some(y) && putB(y) == put(back(y))
    ensures Inverts(As(p, f), putB, okB)
  {
  }

  // ---- So many of them -------------------------------------------------------------

  function Times<A>(n: nat, p: bytes -> Read<A>, b: bytes): Read<seq<A>> {
    if n == 0 then Got([], b)
    else
      match p(b)
      case Short => Short
      case Got(x, rest) =>
        match Times(n - 1, p, rest)
        case Short => Short
        case Got(xs, rest) => Got([x] + xs, rest)
  }

  function PutEach<A>(f: A -> bytes, xs: seq<A>): bytes {
    if xs == [] then [] else f(xs[0]) + PutEach(f, xs[1..])
  }

  lemma {:induction false} TimesStable<A(!new)>(n: nat, p: bytes -> Read<A>, b: bytes, extra: bytes)
    requires Stable(p) && Times(n, p, b).Got?
    ensures Times(n, p, b + extra) == Got(Times(n, p, b).value, Times(n, p, b).rest + extra)
  {
    if n > 0 {
      TimesStable(n - 1, p, p(b).rest, extra);
    }
  }

  lemma {:induction false} TimesInverts<A(!new)>(p: bytes -> Read<A>, f: A -> bytes, ok: A -> bool, xs: seq<A>, rest: bytes)
    requires Inverts(p, f, ok) && forall i :: 0 <= i < |xs| ==> ok(xs[i])
    ensures Times(|xs|, p, PutEach(f, xs) + rest) == Got(xs, rest)
  {
    if xs != [] {
      TimesInverts(p, f, ok, xs[1..], rest);
      assert PutEach(f, xs) + rest == f(xs[0]) + (PutEach(f, xs[1..]) + rest);
      assert [xs[0]] + xs[1..] == xs;
    }
  }

  /** A number of them fixed by the format. */
  function Fixed<A>(n: nat, p: bytes -> Read<A>): bytes -> Read<seq<A>> {
    b => Times(n, p, b)
  }

  function FixedOk<A>(n: nat, ok: A -> bool): seq<A> -> bool {
    xs => |xs| == n && forall i :: 0 <= i < |xs| ==> ok(xs[i])
  }

  function PutFixed<A>(f: A -> bytes): seq<A> -> bytes {
    xs => PutEach(f, xs)
  }

  lemma FixedStable<A(!new)>(n: nat, p: bytes -> Read<A>)
    requires Stable(p)
    ensures Stable(Fixed(n, p))
  {
    forall b: bytes, extra: bytes | Fixed(n, p)(b).Got?
      ensures Fixed(n, p)(b + extra) == Got(Fixed(n, p)(b).value, Fixed(n, p)(b).rest + extra)
    {
      TimesStable(n, p, b, extra);
    }
  }

  lemma FixedInverts<A(!new)>(n: nat, p: bytes -> Read<A>, f: A -> bytes, ok: A -> bool)
    requires Inverts(p, f, ok)
    ensures Inverts(Fixed(n, p), PutFixed(f), FixedOk(n, ok))
  {
    forall xs: seq<A>, rest: bytes | FixedOk(n, ok)(xs)
      ensures Fixed(n, p)(PutFixed(f)(xs) + rest) == Got(xs, rest)
    {
      TimesInverts(p, f, ok, xs, rest);
    }
  }

  /** A u16 count, then that many. */
  function Counted<A>(p: bytes -> Read<A>): bytes -> Read<seq<A>> {
    b => match GetU16(b) case Short => Short case Got(n, rest) => Times(n, p, rest)
  }

  function PutCounted<A>(f: A -> bytes): seq<A> -> bytes {
    xs => if |xs| <= U16_MAX then PutU16(|xs|) + PutEach(f, xs) else []
  }

  function CountedOk<A>(ok: A -> bool): seq<A> -> bool {
    xs => |xs| <= U16_MAX && forall i :: 0 <= i < |xs| ==> ok(xs[i])
  }

  lemma U16Stable()
    ensures Stable(GetU16)
  {
    forall b: bytes, extra: bytes | GetU16(b).Got?
      ensures GetU16(b + extra) == Got(GetU16(b).value, GetU16(b).rest + extra)
    {
      assert (b + extra)[..2] == b[..2] && (b + extra)[2..] == b[2..] + extra;
    }
  }

  lemma CountedStable<A(!new)>(p: bytes -> Read<A>)
    requires Stable(p)
    ensures Stable(Counted(p))
  {
    U16Stable();
    forall b: bytes, extra: bytes | Counted(p)(b).Got?
      ensures Counted(p)(b + extra) == Got(Counted(p)(b).value, Counted(p)(b).rest + extra)
    {
      TimesStable(GetU16(b).value, p, GetU16(b).rest, extra);
    }
  }

  lemma CountedInverts<A(!new)>(p: bytes -> Read<A>, f: A -> bytes, ok: A -> bool)
    requires Inverts(p, f, ok)
    ensures Inverts(Counted(p), PutCounted(f), CountedOk(ok))
  {
    forall xs: seq<A>, rest: bytes | CountedOk(ok)(xs)
      ensures Counted(p)(PutCounted(f)(xs) + rest) == Got(xs, rest)
    {
      U16Framing(|xs|, PutEach(f, xs) + rest);
      assert PutCounted(f)(xs) + rest == PutU16(|xs|) + (PutEach(f, xs) + rest);
      TimesInverts(p, f, ok, xs, rest);
    }
  }

  // ---- Strings, flags, signed integers ---------------------------------------------

  /** A u16 byte count, then UTF-8. */
  function GetStr(b: bytes): Read<string> {
    match GetU16(b)
    case Short => Short
    case Got(n, rest) =>
      match Take(n, rest)
      case Short => Short
      case Got(text, rest) => match Decode(text) case None => Short case Some(s) => Got(s, rest)
  }

  function PutStr(s: string): bytes {
    var text := Encode(s);
    if |text| <= U16_MAX then PutU16(|text|) + text else []
  }

  predicate StrOk(s: string) {
    |Encode(s)| <= U16_MAX
  }

  lemma StrStable()
    ensures Stable(GetStr)
  {
    forall b: bytes, extra: bytes | GetStr(b).Got?
      ensures GetStr(b + extra) == Got(GetStr(b).value, GetStr(b).rest + extra)
    {
      U16Stable();
      assert GetU16(b + extra) == Got(GetU16(b).value, GetU16(b).rest + extra);
      var n, rest := GetU16(b).value, GetU16(b).rest;
      assert (rest + extra)[..n] == rest[..n] && (rest + extra)[n..] == rest[n..] + extra;
    }
  }

  lemma StrInverts()
    ensures Inverts(GetStr, PutStr, StrOk)
  {
    forall s: string, rest: bytes | StrOk(s) ensures GetStr(PutStr(s) + rest) == Got(s, rest) {
      var text := Encode(s);
      assert PutStr(s) + rest == PutU16(|text|) + (text + rest);
      U16Framing(|text|, text + rest);
      TakeFraming(text, rest);
      DecodeEncode(s);
    }
  }

  function GetByte(b: bytes): Read<byte> {
    if b == [] then Short else Got(b[0], b[1..])
  }

  function PutByte(x: byte): bytes {
    [x]
  }

  lemma ByteStable()
    ensures Stable(GetByte)
  {
    forall b: bytes, extra: bytes | GetByte(b).Got?
      ensures GetByte(b + extra) == Got(GetByte(b).value, GetByte(b).rest + extra)
    {
      assert (b + extra)[1..] == b[1..] + extra;
    }
  }

  lemma U32Stable()
    ensures Stable(GetU32)
  {
    forall b: bytes, extra: bytes | GetU32(b).Got?
      ensures GetU32(b + extra) == Got(GetU32(b).value, GetU32(b).rest + extra)
    {
      assert (b + extra)[..4] == b[..4] && (b + extra)[4..] == b[4..] + extra;
    }
  }

  // ---- Codecs ----------------------------------------------------------------------

  /** A parser, the writer it undoes, and the values the writer can write. */
  datatype Codec<!T> = Codec(get: bytes -> Read<T>, put: T -> bytes, ok: T -> bool)

  ghost predicate Lawful<T(!new)>(c: Codec<T>) {
    Stable(c.get) && Inverts(c.get, c.put, c.ok)
  }

  function Pair<A, B>(c: Codec<A>, d: Codec<B>): Codec<(A, B)> {
    Codec(Both(c.get, d.get), PutBoth(c.put, d.put), BothOk(c.ok, d.ok))
  }

  function ListOf<A>(c: Codec<A>): Codec<seq<A>> {
    Codec(Counted(c.get), PutCounted(c.put), CountedOk(c.ok))
  }

  function Repeat<A>(n: nat, c: Codec<A>): Codec<seq<A>> {
    Codec(Fixed(n, c.get), PutFixed(c.put), FixedOk(n, c.ok))
  }

  /** A codec of parts made a codec of the whole. */
  function Whole<A, B(==)>(c: Codec<A>, whole: A -> Option<B>, parts: B -> A): Codec<B> {
    Codec(As(c.get, whole), y => c.put(parts(y)), y => c.ok(parts(y)) && whole(parts(y)) == Some(y))
  }

  function Str(): Codec<string> {
    Codec(GetStr, PutStr, StrOk)
  }

  function Byte(): Codec<byte> {
    Codec(GetByte, PutByte, _ => true)
  }

  function U32(): Codec<nat> {
    Codec(GetU32, (n: nat) => if n <= U32_MAX then PutU32(n) else [], (n: nat) => n <= U32_MAX)
  }

  lemma PairLawful<A(!new), B(!new)>(c: Codec<A>, d: Codec<B>)
    requires Lawful(c) && Lawful(d)
    ensures Lawful(Pair(c, d))
  {
    BothStable(c.get, d.get);
    BothInverts(c.get, d.get, c.put, d.put, c.ok, d.ok);
  }

  lemma ListLawful<A(!new)>(c: Codec<A>)
    requires Lawful(c)
    ensures Lawful(ListOf(c))
  {
    CountedStable(c.get);
    CountedInverts(c.get, c.put, c.ok);
  }

  lemma RepeatLawful<A(!new)>(n: nat, c: Codec<A>)
    requires Lawful(c)
    ensures Lawful(Repeat(n, c))
  {
    FixedStable(n, c.get);
    FixedInverts(n, c.get, c.put, c.ok);
  }

  lemma WholeLawful<A(!new), B(!new)>(c: Codec<A>, whole: A -> Option<B>, parts: B -> A)
    requires Lawful(c)
    ensures Lawful(Whole(c, whole, parts))
  {
    var w := Whole(c, whole, parts);
    AsStable(c.get, whole);
    AsInverts(c.get, whole, c.put, c.ok, parts, w.put, w.ok);
  }

  lemma StrLawful()
    ensures Lawful(Str())
  {
    StrStable();
    StrInverts();
  }

  lemma ByteLawful()
    ensures Lawful(Byte())
  {
    ByteStable();
    forall x: byte, rest: bytes ensures Byte().get(Byte().put(x) + rest) == Got(x, rest) {
      assert (PutByte(x) + rest)[1..] == rest;
    }
  }

  lemma U32Lawful()
    ensures Lawful(U32())
  {
    U32Stable();
    forall n: nat, rest: bytes | U32().ok(n) ensures U32().get(U32().put(n) + rest) == Got(n, rest) {
      U32Framing(n, rest);
    }
  }

  lemma PairFits<A, B>(c: Codec<A>, d: Codec<B>, x: A, y: B)
    requires c.ok(x) && d.ok(y)
    ensures Pair(c, d).ok((x, y))
  {
  }

  lemma ListFits<A>(c: Codec<A>, xs: seq<A>)
    requires |xs| <= U16_MAX && forall i :: 0 <= i < |xs| ==> c.ok(xs[i])
    ensures ListOf(c).ok(xs)
  {
  }

  lemma RepeatFits<A>(n: nat, c: Codec<A>, xs: seq<A>)
    requires |xs| == n && forall i :: 0 <= i < |xs| ==> c.ok(xs[i])
    ensures Repeat(n, c).ok(xs)
  {
  }

  lemma WholeFits<A, B>(c: Codec<A>, whole: A -> Option<B>, parts: B -> A, y: B)
    requires c.ok(parts(y)) && whole(parts(y)) == Some(y)
    ensures Whole(c, whole, parts).ok(y)
  {
  }

  // ---- Exact codecs ----------------------------------------------------------------

  /** A parser that accepts nothing but what the writer writes, in front of anything. */
  ghost predicate Exact<T(!new)>(c: Codec<T>) {
    forall b :: c.get(b).Got? ==> c.ok(c.get(b).value) && b == c.put(c.get(b).value) + c.get(b).rest
  }

  lemma PairExact<A(!new), B(!new)>(c: Codec<A>, d: Codec<B>)
    requires Exact(c) && Exact(d)
    ensures Exact(Pair(c, d))
  {
    var p := Pair(c, d);
    forall b: bytes | p.get(b).Got? ensures p.ok(p.get(b).value) && b == p.put(p.get(b).value) + p.get(b).rest {
      var x := c.get(b);
      var y := d.get(x.rest);
      assert b == c.put(x.value) + (d.put(y.value) + y.rest);
    }
  }

  lemma {:induction false} TimesExact<A(!new)>(n: nat, c: Codec<A>, b: bytes)
    requires Exact(c) && Times(n, c.get, b).Got?
    ensures var r := Times(n, c.get, b);
            && |r.value| == n && (forall i :: 0 <= i < n ==> c.ok(r.value[i]))
            && b == PutEach(c.put, r.value) + r.rest
  {
    if n > 0 {
      var x := c.get(b);
      var xs := Times(n - 1, c.get, x.rest);
      TimesExact(n - 1, c, x.rest);
      var all := [x.value] + xs.value;
      assert all[1..] == xs.value;
      assert b == c.put(x.value) + (PutEach(c.put, xs.value) + xs.rest);
    } else {
      assert b == [] + b;
    }
  }

  lemma RepeatExact<A(!new)>(n: nat, c: Codec<A>)
    requires Exact(c)
    ensures Exact(Repeat(n, c))
  {
    var p := Repeat(n, c);
    forall b: bytes | p.get(b).Got? ensures p.ok(p.get(b).value) && b == p.put(p.get(b).value) + p.get(b).rest {
      TimesExact(n, c, b);
    }
  }

  lemma U16FramingBack(b: bytes)
    requires GetU16(b).Got?
    ensures GetU16(b).value <= U16_MAX && b == PutU16(GetU16(b).value) + GetU16(b).rest
  {
    U16Exact(b[..2]);
    assert b == b[..2] + b[2..];
  }

  lemma ListExact<A(!new)>(c: Codec<A>)
    requires Exact(c)
    ensures Exact(ListOf(c))
  {
    var p := ListOf(c);
    forall b: bytes | p.get(b).Got? ensures p.ok(p.get(b).value) && b == p.put(p.get(b).value) + p.get(b).rest {
      var n := GetU16(b);
      U16FramingBack(b);
      TimesExact(n.value, c, n.rest);
      var r := Times(n.value, c.get, n.rest);
      assert b == PutU16(n.value) + (PutEach(c.put, r.value) + r.rest);
    }
  }

  /** The whole is exact where its parts can be told from it. */
  lemma WholeExact<A(!new), B(!new)>(c: Codec<A>, whole: A -> Option<B>, parts: B -> A)
    requires Exact(c)
    requires forall x :: c.ok(x) && whole(x).Some? ==> parts(whole(x).value) == x
    ensures Exact(Whole(c, whole, parts))
  {
    var p := Whole(c, whole, parts);
    forall b: bytes | p.get(b).Got? ensures p.ok(p.get(b).value) && b == p.put(p.get(b).value) + p.get(b).rest {
      var x := c.get(b);
      assert c.ok(x.value) && parts(p.get(b).value) == x.value;
    }
  }

  lemma StrExact()
    ensures Exact(Str())
  {
    forall b: bytes | GetStr(b).Got? ensures StrOk(GetStr(b).value) && b == PutStr(GetStr(b).value) + GetStr(b).rest {
      var n := GetU16(b);
      U16FramingBack(b);
      var text := n.rest[..n.value];
      EncodeDecode(text);
      assert n.rest == text + n.rest[n.value..];
      assert b == PutU16(n.value) + text + n.rest[n.value..];
    }
  }

  lemma ByteExact()
    ensures Exact(Byte())
  {
    forall b: bytes | GetByte(b).Got? ensures b == PutByte(GetByte(b).value) + GetByte(b).rest {
      assert b == [b[0]] + b[1..];
    }
  }

  lemma NatExact()
    ensures Exact(U32())
  {
    forall b: bytes | U32().get(b).Got?
      ensures U32().ok(U32().get(b).value) && b == U32().put(U32().get(b).value) + U32().get(b).rest
    {
      U32FramingBack(b);
    }
  }
}
