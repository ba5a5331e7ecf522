/**
 Base64 (section 4 of RFC 4648) the way the webhook writes and reads it. Shifts and masks are
 written as products, quotients and remainders of powers of two.
 */
module Base64 {
  import opened Wrappers
  import opened Text

  const PAD: byte := 61

  function Digit(v: nat): (c: byte)
    requires v < 64
    ensures c != PAD
  {
    if v < 26 then v + 65 else if v < 52 then v + 71 else if v < 62 then v - 4 else if v == 62 then 43 else 47
  }

  /** `b64_val`. */
  function Val(c: byte): (v: Option<nat>)
    ensures v.Some? ==> v.value < 64 && c != PAD
  {
    if 65 <= c <= 90 then Some(c as int - 65)
    else if 97 <= c <= 122 then Some(c as int - 71)
    else if 48 <= c <= 57 then Some(c as int + 4)
    else if c == 43 then Some(62)
    else if c == 47 then Some(63)
    else None
  }

  const UPPER: string := "ABCDEFGHIJKLMNOPQRSTUVWXYZ"
  const LOWER: string := "abcdefghijklmnopqrstuvwxyz"
  const FIGURES: string := "0123456789"

  lemma UpperCase(k: nat)
    requires k < |UPPER|
    ensures |UPPER| == 26 && UPPER[k] as int == 'A' as int + k
  {
  }

  lemma LowerCase(k: nat)
    requires k < |LOWER|
    ensures |LOWER| == 26 && LOWER[k] as int == 'a' as int + k
  {
  }

  lemma Figure(k: nat)
    requires k < |FIGURES|
    ensures |FIGURES| == 10 && FIGURES[k] as int == '0' as int + k
  {
  }

  /** The digits are those of table 1 of RFC 4648, in its order, and the padding is the equals sign. */
  lemma DigitsAreTheAlphabet(v: nat)
    requires v < 64
    ensures v < 26 ==> Digit(v) == UPPER[v] as int
    ensures 26 <= v < 52 ==> Digit(v) == LOWER[v - 26] as int
    ensures 52 <= v < 62 ==> Digit(v) == FIGURES[v - 52] as int
    ensures v >= 62 ==> Digit(v) == "+/"[v - 62] as int
    ensures PAD == '=' as int
  {
    if v < 26 {
      UpperCase(v);
    } else if v < 52 {
      LowerCase(v - 26);
    } else if v < 62 {
      Figure(v - 52);
    }
  }

  lemma DigitVal(v: nat)
    requires v < 64
    ensures Val(Digit(v)) == Some(v)
  {
  }

  lemma ValDigit(c: byte)
    requires Val(c).Some?
    ensures Digit(Val(c).value) == c
  {
  }

  // ---- One group -------------------------------------------------------------------

  function Bits(b0: nat, b1: nat, b2: nat): nat {
    b0 * 65536 + b1 * 256 + b2
  }

  function Sextets(v0: nat, v1: nat, v2: nat, v3: nat): nat {
    v0 * 262144 + v1 * 4096 + v2 * 64 + v3
  }

  /** Four characters for one, two or three bytes. */
  function EncodeGroup(g: seq<byte>): (t: seq<byte>)
    requires 1 <= |g| <= 3
    ensures |t| == 4
  {
    var n := Bits(g[0], if |g| > 1 then g[1] else 0, if |g| > 2 then g[2] else 0);
    [ Digit(n / 262144 % 64), Digit(n / 4096 % 64),
      if |g| > 1 then Digit(n / 64 % 64) else PAD,
      if |g| > 2 then Digit(n % 64) else PAD ]
  }

  /** One to three bytes from four characters; padding only in the last group. */
  function DecodeGroup(t: seq<byte>, last: bool): (r: Result<seq<byte>>)
    requires |t| == 4
    ensures r.Ok? ==> 1 <= |r.value| <= 3 && (!last ==> |r.value| == 3)
  {
    var v0, v1 := Val(t[0]), Val(t[1]);
    if v0.None? || v1.None? then Err(Integrity)
    else if t[2] == PAD then
      if t[3] != PAD || !last then Err(Integrity) else Ok([Sextets(v0.value, v1.value, 0, 0) / 65536])
    else
      var v2 := Val(t[2]);
      if v2.None? then Err(Integrity)
      else if t[3] == PAD then
        if !last then Err(Integrity)
        else var n := Sextets(v0.value, v1.value, v2.value, 0); Ok([n / 65536, n / 256 % 256])
      else
        var v3 := Val(t[3]);
        if v3.None? then Err(Integrity)
        else var n := Sextets(v0.value, v1.value, v2.value, v3.value); Ok([n / 65536, n / 256 % 256, n % 256])
  }

  lemma Scaled(k: int, d: nat)
    requires k >= 1
    ensures k * d >= d
  {
  }

  lemma Distribute(a: int, b: int, d: int)
    ensures (a - b) * d == a * d - b * d
  {
  }

  lemma Quotient(n: nat, d: nat, q: nat, r: nat)
    requires r < d && n == q * d + r
    ensures n / d == q && n % d == r
  {
    var a, b := n / d, n % d;
    assert n == a * d + b;
    if a > q {
      Scaled(a - q, d);
      Distribute(a, q, d);
    } else if a < q {
      Scaled(q - a, d);
      Distribute(q, a, d);
    }
  }

  /** The six-bit digits of three bytes ... */
  lemma SextetsOfBits(b0: byte, b1: byte, b2: byte)
    ensures var n := Bits(b0, b1, b2);
            && n / 262144 % 64 == b0 / 4
            && n / 4096 % 64 == b0 % 4 * 16 + b1 / 16
            && n / 64 % 64 == b1 % 16 * 4 + b2 / 64
            && n % 64 == b2 % 64
  {
    var n: nat := Bits(b0, b1, b2);
    var v0, v1: nat, v2: nat, v3: nat := b0 / 4, b0 % 4 * 16 + b1 / 16, b1 % 16 * 4 + b2 / 64, b2 % 64;
    Quotient(n, 64, v0 * 4096 + v1 * 64 + v2, v3);
    Quotient(n, 4096, v0 * 64 + v1, v2 * 64 + v3);
    Quotient(n, 262144, v0, v1 * 4096 + v2 * 64 + v3);
    Quotient(n / 64, 64, v0 * 64 + v1, v2);
    Quotient(n / 4096, 64, v0, v1);
    Quotient(n / 262144, 64, 0, v0);
  }

  /** ... and the three bytes of four digits. */
  lemma BitsOfSextets(v0: nat, v1: nat, v2: nat, v3: nat)
    requires v0 < 64 && v1 < 64 && v2 < 64 && v3 < 64
    ensures var n := Sextets(v0, v1, v2, v3);
            && n / 65536 == v0 * 4 + v1 / 16
            && n / 256 % 256 == v1 % 16 * 16 + v2 / 4
            && n % 256 == v2 % 4 * 64 + v3
  {
    var n := Sextets(v0, v1, v2, v3);
    var b0, b1, b2 := v0 * 4 + v1 / 16, v1 % 16 * 16 + v2 / 4, v2 % 4 * 64 + v3;
    Quotient(n, 256, b0 * 256 + b1, b2);
    Quotient(n, 65536, b0, b1 * 256 + b2);
    Quotient(n / 256, 256, b0, b1);
  }

  /** Three bytes and four digits hold the same bits. */
  predicate SameBits(b0: nat, b1: nat, b2: nat, v0: nat, v1: nat, v2: nat, v3: nat) {
    && v0 == b0 / 4 && v1 == b0 % 4 * 16 + b1 / 16 && v2 == b1 % 16 * 4 + b2 / 64 && v3 == b2 % 64
  }

  lemma SameBitsBack(b0: byte, b1: byte, b2: byte, v0: nat, v1: nat, v2: nat, v3: nat)
    requires SameBits(b0, b1, b2, v0, v1, v2, v3)
    ensures v0 < 64 && v1 < 64 && v2 < 64 && v3 < 64
    ensures b0 as int == v0 * 4 + v1 / 16 && b1 as int == v1 % 16 * 16 + v2 / 4 && b2 as int == v2 % 4 * 64 + v3
  {
    Quotient(v1, 16, b0 % 4, b1 / 16);
    Quotient(v2, 4, b1 % 16, b2 / 64);
  }

  function Quad(v0: nat, v1: nat, v2: nat, v3: nat, size: nat): (t: seq<byte>)
    requires v0 < 64 && v1 < 64 && v2 < 64 && v3 < 64
    ensures |t| == 4
  {
    [Digit(v0), Digit(v1), if size > 1 then Digit(v2) else PAD, if size > 2 then Digit(v3) else PAD]
  }

  lemma EncodeGroupIs(g: seq<byte>, b0: byte, b1: byte, b2: byte, v0: nat, v1: nat, v2: nat, v3: nat)
    requires 1 <= |g| <= 3 && g[0] == b0
    requires b1 == (if |g| > 1 then g[1] else 0) && b2 == (if |g| > 2 then g[2] else 0)
    requires SameBits(b0, b1, b2, v0, v1, v2, v3) && v0 < 64 && v1 < 64 && v2 < 64 && v3 < 64
    ensures EncodeGroup(g) == Quad(v0, v1, v2, v3, |g|)
  {
    SextetsOfBits(b0, b1, b2);
  }

  lemma DecodeTextIs(b0: byte, b1: byte, b2: byte, v0: nat, v1: nat, v2: nat, v3: nat, size: nat, last: bool)
    requires v0 < 64 && v1 < 64 && v2 < 64 && v3 < 64 && 1 <= size <= 3 && (size < 3 ==> last)
    requires b0 as int == v0 * 4 + v1 / 16 && b1 as int == v1 % 16 * 16 + v2 / 4 && b2 as int == v2 % 4 * 64 + v3
    requires (size < 2 ==> v2 == 0) && (size < 3 ==> v3 == 0)
    ensures DecodeGroup(Quad(v0, v1, v2, v3, size), last) == Ok([b0, b1, b2][..size])
  {
    DigitVal(v0);
    DigitVal(v1);
    DigitVal(v2);
    DigitVal(v3);
    BitsOfSextets(v0, v1, v2, v3);
    if size == 1 {
      assert [b0, b1, b2][..1] == [b0];
    } else if size == 2 {
      assert [b0, b1, b2][..2] == [b0, b1];
    } else {
      assert [b0, b1, b2][..3] == [b0, b1, b2];
    }
  }

  lemma GroupRoundTrip(g: seq<byte>, last: bool)
    requires 1 <= |g| <= 3 && (|g| < 3 ==> last)
    ensures DecodeGroup(EncodeGroup(g), last) == Ok(g)
  {
    var b0, b1, b2 := g[0], if |g| > 1 then g[1] else 0, if |g| > 2 then g[2] else 0;
    var v0: nat, v1: nat, v2: nat, v3: nat := b0 / 4, b0 % 4 * 16 + b1 / 16, b1 % 16 * 4 + b2 / 64, b2 % 64;
    SameBitsBack(b0, b1, b2, v0, v1, v2, v3);
    EncodeGroupIs(g, b0, b1, b2, v0, v1, v2, v3);
    DecodeTextIs(b0, b1, b2, v0, v1, v2, v3, |g|, last);
    assert [b0, b1, b2][..|g|] == g;
  }

  /** The bits of a padded group that no byte is made of (section 3.5 of RFC 4648). */
  predicate SpareBitsZero(t: seq<byte>)
    requires |t| == 4
  {
    && (t[2] == PAD && Val(t[1]).Some? ==> Val(t[1]).value % 16 == 0)
    && (t[2] != PAD && t[3] == PAD && Val(t[2]).Some? ==> Val(t[2]).value % 4 == 0)
  }

  lemma DigitsOfBytes(b0: nat, b1: nat, b2: nat, v0: nat, v1: nat, v2: nat, v3: nat)
    requires v0 < 64 && v1 < 64 && v2 < 64 && v3 < 64
    requires b0 == v0 * 4 + v1 / 16 && b1 == v1 % 16 * 16 + v2 / 4 && b2 == v2 % 4 * 64 + v3
    ensures b0 < 256 && b1 < 256 && b2 < 256
    ensures b0 / 4 == v0 && b0 % 4 == v1 / 16 && b1 / 16 == v1 % 16 && b1 % 16 == v2 / 4 && b2 / 64 == v2 % 4 && b2 % 64 == v3
  {
    Quotient(b0, 4, v0, v1 / 16);
    Quotient(b1, 16, v1 % 16, v2 / 4);
    Quotient(b2, 64, v2 % 4, v3);
  }

  lemma OneByteCanonical(v0: nat, v1: nat)
    requires v0 < 64 && v1 < 64
    ensures DecodeGroup(Quad(v0, v1, 0, 0, 1), true).Ok?
    ensures EncodeGroup(DecodeGroup(Quad(v0, v1, 0, 0, 1), true).value) == Quad(v0, v1, 0, 0, 1) <==> v1 % 16 == 0
  {
    var b0, b1 := v0 * 4 + v1 / 16, v1 % 16 * 16;
    DigitsOfBytes(b0, b1, 0, v0, v1, 0, 0);
    DecodeTextIs(b0, b1, 0, v0, v1, 0, 0, 1, true);
    var w := v1 / 16 * 16;
    EncodeGroupIs([b0, b1, 0][..1], b0, 0, 0, v0, w, 0, 0);
    DigitVal(v1);
    DigitVal(w);
    assert w == v1 <==> v1 % 16 == 0;
  }

  lemma TwoBytesCanonical(v0: nat, v1: nat, v2: nat)
    requires v0 < 64 && v1 < 64 && v2 < 64
    ensures DecodeGroup(Quad(v0, v1, v2, 0, 2), true).Ok?
    ensures EncodeGroup(DecodeGroup(Quad(v0, v1, v2, 0, 2), true).value) == Quad(v0, v1, v2, 0, 2) <==> v2 % 4 == 0
  {
    var b0, b1, b2 := v0 * 4 + v1 / 16, v1 % 16 * 16 + v2 / 4, v2 % 4 * 64;
    DigitsOfBytes(b0, b1, b2, v0, v1, v2, 0);
    DecodeTextIs(b0, b1, b2, v0, v1, v2, 0, 2, true);
    var w := v2 / 4 * 4;
    EncodeGroupIs([b0, b1, b2][..2], b0, b1, 0, v0, v1, w, 0);
    DigitVal(v2);
    DigitVal(w);
    assert w == v2 <==> v2 % 4 == 0;
  }

  lemma ThreeBytesCanonical(v0: nat, v1: nat, v2: nat, v3: nat, last: bool)
    requires v0 < 64 && v1 < 64 && v2 < 64 && v3 < 64
    ensures DecodeGroup(Quad(v0, v1, v2, v3, 3), last).Ok?
    ensures EncodeGroup(DecodeGroup(Quad(v0, v1, v2, v3, 3), last).value) == Quad(v0, v1, v2, v3, 3)
  {
    var b0, b1, b2 := v0 * 4 + v1 / 16, v1 % 16 * 16 + v2 / 4, v2 % 4 * 64 + v3;
    DigitsOfBytes(b0, b1, b2, v0, v1, v2, v3);
    DecodeTextIs(b0, b1, b2, v0, v1, v2, v3, 3, last);
    EncodeGroupIs([b0, b1, b2][..3], b0, b1, b2, v0, v1, v2, v3);
  }

  /** Re-encoding a group gives it back exactly when it wasted no bits. */
  lemma GroupCanonical(t: seq<byte>, last: bool)
    requires |t| == 4 && DecodeGroup(t, last).Ok?
    ensures EncodeGroup(DecodeGroup(t, last).value) == t <==> SpareBitsZero(t)
  {
    var v0, v1 := Val(t[0]).value, Val(t[1]).value;
    ValDigit(t[0]);
    ValDigit(t[1]);
    if t[2] == PAD {
      assert t == Quad(v0, v1, 0, 0, 1);
      OneByteCanonical(v0, v1);
    } else {
      ValDigit(t[2]);
      var v2 := Val(t[2]).value;
      if t[3] == PAD {
        assert t == Quad(v0, v1, v2, 0, 2);
        TwoBytesCanonical(v0, v1, v2);
      } else {
        ValDigit(t[3]);
        assert t == Quad(v0, v1, v2, Val(t[3]).value, 3);
        ThreeBytesCanonical(v0, v1, v2, Val(t[3]).value, last);
      }
    }
  }

  // ---- Whole sequences -------------------------------------------------------------

  /** A group at a time, whatever a group's code is. */
  function EncodeBy(f: seq<byte> -> seq<byte>, data: seq<byte>): seq<byte>
    decreases |data|
  {
    if data == [] then []
    else if |data| <= 3 then f(data)
    else f(data[..3]) + EncodeBy(f, data[3..])
  }

  function DecodeBy(d: (seq<byte>, bool) -> Result<seq<byte>>, t: seq<byte>): Result<seq<byte>>
    decreases |t|
  {
    if t == [] then Ok([])
    else if |t| < 4 then Err(Integrity)
    else
      var g :- d(t[..4], |t| == 4);
      var rest :- DecodeBy(d, t[4..]);
      Ok(g + rest)
  }

  ghost predicate Inverse(f: seq<byte> -> seq<byte>, d: (seq<byte>, bool) -> Result<seq<byte>>) {
    forall g :: 1 <= |g| <= 3 ==>
      |f(g)| == 4 && d(f(g), true) == Ok(g) && (|g| == 3 ==> d(f(g), false) == Ok(g))
  }

  lemma {:induction false} RoundTripBy(f: seq<byte> -> seq<byte>, d: (seq<byte>, bool) -> Result<seq<byte>>, data: seq<byte>)
    requires Inverse(f, d)
    ensures DecodeBy(d, EncodeBy(f, data)) == Ok(data) && (data != [] ==> EncodeBy(f, data) != [])
    decreases |data|
  {
    if data != [] {
      var k := if |data| <= 3 then |data| else 3;
      var g, rest := data[..k], data[k..];
      RoundTripBy(f, d, rest);
      var t, tail := f(g), EncodeBy(f, rest);
      assert |data| <= 3 ==> g == data && rest == [];
      assert EncodeBy(f, data) == t + tail;
      assert (t + tail)[..4] == t && (t + tail)[4..] == tail;
      assert g + rest == data;
    }
  }

  /** `spare(t)` says exactly when re-encoding a group gives it back; only a last group can fail. */
  ghost predicate CanonicalBy(f: seq<byte> -> seq<byte>, d: (seq<byte>, bool) -> Result<seq<byte>>, spare: seq<byte> -> bool) {
    forall t, last :: |t| == 4 && d(t, last).Ok? ==>
      var g := d(t, last).value;
      1 <= |g| <= 3 && |f(g)| == 4 && (f(g) == t <==> spare(t)) && (!last ==> |g| == 3 && spare(t))
  }

  predicate LastGroup(spare: seq<byte> -> bool, t: seq<byte>) {
    |t| >= 4 ==> spare(t[|t| - 4..])
  }

  lemma SplitEqual(a: seq<byte>, b: seq<byte>, c: seq<byte>, d: seq<byte>)
    requires |a| == |c|
    ensures a + b == c + d <==> a == c && b == d
  {
    if a + b == c + d {
      assert a == (a + b)[..|a|] && b == (a + b)[|a|..];
      assert c == (c + d)[..|c|] && d == (c + d)[|c|..];
    }
  }

  lemma {:induction false} ReencodeBy(f: seq<byte> -> seq<byte>, d: (seq<byte>, bool) -> Result<seq<byte>>,
                                      spare: seq<byte> -> bool, t: seq<byte>)
    requires CanonicalBy(f, d, spare) && DecodeBy(d, t).Ok?
    ensures EncodeBy(f, DecodeBy(d, t).value) == t <==> LastGroup(spare, t)
    ensures t != [] ==> DecodeBy(d, t).value != []
    decreases |t|
  {
    if t != [] {
      var head, tail := t[..4], t[4..];
      var g, rest := d(head, |t| == 4).value, DecodeBy(d, tail).value;
      ReencodeBy(f, d, spare, tail);
      assert t == head + tail;
      if tail == [] {
        assert g + rest == g && t[|t| - 4..] == head;
      } else {
        assert t[|t| - 4..] == tail[|tail| - 4..];
        assert (g + rest)[..3] == g && (g + rest)[3..] == rest;
        SplitEqual(f(g), EncodeBy(f, rest), head, tail);
      }
    }
  }

  // ---- The two functions -----------------------------------------------------------

  function GroupCode(): seq<byte> -> seq<byte> {
    g => if 1 <= |g| <= 3 then EncodeGroup(g) else []
  }

  function GroupDecode(): (seq<byte>, bool) -> Result<seq<byte>> {
    (t, last) => if |t| == 4 then DecodeGroup(t, last) else Err(Integrity)
  }

  function GroupSpare(): seq<byte> -> bool {
    t => |t| == 4 && SpareBitsZero(t)
  }

  lemma GroupsInverse()
    ensures Inverse(GroupCode(), GroupDecode())
  {
    forall g: seq<byte> | 1 <= |g| <= 3
      ensures |GroupCode()(g)| == 4 && GroupDecode()(GroupCode()(g), true) == Ok(g)
      ensures |g| == 3 ==> GroupDecode()(GroupCode()(g), false) == Ok(g)
    {
      GroupRoundTrip(g, true);
      if |g| == 3 {
        GroupRoundTrip(g, false);
      }
    }
  }

  lemma GroupsCanonical()
    ensures CanonicalBy(GroupCode(), GroupDecode(), GroupSpare())
  {
    forall t: seq<byte>, last | |t| == 4 && GroupDecode()(t, last).Ok?
      ensures var g := GroupDecode()(t, last).value;
              1 <= |g| <= 3 && |GroupCode()(g)| == 4 && (GroupCode()(g) == t <==> GroupSpare()(t)) &&
              (!last ==> |g| == 3 && GroupSpare()(t))
    {
      GroupCanonical(t, last);
    }
  }

  function EncodeAll(data: seq<byte>): seq<byte> {
    EncodeBy(GroupCode(), data)
  }

  function DecodeAll(t: seq<byte>): Result<seq<byte>> {
    DecodeBy(GroupDecode(), t)
  }

  lemma StepEncode(f: seq<byte> -> seq<byte>, data: seq<byte>, i: nat)
    requires i < |data|
    ensures var end := if i + 3 < |data| then i + 3 else |data|;
            EncodeBy(f, data[i..]) == f(data[i..end]) + EncodeBy(f, data[end..])
  {
    if i + 3 < |data| {
      assert data[i..][..3] == data[i..i + 3] && data[i..][3..] == data[i + 3..];
    } else {
      assert data[i..|data|] == data[i..];
    }
  }

  method EncodeGroups(f: seq<byte> -> seq<byte>, data: seq<byte>) returns (out: seq<byte>)
    ensures out == EncodeBy(f, data)
  {
    out := [];
    var i := 0;
    assert data[0..] == data;
    while i < |data|
      invariant 0 <= i <= |data|
      invariant out + EncodeBy(f, data[i..]) == EncodeBy(f, data)
    {
      StepEncode(f, data, i);
      var end := if i + 3 < |data| then i + 3 else |data|;
      out := out + f(data[i..end]);
      i := end;
    }
  }

  function Chain(g: seq<byte>, rest: Result<seq<byte>>): Result<seq<byte>> {
    match rest case Err(e) => Err(e) case Ok(more) => Ok(g + more)
  }

  lemma ChainLaws(a: seq<byte>, b: seq<byte>, r: Result<seq<byte>>)
    ensures Chain([], r) == r && Chain(a, Chain(b, r)) == Chain(a + b, r)
  {
    if r.Ok? {
      assert [] + r.value == r.value && a + (b + r.value) == a + b + r.value;
    }
  }

  lemma StepDecode(d: (seq<byte>, bool) -> Result<seq<byte>>, t: seq<byte>, i: nat)
    requires i + 4 <= |t|
    ensures DecodeBy(d, t[i..]) ==
            match d(t[i..i + 4], i + 4 == |t|)
            case Err(e) => Err(e)
            case Ok(g) => Chain(g, DecodeBy(d, t[i + 4..]))
  {
    assert t[i..][..4] == t[i..i + 4] && t[i..][4..] == t[i + 4..];
  }

  /** Four at a time: the length has been checked, so no index is out of range. */
  method DecodeGroups(d: (seq<byte>, bool) -> Result<seq<byte>>, t: seq<byte>) returns (r: Result<seq<byte>>)
    requires |t| % 4 == 0
    ensures r == DecodeBy(d, t)
  {
    var out: seq<byte> := [];
    var i := 0;
    assert t[0..] == t;
    ChainLaws([], [], DecodeBy(d, t));
    while i < |t|
      invariant 0 <= i <= |t| && i % 4 == 0
      invariant DecodeBy(d, t) == Chain(out, DecodeBy(d, t[i..]))
    {
      StepDecode(d, t, i);
      var g := d(t[i..i + 4], i + 4 == |t|);
      if g.Err? {
        return Err(g.error);
      }
      ChainLaws(out, g.value, DecodeBy(d, t[i + 4..]));
      out := out + g.value;
      i := i + 4;
    }
    assert out + [] == out;
    return Ok(out);
  }

  predicate IsAscii(t: seq<byte>) {
    forall i :: 0 <= i < |t| ==> t[i] < 128
  }

  function Chars(t: seq<byte>): string {
    seq(|t|, i requires 0 <= i < |t| => if t[i] < 128 then t[i] as char else '?')
  }

  /** `b64_encode`. */
  method B64Encode(data: seq<byte>) returns (s: string)
    ensures s == Chars(EncodeAll(data))
  {
    var t := EncodeGroups(GroupCode(), data);
    s := Chars(t);
  }

  function Decode64(s: string): Result<seq<byte>> {
    var t := Encode(Trim(s));
    if |t| % 4 != 0 then Err(Integrity) else DecodeAll(t)
  }

  /** `b64_decode`. */
  method B64Decode(s: string) returns (r: Result<seq<byte>>)
    ensures r == Decode64(s)
  {
    var t := Encode(Trim(s));
    if t == [] {
      return Ok([]);
    }
    if |t| % 4 != 0 {
      return Err(Integrity);
    }
    r := DecodeGroups(GroupDecode(), t);
  }

  // ---- What they promise -----------------------------------------------------------

  lemma {:induction false} EncodeAscii(t: seq<byte>)
    requires IsAscii(t)
    ensures Encode(Chars(t)) == t
  {
    if t != [] {
      EncodeAscii(t[1..]);
      assert Chars(t)[1..] == Chars(t[1..]);
      assert EncodeChar(Chars(t)[0]) == [t[0]];
      assert [t[0]] + t[1..] == t;
    }
  }

  /** Neither white space nor anything outside ASCII. */
  predicate Printable(t: seq<byte>) {
    forall i :: 0 <= i < |t| ==> 43 <= t[i] <= 122
  }

  ghost predicate Fours(f: seq<byte> -> seq<byte>) {
    forall g :: 1 <= |g| <= 3 ==> |f(g)| == 4 && Printable(f(g))
  }

  lemma {:induction false} EncodedBy(f: seq<byte> -> seq<byte>, data: seq<byte>)
    requires Fours(f)
    ensures |EncodeBy(f, data)| % 4 == 0 && Printable(EncodeBy(f, data))
    decreases |data|
  {
    if |data| > 3 {
      EncodedBy(f, data[3..]);
    }
  }

  lemma GroupsPrintable()
    ensures Fours(GroupCode())
  {
    forall g: seq<byte> | 1 <= |g| <= 3 ensures |GroupCode()(g)| == 4 && Printable(GroupCode()(g)) {
      DigitsPrintable(EncodeGroup(g), g);
    }
  }

  lemma DigitsPrintable(t: seq<byte>, g: seq<byte>)
    requires 1 <= |g| <= 3 && t == EncodeGroup(g)
    ensures Printable(t)
  {
  }

  lemma PrintableTrims(t: seq<byte>)
    requires Printable(t)
    ensures Trim(Chars(t)) == Chars(t)
  {
    TrimOfBare(Chars(t));
  }

  /** Decoding inverts encoding, for every byte sequence. */
  lemma RoundTrip(data: seq<byte>)
    ensures Decode64(Chars(EncodeAll(data))) == Ok(data)
  {
    GroupsPrintable();
    EncodedBy(GroupCode(), data);
    PrintableTrims(EncodeAll(data));
    EncodeAscii(EncodeAll(data));
    GroupsInverse();
    RoundTripBy(GroupCode(), GroupDecode(), data);
  }

  /** Re-encoding what was decoded gives the text back exactly when the last group wastes no bits. */
  lemma Canonical(s: string)
    requires Trim(s) == s && Decode64(s).Ok?
    ensures Chars(EncodeAll(Decode64(s).value)) == s <==> LastGroup(GroupSpare(), Encode(s))
  {
    var t, data := Encode(s), Decode64(s).value;
    var x := EncodeAll(data);
    GroupsCanonical();
    ReencodeBy(GroupCode(), GroupDecode(), GroupSpare(), t);
    GroupsPrintable();
    EncodedBy(GroupCode(), data);
    EncodeAscii(x);
    if x == t {
      DecodeEncode(s);
      DecodeEncode(Chars(x));
    }
  }
}
