/**
 The cursor over a compiled program: the decode functions as they run, advancing a position
 and pushing into lists. Each agrees with its codec on the bytes not yet read.
 */
module FadmReader {
  import opened Wrappers
  import opened Text
  import opened Policy
  import opened Wire
  import opened Parsers
  import opened Fadm

  /** A read answered what the parser says of the bytes that were left, and left what it leaves. */
  ghost predicate Agrees<T>(t: Option<T>, r: Reader, spec: Read<T>)
    reads r
  {
    && r.Valid()
    && match spec
       case Got(value, rest) => t == Some(value) && r.Rest() == rest
       case Short => t.None?
  }

  // ---- Single values ---------------------------------------------------------------

  method ReadCoded<T(0)>(r: Reader, f: byte -> Option<T>) returns (t: Option<T>)
    requires r.Valid()
    modifies r`pos
    ensures Agrees(t, r, As(GetByte, f)(old(r.Rest())))
  {
    ghost var left := r.Rest();
    var b := r.Next(1);
    assert GetByte(left) == if |left| == 0 then Short else Got(left[..1][0], left[1..]);
    if b.None? {
      return None;
    }
    t := f(b.value[0]);
  }

  method ReadU16(r: Reader) returns (t: Option<nat>)
    requires r.Valid()
    modifies r`pos
    ensures Agrees(t, r, GetU16(old(r.Rest())))
  {
    var b := r.Next(2);
    if b.None? {
      return None;
    }
    t := Some(U16Of(b.value));
  }

  method ReadI32(r: Reader) returns (t: Option<int>)
    requires r.Valid()
    modifies r`pos
    ensures Agrees(t, r, As(GetU32, Signed)(old(r.Rest())))
  {
    var n := r.NextU32();
    if n.None? {
      return None;
    }
    t := Signed(n.value);
  }

  method ReadStr(r: Reader) returns (t: Option<string>)
    requires r.Valid()
    modifies r`pos
    ensures Agrees(t, r, GetStr(old(r.Rest())))
  {
    var n := ReadU16(r);
    if n.None? {
      return None;
    }
    var text := r.Next(n.value);
    if text.None? {
      return None;
    }
    t := Decode(text.value);
  }

  // ---- Counted loops ---------------------------------------------------------------

  /** A loop that holds `xs` reads one more ... */
  lemma {:induction false} Went<A>(i: nat, p: bytes -> Read<A>, start: bytes, xs: seq<A>, b: bytes, x: A, rest: bytes)
    requires Times(i, p, start) == Got(xs, b) && p(b) == Got(x, rest)
    ensures Times(i + 1, p, start) == Got(xs + [x], rest)
  {
    if i == 0 {
      assert start == b && xs == [];
      assert Times(0, p, rest) == Got([], rest);
      assert Times(1, p, start) == Got([x] + [], rest);
      assert [x] + [] == xs + [x];
    } else {
      var y, after := p(start).value, p(start).rest;
      var ys := Times(i - 1, p, after).value;
      assert xs == [y] + ys;
      Went(i - 1, p, after, ys, b, x, rest);
      assert Times(i, p, after) == Got(ys + [x], rest);
      assert xs + [x] == [y] + (ys + [x]);
    }
  }

  /** ... or stops, and then the whole list cannot be read. */
  lemma {:induction false} Stopped<A>(i: nat, n: nat, p: bytes -> Read<A>, start: bytes, xs: seq<A>, b: bytes)
    requires Times(i, p, start) == Got(xs, b) && p(b) == Short && i < n
    ensures Times(n, p, start) == Short
  {
    if i > 0 {
      Stopped(i - 1, n - 1, p, p(start).rest, Times(i - 1, p, p(start).rest).value, b);
    }
  }

  method ReadFlags(r: Reader, n: nat) returns (t: Option<seq<bool>>)
    requires r.Valid()
    modifies r`pos
    ensures Agrees(t, r, Times(n, As(GetByte, BoolOf), old(r.Rest())))
  {
    ghost var p, start := As(GetByte, BoolOf), r.Rest();
    var out: seq<bool> := [];
    var i := 0;
    while i < n
      invariant 0 <= i <= n && r.Valid()
      invariant Times(i, p, start) == Got(out, r.Rest())
    {
      ghost var left := r.Rest();
      var x := ReadCoded(r, BoolOf);
      if x.None? {
        Stopped(i, n, p, start, out, left);
        return None;
      }
      Went(i, p, start, out, left, x.value, r.Rest());
      out, i := out + [x.value], i + 1;
    }
    return Some(out);
  }

  /** `str_list`. */
  method ReadStrs(r: Reader) returns (t: Option<seq<string>>)
    requires r.Valid()
    modifies r`pos
    ensures Agrees(t, r, Counted(GetStr)(old(r.Rest())))
  {
    var n := ReadU16(r);
    if n.None? {
      return None;
    }
    ghost var start := r.Rest();
    var out: seq<string> := [];
    var i := 0;
    while i < n.value
      invariant 0 <= i <= n.value && r.Valid()
      invariant Times(i, GetStr, start) == Got(out, r.Rest())
    {
      ghost var left := r.Rest();
      var x := ReadStr(r);
      if x.None? {
        Stopped(i, n.value, GetStr, start, out, left);
        return None;
      }
      Went(i, GetStr, start, out, left, x.value, r.Rest());
      out, i := out + [x.value], i + 1;
    }
    return Some(out);
  }

  // ---- decode_supply ---------------------------------------------------------------

  /** Three parsers one after the other. */
  function Three<A, B, C, D>(p: bytes -> Read<A>, q: bytes -> Read<B>, s: bytes -> Read<C>,
                             f: ((A, (B, C))) -> Option<D>, b: bytes): Read<D> {
    match p(b)
    case Short => Short
    case Got(x, b) =>
      match q(b)
      case Short => Short
      case Got(y, b) =>
        match s(b)
        case Short => Short
        case Got(z, b) => match f((x, (y, z))) case None => Short case Some(d) => Got(d, b)
  }

  lemma ThreeIs<A, B, C, D>(c: Codec<A>, d: Codec<B>, e: Codec<C>, f: ((A, (B, C))) -> Option<D>, parts: D -> (A, (B, C)), b: bytes)
    ensures Whole(Pair(c, Pair(d, e)), f, parts).get(b) == Three(c.get, d.get, e.get, f, b)
  {
  }

  method ReadRoot(r: Reader) returns (t: Option<TrustRoot>)
    requires r.Valid()
    modifies r`pos
    ensures Agrees(t, r, RootCodec().get(old(r.Rest())))
  {
    ThreeIs(Str(), Strs(), Strs(), RootOf, PartsOfRoot, r.Rest());
    var name := ReadStr(r);
    if name.None? {
      return None;
    }
    var issuers := ReadStrs(r);
    if issuers.None? {
      return None;
    }
    var keys := ReadStrs(r);
    if keys.None? {
      return None;
    }
    return Some(TrustRoot(name.value, issuers.value, keys.value));
  }

  method ReadRoots(r: Reader) returns (t: Option<seq<TrustRoot>>)
    requires r.Valid()
    modifies r`pos
    ensures Agrees(t, r, Counted(RootCodec().get)(old(r.Rest())))
  {
    var n := ReadU16(r);
    if n.None? {
      return None;
    }
    ghost var p, start := RootCodec().get, r.Rest();
    var out: seq<TrustRoot> := [];
    var i := 0;
    while i < n.value
      invariant 0 <= i <= n.value && r.Valid()
      invariant Times(i, p, start) == Got(out, r.Rest())
    {
      ghost var left := r.Rest();
      var x := ReadRoot(r);
      if x.None? {
        Stopped(i, n.value, p, start, out, left);
        return None;
      }
      Went(i, p, start, out, left, x.value, r.Rest());
      out, i := out + [x.value], i + 1;
    }
    return Some(out);
  }

  /** Two parsers one after the other. */
  function Two<A, B, D>(p: bytes -> Read<A>, q: bytes -> Read<B>, f: ((A, B)) -> Option<D>, b: bytes): Read<D> {
    match p(b)
    case Short => Short
    case Got(x, b) =>
      match q(b)
      case Short => Short
      case Got(y, b) => match f((x, y)) case None => Short case Some(d) => Got(d, b)
  }

  lemma TwoIs<A, B, D>(c: Codec<A>, d: Codec<B>, f: ((A, B)) -> Option<D>, parts: D -> (A, B), b: bytes)
    ensures Whole(Pair(c, d), f, parts).get(b) == Two(c.get, d.get, f, b)
  {
  }

  method DecodeSupply(r: Reader) returns (t: Option<SupplySpec>)
    requires r.Valid()
    modifies r`pos
    ensures Agrees(t, r, SupplyCodec().get(old(r.Rest())))
  {
    TwoIs(Flags(3), ListOf(RootCodec()), SupplyOf, PartsOfSupply, r.Rest());
    var flags := ReadFlags(r, 3);
    if flags.None? {
      return None;
    }
    var roots := ReadRoots(r);
    if roots.None? {
      return None;
    }
    t := SupplyOf((flags.value, roots.value));
  }

  // ---- decode_deny, decode_mutate --------------------------------------------------

  method DecodeDeny(r: Reader) returns (t: Option<AdmitDeny>)
    requires r.Valid()
    modifies r`pos
    ensures Agrees(t, r, DenyCodec().get(old(r.Rest())))
  {
    TwoIs(Flags(9), Strs(), DenyOf, PartsOfDeny, r.Rest());
    var flags := ReadFlags(r, 9);
    if flags.None? {
      return None;
    }
    var caps := ReadStrs(r);
    if caps.None? {
      return None;
    }
    t := DenyOf((flags.value, caps.value));
  }

  method DecodeMutate(r: Reader) returns (t: Option<AdmitMutate>)
    requires r.Valid()
    modifies r`pos
    ensures Agrees(t, r, MutateCodec().get(old(r.Rest())))
  {
    var flags := ReadFlags(r, 3);
    if flags.None? {
      return None;
    }
    t := MutateOf(flags.value);
  }

  // ---- decode_label_selector -------------------------------------------------------

  method ReadRequirement(r: Reader) returns (t: Option<Requirement>)
    requires r.Valid()
    modifies r`pos
    ensures Agrees(t, r, RequirementCodec().get(old(r.Rest())))
  {
    ThreeIs(Str(), Str(), Strs(), RequirementOf, PartsOfRequirement, r.Rest());
    var key := ReadStr(r);
    if key.None? {
      return None;
    }
    var operator := ReadStr(r);
    if operator.None? {
      return None;
    }
    var values := ReadStrs(r);
    if values.None? {
      return None;
    }
    return Some(Requirement(key.value, operator.value, values.value));
  }

  method ReadRequirements(r: Reader) returns (t: Option<seq<Requirement>>)
    requires r.Valid()
    modifies r`pos
    ensures Agrees(t, r, Counted(RequirementCodec().get)(old(r.Rest())))
  {
    var n := ReadU16(r);
    if n.None? {
      return None;
    }
    ghost var p, start := RequirementCodec().get, r.Rest();
    var out: seq<Requirement> := [];
    var i := 0;
    while i < n.value
      invariant 0 <= i <= n.value && r.Valid()
      invariant Times(i, p, start) == Got(out, r.Rest())
    {
      ghost var left := r.Rest();
      var x := ReadRequirement(r);
      if x.None? {
        Stopped(i, n.value, p, start, out, left);
        return None;
      }
      Went(i, p, start, out, left, x.value, r.Rest());
      out, i := out + [x.value], i + 1;
    }
    return Some(out);
  }

  method ReadLabel(r: Reader) returns (t: Option<(string, string)>)
    requires r.Valid()
    modifies r`pos
    ensures Agrees(t, r, Pair(Str(), Str()).get(old(r.Rest())))
  {
    var key := ReadStr(r);
    if key.None? {
      return None;
    }
    var value := ReadStr(r);
    if value.None? {
      return None;
    }
    return Some((key.value, value.value));
  }

  method Insert(m: Labels, x: (string, string), ghost pairs: seq<(string, string)>) returns (out: Labels)
    requires m == MapOf(pairs)
    ensures out == MapOf(pairs + [x])
  {
    out := m[x.0 := x.1];
    assert (pairs + [x])[..|pairs|] == pairs;
  }

  /** The labels, inserted into a map as they are read. */
  method ReadLabels(r: Reader) returns (t: Option<Labels>, ghost pairs: seq<(string, string)>)
    requires r.Valid()
    modifies r`pos
    ensures Agrees(if t.Some? then Some(pairs) else None, r, Counted(Pair(Str(), Str()).get)(old(r.Rest())))
    ensures t.Some? ==> t.value == MapOf(pairs)
  {
    pairs := [];
    var n := ReadU16(r);
    if n.None? {
      return None, [];
    }
    ghost var p, start := Pair(Str(), Str()).get, r.Rest();
    var m: Labels := map[];
    var i := 0;
    while i < n.value
      invariant 0 <= i <= n.value && r.Valid() && m == MapOf(pairs)
      invariant Times(i, p, start) == Got(pairs, r.Rest())
    {
      ghost var left := r.Rest();
      var x := ReadLabel(r);
      if x.None? {
        Stopped(i, n.value, p, start, pairs, left);
        return None, [];
      }
      Went(i, p, start, pairs, left, x.value, r.Rest());
      m := Insert(m, x.value, pairs);
      pairs, i := pairs + [x.value], i + 1;
    }
    t := Some(m);
  }

  method DecodeLabelSelector(r: Reader) returns (t: Option<LabelSelector>, ghost w: Written)
    requires r.Valid()
    modifies r`pos
    ensures Agrees(if t.Some? then Some(w) else None, r, WrittenCodec().get(old(r.Rest())))
    ensures t.Some? ==> t.value == SelectorOf(w)
  {
    w := ([], []);
    var labels, pairs := ReadLabels(r);
    if labels.None? {
      return None, w;
    }
    var expressions := ReadRequirements(r);
    if expressions.None? {
      return None, w;
    }
    return Some(LabelSelector(labels.value, expressions.value)), (pairs, expressions.value);
  }

  // ---- decode_selector -------------------------------------------------------------

  /** Four of one kind, then two more. */
  function FourAndTwo<W, B, C, D>(w: bytes -> Read<W>, p: bytes -> Read<B>, q: bytes -> Read<C>,
                                  f: ((((W, W), (W, W)), (B, C))) -> Option<D>, b: bytes): Read<D>
  {
    match w(b)
    case Short => Short
    case Got(w0, b) =>
      match w(b)
      case Short => Short
      case Got(w1, b) =>
        match w(b)
        case Short => Short
        case Got(w2, b) =>
          match w(b)
          case Short => Short
          case Got(w3, b) =>
            match p(b)
            case Short => Short
            case Got(x, b) =>
              match q(b)
              case Short => Short
              case Got(y, b) => match f((((w0, w1), (w2, w3)), (x, y))) case None => Short case Some(d) => Got(d, b)
  }

  lemma FourAndTwoIs<W, B, C, D>(w: Codec<W>, c: Codec<B>, d: Codec<C>, f: ((((W, W), (W, W)), (B, C))) -> Option<D>,
                                 parts: D -> (((W, W), (W, W)), (B, C)), b: bytes)
    ensures Whole(Pair(Pair(Pair(w, w), Pair(w, w)), Pair(c, d)), f, parts).get(b) == FourAndTwo(w.get, c.get, d.get, f, b)
  {
  }

  method DecodeSelector(r: Reader) returns (t: Option<PolicySelector>, ghost s: Scope)
    requires r.Valid()
    modifies r`pos
    ensures Agrees(if t.Some? then Some(s) else None, r, ScopeCodec().get(old(r.Rest())))
    ensures t.Some? ==> t.value == SelectorsOf(s)
  {
    FourAndTwoIs(WrittenCodec(), Strs(), Bool(), ScopeOf, PartsOfScope, r.Rest());
    s := Scope(([], []), ([], []), ([], []), ([], []), ImageSelector([], false));
    var cluster, w0 := DecodeLabelSelector(r);
    if cluster.None? {
      return None, s;
    }
    var namespace, w1 := DecodeLabelSelector(r);
    if namespace.None? {
      return None, s;
    }
    var workload, w2 := DecodeLabelSelector(r);
    if workload.None? {
      return None, s;
    }
    var account, w3 := DecodeLabelSelector(r);
    if account.None? {
      return None, s;
    }
    var registries := ReadStrs(r);
    if registries.None? {
      return None, s;
    }
    var digest := ReadCoded(r, BoolOf);
    if digest.None? {
      return None, s;
    }
    var image := ImageSelector(registries.value, digest.value);
    s := Scope(w0, w1, w2, w3, image);
    t := Some(PolicySelector(cluster.value, namespace.value, workload.value, account.value, image));
  }

  // ---- parse_program ---------------------------------------------------------------

  /** Five in a row, grouped as the header groups them ... */
  function FiveHead<A, B, C, D, E, F>(p: bytes -> Read<A>, q: bytes -> Read<B>, s: bytes -> Read<C>,
                                      t: bytes -> Read<D>, u: bytes -> Read<E>,
                                      f: (((A, B), (C, (D, E)))) -> Option<F>, b: bytes): Read<F>
  {
    match p(b)
    case Short => Short
    case Got(v, b) =>
      match q(b)
      case Short => Short
      case Got(w, b) =>
        match s(b)
        case Short => Short
        case Got(x, b) =>
          match t(b)
          case Short => Short
          case Got(y, b) =>
            match u(b)
            case Short => Short
            case Got(z, b) => match f(((v, w), (x, (y, z)))) case None => Short case Some(d) => Got(d, b)
  }

  lemma FiveHeadIs<A, B, C, D, E, F>(c0: Codec<A>, c1: Codec<B>, c2: Codec<C>, c3: Codec<D>, c4: Codec<E>,
                                     f: (((A, B), (C, (D, E)))) -> Option<F>, parts: F -> ((A, B), (C, (D, E))), b: bytes)
    ensures Whole(Pair(Pair(c0, c1), Pair(c2, Pair(c3, c4))), f, parts).get(b) == FiveHead(c0.get, c1.get, c2.get, c3.get, c4.get, f, b)
  {
  }

  /** ... and as the body does. */
  function FiveBody<A, B, C, D, E, F>(p: bytes -> Read<A>, q: bytes -> Read<B>, s: bytes -> Read<C>,
                                      t: bytes -> Read<D>, u: bytes -> Read<E>,
                                      f: (((A, B), ((C, D), E))) -> Option<F>, b: bytes): Read<F>
  {
    match p(b)
    case Short => Short
    case Got(v, b) =>
      match q(b)
      case Short => Short
      case Got(w, b) =>
        match s(b)
        case Short => Short
        case Got(x, b) =>
          match t(b)
          case Short => Short
          case Got(y, b) =>
            match u(b)
            case Short => Short
            case Got(z, b) => match f(((v, w), ((x, y), z))) case None => Short case Some(d) => Got(d, b)
  }

  lemma FiveBodyIs<A, B, C, D, E, F>(c0: Codec<A>, c1: Codec<B>, c2: Codec<C>, c3: Codec<D>, c4: Codec<E>,
                                     f: (((A, B), ((C, D), E))) -> Option<F>, parts: F -> ((A, B), ((C, D), E)), b: bytes)
    ensures Whole(Pair(Pair(c0, c1), Pair(Pair(c2, c3), c4)), f, parts).get(b) == FiveBody(c0.get, c1.get, c2.get, c3.get, c4.get, f, b)
  {
  }

  method ReadHead(r: Reader) returns (t: Option<Head>)
    requires r.Valid()
    modifies r`pos
    ensures Agrees(t, r, HeadCodec().get(old(r.Rest())))
  {
    FiveHeadIs(Mode(), Bool(), I32(), Whole(Byte(), FailureOf, FailureByte), Whole(Byte(), PssOf, PssByte),
               HeadOf, PartsOfHead, r.Rest());
    var mode := ReadCoded(r, ModeOf);
    if mode.None? {
      return None;
    }
    var disabled := ReadCoded(r, BoolOf);
    if disabled.None? {
      return None;
    }
    var priority := ReadI32(r);
    if priority.None? {
      return None;
    }
    var failure := ReadCoded(r, FailureOf);
    if failure.None? {
      return None;
    }
    var pss := ReadCoded(r, PssOf);
    if pss.None? {
      return None;
    }
    t := Some(Head(mode.value, disabled.value, priority.value, failure.value, pss.value));
  }

  method ReadBody(r: Reader) returns (t: Option<AdmissionProgram>, ghost b: Option<Body>)
    requires r.Valid()
    modifies r`pos
    ensures Agrees(b, r, BodyCodec().get(old(r.Rest())))
    ensures t == match b case Some(body) => Some(ProgramOf(body)) case None => None
  {
    FiveBodyIs(HeadCodec(), SupplyCodec(), DenyCodec(), MutateCodec(), ScopeCodec(), BodyOf, PartsOfBody, r.Rest());
    var head := ReadHead(r);
    if head.None? {
      return None, None;
    }
    var supply := DecodeSupply(r);
    if supply.None? {
      return None, None;
    }
    var deny := DecodeDeny(r);
    if deny.None? {
      return None, None;
    }
    var mutate := DecodeMutate(r);
    if mutate.None? {
      return None, None;
    }
    var selector, scope := DecodeSelector(r);
    if selector.None? {
      return None, None;
    }
    b := Some(Body(head.value, supply.value, deny.value, mutate.value, scope));
    t := Some(AdmissionProgram(head.value.mode, head.value.disabled, head.value.priority, supply.value,
                               AdmitSpec(head.value.failurePolicy, head.value.pss, deny.value, mutate.value), selector.value));
  }

  lemma PairIs<A, B>(c: Codec<A>, d: Codec<B>, b: bytes)
    ensures Pair(c, d).get(b) ==
            match c.get(b)
            case Short => Short
            case Got(x, rest) => match d.get(rest) case Short => Short case Got(y, rest) => Got((x, y), rest)
  {
  }

  method ReadMagic(r: Reader) returns (t: Option<()>)
    requires r.Valid()
    modifies r`pos
    ensures Agrees(t, r, Magic().get(old(r.Rest())))
  {
    FourBytes(r.Rest());
    var m := r.Next(4);
    if m.None? || m.value != MAGIC {
      return None;
    }
    return Some(());
  }

  lemma {:induction false} BytesAre(n: nat, b: bytes)
    ensures Times(n, GetByte, b) == Take(n, b)
  {
    if n > 0 && b != [] {
      BytesAre(n - 1, b[1..]);
      if n <= |b| {
        assert b[1..][..n - 1] == b[1..n] && b[1..][n - 1..] == b[n..];
        assert [b[0]] + b[1..n] == b[..n];
      }
    }
  }

  lemma WholeIs<A, B>(c: Codec<A>, f: A -> Option<B>, parts: B -> A, b: bytes)
    ensures Whole(c, f, parts).get(b) ==
            match c.get(b)
            case Short => Short
            case Got(x, rest) => match f(x) case None => Short case Some(y) => Got(y, rest)
  {
  }

  lemma FourBytes(b: bytes)
    ensures Magic().get(b) == match Take(4, b) case Short => Short case Got(m, rest) => if m == MAGIC then Got((), rest) else Short
  {
    BytesAre(4, b);
    WholeIs(Repeat(4, Byte()), MagicOf, (_: ()) => MAGIC, b);
    assert Repeat(4, Byte()).get(b) == Times(4, GetByte, b);
  }

  method ReadAbi(r: Reader) returns (t: Option<()>)
    requires r.Valid()
    modifies r`pos
    ensures Agrees(t, r, Abi().get(old(r.Rest())))
  {
    var n := r.NextU32();
    if n.None? || n.value != ADMISSION_ABI {
      return None;
    }
    return Some(());
  }

  /** `parse_program`. */
  method ParseProgram(b: bytes) returns (t: Result<AdmissionProgram>)
    ensures t == Parse(b)
  {
    if b == [] {
      return Err(Integrity);
    }
    PairIs(Pair(Magic(), Abi()), BodyCodec(), b);
    PairIs(Magic(), Abi(), b);
    var r := new Reader(b);
    var magic := ReadMagic(r);
    if magic.None? {
      return Err(Compile);
    }
    var abi := ReadAbi(r);
    if abi.None? {
      return Err(Compile);
    }
    var p, body := ReadBody(r);
    if p.None? || r.pos != |r.buf| {
      return Err(Compile);
    }
    return Ok(p.value);
  }
}
