/**
 What an accepted admission program can look like, byte for byte. The parser accepts nothing
 but written bodies, so it forgets exactly what a map forgets about the list it was built from:
 the order of a selector's labels, and all but the last of a label that comes twice. A file is
 the only one of its program exactly when it lists no labels, and it is the file the compiler
 writes exactly when the keys of every selector ascend.
 */
module FadmExact {
  import opened Wrappers
  import opened Text
  import opened Policy
  import opened Wire
  import opened Parsers
  import opened Fadm

  // ---- Every codec of the file is exact --------------------------------------------

  lemma BoolExact()
    ensures Exact(Bool())
  {
    ByteExact();
    WholeExact(Byte(), BoolOf, BoolByte);
  }

  lemma StrsExact()
    ensures Exact(Strs())
  {
    StrExact();
    ListExact(Str());
  }

  lemma FlagsExact(n: nat)
    ensures Exact(Flags(n))
  {
    BoolExact();
    RepeatExact(n, Bool());
  }

  lemma PoliciesExact()
    ensures Exact(Policies())
  {
    ByteExact();
    WholeExact(Byte(), FailureOf, FailureByte);
    WholeExact(Byte(), PssOf, PssByte);
    PairExact(Whole(Byte(), FailureOf, FailureByte), Whole(Byte(), PssOf, PssByte));
  }

  lemma HeadExact()
    ensures Exact(HeadCodec())
  {
    ByteExact();
    BoolExact();
    NatExact();
    PoliciesExact();
    WholeExact(Byte(), ModeOf, ModeByte);
    PairExact(Mode(), Bool());
    WholeExact(U32(), Signed, Unsigned);
    PairExact(I32(), Policies());
    PairExact(Pair(Mode(), Bool()), Pair(I32(), Policies()));
    WholeExact(Pair(Pair(Mode(), Bool()), Pair(I32(), Policies())), HeadOf, PartsOfHead);
  }

  lemma RootExact()
    ensures Exact(RootCodec())
  {
    StrExact();
    StrsExact();
    PairExact(Strs(), Strs());
    PairExact(Str(), Pair(Strs(), Strs()));
    WholeExact(Pair(Str(), Pair(Strs(), Strs())), RootOf, PartsOfRoot);
  }

  lemma ThreeFlags(f: seq<bool>)
    requires |f| == 3
    ensures f == [f[0], f[1], f[2]]
  {
  }

  lemma NineFlags(f: seq<bool>)
    requires |f| == 9
    ensures f == [f[0], f[1], f[2], f[3], f[4], f[5], f[6], f[7], f[8]]
  {
  }

  lemma SupplyExact()
    ensures Exact(SupplyCodec())
  {
    FlagsExact(3);
    RootExact();
    ListExact(RootCodec());
    PairExact(Flags(3), ListOf(RootCodec()));
    forall t: (seq<bool>, seq<TrustRoot>) | SupplyOf(t).Some? ensures PartsOfSupply(SupplyOf(t).value) == t {
      ThreeFlags(t.0);
    }
    WholeExact(Pair(Flags(3), ListOf(RootCodec())), SupplyOf, PartsOfSupply);
  }

  lemma DenyExact()
    ensures Exact(DenyCodec())
  {
    FlagsExact(9);
    StrsExact();
    PairExact(Flags(9), Strs());
    forall t: (seq<bool>, seq<string>) | DenyOf(t).Some? ensures PartsOfDeny(DenyOf(t).value) == t {
      NineFlags(t.0);
    }
    WholeExact(Pair(Flags(9), Strs()), DenyOf, PartsOfDeny);
  }

  lemma MutateExact()
    ensures Exact(MutateCodec())
  {
    FlagsExact(3);
    forall f: seq<bool> | MutateOf(f).Some? ensures PartsOfMutate(MutateOf(f).value) == f {
      ThreeFlags(f);
    }
    WholeExact(Flags(3), MutateOf, PartsOfMutate);
  }

  lemma WrittenExact()
    ensures Exact(WrittenCodec())
  {
    StrExact();
    StrsExact();
    PairExact(Str(), Str());
    ListExact(Pair(Str(), Str()));
    PairExact(Str(), Strs());
    PairExact(Str(), Pair(Str(), Strs()));
    WholeExact(Pair(Str(), Pair(Str(), Strs())), RequirementOf, PartsOfRequirement);
    ListExact(RequirementCodec());
    PairExact(ListOf(Pair(Str(), Str())), ListOf(RequirementCodec()));
  }

  lemma ScopeExact()
    ensures Exact(ScopeCodec())
  {
    WrittenExact();
    StrsExact();
    BoolExact();
    PairExact(WrittenCodec(), WrittenCodec());
    PairExact(Pair(WrittenCodec(), WrittenCodec()), Pair(WrittenCodec(), WrittenCodec()));
    PairExact(Strs(), Bool());
    PairExact(FourWritten(), Pair(Strs(), Bool()));
    WholeExact(Pair(FourWritten(), Pair(Strs(), Bool())), ScopeOf, PartsOfScope);
  }

  lemma BodyExact()
    ensures Exact(BodyCodec())
  {
    HeadExact();
    SupplyExact();
    DenyExact();
    MutateExact();
    ScopeExact();
    PairExact(HeadCodec(), SupplyCodec());
    PairExact(DenyCodec(), MutateCodec());
    PairExact(Pair(DenyCodec(), MutateCodec()), ScopeCodec());
    PairExact(Pair(HeadCodec(), SupplyCodec()), Pair(Pair(DenyCodec(), MutateCodec()), ScopeCodec()));
    WholeExact(Pair(Pair(HeadCodec(), SupplyCodec()), Pair(Pair(DenyCodec(), MutateCodec()), ScopeCodec())), BodyOf, PartsOfBody);
  }

  lemma FileExact()
    ensures Exact(FileCodec())
  {
    ByteExact();
    RepeatExact(4, Byte());
    WholeExact(Repeat(4, Byte()), MagicOf, (_: ()) => MAGIC);
    NatExact();
    WholeExact(U32(), AbiOf, (_: ()) => ADMISSION_ABI);
    PairExact(Magic(), Abi());
    BodyExact();
    PairExact(Pair(Magic(), Abi()), BodyCodec());
  }

  // ---- Accepted files are written bodies -------------------------------------------

  function FileBy(put: ((((), ()), Body)) -> bytes, b: Body): bytes {
    put((((), ()), b))
  }

  function FileOf(b: Body): bytes {
    FileBy(FileCodec().put, b)
  }

  function BodyBy(get: bytes -> Read<(((), ()), Body)>, b: bytes): Body
    requires ParseBy(get, b).Ok?
  {
    get(b).value.1
  }

  /** The body an accepted file holds. */
  function BodyIn(b: bytes): Body
    requires Parse(b).Ok?
  {
    BodyBy(FileCodec().get, b)
  }

  lemma PairParts<A, B>(c: Codec<A>, d: Codec<B>, xy: (A, B))
    requires Pair(c, d).ok(xy)
    ensures c.ok(xy.0) && d.ok(xy.1)
  {
  }

  lemma WholeParts<A, B>(c: Codec<A>, whole: A -> Option<B>, parts: B -> A, y: B)
    requires Whole(c, whole, parts).ok(y)
    ensures c.ok(parts(y))
  {
  }

  lemma ListParts<A>(c: Codec<A>, xs: seq<A>)
    requires ListOf(c).ok(xs)
    ensures |xs| <= U16_MAX && forall i :: 0 <= i < |xs| ==> c.ok(xs[i])
  {
  }

  /** Reading back by any codec of the file's shape. */
  lemma WrittenBy(head: Codec<((), ())>, body: Codec<Body>, b: Body)
    requires Lawful(Pair(head, body)) && body.ok(b) && head.ok(((), ())) && head.put(((), ())) != []
    ensures var c := Pair(head, body);
            && ParseBy(c.get, FileBy(c.put, b)) == Ok(ProgramOf(b))
            && BodyBy(c.get, FileBy(c.put, b)) == b
  {
    var c, file := Pair(head, body), (((), ()), b);
    assert c.ok(file);
    assert c.put(file) + [] == c.put(file);
    assert c.get(c.put(file) + []) == Got(file, []);
  }

  lemma AcceptedBy(head: Codec<((), ())>, body: Codec<Body>, b: bytes)
    requires Exact(Pair(head, body)) && ParseBy(Pair(head, body).get, b).Ok?
    ensures var c := Pair(head, body);
            var x := BodyBy(c.get, b);
            body.ok(x) && b == FileBy(c.put, x) && ParseBy(c.get, b) == Ok(ProgramOf(x))
  {
    var c := Pair(head, body);
    var r := c.get(b);
    assert r.value.0.0 == () && r.value.0.1 == ();
    assert r.value == (((), ()), r.value.1);
    assert b == c.put(r.value) + r.rest == c.put(r.value);
  }

  lemma HeaderFits()
    ensures Pair(Magic(), Abi()).ok(((), ())) && Pair(Magic(), Abi()).put(((), ())) != []
  {
    RepeatFits(4, Byte(), MAGIC);
    WholeFits(Repeat(4, Byte()), MagicOf, (_: ()) => MAGIC, ());
    WholeFits(U32(), AbiOf, (_: ()) => ADMISSION_ABI, ());
    PairFits(Magic(), Abi(), (), ());
    MagicNonempty();
    PairPutLength(Magic(), Abi(), (), ());
  }

  /** A body that can be written is read back ... */
  lemma WrittenIsAccepted(b: Body)
    requires BodyCodec().ok(b)
    ensures Parse(FileOf(b)) == Ok(ProgramOf(b)) && BodyIn(FileOf(b)) == b
  {
    FileLawful();
    HeaderFits();
    WrittenBy(Pair(Magic(), Abi()), BodyCodec(), b);
  }

  /** ... and nothing else is accepted: the bytes are the writing of the one body they hold. */
  lemma AcceptedIsWritten(b: bytes)
    requires Parse(b).Ok?
    ensures BodyCodec().ok(BodyIn(b)) && b == FileOf(BodyIn(b)) && Parse(b) == Ok(ProgramOf(BodyIn(b)))
  {
    FileExact();
    AcceptedBy(Pair(Magic(), Abi()), BodyCodec(), b);
  }

  // ---- The first eight bytes ---------------------------------------------------------

  lemma MagicBytes()
    ensures Magic().put(()) == [0x46, 0x41, 0x44, 0x4D]
  {
    assert PutEach(PutByte, [0x4D]) == [0x4D] + PutEach(PutByte, []);
    assert PutEach(PutByte, [0x44, 0x4D]) == [0x44] + PutEach(PutByte, [0x4D]);
    assert PutEach(PutByte, [0x41, 0x44, 0x4D]) == [0x41] + PutEach(PutByte, [0x44, 0x4D]);
    assert PutEach(PutByte, [0x46, 0x41, 0x44, 0x4D]) == [0x46] + PutEach(PutByte, [0x41, 0x44, 0x4D]);
  }

  lemma AbiBytes()
    ensures Abi().put(()) == [1, 0, 0, 0]
  {
  }

  lemma PutTogether<A, B>(c: Codec<A>, d: Codec<B>, x: A, y: B)
    ensures Pair(c, d).put((x, y)) == c.put(x) + d.put(y)
  {
  }

  lemma HeaderBytes()
    ensures Pair(Magic(), Abi()).put(((), ())) == [0x46, 0x41, 0x44, 0x4D, 1, 0, 0, 0]
  {
    MagicBytes();
    AbiBytes();
    PutTogether(Magic(), Abi(), (), ());
  }

  lemma HeadedBy(head: Codec<((), ())>, body: Codec<Body>, b: bytes)
    requires Exact(Pair(head, body)) && ParseBy(Pair(head, body).get, b).Ok?
    ensures head.put(((), ())) <= b
  {
    AcceptedBy(head, body, b);
    PutTogether(head, body, ((), ()), BodyBy(Pair(head, body).get, b));
  }

  /** An accepted file says FADM, and version 1 after it. */
  lemma AcceptedHeader(b: bytes)
    requires Parse(b).Ok?
    ensures [0x46, 0x41, 0x44, 0x4D, 1, 0, 0, 0] <= b
  {
    FileExact();
    HeaderBytes();
    HeadedBy(Pair(Magic(), Abi()), BodyCodec(), b);
  }

  // ---- What a list of labels comes to ----------------------------------------------

  /** `v` is what the last label with key `k` says. */
  predicate LastSays(pairs: seq<(string, string)>, k: string, v: string) {
    exists i :: 0 <= i < |pairs| && pairs[i] == (k, v) && forall j :: i < j < |pairs| ==> pairs[j].0 != k
  }

  lemma {:induction false} MapOfLast(pairs: seq<(string, string)>, k: string, v: string)
    ensures k in MapOf(pairs) && MapOf(pairs)[k] == v <==> LastSays(pairs, k, v)
  {
    if pairs != [] {
      var n := |pairs| - 1;
      var init := pairs[..n];
      MapOfLast(init, k, v);
      if pairs[n].0 == k {
        if pairs[n].1 == v {
          assert pairs[n] == (k, v);
        }
      } else {
        if LastSays(init, k, v) {
          var i :| 0 <= i < |init| && init[i] == (k, v) && forall j :: i < j < |init| ==> init[j].0 != k;
          assert pairs[i] == (k, v);
        }
        if LastSays(pairs, k, v) {
          var i :| 0 <= i < |pairs| && pairs[i] == (k, v) && forall j :: i < j < |pairs| ==> pairs[j].0 != k;
          assert init[i] == (k, v);
        }
      }
    }
  }

  /** Two lists of labels end with the same value for the same keys. */
  ghost predicate SameLabels(a: seq<(string, string)>, b: seq<(string, string)>) {
    forall k, v :: LastSays(a, k, v) <==> LastSays(b, k, v)
  }

  lemma SameLabelsIff(a: seq<(string, string)>, b: seq<(string, string)>)
    ensures MapOf(a) == MapOf(b) <==> SameLabels(a, b)
  {
    forall k, v ensures k in MapOf(a) && MapOf(a)[k] == v <==> LastSays(a, k, v) {
      MapOfLast(a, k, v);
    }
    forall k, v ensures k in MapOf(b) && MapOf(b)[k] == v <==> LastSays(b, k, v) {
      MapOfLast(b, k, v);
    }
    if SameLabels(a, b) {
      forall k | k in MapOf(a) ensures k in MapOf(b) && MapOf(b)[k] == MapOf(a)[k] {
        assert LastSays(a, k, MapOf(a)[k]);
      }
      forall k | k in MapOf(b) ensures k in MapOf(a) {
        assert LastSays(b, k, MapOf(b)[k]);
      }
    }
  }

  ghost predicate Alike(w: Written, x: Written) {
    SameLabels(w.0, x.0) && w.1 == x.1
  }

  /** Equal but for the order of labels and for those a later one overrides. */
  ghost predicate SameButLabels(b: Body, c: Body) {
    && b.head == c.head && b.supply == c.supply && b.deny == c.deny && b.mutate == c.mutate
    && Alike(b.scope.cluster, c.scope.cluster) && Alike(b.scope.namespace, c.scope.namespace)
    && Alike(b.scope.workload, c.scope.workload) && Alike(b.scope.serviceAccount, c.scope.serviceAccount)
    && b.scope.image == c.scope.image
  }

  lemma SameProgramIff(b: Body, c: Body)
    ensures ProgramOf(b) == ProgramOf(c) <==> SameButLabels(b, c)
  {
    SameLabelsIff(b.scope.cluster.0, c.scope.cluster.0);
    SameLabelsIff(b.scope.namespace.0, c.scope.namespace.0);
    SameLabelsIff(b.scope.workload.0, c.scope.workload.0);
    SameLabelsIff(b.scope.serviceAccount.0, c.scope.serviceAccount.0);
  }

  lemma AlikeBy(head: Codec<((), ())>, body: Codec<Body>, a: bytes, b: bytes)
    requires Exact(Pair(head, body))
    requires ParseBy(Pair(head, body).get, a).Ok? && ParseBy(Pair(head, body).get, b).Ok?
    ensures var get := Pair(head, body).get;
            && (a == b <==> BodyBy(get, a) == BodyBy(get, b))
            && (ParseBy(get, a) == ParseBy(get, b) <==> SameButLabels(BodyBy(get, a), BodyBy(get, b)))
  {
    AcceptedBy(head, body, a);
    AcceptedBy(head, body, b);
    SameProgramIff(BodyBy(Pair(head, body).get, a), BodyBy(Pair(head, body).get, b));
  }

  /** Two accepted files are the same bytes exactly when they hold the same body, and parse alike
      exactly when their bodies are the same but for label order and overridden labels. */
  lemma ParseAlikeIff(a: bytes, b: bytes)
    requires Parse(a).Ok? && Parse(b).Ok?
    ensures a == b <==> BodyIn(a) == BodyIn(b)
    ensures Parse(a) == Parse(b) <==> SameButLabels(BodyIn(a), BodyIn(b))
  {
    FileExact();
    AlikeBy(Pair(Magic(), Abi()), BodyCodec(), a, b);
  }
}
