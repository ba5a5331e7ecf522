/**
 Which files a program has. Every accepted file can be rewritten into the one the compiler
 writes, whose labels ascend; and a program has a single file exactly when it selects on no
 label at all.
 */
module FadmCanonical {
  import opened Wrappers
  import opened Text
  import opened Policy
  import opened Wire
  import opened Parsers
  import opened Fadm
  import opened FadmExact
  import opened LabelOrder

  // ---- Which bodies can be written -------------------------------------------------

  /** Every length and count fits its u16, and the priority its i32. */
  predicate Writable(b: Body) {
    && -0x8000_0000 <= b.head.priority < 0x8000_0000
    && |b.supply.trustRoots| <= U16_MAX && (forall i :: 0 <= i < |b.supply.trustRoots| ==> RootFits(b.supply.trustRoots[i]))
    && StrsFit(b.deny.addedCapabilities)
    && WrittenFits(b.scope.cluster) && WrittenFits(b.scope.namespace)
    && WrittenFits(b.scope.workload) && WrittenFits(b.scope.serviceAccount)
    && StrsFit(b.scope.image.registriesAllow)
  }

  lemma WritableFits(b: Body)
    requires Writable(b)
    ensures BodyCodec().ok(b)
  {
    HeadFits(b.head);
    SupplyFits(b.supply);
    DenyFits(b.deny);
    WrittenFitsCodec(b.scope.cluster);
    WrittenFitsCodec(b.scope.namespace);
    WrittenFitsCodec(b.scope.workload);
    WrittenFitsCodec(b.scope.serviceAccount);
    ScopeFits(b.scope);
    BodyFits(b);
  }

  lemma StrsWithin(xs: seq<string>)
    requires Strs().ok(xs)
    ensures StrsFit(xs)
  {
    ListParts(Str(), xs);
  }

  lemma HeadWithin(h: Head)
    requires HeadCodec().ok(h)
    ensures -0x8000_0000 <= h.priority < 0x8000_0000
  {
    WholeParts(Pair(Pair(Mode(), Bool()), Pair(I32(), Policies())), HeadOf, PartsOfHead, h);
    PairParts(Pair(Mode(), Bool()), Pair(I32(), Policies()), PartsOfHead(h));
    PairParts(I32(), Policies(), PartsOfHead(h).1);
    assert I32().ok(h.priority);
    assert Signed(Unsigned(h.priority)) == Some(h.priority) && Unsigned(h.priority) <= U32_MAX;
  }

  lemma RootWithin(r: TrustRoot)
    requires RootCodec().ok(r)
    ensures RootFits(r)
  {
    WholeParts(Pair(Str(), Pair(Strs(), Strs())), RootOf, PartsOfRoot, r);
    PairParts(Str(), Pair(Strs(), Strs()), PartsOfRoot(r));
    PairParts(Strs(), Strs(), PartsOfRoot(r).1);
    StrsWithin(r.keylessIssuerAllow);
    StrsWithin(r.publicKeys);
  }

  lemma SupplyWithin(s: SupplySpec)
    requires SupplyCodec().ok(s)
    ensures |s.trustRoots| <= U16_MAX && forall i :: 0 <= i < |s.trustRoots| ==> RootFits(s.trustRoots[i])
  {
    WholeParts(Pair(Flags(3), ListOf(RootCodec())), SupplyOf, PartsOfSupply, s);
    PairParts(Flags(3), ListOf(RootCodec()), PartsOfSupply(s));
    ListParts(RootCodec(), s.trustRoots);
    forall i | 0 <= i < |s.trustRoots| ensures RootFits(s.trustRoots[i]) {
      RootWithin(s.trustRoots[i]);
    }
  }

  lemma DenyWithin(d: AdmitDeny)
    requires DenyCodec().ok(d)
    ensures StrsFit(d.addedCapabilities)
  {
    WholeParts(Pair(Flags(9), Strs()), DenyOf, PartsOfDeny, d);
    PairParts(Flags(9), Strs(), PartsOfDeny(d));
    StrsWithin(d.addedCapabilities);
  }

  lemma RequirementWithin(r: Requirement)
    requires RequirementCodec().ok(r)
    ensures RequirementFits(r)
  {
    WholeParts(Pair(Str(), Pair(Str(), Strs())), RequirementOf, PartsOfRequirement, r);
    PairParts(Str(), Pair(Str(), Strs()), PartsOfRequirement(r));
    PairParts(Str(), Strs(), PartsOfRequirement(r).1);
    StrsWithin(r.values);
  }

  lemma WrittenWithin(w: Written)
    requires WrittenCodec().ok(w)
    ensures WrittenFits(w)
  {
    PairParts(ListOf(Pair(Str(), Str())), ListOf(RequirementCodec()), w);
    ListParts(Pair(Str(), Str()), w.0);
    forall i | 0 <= i < |w.0| ensures StrOk(w.0[i].0) && StrOk(w.0[i].1) {
      PairParts(Str(), Str(), w.0[i]);
    }
    ListParts(RequirementCodec(), w.1);
    forall i | 0 <= i < |w.1| ensures RequirementFits(w.1[i]) {
      RequirementWithin(w.1[i]);
    }
  }

  lemma ScopeWithin(s: Scope)
    requires ScopeCodec().ok(s)
    ensures WrittenFits(s.cluster) && WrittenFits(s.namespace) && WrittenFits(s.workload) && WrittenFits(s.serviceAccount)
    ensures StrsFit(s.image.registriesAllow)
  {
    var c, t := WrittenCodec(), PartsOfScope(s);
    WholeParts(Pair(FourWritten(), Pair(Strs(), Bool())), ScopeOf, PartsOfScope, s);
    PairParts(FourWritten(), Pair(Strs(), Bool()), t);
    PairParts(Pair(c, c), Pair(c, c), t.0);
    PairParts(c, c, t.0.0);
    PairParts(c, c, t.0.1);
    PairParts(Strs(), Bool(), t.1);
    WrittenWithin(s.cluster);
    WrittenWithin(s.namespace);
    WrittenWithin(s.workload);
    WrittenWithin(s.serviceAccount);
    StrsWithin(s.image.registriesAllow);
  }

  lemma FitsWritable(b: Body)
    requires BodyCodec().ok(b)
    ensures Writable(b)
  {
    var p, q := Pair(HeadCodec(), SupplyCodec()), Pair(Pair(DenyCodec(), MutateCodec()), ScopeCodec());
    WholeParts(Pair(p, q), BodyOf, PartsOfBody, b);
    PairParts(p, q, PartsOfBody(b));
    PairParts(HeadCodec(), SupplyCodec(), (b.head, b.supply));
    PairParts(Pair(DenyCodec(), MutateCodec()), ScopeCodec(), PartsOfBody(b).1);
    PairParts(DenyCodec(), MutateCodec(), (b.deny, b.mutate));
    HeadWithin(b.head);
    SupplyWithin(b.supply);
    DenyWithin(b.deny);
    ScopeWithin(b.scope);
  }

  lemma WritableIsAccepted(x: Body)
    requires Writable(x)
    ensures Parse(FileOf(x)) == Ok(ProgramOf(x)) && BodyIn(FileOf(x)) == x
  {
    WritableFits(x);
    WrittenIsAccepted(x);
  }

  lemma AcceptedIsWritable(b: bytes)
    requires Parse(b).Ok?
    ensures Writable(BodyIn(b)) && b == FileOf(BodyIn(b)) && Parse(b) == Ok(ProgramOf(BodyIn(b)))
  {
    AcceptedIsWritten(b);
    FitsWritable(BodyIn(b));
  }

  /** The parser accepts exactly the files of the bodies whose fields fit. */
  lemma AcceptedIff(b: bytes)
    ensures Parse(b).Ok? <==> exists x :: Writable(x) && b == FileOf(x)
  {
    if Parse(b).Ok? {
      AcceptedIsWritable(b);
    } else if x :| Writable(x) && b == FileOf(x) {
      WritableIsAccepted(x);
    }
  }

  // ---- Another list with the same labels -------------------------------------------

  lemma {:induction false} MapOfAppend(a: seq<(string, string)>, b: seq<(string, string)>)
    ensures MapOf(a + b) == MapOf(a) + MapOf(b)
  {
    if b == [] {
      assert a + b == a;
    } else {
      var n := |b| - 1;
      MapOfAppend(a, b[..n]);
      assert (a + b)[..|a + b| - 1] == a + b[..n];
    }
  }

  lemma MapOfOne(p: (string, string))
    ensures MapOf([p]) == map[p.0 := p.1]
  {
    assert [p][..0] == [];
  }

  lemma MapOfCons(p: (string, string), rest: seq<(string, string)>)
    ensures MapOf([p] + rest) == map[p.0 := p.1] + MapOf(rest)
  {
    MapOfAppend([p], rest);
    MapOfOne(p);
  }

  /** A different list for the same labels: the first written once more while there is room;
      in a full list, the first two the other way round, or only the second where it overrides. */
  function Rewritten(pairs: seq<(string, string)>): (r: seq<(string, string)>)
    requires pairs != []
  {
    if |pairs| < U16_MAX then [pairs[0]] + pairs
    else if pairs[0].0 == pairs[1].0 then pairs[1..]
    else [pairs[1]] + ([pairs[0]] + pairs[2..])
  }

  /** Of two labels with one key in a row the first counts for nothing. */
  lemma OverriddenFirst(p: (string, string), q: (string, string), rest: seq<(string, string)>)
    requires p.0 == q.0
    ensures MapOf([p] + ([q] + rest)) == MapOf([q] + rest)
  {
    MapOfCons(p, [q] + rest);
    MapOfCons(q, rest);
  }

  lemma SwappedFirst(p: (string, string), q: (string, string), rest: seq<(string, string)>)
    requires p.0 != q.0
    ensures MapOf([p] + ([q] + rest)) == MapOf([q] + ([p] + rest))
  {
    MapOfCons(p, [q] + rest);
    MapOfCons(q, rest);
    MapOfCons(q, [p] + rest);
    MapOfCons(p, rest);
  }

  lemma RewrittenSame(pairs: seq<(string, string)>)
    requires pairs != []
    ensures MapOf(Rewritten(pairs)) == MapOf(pairs) && Rewritten(pairs) != pairs
  {
    var p := pairs[0];
    if |pairs| < U16_MAX {
      OverriddenFirst(p, p, pairs[1..]);
      assert pairs == [p] + pairs[1..];
      assert |Rewritten(pairs)| > |pairs|;
    } else {
      var q := pairs[1];
      assert pairs == [p] + ([q] + pairs[2..]) && pairs[1..] == [q] + pairs[2..];
      if p.0 == q.0 {
        OverriddenFirst(p, q, pairs[2..]);
        assert |Rewritten(pairs)| < |pairs|;
      } else {
        SwappedFirst(p, q, pairs[2..]);
        assert Rewritten(pairs)[0] != pairs[0];
      }
    }
  }

  lemma RewrittenFits(pairs: seq<(string, string)>)
    requires pairs != [] && LabelsFit(pairs)
    ensures LabelsFit(Rewritten(pairs))
  {
    var r := Rewritten(pairs);
    forall i | 0 <= i < |r| ensures r[i] in pairs {}
  }

  // ---- A program with one file only ------------------------------------------------

  datatype Which = Cluster | Namespace | Workload | ServiceAccount

  function LabelsOf(b: Body, which: Which): seq<(string, string)> {
    match which
    case Cluster => b.scope.cluster.0
    case Namespace => b.scope.namespace.0
    case Workload => b.scope.workload.0
    case ServiceAccount => b.scope.serviceAccount.0
  }

  function WithLabels(b: Body, which: Which, pairs: seq<(string, string)>): Body {
    var s := b.scope;
    b.(scope := match which
                case Cluster => s.(cluster := (pairs, s.cluster.1))
                case Namespace => s.(namespace := (pairs, s.namespace.1))
                case Workload => s.(workload := (pairs, s.workload.1))
                case ServiceAccount => s.(serviceAccount := (pairs, s.serviceAccount.1)))
  }

  lemma WithLabelsSame(b: Body, which: Which, pairs: seq<(string, string)>)
    requires Writable(b) && LabelsFit(pairs) && MapOf(pairs) == MapOf(LabelsOf(b, which)) && pairs != LabelsOf(b, which)
    ensures var c := WithLabels(b, which, pairs); Writable(c) && c != b && ProgramOf(c) == ProgramOf(b)
  {
    assert LabelsOf(WithLabels(b, which, pairs), which) == pairs;
  }

  predicate SelectsOnNoLabel(s: PolicySelector) {
    s.cluster.matchLabels == map[] && s.namespace.matchLabels == map[]
    && s.workload.matchLabels == map[] && s.serviceAccount.matchLabels == map[]
  }

  lemma NoLabelIff(b: Body)
    ensures SelectsOnNoLabel(ProgramOf(b).selector) <==> forall w :: LabelsOf(b, w) == []
  {
    forall w ensures MapOf(LabelsOf(b, w)) == map[] <==> LabelsOf(b, w) == [] {
      var pairs := LabelsOf(b, w);
      if pairs != [] {
        assert pairs[|pairs| - 1].0 in MapOf(pairs);
      }
    }
    assert LabelsOf(b, Cluster) == b.scope.cluster.0 && LabelsOf(b, Namespace) == b.scope.namespace.0;
    assert LabelsOf(b, Workload) == b.scope.workload.0 && LabelsOf(b, ServiceAccount) == b.scope.serviceAccount.0;
    if SelectsOnNoLabel(ProgramOf(b).selector) {
      forall w ensures LabelsOf(b, w) == [] {
        match w case Cluster => case Namespace => case Workload => case ServiceAccount =>
      }
    }
  }

  lemma AnotherBody(x: Body) returns (y: Body)
    requires Writable(x) && !SelectsOnNoLabel(ProgramOf(x).selector)
    ensures Writable(y) && y != x && ProgramOf(y) == ProgramOf(x)
  {
    NoLabelIff(x);
    var w :| LabelsOf(x, w) != [];
    var pairs := LabelsOf(x, w);
    assert LabelsFit(pairs);
    RewrittenSame(pairs);
    RewrittenFits(pairs);
    WithLabelsSame(x, w, Rewritten(pairs));
    y := WithLabels(x, w, Rewritten(pairs));
  }

  /** Another accepted file of the same program, where the program selects on a label. */
  lemma AnotherFile(a: bytes) returns (b: bytes)
    requires Parse(a).Ok? && !SelectsOnNoLabel(Parse(a).value.selector)
    ensures b != a && Parse(b) == Parse(a)
  {
    AcceptedIsWritable(a);
    var y := AnotherBody(BodyIn(a));
    WritableIsAccepted(y);
    b := FileOf(y);
  }

  lemma SameWithoutLabels(x: Body, y: Body)
    requires ProgramOf(x) == ProgramOf(y) && SelectsOnNoLabel(ProgramOf(x).selector)
    ensures x == y
  {
    NoLabelIff(x);
    NoLabelIff(y);
    assert LabelsOf(x, Cluster) == LabelsOf(y, Cluster) && LabelsOf(x, Namespace) == LabelsOf(y, Namespace);
    assert LabelsOf(x, Workload) == LabelsOf(y, Workload) && LabelsOf(x, ServiceAccount) == LabelsOf(y, ServiceAccount);
    assert x.scope == y.scope;
  }

  lemma HeldProgram(a: bytes)
    requires Parse(a).Ok?
    ensures Parse(a).value == ProgramOf(BodyIn(a))
  {
    AcceptedIsWritten(a);
  }

  lemma OneFile(a: bytes, b: bytes)
    requires Parse(a).Ok? && Parse(b) == Parse(a) && SelectsOnNoLabel(Parse(a).value.selector)
    ensures b == a
  {
    HeldProgram(a);
    HeldProgram(b);
    SameWithoutLabels(BodyIn(a), BodyIn(b));
    ParseAlikeIff(a, b);
  }

  /** The parser is injective at exactly the programs that select on no label: such a program
      has one file, and every other has at least two. */
  lemma OnlyFileIff(a: bytes)
    requires Parse(a).Ok?
    ensures (forall b :: Parse(b) == Parse(a) ==> b == a) <==> SelectsOnNoLabel(Parse(a).value.selector)
  {
    if SelectsOnNoLabel(Parse(a).value.selector) {
      forall b | Parse(b) == Parse(a) ensures b == a {
        OneFile(a, b);
      }
    } else {
      var b := AnotherFile(a);
    }
  }

  // ---- The file the compiler writes ------------------------------------------------

  /** The keys of a map in the order the compiler's maps hold them. */
  ghost function SortedKeys(m: Labels): (r: seq<string>)
    ensures Lists(r, m) && Ascending(r) && |r| == |m|
  {
    var r := InOrder(m.Keys);
    assert forall i :: 0 <= i < |r| ==> r[i] in r;
    r
  }

  ghost function SortedOrders(s: PolicySelector): (o: Orders)
    ensures ListsAll(o, s)
  {
    Orders(SortedKeys(s.cluster.matchLabels), SortedKeys(s.namespace.matchLabels),
           SortedKeys(s.workload.matchLabels), SortedKeys(s.serviceAccount.matchLabels))
  }

  /** The bytes `encode_admission` writes for a program it can encode. */
  ghost function CompilerFile(p: AdmissionProgram): bytes {
    FileOf(BodyFor(p, SortedOrders(p.selector)))
  }

  function KeysOf(pairs: seq<(string, string)>): seq<string> {
    seq(|pairs|, i requires 0 <= i < |pairs| => pairs[i].0)
  }

  /** The labels of a map in key order. */
  ghost function SortedPairs(m: Labels): seq<(string, string)> {
    WrittenFor(LabelSelector(m, []), SortedKeys(m)).0
  }

  lemma MapOfSmall(pairs: seq<(string, string)>)
    ensures |MapOf(pairs)| <= |pairs|
  {
    if pairs != [] {
      var init, last := pairs[..|pairs| - 1], pairs[|pairs| - 1];
      MapOfSmall(init);
      assert MapOf(pairs).Keys == MapOf(init).Keys + {last.0};
    }
  }

  /** What a list of labels comes to fits where the list did. */
  lemma SortedFits(pairs: seq<(string, string)>)
    requires LabelsFit(pairs)
    ensures LabelsFit(SortedPairs(MapOf(pairs)))
  {
    var m := MapOf(pairs);
    var sorted := SortedPairs(m);
    MapOfSmall(pairs);
    forall i | 0 <= i < |sorted| ensures StrOk(sorted[i].0) && StrOk(sorted[i].1) {
      var k := SortedKeys(m)[i];
      MapOfLast(pairs, k, m[k]);
    }
  }

  lemma KeyInMap(pairs: seq<(string, string)>, k: string)
    ensures k in KeysOf(pairs) <==> k in MapOf(pairs)
  {
    if pairs != [] {
      var n := |pairs| - 1;
      KeyInMap(pairs[..n], k);
      assert KeysOf(pairs) == KeysOf(pairs[..n]) + [pairs[n].0];
    }
  }

  lemma AscendingSaysLast(pairs: seq<(string, string)>, i: nat)
    requires Ascending(KeysOf(pairs)) && i < |pairs|
    ensures pairs[i].0 in MapOf(pairs) && MapOf(pairs)[pairs[i].0] == pairs[i].1
  {
    forall j | i < j < |pairs| ensures pairs[j].0 != pairs[i].0 {
      assert Before(KeysOf(pairs)[i], KeysOf(pairs)[j]);
      BeforeIsStrict(pairs[i].0, pairs[j].0);
    }
    assert LastSays(pairs, pairs[i].0, pairs[i].1);
    MapOfLast(pairs, pairs[i].0, pairs[i].1);
  }

  lemma AscendingIsSorted(pairs: seq<(string, string)>)
    requires Ascending(KeysOf(pairs))
    ensures pairs == SortedPairs(MapOf(pairs))
  {
    var order := SortedKeys(MapOf(pairs));
    forall k ensures k in KeysOf(pairs) <==> k in order {
      KeyInMap(pairs, k);
    }
    AscendingIsUnique(KeysOf(pairs), order);
    forall i | 0 <= i < |pairs| ensures pairs[i] == SortedPairs(MapOf(pairs))[i] {
      AscendingSaysLast(pairs, i);
      assert KeysOf(pairs)[i] == pairs[i].0;
    }
  }

  /** A list of labels is the sorted list of what it comes to exactly when its keys ascend. */
  lemma SortedIff(pairs: seq<(string, string)>)
    ensures pairs == SortedPairs(MapOf(pairs)) <==> Ascending(KeysOf(pairs))
  {
    if pairs == SortedPairs(MapOf(pairs)) {
      assert KeysOf(pairs) == SortedKeys(MapOf(pairs));
    }
    if Ascending(KeysOf(pairs)) {
      AscendingIsSorted(pairs);
    }
  }

  /** The compiler's body of the program a body holds: the same, its labels sorted. */
  ghost function SortedBody(b: Body): Body {
    BodyFor(ProgramOf(b), SortedOrders(ProgramOf(b).selector))
  }

  lemma SortedBodyLabels(b: Body, which: Which)
    ensures LabelsOf(SortedBody(b), which) == SortedPairs(MapOf(LabelsOf(b, which)))
  {
  }

  lemma SortedWritten(w: Written)
    requires WrittenFits(w)
    ensures SelectorFits(SelectorOf(w), SortedKeys(MapOf(w.0)))
  {
    SortedFits(w.0);
    assert WrittenFor(SelectorOf(w), SortedKeys(MapOf(w.0))).0 == SortedPairs(MapOf(w.0));
  }

  lemma SortedBodyWritable(b: Body)
    requires Writable(b)
    ensures Writable(SortedBody(b))
  {
    SortedWritten(b.scope.cluster);
    SortedWritten(b.scope.namespace);
    SortedWritten(b.scope.workload);
    SortedWritten(b.scope.serviceAccount);
  }

  /** Equal but for the labels. */
  predicate LabelsApart(b: Body, c: Body) {
    && b.head == c.head && b.supply == c.supply && b.deny == c.deny && b.mutate == c.mutate
    && b.scope.cluster.1 == c.scope.cluster.1 && b.scope.namespace.1 == c.scope.namespace.1
    && b.scope.workload.1 == c.scope.workload.1 && b.scope.serviceAccount.1 == c.scope.serviceAccount.1
    && b.scope.image == c.scope.image
  }

  lemma SameLabelsSameBody(b: Body, c: Body)
    requires LabelsApart(b, c) && forall which :: LabelsOf(b, which) == LabelsOf(c, which)
    ensures b == c
  {
    assert LabelsOf(b, Cluster) == LabelsOf(c, Cluster) && LabelsOf(b, Namespace) == LabelsOf(c, Namespace);
    assert LabelsOf(b, Workload) == LabelsOf(c, Workload) && LabelsOf(b, ServiceAccount) == LabelsOf(c, ServiceAccount);
    assert b.scope == c.scope;
  }

  lemma SortedBodyApart(b: Body)
    ensures LabelsApart(b, SortedBody(b))
  {
  }

  ghost predicate KeysAscend(b: Body) {
    forall which :: Ascending(KeysOf(LabelsOf(b, which)))
  }

  lemma SortedBodyIff(b: Body)
    ensures b == SortedBody(b) <==> KeysAscend(b)
  {
    SortedBodyApart(b);
    forall which ensures LabelsOf(b, which) == LabelsOf(SortedBody(b), which) <==> Ascending(KeysOf(LabelsOf(b, which))) {
      SortedBodyLabels(b, which);
      SortedIff(LabelsOf(b, which));
    }
    if KeysAscend(b) {
      SameLabelsSameBody(b, SortedBody(b));
    }
  }

  lemma CompilerFileOf(a: bytes)
    requires Parse(a).Ok?
    ensures CompilerFile(Parse(a).value) == FileOf(SortedBody(BodyIn(a)))
  {
    HeldProgram(a);
  }

  lemma SortedFile(a: bytes)
    requires Parse(a).Ok?
    ensures var file := FileOf(SortedBody(BodyIn(a)));
            Parse(file).Ok? && BodyIn(file) == SortedBody(BodyIn(a)) && Parse(file) == Parse(a)
  {
    AcceptedIsWritable(a);
    var b := BodyIn(a);
    SortedBodyWritable(b);
    WritableIsAccepted(SortedBody(b));
    BodyReadsBack(ProgramOf(b), SortedOrders(ProgramOf(b).selector));
  }

  lemma SameFileIff(a: bytes, file: bytes)
    requires Parse(a).Ok? && Parse(file).Ok? && BodyIn(file) == SortedBody(BodyIn(a))
    ensures a == file <==> KeysAscend(BodyIn(a))
  {
    SortedBodyIff(BodyIn(a));
    ParseAlikeIff(a, file);
  }

  /** Every accepted file has the compiler's file of its program beside it, which is accepted too
      and parses alike ... */
  lemma CompilerFileParses(a: bytes)
    requires Parse(a).Ok?
    ensures Parse(CompilerFile(Parse(a).value)) == Parse(a)
    ensures BodyIn(CompilerFile(Parse(a).value)) == SortedBody(BodyIn(a))
  {
    CompilerFileOf(a);
    SortedFile(a);
  }

  /** ... and the two are the same file exactly when the keys of every selector ascend. */
  lemma CanonicalIff(a: bytes)
    requires Parse(a).Ok?
    ensures a == CompilerFile(Parse(a).value) <==> KeysAscend(BodyIn(a))
  {
    CompilerFileParses(a);
    SameFileIff(a, CompilerFile(Parse(a).value));
  }

  // ---- Two files of one program ----------------------------------------------------

  /** An enforcing policy that denies nothing and selects clusters by these labels. */
  function Selecting(pairs: seq<(string, string)>): Body {
    Body(
      Head(Enforce, false, 0, Fail, Privileged), SupplySpec(false, false, false, []),
      AdmitDeny(false, false, false, false, false, false, false, false, false, []), AdmitMutate(false, false, false),
      Scope((pairs, []), ([], []), ([], []), ([], []), ImageSelector([], false)))
  }

  lemma SelectingFile(pairs: seq<(string, string)>) returns (file: bytes)
    requires LabelsFit(pairs)
    ensures Parse(file) == Ok(ProgramOf(Selecting(pairs))) && LabelsOf(BodyIn(file), Cluster) == pairs
  {
    WritableIsAccepted(Selecting(pairs));
    file := FileOf(Selecting(pairs));
  }

  lemma TwoLabels(p: (string, string), q: (string, string))
    requires p.0 != q.0
    ensures MapOf([p, q]) == MapOf([q, p]) == MapOf([p, q, p])
  {
    SwappedFirst(p, q, []);
    SwappedFirst(p, q, [p]);
    OverriddenFirst(p, p, []);
    MapOfCons(q, [p] + ([p] + []));
    MapOfCons(q, [p] + []);
    assert [p, q] == [p] + ([q] + []) && [q, p] == [q] + ([p] + []) && [p, q, p] == [p] + ([q] + [p]) && [p] + [] == [p];
  }

  lemma ShortLabels()
    ensures LabelsFit([("a", "x"), ("b", "y")]) && LabelsFit([("b", "y"), ("a", "x")])
    ensures LabelsFit([("a", "x"), ("b", "y"), ("a", "x")])
  {
    assert StrOk("a") && StrOk("b") && StrOk("x") && StrOk("y");
  }

  /** The parser is not injective: three different files that all parse to the same program, by
      label order alone and by a label that comes twice. */
  lemma ThreeFilesOneProgram() returns (a: bytes, b: bytes, c: bytes)
    ensures Parse(a).Ok? && Parse(a) == Parse(b) == Parse(c)
    ensures a != b && b != c && a != c
  {
    var p, q := ("a", "x"), ("b", "y");
    ShortLabels();
    TwoLabels(p, q);
    a := SelectingFile([p, q]);
    b := SelectingFile([q, p]);
    c := SelectingFile([p, q, p]);
    assert [p, q][0] != [q, p][0];
  }
}
