/** The compiled admission program: its bytes, read and written. */
module Fadm {
  import opened Wrappers
  import opened Text
  import opened Policy
  import opened Wire
  import opened Parsers

  const MAGIC: bytes := [70, 65, 68, 77]
  const ADMISSION_ABI: nat := 1

  // ---- One byte, one number --------------------------------------------------------

  function BoolOf(x: byte): Option<bool> {
    if x == 0 then Some(false) else if x == 1 then Some(true) else None
  }

  function BoolByte(v: bool): byte {
    if v then 1 else 0
  }

  function ModeOf(x: byte): Option<PolicyMode> {
    if x == 0 then Some(Observe) else if x == 1 then Some(Audit) else if x == 2 then Some(Enforce) else None
  }

  function ModeByte(m: PolicyMode): byte {
    match m case Observe => 0 case Audit => 1 case Enforce => 2
  }

  function FailureOf(x: byte): Option<FailurePolicy> {
    if x == 0 then Some(Fail) else if x == 1 then Some(Ignore) else None
  }

  function FailureByte(f: FailurePolicy): byte {
    match f case Fail => 0 case Ignore => 1
  }

  function PssOf(x: byte): Option<PssProfile> {
    if x == 0 then Some(Privileged) else if x == 1 then Some(Baseline)
    else if x == 2 then Some(Restricted) else if x == 3 then Some(Custom) else None
  }

  function PssByte(p: PssProfile): byte {
    match p case Privileged => 0 case Baseline => 1 case Restricted => 2 case Custom => 3
  }

  /** `i32::from_le_bytes`. */
  function Signed(n: nat): Option<int> {
    Some(if n < 0x8000_0000 then n else n - 0x1_0000_0000)
  }

  function Unsigned(i: int): nat {
    if i >= 0 then i else if i >= -0x1_0000_0000 then i + 0x1_0000_0000 else 0
  }

  function Bool(): Codec<bool> {
    Whole(Byte(), BoolOf, BoolByte)
  }

  function I32(): Codec<int> {
    Whole(U32(), Signed, Unsigned)
  }

  function Strs(): Codec<seq<string>> {
    ListOf(Str())
  }

  function Flags(n: nat): Codec<seq<bool>> {
    Repeat(n, Bool())
  }

  lemma BoolLawful()
    ensures Lawful(Bool())
  {
    ByteLawful();
    WholeLawful(Byte(), BoolOf, BoolByte);
  }

  lemma StrsLawful()
    ensures Lawful(Strs())
  {
    StrLawful();
    ListLawful(Str());
  }

  lemma FlagsLawful(n: nat)
    ensures Lawful(Flags(n))
  {
    BoolLawful();
    RepeatLawful(n, Bool());
  }

  // ---- The header ------------------------------------------------------------------

  datatype Head = Head(mode: PolicyMode, disabled: bool, priority: int, failurePolicy: FailurePolicy, pss: PssProfile)

  type HeadParts = ((PolicyMode, bool), (int, (FailurePolicy, PssProfile)))

  function HeadOf(t: HeadParts): Option<Head> {
    Some(Head(t.0.0, t.0.1, t.1.0, t.1.1.0, t.1.1.1))
  }

  function PartsOfHead(h: Head): HeadParts {
    ((h.mode, h.disabled), (h.priority, (h.failurePolicy, h.pss)))
  }

  function Mode(): Codec<PolicyMode> {
    Whole(Byte(), ModeOf, ModeByte)
  }

  function Policies(): Codec<(FailurePolicy, PssProfile)> {
    Pair(Whole(Byte(), FailureOf, FailureByte), Whole(Byte(), PssOf, PssByte))
  }

  function HeadCodec(): Codec<Head> {
    Whole(Pair(Pair(Mode(), Bool()), Pair(I32(), Policies())), HeadOf, PartsOfHead)
  }

  lemma HeadLawful()
    ensures Lawful(HeadCodec())
  {
    ByteLawful();
    BoolLawful();
    U32Lawful();
    WholeLawful(Byte(), ModeOf, ModeByte);
    PairLawful(Mode(), Bool());
    WholeLawful(U32(), Signed, Unsigned);
    WholeLawful(Byte(), FailureOf, FailureByte);
    WholeLawful(Byte(), PssOf, PssByte);
    PairLawful(Whole(Byte(), FailureOf, FailureByte), Whole(Byte(), PssOf, PssByte));
    PairLawful(I32(), Policies());
    PairLawful(Pair(Mode(), Bool()), Pair(I32(), Policies()));
    WholeLawful(Pair(Pair(Mode(), Bool()), Pair(I32(), Policies())), HeadOf, PartsOfHead);
  }

  // ---- decode_supply ---------------------------------------------------------------

  function RootOf(t: (string, (seq<string>, seq<string>))): Option<TrustRoot> {
    Some(TrustRoot(t.0, t.1.0, t.1.1))
  }

  function PartsOfRoot(r: TrustRoot): (string, (seq<string>, seq<string>)) {
    (r.name, (r.keylessIssuerAllow, r.publicKeys))
  }

  function RootCodec(): Codec<TrustRoot> {
    Whole(Pair(Str(), Pair(Strs(), Strs())), RootOf, PartsOfRoot)
  }

  function SupplyOf(t: (seq<bool>, seq<TrustRoot>)): Option<SupplySpec> {
    if |t.0| != 3 then None else Some(SupplySpec(t.0[0], t.0[1], t.0[2], t.1))
  }

  function PartsOfSupply(s: SupplySpec): (seq<bool>, seq<TrustRoot>) {
    ([s.requireSigned, s.denyUnsigned, s.denyLatestTag], s.trustRoots)
  }

  function SupplyCodec(): Codec<SupplySpec> {
    Whole(Pair(Flags(3), ListOf(RootCodec())), SupplyOf, PartsOfSupply)
  }

  lemma RootLawful()
    ensures Lawful(RootCodec())
  {
    StrLawful();
    StrsLawful();
    PairLawful(Strs(), Strs());
    PairLawful(Str(), Pair(Strs(), Strs()));
    WholeLawful(Pair(Str(), Pair(Strs(), Strs())), RootOf, PartsOfRoot);
  }

  lemma SupplyLawful()
    ensures Lawful(SupplyCodec())
  {
    FlagsLawful(3);
    RootLawful();
    ListLawful(RootCodec());
    PairLawful(Flags(3), ListOf(RootCodec()));
    WholeLawful(Pair(Flags(3), ListOf(RootCodec())), SupplyOf, PartsOfSupply);
  }

  // ---- decode_deny, decode_mutate --------------------------------------------------

  function DenyOf(t: (seq<bool>, seq<string>)): Option<AdmitDeny> {
    var f := t.0;
    if |f| != 9 then None else Some(AdmitDeny(f[0], f[1], f[2], f[3], f[4], f[5], f[6], f[7], f[8], t.1))
  }

  function PartsOfDeny(d: AdmitDeny): (seq<bool>, seq<string>) {
    ([d.privileged, d.hostPid, d.hostIpc, d.hostNetwork, d.hostPath, d.allowPrivilegeEscalation, d.runAsRoot,
      d.wildcardsRbac, d.clusterAdminBind], d.addedCapabilities)
  }

  function DenyCodec(): Codec<AdmitDeny> {
    Whole(Pair(Flags(9), Strs()), DenyOf, PartsOfDeny)
  }

  function MutateOf(f: seq<bool>): Option<AdmitMutate> {
    if |f| != 3 then None else Some(AdmitMutate(f[0], f[1], f[2]))
  }

  function PartsOfMutate(m: AdmitMutate): seq<bool> {
    [m.injectSeccompRuntimeDefault, m.dropAllCapabilities, m.readOnlyRootFilesystem]
  }

  function MutateCodec(): Codec<AdmitMutate> {
    Whole(Flags(3), MutateOf, PartsOfMutate)
  }

  lemma DenyLawful()
    ensures Lawful(DenyCodec())
  {
    FlagsLawful(9);
    StrsLawful();
    PairLawful(Flags(9), Strs());
    WholeLawful(Pair(Flags(9), Strs()), DenyOf, PartsOfDeny);
  }

  lemma MutateLawful()
    ensures Lawful(MutateCodec())
  {
    FlagsLawful(3);
    WholeLawful(Flags(3), MutateOf, PartsOfMutate);
  }

  // ---- decode_label_selector, decode_selector --------------------------------------

  function RequirementOf(t: (string, (string, seq<string>))): Option<Requirement> {
    Some(Requirement(t.0, t.1.0, t.1.1))
  }

  function PartsOfRequirement(r: Requirement): (string, (string, seq<string>)) {
    (r.key, (r.operator, r.values))
  }

  function RequirementCodec(): Codec<Requirement> {
    Whole(Pair(Str(), Pair(Str(), Strs())), RequirementOf, PartsOfRequirement)
  }

  /** A selector as written: its labels in some order, where a key may come twice. */
  type Written = (seq<(string, string)>, seq<Requirement>)

  function WrittenCodec(): Codec<Written> {
    Pair(ListOf(Pair(Str(), Str())), ListOf(RequirementCodec()))
  }

  datatype Scope = Scope(cluster: Written, namespace: Written, workload: Written, serviceAccount: Written, image: ImageSelector)

  type ScopeParts = (((Written, Written), (Written, Written)), (seq<string>, bool))

  function ScopeOf(t: ScopeParts): Option<Scope> {
    Some(Scope(t.0.0.0, t.0.0.1, t.0.1.0, t.0.1.1, ImageSelector(t.1.0, t.1.1)))
  }

  function PartsOfScope(s: Scope): ScopeParts {
    (((s.cluster, s.namespace), (s.workload, s.serviceAccount)), (s.image.registriesAllow, s.image.requireDigest))
  }

  function FourWritten(): Codec<((Written, Written), (Written, Written))> {
    Pair(Pair(WrittenCodec(), WrittenCodec()), Pair(WrittenCodec(), WrittenCodec()))
  }

  function ScopeCodec(): Codec<Scope> {
    Whole(Pair(FourWritten(), Pair(Strs(), Bool())), ScopeOf, PartsOfScope)
  }

  lemma WrittenLawful()
    ensures Lawful(WrittenCodec())
  {
    StrLawful();
    StrsLawful();
    PairLawful(Str(), Str());
    ListLawful(Pair(Str(), Str()));
    PairLawful(Str(), Strs());
    PairLawful(Str(), Pair(Str(), Strs()));
    WholeLawful(Pair(Str(), Pair(Str(), Strs())), RequirementOf, PartsOfRequirement);
    ListLawful(RequirementCodec());
    PairLawful(ListOf(Pair(Str(), Str())), ListOf(RequirementCodec()));
  }

  lemma ScopeLawful()
    ensures Lawful(ScopeCodec())
  {
    WrittenLawful();
    StrsLawful();
    BoolLawful();
    PairLawful(WrittenCodec(), WrittenCodec());
    PairLawful(Pair(WrittenCodec(), WrittenCodec()), Pair(WrittenCodec(), WrittenCodec()));
    PairLawful(Strs(), Bool());
    PairLawful(FourWritten(), Pair(Strs(), Bool()));
    WholeLawful(Pair(FourWritten(), Pair(Strs(), Bool())), ScopeOf, PartsOfScope);
  }

  // ---- parse_program ---------------------------------------------------------------

  datatype Body = Body(head: Head, supply: SupplySpec, deny: AdmitDeny, mutate: AdmitMutate, scope: Scope)

  type BodyParts = ((Head, SupplySpec), ((AdmitDeny, AdmitMutate), Scope))

  function BodyOf(t: BodyParts): Option<Body> {
    Some(Body(t.0.0, t.0.1, t.1.0.0, t.1.0.1, t.1.1))
  }

  function PartsOfBody(b: Body): BodyParts {
    ((b.head, b.supply), ((b.deny, b.mutate), b.scope))
  }

  function BodyCodec(): Codec<Body> {
    Whole(Pair(Pair(HeadCodec(), SupplyCodec()), Pair(Pair(DenyCodec(), MutateCodec()), ScopeCodec())), BodyOf, PartsOfBody)
  }

  lemma BodyLawful()
    ensures Lawful(BodyCodec())
  {
    HeadLawful();
    SupplyLawful();
    DenyLawful();
    MutateLawful();
    ScopeLawful();
    PairLawful(HeadCodec(), SupplyCodec());
    PairLawful(DenyCodec(), MutateCodec());
    PairLawful(Pair(DenyCodec(), MutateCodec()), ScopeCodec());
    PairLawful(Pair(HeadCodec(), SupplyCodec()), Pair(Pair(DenyCodec(), MutateCodec()), ScopeCodec()));
    WholeLawful(Pair(Pair(HeadCodec(), SupplyCodec()), Pair(Pair(DenyCodec(), MutateCodec()), ScopeCodec())), BodyOf, PartsOfBody);
  }

  function MagicOf(m: bytes): Option<()> {
    if m == MAGIC then Some(()) else None
  }

  function AbiOf(n: nat): Option<()> {
    if n == ADMISSION_ABI then Some(()) else None
  }

  function Magic(): Codec<()> {
    Whole(Repeat(4, Byte()), MagicOf, _ => MAGIC)
  }

  function Abi(): Codec<()> {
    Whole(U32(), AbiOf, _ => ADMISSION_ABI)
  }

  function FileCodec(): Codec<(((), ()), Body)> {
    Pair(Pair(Magic(), Abi()), BodyCodec())
  }

  lemma FileLawful()
    ensures Lawful(FileCodec())
  {
    ByteLawful();
    RepeatLawful(4, Byte());
    WholeLawful(Repeat(4, Byte()), MagicOf, (_: ()) => MAGIC);
    U32Lawful();
    WholeLawful(U32(), AbiOf, (_: ()) => ADMISSION_ABI);
    PairLawful(Magic(), Abi());
    BodyLawful();
    PairLawful(Pair(Magic(), Abi()), BodyCodec());
  }

  /** Labels are inserted one by one: a key that comes twice keeps its last value. */
  function MapOf(pairs: seq<(string, string)>): Labels {
    if pairs == [] then map[]
    else MapOf(pairs[..|pairs| - 1])[pairs[|pairs| - 1].0 := pairs[|pairs| - 1].1]
  }

  function SelectorOf(w: Written): LabelSelector {
    LabelSelector(MapOf(w.0), w.1)
  }

  function SelectorsOf(s: Scope): PolicySelector {
    PolicySelector(SelectorOf(s.cluster), SelectorOf(s.namespace), SelectorOf(s.workload), SelectorOf(s.serviceAccount), s.image)
  }

  function ProgramOf(b: Body): AdmissionProgram {
    AdmissionProgram(
      b.head.mode, b.head.disabled, b.head.priority, b.supply,
      AdmitSpec(b.head.failurePolicy, b.head.pss, b.deny, b.mutate), SelectorsOf(b.scope))
  }

  function ParseBy(get: bytes -> Read<(((), ()), Body)>, b: bytes): Result<AdmissionProgram> {
    if b == [] then Err(Integrity)
    else
      match get(b)
      case Short => Err(Compile)
      case Got(file, rest) => if rest != [] then Err(Compile) else Ok(ProgramOf(file.1))
  }

  /** `parse_program`. */
  function Parse(b: bytes): Result<AdmissionProgram> {
    ParseBy(FileCodec().get, b)
  }

  lemma PrefixFreeBy(get: bytes -> Read<(((), ()), Body)>, a: bytes, b: bytes)
    requires Stable(get) && ParseBy(get, a).Ok? && a <= b && a != b
    ensures ParseBy(get, b) == Err(Compile)
  {
    var extra := b[|a|..];
    assert b == a + extra;
    assert get(a + extra) == Got(get(a).value, [] + extra);
  }

  /** Of two accepted programs neither is a proper prefix of the other: every strict extension
      of an accepted program is refused, and so is every strict prefix. */
  lemma ParsePrefixFree(a: bytes, b: bytes)
    requires a <= b && a != b
    ensures Parse(a).Ok? ==> Parse(b) == Err(Compile)
    ensures Parse(b).Ok? ==> Parse(a).Err?
  {
    FileLawful();
    if Parse(a).Ok? {
      PrefixFreeBy(FileCodec().get, a, b);
    }
  }

  // ---- Writing ---------------------------------------------------------------------

  /** The order each selector's labels are written in. The compiler's maps are sorted by key;
      any order that lists every key reads back the same. */
  datatype Orders = Orders(cluster: seq<string>, namespace: seq<string>, workload: seq<string>, serviceAccount: seq<string>)

  predicate Lists(order: seq<string>, m: Labels) {
    (forall i :: 0 <= i < |order| ==> order[i] in m) && forall k :: k in m ==> k in order
  }

  function WrittenFor(sel: LabelSelector, order: seq<string>): Written
    requires Lists(order, sel.matchLabels)
  {
    (seq(|order|, i requires 0 <= i < |order| => (order[i], sel.matchLabels[order[i]])), sel.matchExpressions)
  }

  predicate ListsAll(o: Orders, s: PolicySelector) {
    && Lists(o.cluster, s.cluster.matchLabels) && Lists(o.namespace, s.namespace.matchLabels)
    && Lists(o.workload, s.workload.matchLabels) && Lists(o.serviceAccount, s.serviceAccount.matchLabels)
  }

  function BodyFor(p: AdmissionProgram, o: Orders): Body
    requires ListsAll(o, p.selector)
  {
    Body(
      Head(p.mode, p.disabled, p.priority, p.admit.failurePolicy, p.admit.pss), p.supply, p.admit.deny, p.admit.mutate,
      Scope(WrittenFor(p.selector.cluster, o.cluster), WrittenFor(p.selector.namespace, o.namespace),
            WrittenFor(p.selector.workload, o.workload), WrittenFor(p.selector.serviceAccount, o.serviceAccount),
            p.selector.image))
  }

  /** `encode_admission`. */
  function Encoded(p: AdmissionProgram, o: Orders): bytes
    requires ListsAll(o, p.selector)
  {
    FileCodec().put((((), ()), BodyFor(p, o)))
  }

  lemma {:induction false} MapOfPairs(pairs: seq<(string, string)>, m: Labels)
    requires forall i :: 0 <= i < |pairs| ==> pairs[i].0 in m && m[pairs[i].0] == pairs[i].1
    ensures MapOf(pairs).Keys == set i | 0 <= i < |pairs| :: pairs[i].0
    ensures forall k :: k in MapOf(pairs) ==> k in m && MapOf(pairs)[k] == m[k]
  {
    if pairs != [] {
      var init, last := pairs[..|pairs| - 1], pairs[|pairs| - 1];
      MapOfPairs(init, m);
      assert (set i | 0 <= i < |pairs| :: pairs[i].0) == (set i | 0 <= i < |init| :: init[i].0) + {last.0};
    }
  }

  lemma WrittenReadsBack(sel: LabelSelector, order: seq<string>)
    requires Lists(order, sel.matchLabels)
    ensures SelectorOf(WrittenFor(sel, order)) == sel
  {
    var pairs := WrittenFor(sel, order).0;
    MapOfPairs(pairs, sel.matchLabels);
    forall k | k in sel.matchLabels ensures k in MapOf(pairs) {
      var i :| 0 <= i < |order| && order[i] == k;
      assert pairs[i].0 == k;
    }
    assert MapOf(pairs) == sel.matchLabels;
  }

  lemma BodyReadsBack(p: AdmissionProgram, o: Orders)
    requires ListsAll(o, p.selector)
    ensures ProgramOf(BodyFor(p, o)) == p
  {
    WrittenReadsBack(p.selector.cluster, o.cluster);
    WrittenReadsBack(p.selector.namespace, o.namespace);
    WrittenReadsBack(p.selector.workload, o.workload);
    WrittenReadsBack(p.selector.serviceAccount, o.serviceAccount);
  }

  // ---- Which programs can be written -----------------------------------------------

  predicate StrsFit(xs: seq<string>) {
    |xs| <= U16_MAX && forall i :: 0 <= i < |xs| ==> StrOk(xs[i])
  }

  predicate RootFits(r: TrustRoot) {
    StrOk(r.name) && StrsFit(r.keylessIssuerAllow) && StrsFit(r.publicKeys)
  }

  predicate LabelsFit(pairs: seq<(string, string)>) {
    |pairs| <= U16_MAX && forall i :: 0 <= i < |pairs| ==> StrOk(pairs[i].0) && StrOk(pairs[i].1)
  }

  predicate RequirementFits(e: Requirement) {
    StrOk(e.key) && StrOk(e.operator) && StrsFit(e.values)
  }

  predicate WrittenFits(w: Written) {
    LabelsFit(w.0) && |w.1| <= U16_MAX && forall i :: 0 <= i < |w.1| ==> RequirementFits(w.1[i])
  }

  predicate SelectorFits(sel: LabelSelector, order: seq<string>)
    requires Lists(order, sel.matchLabels)
  {
    WrittenFits(WrittenFor(sel, order))
  }

  /** Every length and count fits its u16, and the priority its i32. */
  predicate Fits(p: AdmissionProgram, o: Orders)
    requires ListsAll(o, p.selector)
  {
    && -0x8000_0000 <= p.priority < 0x8000_0000
    && |p.supply.trustRoots| <= U16_MAX && (forall i :: 0 <= i < |p.supply.trustRoots| ==> RootFits(p.supply.trustRoots[i]))
    && StrsFit(p.admit.deny.addedCapabilities)
    && SelectorFits(p.selector.cluster, o.cluster) && SelectorFits(p.selector.namespace, o.namespace)
    && SelectorFits(p.selector.workload, o.workload) && SelectorFits(p.selector.serviceAccount, o.serviceAccount)
    && StrsFit(p.selector.image.registriesAllow)
  }

  lemma StrsFitCodec(xs: seq<string>)
    requires StrsFit(xs)
    ensures Strs().ok(xs)
  {
    ListFits(Str(), xs);
  }

  lemma BoolFits(v: bool)
    ensures Bool().ok(v)
  {
    WholeFits(Byte(), BoolOf, BoolByte, v);
  }

  lemma FlagsFit(n: nat, f: seq<bool>)
    requires |f| == n
    ensures Flags(n).ok(f)
  {
    forall i | 0 <= i < n ensures Bool().ok(f[i]) {
      BoolFits(f[i]);
    }
    RepeatFits(n, Bool(), f);
  }

  lemma HeadFits(h: Head)
    requires -0x8000_0000 <= h.priority < 0x8000_0000
    ensures HeadCodec().ok(h)
  {
    WholeFits(Byte(), ModeOf, ModeByte, h.mode);
    BoolFits(h.disabled);
    PairFits(Mode(), Bool(), h.mode, h.disabled);
    WholeFits(U32(), Signed, Unsigned, h.priority);
    WholeFits(Byte(), FailureOf, FailureByte, h.failurePolicy);
    WholeFits(Byte(), PssOf, PssByte, h.pss);
    PairFits(Whole(Byte(), FailureOf, FailureByte), Whole(Byte(), PssOf, PssByte), h.failurePolicy, h.pss);
    PairFits(I32(), Policies(), h.priority, (h.failurePolicy, h.pss));
    PairFits(Pair(Mode(), Bool()), Pair(I32(), Policies()), (h.mode, h.disabled), (h.priority, (h.failurePolicy, h.pss)));
    WholeFits(Pair(Pair(Mode(), Bool()), Pair(I32(), Policies())), HeadOf, PartsOfHead, h);
  }

  lemma RootFitsCodec(r: TrustRoot)
    requires RootFits(r)
    ensures RootCodec().ok(r)
  {
    StrsFitCodec(r.keylessIssuerAllow);
    StrsFitCodec(r.publicKeys);
    PairFits(Strs(), Strs(), r.keylessIssuerAllow, r.publicKeys);
    PairFits(Str(), Pair(Strs(), Strs()), r.name, (r.keylessIssuerAllow, r.publicKeys));
    WholeFits(Pair(Str(), Pair(Strs(), Strs())), RootOf, PartsOfRoot, r);
  }

  lemma SupplyFits(s: SupplySpec)
    requires |s.trustRoots| <= U16_MAX && forall i :: 0 <= i < |s.trustRoots| ==> RootFits(s.trustRoots[i])
    ensures SupplyCodec().ok(s)
  {
    forall i | 0 <= i < |s.trustRoots| ensures RootCodec().ok(s.trustRoots[i]) {
      RootFitsCodec(s.trustRoots[i]);
    }
    ListFits(RootCodec(), s.trustRoots);
    var flags := PartsOfSupply(s).0;
    FlagsFit(3, flags);
    PairFits(Flags(3), ListOf(RootCodec()), flags, s.trustRoots);
    WholeFits(Pair(Flags(3), ListOf(RootCodec())), SupplyOf, PartsOfSupply, s);
  }

  lemma DenyFits(d: AdmitDeny)
    requires StrsFit(d.addedCapabilities)
    ensures DenyCodec().ok(d)
  {
    var flags := PartsOfDeny(d).0;
    FlagsFit(9, flags);
    StrsFitCodec(d.addedCapabilities);
    PairFits(Flags(9), Strs(), flags, d.addedCapabilities);
    WholeFits(Pair(Flags(9), Strs()), DenyOf, PartsOfDeny, d);
  }

  lemma MutateFits(m: AdmitMutate)
    ensures MutateCodec().ok(m)
  {
    FlagsFit(3, PartsOfMutate(m));
    WholeFits(Flags(3), MutateOf, PartsOfMutate, m);
  }

  lemma RequirementFitsCodec(r: Requirement)
    requires RequirementFits(r)
    ensures RequirementCodec().ok(r)
  {
    StrsFitCodec(r.values);
    PairFits(Str(), Strs(), r.operator, r.values);
    PairFits(Str(), Pair(Str(), Strs()), r.key, (r.operator, r.values));
    WholeFits(Pair(Str(), Pair(Str(), Strs())), RequirementOf, PartsOfRequirement, r);
  }

  lemma WrittenFitsCodec(w: Written)
    requires WrittenFits(w)
    ensures WrittenCodec().ok(w)
  {
    forall i | 0 <= i < |w.0| ensures Pair(Str(), Str()).ok(w.0[i]) {
      PairFits(Str(), Str(), w.0[i].0, w.0[i].1);
    }
    ListFits(Pair(Str(), Str()), w.0);
    forall i | 0 <= i < |w.1| ensures RequirementCodec().ok(w.1[i]) {
      RequirementFitsCodec(w.1[i]);
    }
    ListFits(RequirementCodec(), w.1);
    PairFits(ListOf(Pair(Str(), Str())), ListOf(RequirementCodec()), w.0, w.1);
  }

  lemma ScopeFits(s: Scope)
    requires WrittenCodec().ok(s.cluster) && WrittenCodec().ok(s.namespace)
    requires WrittenCodec().ok(s.workload) && WrittenCodec().ok(s.serviceAccount) && StrsFit(s.image.registriesAllow)
    ensures ScopeCodec().ok(s)
  {
    var c := WrittenCodec();
    PairFits(c, c, s.cluster, s.namespace);
    PairFits(c, c, s.workload, s.serviceAccount);
    PairFits(Pair(c, c), Pair(c, c), (s.cluster, s.namespace), (s.workload, s.serviceAccount));
    StrsFitCodec(s.image.registriesAllow);
    BoolFits(s.image.requireDigest);
    PairFits(Strs(), Bool(), s.image.registriesAllow, s.image.requireDigest);
    PairFits(FourWritten(), Pair(Strs(), Bool()), PartsOfScope(s).0, PartsOfScope(s).1);
    WholeFits(Pair(FourWritten(), Pair(Strs(), Bool())), ScopeOf, PartsOfScope, s);
  }

  lemma BodyFits(b: Body)
    requires HeadCodec().ok(b.head) && SupplyCodec().ok(b.supply) && DenyCodec().ok(b.deny) && ScopeCodec().ok(b.scope)
    ensures BodyCodec().ok(b)
  {
    MutateFits(b.mutate);
    PairFits(HeadCodec(), SupplyCodec(), b.head, b.supply);
    PairFits(DenyCodec(), MutateCodec(), b.deny, b.mutate);
    PairFits(Pair(DenyCodec(), MutateCodec()), ScopeCodec(), (b.deny, b.mutate), b.scope);
    var p, q := Pair(HeadCodec(), SupplyCodec()), Pair(Pair(DenyCodec(), MutateCodec()), ScopeCodec());
    PairFits(p, q, (b.head, b.supply), ((b.deny, b.mutate), b.scope));
    WholeFits(Pair(p, q), BodyOf, PartsOfBody, b);
  }

  lemma FileFits(b: Body)
    requires BodyCodec().ok(b)
    ensures FileCodec().ok((((), ()), b))
  {
    RepeatFits(4, Byte(), MAGIC);
    WholeFits(Repeat(4, Byte()), MagicOf, (_: ()) => MAGIC, ());
    WholeFits(U32(), AbiOf, (_: ()) => ADMISSION_ABI, ());
    PairFits(Magic(), Abi(), (), ());
    PairFits(Pair(Magic(), Abi()), BodyCodec(), ((), ()), b);
  }

  lemma SelectorsFit(p: AdmissionProgram, o: Orders)
    requires ListsAll(o, p.selector) && Fits(p, o)
    ensures ScopeCodec().ok(BodyFor(p, o).scope)
  {
    var scope := BodyFor(p, o).scope;
    WrittenFitsCodec(scope.cluster);
    WrittenFitsCodec(scope.namespace);
    WrittenFitsCodec(scope.workload);
    WrittenFitsCodec(scope.serviceAccount);
    ScopeFits(scope);
  }

  lemma ProgramFits(p: AdmissionProgram, o: Orders)
    requires ListsAll(o, p.selector) && Fits(p, o)
    ensures FileCodec().ok((((), ()), BodyFor(p, o)))
  {
    var b := BodyFor(p, o);
    HeadFits(b.head);
    SupplyFits(b.supply);
    DenyFits(b.deny);
    SelectorsFit(p, o);
    BodyFits(b);
    FileFits(b);
  }

  lemma RoundTripBy(c: Codec<(((), ()), Body)>, b: Body)
    requires Lawful(c) && c.ok((((), ()), b)) && c.put((((), ()), b)) != []
    ensures ParseBy(c.get, c.put((((), ()), b))) == Ok(ProgramOf(b))
  {
    var file := (((), ()), b);
    assert c.put(file) + [] == c.put(file);
    assert c.get(c.put(file) + []) == Got(file, []);
  }

  lemma PairPutLength<A, B>(c: Codec<A>, d: Codec<B>, x: A, y: B)
    ensures |Pair(c, d).put((x, y))| == |c.put(x)| + |d.put(y)|
  {
  }

  lemma MagicNonempty()
    ensures |Magic().put(())| > 0
  {
    assert PutEach(PutByte, MAGIC) == PutByte(MAGIC[0]) + PutEach(PutByte, MAGIC[1..]);
  }

  lemma FileNonempty(b: Body)
    ensures FileCodec().put((((), ()), b)) != []
  {
    MagicNonempty();
    PairPutLength(Magic(), Abi(), (), ());
    PairPutLength(Pair(Magic(), Abi()), BodyCodec(), ((), ()), b);
  }

  /** Parsing the encoding of a program, its labels written in any order, gives the program back. */
  lemma ParseEncoded(p: AdmissionProgram, o: Orders)
    requires ListsAll(o, p.selector) && Fits(p, o)
    ensures Parse(Encoded(p, o)) == Ok(p)
  {
    FileLawful();
    ProgramFits(p, o);
    FileNonempty(BodyFor(p, o));
    RoundTripBy(FileCodec(), BodyFor(p, o));
    BodyReadsBack(p, o);
  }
}
