/**
 The JSON Patch a mutating decision answers with. Every operation is computed against the
 original object and they are applied one after another, so whether they compose is a fact
 about the object. This module builds the operations; `Compose` proves which objects they compose on.
 */
module PodPatch {
  import opened Wrappers
  import opened Json
  import opened Pointer
  import opened Patch

  datatype Kind = InjectSeccompRuntimeDefault | DropAllCapabilities | ReadOnlyRootFilesystem

  const LISTS: seq<string> := ["containers", "initContainers", "ephemeralContainers"]

  function Below(k: Kind): Tokens {
    match k
    case InjectSeccompRuntimeDefault => ["securityContext", "seccompProfile"]
    case DropAllCapabilities => ["securityContext", "capabilities", "drop"]
    case ReadOnlyRootFilesystem => ["securityContext", "readOnlyRootFilesystem"]
  }

  function BelowText(k: Kind): string {
    match k
    case InjectSeccompRuntimeDefault => "/" + "securityContext" + "/" + "seccompProfile"
    case DropAllCapabilities => "/" + "securityContext" + "/" + "capabilities" + "/" + "drop"
    case ReadOnlyRootFilesystem => "/" + "securityContext" + "/" + "readOnlyRootFilesystem"
  }

  function Wanted(k: Kind): Json {
    match k
    case InjectSeccompRuntimeDefault => Obj(map["type" := Str("RuntimeDefault")])
    case DropAllCapabilities => Arr([Str("ALL")])
    case ReadOnlyRootFilesystem => Bool(true)
  }

  // ---- The operations, as the webhook builds them ----------------------------------

  function ListLength(doc: Json, key: string): nat {
    match Lookup(doc, "/spec/" + key)
    case Some(Arr(items)) => |items|
    case _ => 0
  }

  function ListPaths(key: string, n: nat): (ps: seq<string>)
    ensures |ps| == n
    ensures forall i :: 0 <= i < n ==> ps[i] == "/spec/" + key + "/" + Decimal(i)
  {
    seq(n, i requires 0 <= i => "/spec/" + key + "/" + Decimal(i))
  }

  /** The pointers of the containers in the first `k` lists. */
  function PathsUpTo(doc: Json, k: nat): seq<string>
    requires k <= |LISTS|
  {
    if k == 0 then []
    else PathsUpTo(doc, k - 1) + ListPaths(LISTS[k - 1], ListLength(doc, LISTS[k - 1]))
  }

  function ContainerPaths(doc: Json): seq<string> {
    PathsUpTo(doc, |LISTS|)
  }

  /** `container_paths`: one pointer per element of the three container lists. */
  method CollectPaths(doc: Json) returns (paths: seq<string>)
    ensures paths == ContainerPaths(doc)
  {
    paths := [];
    var k := 0;
    while k < |LISTS|
      invariant 0 <= k <= |LISTS|
      invariant paths == PathsUpTo(doc, k)
    {
      paths := PushPaths(paths, LISTS[k], ListLength(doc, LISTS[k]));
      k := k + 1;
    }
  }

  method PushPaths(before: seq<string>, key: string, n: nat) returns (paths: seq<string>)
    ensures paths == before + ListPaths(key, n)
  {
    paths := before;
    var i := 0;
    while i < n
      invariant 0 <= i <= n
      invariant paths == before + ListPaths(key, i)
    {
      paths := paths + ["/spec/" + key + "/" + Decimal(i)];
      i := i + 1;
    }
  }

  /** The add that gives the node at `path` what a patch kind wants. The pod itself is the
      node "/spec": its seccomp profile sits where a container's does. */
  function OpFor(doc: Json, k: Kind): string -> Op {
    path => AddNested(doc, path + BelowText(k), Wanted(k))
  }

  function Each<A, B>(xs: seq<A>, build: A -> B): (ys: seq<B>)
    ensures |ys| == |xs|
    ensures forall i :: 0 <= i < |xs| ==> ys[i] == build(xs[i])
  {
    seq(|xs|, i requires 0 <= i < |xs| => build(xs[i]))
  }

  /** The nodes a patch kind touches: seccomp the pod and its containers, the others only containers. */
  function Nodes(kinds: set<Kind>, k: Kind, paths: seq<string>): seq<string> {
    if k !in kinds then []
    else if k == InjectSeccompRuntimeDefault then ["/spec"] + paths
    else paths
  }

  function KindOps(kinds: set<Kind>, k: Kind, doc: Json, paths: seq<string>): seq<Op> {
    Each(Nodes(kinds, k, paths), OpFor(doc, k))
  }

  function OpsOver(kinds: set<Kind>, doc: Json, paths: seq<string>): seq<Op> {
    KindOps(kinds, InjectSeccompRuntimeDefault, doc, paths)
    + KindOps(kinds, DropAllCapabilities, doc, paths)
    + KindOps(kinds, ReadOnlyRootFilesystem, doc, paths)
  }

  function PatchOps(kinds: set<Kind>, doc: Json): seq<Op> {
    OpsOver(kinds, doc, ContainerPaths(doc))
  }

  /** `rfc6902_patches`. */
  method BuildOps(kinds: set<Kind>, doc: Json) returns (ops: seq<Op>)
    ensures ops == PatchOps(kinds, doc)
  {
    var paths := CollectPaths(doc);
    ops := PushKinds(kinds, doc, paths);
  }

  /** Seccomp for the pod and every container, then the capability drops, then the read-only roots. */
  method PushKinds(kinds: set<Kind>, doc: Json, paths: seq<string>) returns (ops: seq<Op>)
    ensures ops == OpsOver(kinds, doc, paths)
  {
    ops := PushKind([], kinds, InjectSeccompRuntimeDefault, doc, paths);
    ops := PushKind(ops, kinds, DropAllCapabilities, doc, paths);
    ops := PushKind(ops, kinds, ReadOnlyRootFilesystem, doc, paths);
  }

  method PushKind(ops: seq<Op>, kinds: set<Kind>, k: Kind, doc: Json, paths: seq<string>) returns (out: seq<Op>)
    ensures out == ops + KindOps(kinds, k, doc, paths)
  {
    out := ops;
    if k in kinds {
      out := PushNodes(ops, k == InjectSeccompRuntimeDefault, paths, OpFor(doc, k));
    }
  }

  method PushNodes(ops: seq<Op>, pod: bool, paths: seq<string>, build: string -> Op) returns (out: seq<Op>)
    ensures out == ops + Each(if pod then ["/spec"] + paths else paths, build)
  {
    out := ops;
    if pod {
      out := out + [build("/spec")];
      EachCons("/spec", paths, build);
    }
    out := PushEach(out, paths, build);
  }

  lemma EachCons<A, B>(x: A, xs: seq<A>, build: A -> B)
    ensures Each([x] + xs, build) == [build(x)] + Each(xs, build)
  {
  }

  method PushEach(ops: seq<Op>, paths: seq<string>, build: string -> Op) returns (out: seq<Op>)
    ensures out == ops + Each(paths, build)
  {
    out := ops;
    var i := 0;
    while i < |paths|
      invariant 0 <= i <= |paths|
      invariant out == ops + Each(paths, build)[..i]
    {
      out := out + [build(paths[i])];
      i := i + 1;
    }
  }

  // ---- The same operations as requests ---------------------------------------------

  /** The token path of every container, in the order of `ContainerPaths`. */
  function ListSlots(key: string, n: nat): (ts: seq<Tokens>)
    ensures |ts| == n
    ensures forall i :: 0 <= i < n ==> ts[i] == ["spec", key, Decimal(i)]
  {
    seq(n, i requires 0 <= i => ["spec", key, Decimal(i)])
  }

  function SlotsUpTo(doc: Json, k: nat): seq<Tokens>
    requires k <= |LISTS|
  {
    if k == 0 then []
    else SlotsUpTo(doc, k - 1) + ListSlots(LISTS[k - 1], ListLength(doc, LISTS[k - 1]))
  }

  function Slots(doc: Json): seq<Tokens> {
    SlotsUpTo(doc, |LISTS|)
  }

  /** One requested value: for the pod (`None`) or for a container, by index in `Slots`. */
  datatype Request = Request(slot: Option<nat>, kind: Kind)

  function Rank(k: Kind): nat {
    match k
    case InjectSeccompRuntimeDefault => 0
    case DropAllCapabilities => 1
    case ReadOnlyRootFilesystem => 2
  }

  /** The requests of one kind, in the order `Nodes` lists what they touch. */
  function Part(kinds: set<Kind>, k: Kind, n: nat): (rs: seq<Request>)
    ensures forall i :: 0 <= i < |rs| ==> rs[i].kind == k
    ensures forall i, j :: 0 <= i < j < |rs| ==> rs[i] != rs[j]
  {
    if k !in kinds then []
    else if k == InjectSeccompRuntimeDefault then
      seq(n + 1, i requires 0 <= i => Request(if i == 0 then None else Some(i - 1), k))
    else seq(n, i requires 0 <= i => Request(Some(i), k))
  }

  function Requests(kinds: set<Kind>, n: nat): seq<Request> {
    Part(kinds, InjectSeccompRuntimeDefault, n) + Part(kinds, DropAllCapabilities, n)
    + Part(kinds, ReadOnlyRootFilesystem, n)
  }

  /** A request that is made for these kinds and this many containers. */
  predicate Made(kinds: set<Kind>, n: nat, r: Request) {
    && r.kind in kinds
    && (match r.slot case Some(i) => i < n case None => r.kind == InjectSeccompRuntimeDefault)
  }

  lemma PartIsMade(kinds: set<Kind>, k: Kind, n: nat, r: Request)
    ensures r in Part(kinds, k, n) <==> r.kind == k && Made(kinds, n, r)
  {
    var rs := Part(kinds, k, n);
    if r.kind == k && Made(kinds, n, r) {
      var i := if k != InjectSeccompRuntimeDefault then r.slot.value else if r.slot.None? then 0 else r.slot.value + 1;
      assert rs[i] == r;
    }
  }

  lemma RequestsAreMade(kinds: set<Kind>, n: nat, r: Request)
    ensures r in Requests(kinds, n) <==> Made(kinds, n, r)
  {
    PartIsMade(kinds, InjectSeccompRuntimeDefault, n, r);
    PartIsMade(kinds, DropAllCapabilities, n, r);
    PartIsMade(kinds, ReadOnlyRootFilesystem, n, r);
  }

  /** Requests come kind by kind and none is made twice. */
  lemma RequestsOrdered(kinds: set<Kind>, n: nat, i: nat, j: nat)
    requires i < j < |Requests(kinds, n)|
    ensures Requests(kinds, n)[i] != Requests(kinds, n)[j]
    ensures Rank(Requests(kinds, n)[i].kind) <= Rank(Requests(kinds, n)[j].kind)
  {
  }

  // ---- Where the containers are ----------------------------------------------------

  predicate IsSlot(t: Tokens) {
    |t| == 3 && t[0] == "spec" && t[1] in LISTS && ParseIndex(t[2]).Some?
  }

  lemma DecimalIsPlain(n: nat)
    ensures Plain(Decimal(n))
  {
  }

  lemma SlotText(key: string, index: string)
    ensures Render(["spec", key, index]) == "/spec/" + key + "/" + index
  {
    assert Render(["spec"]) == "/spec" + Render([]);
    RenderSnoc(["spec"], key);
    assert ["spec"] + [key] == ["spec", key];
    RenderSnoc(["spec", key], index);
    assert ["spec", key] + [index] == ["spec", key, index];
  }

  lemma SlotShape(key: string, i: nat)
    requires key in LISTS
    ensures PlainPath(["spec", key, Decimal(i)]) && IsSlot(["spec", key, Decimal(i)])
  {
    DecimalIsPlain(i);
    DecimalIsIndex(i);
    assert Plain("spec") && Plain(key);
  }

  /** The pointers are the tokens written out, and the tokens are of containers in these lists. */
  ghost predicate SlotsMatch(ts: seq<Tokens>, ps: seq<string>, keys: seq<string>) {
    && |ts| == |ps|
    && forall i :: 0 <= i < |ts| ==> ps[i] == Render(ts[i]) && PlainPath(ts[i]) && IsSlot(ts[i]) && ts[i][1] in keys
  }

  lemma MatchAppend(ts: seq<Tokens>, ps: seq<string>, keys: seq<string>, us: seq<Tokens>, qs: seq<string>, key: string)
    requires SlotsMatch(ts, ps, keys) && SlotsMatch(us, qs, [key])
    ensures SlotsMatch(ts + us, ps + qs, keys + [key])
  {
  }

  lemma ListMatch(key: string, n: nat)
    requires key in LISTS
    ensures SlotsMatch(ListSlots(key, n), ListPaths(key, n), [key])
  {
    forall i | 0 <= i < n
      ensures Render(ListSlots(key, n)[i]) == ListPaths(key, n)[i]
      ensures PlainPath(ListSlots(key, n)[i]) && IsSlot(ListSlots(key, n)[i])
    {
      SlotText(key, Decimal(i));
      SlotShape(key, i);
    }
  }

  /** Slots are the container pointers, token by token. */
  lemma {:induction false} SlotsArePaths(doc: Json, k: nat)
    requires k <= |LISTS|
    ensures SlotsMatch(SlotsUpTo(doc, k), PathsUpTo(doc, k), LISTS[..k])
  {
    if k > 0 {
      var key := LISTS[k - 1];
      var n := ListLength(doc, key);
      SlotsArePaths(doc, k - 1);
      ListMatch(key, n);
      MatchAppend(SlotsUpTo(doc, k - 1), PathsUpTo(doc, k - 1), LISTS[..k - 1], ListSlots(key, n), ListPaths(key, n), key);
      ListsSoFar(k);
    }
  }

  lemma ListsSoFar(k: nat)
    requires 0 < k <= |LISTS|
    ensures LISTS[..k] == LISTS[..k - 1] + [LISTS[k - 1]]
  {
  }

  lemma ListsDistinct(k: nat)
    requires k < |LISTS|
    ensures LISTS[k] !in LISTS[..k]
  {
    assert |LISTS[0]| != |LISTS[1]| && |LISTS[1]| != |LISTS[2]| && |LISTS[0]| != |LISTS[2]|;
  }

  lemma SameListDistinct(key: string, n: nat, i: nat, j: nat)
    requires i < j < n
    ensures ListSlots(key, n)[i] != ListSlots(key, n)[j]
  {
    DecimalIsIndex(i);
    DecimalIsIndex(j);
    assert ListSlots(key, n)[i][2] != ListSlots(key, n)[j][2];
  }

  lemma OtherList(doc: Json, k: nat, i: nat)
    requires k < |LISTS| && i < |SlotsUpTo(doc, k)|
    ensures |SlotsUpTo(doc, k)[i]| == 3 && SlotsUpTo(doc, k)[i][1] != LISTS[k]
  {
    SlotsArePaths(doc, k);
    ListsDistinct(k);
  }

  lemma NextListDistinct(before: seq<Tokens>, key: string, n: nat, i: nat, j: nat)
    requires i < j && |before| <= j < |before| + n
    requires i < |before| ==> |before[i]| == 3 && before[i][1] != key
    ensures (before + ListSlots(key, n))[i] != (before + ListSlots(key, n))[j]
  {
    if i >= |before| {
      SameListDistinct(key, n, i - |before|, j - |before|);
    } else {
      assert ListSlots(key, n)[j - |before|][1] == key;
    }
  }

  predicate AllDistinct(ts: seq<Tokens>) {
    forall i, j :: 0 <= i < j < |ts| ==> ts[i] != ts[j]
  }

  lemma AppendDistinct(before: seq<Tokens>, key: string, n: nat)
    requires AllDistinct(before) && forall i :: 0 <= i < |before| ==> |before[i]| == 3 && before[i][1] != key
    ensures AllDistinct(before + ListSlots(key, n))
  {
    var all := before + ListSlots(key, n);
    forall i, j | 0 <= i < j < |all| ensures all[i] != all[j] {
      if j >= |before| {
        NextListDistinct(before, key, n, i, j);
      }
    }
  }

  /** No two containers have the same pointer. */
  lemma {:induction false} SlotsDistinct(doc: Json, k: nat)
    requires k <= |LISTS|
    ensures AllDistinct(SlotsUpTo(doc, k))
  {
    if k > 0 {
      var before, key := SlotsUpTo(doc, k - 1), LISTS[k - 1];
      SlotsDistinct(doc, k - 1);
      forall i | 0 <= i < |before| ensures |before[i]| == 3 && before[i][1] != key {
        OtherList(doc, k - 1, i);
      }
      AppendDistinct(before, key, ListLength(doc, key));
    }
  }

  lemma ApartSlots(doc: Json, i: nat, j: nat)
    requires i < |Slots(doc)| && j < |Slots(doc)| && i != j
    ensures Apart(Slots(doc)[i], Slots(doc)[j])
  {
    SlotsArePaths(doc, |LISTS|);
    SlotsDistinct(doc, |LISTS|);
    ApartOrPrefix(Slots(doc)[i], Slots(doc)[j]);
  }
}
