/**
 Exactly when the patch operations compose: all of them apply, one after another, and every
 container ends up with every requested value at once.
 */
module Compose {
  import opened Wrappers
  import opened Json
  import opened Pointer
  import opened Patch
  import opened PodPatch

  // ---- Edits that end in a member name ---------------------------------------------

  /** A token that names a member and never an array position. */
  predicate NamesMember(key: string) {
    key != "-" && ParseIndex(key).None?
  }

  predicate MemberEdits(edits: seq<Edit>) {
    forall i :: 0 <= i < |edits| ==> edits[i].at != [] && NamesMember(Last(edits[i].at))
  }

  lemma MemberAdd(doc: Json, ts: Tokens, v: Json)
    requires ts != [] && NamesMember(Last(ts))
    ensures AddAt(doc, ts, v).Some? <==> SetsMember(doc, ts)
  {
    AddAtParent(doc, ts, v);
  }

  /** An edit whose parent is there but is no object stops the whole list, wherever it stands. */
  lemma {:induction false} Stuck(doc: Json, edits: seq<Edit>, u: Tokens, k: nat)
    requires MemberEdits(edits) && Walk(doc, u).Some? && !IsObjectAt(doc, u)
    requires k < |edits| && Parent(edits[k].at) == u
    requires forall i :: 0 <= i < |edits| ==> Parent(edits[i].at) == u || Apart(edits[i].at, u)
    ensures EditAll(doc, edits) == None
    decreases |edits|
  {
    var e := edits[0];
    MemberAdd(doc, e.at, e.value);
    if Parent(e.at) != u && SetsMember(doc, e.at) {
      AddLeavesApart(doc, e.at, e.value, u);
      Stuck(AddAt(doc, e.at, e.value).value, edits[1..], u, k - 1);
    }
  }

  lemma {:induction false} MemberFrame(doc: Json, edits: seq<Edit>, u: Tokens)
    requires MemberEdits(edits) && EditAll(doc, edits).Some?
    requires forall i :: 0 <= i < |edits| ==> Apart(edits[i].at, u)
    ensures Walk(EditAll(doc, edits).value, u) == Walk(doc, u)
    decreases |edits|
  {
    if edits != [] {
      var e := edits[0];
      MemberAdd(doc, e.at, e.value);
      AddLeavesApart(doc, e.at, e.value, u);
      MemberFrame(AddAt(doc, e.at, e.value).value, edits[1..], u);
    }
  }

  /** Several edits of one pointer leave there what one of them, whole, wrote. */
  lemma {:induction false} OneWins(doc: Json, edits: seq<Edit>, t: Tokens, k: nat) returns (w: nat)
    requires MemberEdits(edits) && EditAll(doc, edits).Some?
    requires k < |edits| && edits[k].at == t
    requires forall i :: 0 <= i < |edits| ==> edits[i].at == t || Apart(edits[i].at, t)
    ensures w < |edits| && edits[w].at == t
    ensures Walk(EditAll(doc, edits).value, t) == Some(edits[w].value)
    decreases |edits|
  {
    var e, rest := edits[0], edits[1..];
    MemberAdd(doc, e.at, e.value);
    var d := AddAt(doc, e.at, e.value).value;
    if j :| 0 <= j < |rest| && rest[j].at == t {
      w := OneWins(d, rest, t, j);
      w := w + 1;
    } else {
      assert k == 0;
      AddedValue(doc, t, e.value, []);
      assert t + [] == t;
      MemberFrame(d, rest, t);
      w := 0;
    }
  }

  // ---- Where a request lands -------------------------------------------------------

  lemma {:induction false} ResolvedAppend(doc: Json, base: Tokens, ts: Tokens)
    requires Walk(doc, base).Some?
    ensures Resolved(doc, base + ts) == |base| + Resolved(Walk(doc, base).value, ts)
    decreases |base|
  {
    if base == [] {
      assert base + ts == ts;
    } else {
      assert (base + ts)[1..] == base[1..] + ts;
      ResolvedAppend(Child(doc, base[0]).value, base[1..], ts);
    }
  }

  lemma TargetAppend(doc: Json, base: Tokens, ts: Tokens)
    requires Walk(doc, base).Some?
    ensures Target(doc, base + ts) == base + Target(Walk(doc, base).value, ts)
  {
    ResolvedAppend(doc, base, ts);
  }

  lemma EditAppend(doc: Json, base: Tokens, ts: Tokens, v: Json)
    requires Walk(doc, base).Some?
    ensures var t := Target(Walk(doc, base).value, ts);
            NestedEdit(doc, base + ts, v) == Edit(base + t, Nest(ts[|t|..], v))
  {
    TargetAppend(doc, base, ts);
    var t := Target(Walk(doc, base).value, ts);
    assert (base + ts)[|base + t|..] == ts[|t|..];
  }

  /** Which member of a node's security context (or the context itself) a kind's add sets. */
  function Spot(node: Fields, k: Kind): Tokens {
    if "securityContext" !in node then ["securityContext"]
    else if k == DropAllCapabilities && Child(node["securityContext"], "capabilities").None? then
      ["securityContext", "capabilities"]
    else Below(k)
  }

  lemma NoIndex(s: string)
    requires s == "" || !IsDigit(s[0])
    ensures ParseIndex(s).None?
  {
  }

  lemma SpotIsTarget(node: Fields, k: Kind)
    ensures Target(Obj(node), Below(k)) == Spot(node, k)
  {
    var ts := Below(k);
    if "securityContext" in node {
      assert Resolved(Obj(node), ts) == 1 + Resolved(node["securityContext"], ts[1..]);
      assert ts[1..][1..] == ts[2..];
    }
  }

  /** The kinds asked of one node whose security context the adds leave all in place. */
  predicate Fits(node: Fields, kinds: set<Kind>) {
    match Field(node, "securityContext")
    case None => forall k, l :: k in kinds && l in kinds ==> k == l
    case Some(Obj(m)) => DropAllCapabilities in kinds && "capabilities" in m ==> m["capabilities"].Obj?
    case Some(_) => kinds == {}
  }

  lemma WalkOne(doc: Json, t: Tokens)
    requires |t| > 1
    ensures |t| == 2 ==> Walk(doc, Parent(t)) == Child(doc, t[0])
    ensures Child(doc, t[0]).Some? ==> Walk(doc, Parent(t)) == Walk(Child(doc, t[0]).value, Parent(t)[1..])
  {
  }

  lemma FitsSets(node: Fields, kinds: set<Kind>, k: Kind)
    requires Fits(node, kinds) && k in kinds
    ensures SetsMember(Obj(node), Spot(node, k))
  {
    var t := Spot(node, k);
    if |t| > 1 {
      WalkOne(Obj(node), t);
    }
    if |t| == 3 {
      WalkOne(node["securityContext"], t[1..]);
      assert Parent(t)[1..] == Parent(t[1..]);
    }
  }

  lemma FitsApart(node: Fields, kinds: set<Kind>, k: Kind, l: Kind)
    requires Fits(node, kinds) && k in kinds && l in kinds && k != l
    ensures Apart(Spot(node, k), Spot(node, l))
  {
    assert |"seccompProfile"| == 14 && |"capabilities"| == 12 && |"readOnlyRootFilesystem"| == 22;
    ApartAt(Spot(node, k), Spot(node, l), 1);
  }

  // ---- The whole list --------------------------------------------------------------

  /** The pod, or a container of it. */
  function Base(doc: Json, slot: Option<nat>): Tokens {
    match slot
    case None => ["spec"]
    case Some(i) => if i < |Slots(doc)| then Slots(doc)[i] else []
  }

  predicate IsPlace(doc: Json, slot: Option<nat>) {
    slot.Some? ==> slot.value < |Slots(doc)|
  }

  /** The pod's spec and every element of its container lists is an object: what reading the
      subject has already established when a patch is built. */
  ghost predicate Shaped(doc: Json) {
    forall slot :: IsPlace(doc, slot) ==> IsObjectAt(doc, Base(doc, slot))
  }

  function At(doc: Json, r: Request): Tokens {
    Base(doc, r.slot) + Below(r.kind)
  }

  function EditFor(doc: Json, r: Request): Edit {
    NestedEdit(doc, At(doc, r), Wanted(r.kind))
  }

  function EditMaker(doc: Json): Request -> Edit {
    r => EditFor(doc, r)
  }

  function EditsFor(doc: Json, rs: seq<Request>): seq<Edit> {
    Each(rs, EditMaker(doc))
  }

  function PatchEdits(kinds: set<Kind>, doc: Json): seq<Edit> {
    EditsFor(doc, Requests(kinds, |Slots(doc)|))
  }

  lemma BasePlain(doc: Json, slot: Option<nat>)
    requires IsPlace(doc, slot)
    ensures PlainPath(Base(doc, slot))
  {
    match slot {
      case None => assert Plain("spec");
      case Some(i) => SlotsArePaths(doc, |LISTS|);
    }
  }

  lemma RenderTwo(a: string, b: string)
    ensures Render([a, b]) == "/" + a + "/" + b
  {
    RenderSnoc([], a);
    assert [] + [a] == [a];
    RenderSnoc([a], b);
    assert [a] + [b] == [a, b];
  }

  lemma RenderThree(a: string, b: string, c: string)
    ensures Render([a, b, c]) == "/" + a + "/" + b + "/" + c
  {
    RenderTwo(a, b);
    RenderSnoc([a, b], c);
    assert [a, b] + [c] == [a, b, c];
  }

  lemma BelowPlain(k: Kind)
    ensures PlainPath(Below(k))
  {
    assert Plain("securityContext") && Plain("seccompProfile") && Plain("capabilities");
    assert Plain("drop") && Plain("readOnlyRootFilesystem");
  }

  lemma BelowIsText(k: Kind)
    ensures Render(Below(k)) == BelowText(k)
  {
    match k
    case InjectSeccompRuntimeDefault => RenderTwo("securityContext", "seccompProfile");
    case DropAllCapabilities => RenderThree("securityContext", "capabilities", "drop");
    case ReadOnlyRootFilesystem => RenderTwo("securityContext", "readOnlyRootFilesystem");
  }

  lemma PlainAppend(a: Tokens, b: Tokens)
    requires PlainPath(a) && PlainPath(b)
    ensures PlainPath(a + b)
  {
  }

  /** Each operation the webhook pushes is the edit of its request. */
  lemma OpIsEdit(doc: Json, r: Request)
    requires IsPlace(doc, r.slot)
    ensures OpFor(doc, r.kind)(Render(Base(doc, r.slot))) == OpOf(EditFor(doc, r))
    ensures PlainPath(At(doc, r)) && PlainPath(EditFor(doc, r).at)
  {
    BasePlain(doc, r.slot);
    BelowPlain(r.kind);
    BelowIsText(r.kind);
    PlainAppend(Base(doc, r.slot), Below(r.kind));
    RenderAppend(Base(doc, r.slot), Below(r.kind));
    PlainNestedEdit(doc, At(doc, r), Wanted(r.kind));
  }

  lemma NodeOfPart(kinds: set<Kind>, k: Kind, paths: seq<string>, i: nat)
    ensures |Nodes(kinds, k, paths)| == |Part(kinds, k, |paths|)|
    ensures i < |Part(kinds, k, |paths|)| ==>
              match Part(kinds, k, |paths|)[i].slot
              case None => Nodes(kinds, k, paths)[i] == "/spec"
              case Some(j) => j < |paths| && Nodes(kinds, k, paths)[i] == paths[j]
  {
  }

  lemma PodText()
    ensures Render(["spec"]) == "/spec"
  {
    assert Render(["spec"]) == "/spec" + Render([]);
  }

  lemma SlotCount(doc: Json)
    ensures |Slots(doc)| == |ContainerPaths(doc)|
  {
    SlotsArePaths(doc, |LISTS|);
  }

  lemma BaseText(doc: Json, slot: Option<nat>)
    requires IsPlace(doc, slot) && |Slots(doc)| == |ContainerPaths(doc)|
    ensures Render(Base(doc, slot)) == match slot case None => "/spec" case Some(j) => ContainerPaths(doc)[j]
  {
    match slot {
      case None => PodText();
      case Some(j) => SlotsArePaths(doc, |LISTS|);
    }
  }

  lemma KindOpsAreEdits(kinds: set<Kind>, doc: Json, k: Kind)
    ensures KindOps(kinds, k, doc, ContainerPaths(doc)) == OpsOf(EditsFor(doc, Part(kinds, k, |Slots(doc)|)))
  {
    var rs := Part(kinds, k, |Slots(doc)|);
    SlotCount(doc);
    NodeOfPart(kinds, k, ContainerPaths(doc), 0);
    forall i | 0 <= i < |rs|
      ensures KindOps(kinds, k, doc, ContainerPaths(doc))[i] == OpsOf(EditsFor(doc, rs))[i]
    {
      NodeOfPart(kinds, k, ContainerPaths(doc), i);
      BaseText(doc, rs[i].slot);
      OpIsEdit(doc, rs[i]);
    }
  }

  lemma EditsAppend(build: Request -> Edit, a: seq<Request>, b: seq<Request>)
    ensures OpsOf(Each(a + b, build)) == OpsOf(Each(a, build)) + OpsOf(Each(b, build))
  {
    assert Each(a + b, build) == Each(a, build) + Each(b, build);
    OpsOfAppend(Each(a, build), Each(b, build));
  }

  lemma OpsAreEdits(kinds: set<Kind>, doc: Json)
    ensures PatchOps(kinds, doc) == OpsOf(PatchEdits(kinds, doc))
  {
    KindOpsAreEdits(kinds, doc, InjectSeccompRuntimeDefault);
    KindOpsAreEdits(kinds, doc, DropAllCapabilities);
    KindOpsAreEdits(kinds, doc, ReadOnlyRootFilesystem);
    var n := |Slots(doc)|;
    var a, b := Part(kinds, InjectSeccompRuntimeDefault, n), Part(kinds, DropAllCapabilities, n);
    EditsAppend(EditMaker(doc), a, b);
    EditsAppend(EditMaker(doc), a + b, Part(kinds, ReadOnlyRootFilesystem, n));
  }

  lemma ApplyIsEdits(kinds: set<Kind>, doc: Json)
    ensures Apply(doc, PatchOps(kinds, doc)) == EditAll(doc, PatchEdits(kinds, doc))
  {
    var rs := Requests(kinds, |Slots(doc)|);
    OpsAreEdits(kinds, doc);
    forall e | e in PatchEdits(kinds, doc) ensures PlainPath(e.at) {
      var i :| 0 <= i < |rs| && PatchEdits(kinds, doc)[i] == e;
      RequestsAreMade(kinds, |Slots(doc)|, rs[i]);
      OpIsEdit(doc, rs[i]);
    }
    ApplyIsEditAll(doc, PatchEdits(kinds, doc));
  }

  // ---- When they compose -----------------------------------------------------------

  function Node(doc: Json, slot: Option<nat>): Fields
    requires IsObjectAt(doc, Base(doc, slot))
  {
    Walk(doc, Base(doc, slot)).value.fields
  }

  /** The kinds that concern a place: only seccomp is also set on the pod. */
  function KindsAt(kinds: set<Kind>, slot: Option<nat>): set<Kind> {
    if slot.None? then kinds * {InjectSeccompRuntimeDefault} else kinds
  }

  ghost predicate Composable(kinds: set<Kind>, doc: Json)
    requires Shaped(doc)
  {
    forall slot :: IsPlace(doc, slot) ==> Fits(Node(doc, slot), KindsAt(kinds, slot))
  }

  /** The whole operation list applies and every requested value is then in place. */
  ghost predicate Composes(kinds: set<Kind>, doc: Json) {
    var after := Apply(doc, PatchOps(kinds, doc));
    && after.Some?
    && forall r :: Made(kinds, |Slots(doc)|, r) ==> Walk(after.value, At(doc, r)) == Some(Wanted(r.kind))
  }

  lemma EditIs(doc: Json, r: Request)
    requires IsObjectAt(doc, Base(doc, r.slot))
    ensures var t := Spot(Node(doc, r.slot), r.kind);
            && EditFor(doc, r) == Edit(Base(doc, r.slot) + t, Nest(Below(r.kind)[|t|..], Wanted(r.kind)))
            && t <= Below(r.kind)
  {
    EditAppend(doc, Base(doc, r.slot), Below(r.kind), Wanted(r.kind));
    SpotIsTarget(Node(doc, r.slot), r.kind);
  }

  lemma {:induction false} ApartUnder(base: Tokens, a: Tokens, b: Tokens)
    requires Apart(a, b)
    ensures Apart(base + a, base + b)
  {
    if base == [] {
      assert base + a == a && base + b == b;
    } else {
      ApartUnder(base[1..], a, b);
      assert (base + a)[1..] == base[1..] + a && (base + b)[1..] == base[1..] + b;
    }
  }

  predicate InContext(t: Tokens) {
    t != [] && t[0] == "securityContext"
  }

  lemma PodApart(doc: Json, i: nat, t: Tokens)
    requires i < |Slots(doc)| && InContext(t)
    ensures Apart(Slots(doc)[i], ["spec"] + t)
  {
    SlotsArePaths(doc, |LISTS|);
    assert |"securityContext"| == 15 && |LISTS[0]| == 10 && |LISTS[1]| == 14 && |LISTS[2]| == 19;
    ApartAt(Slots(doc)[i], ["spec"] + t, 1);
  }

  /** What belongs to one place is apart from what belongs to another. */
  lemma PlacesApart(doc: Json, a: Option<nat>, b: Option<nat>, t: Tokens, u: Tokens)
    requires IsPlace(doc, a) && IsPlace(doc, b) && a != b && InContext(t) && InContext(u)
    ensures Apart(Base(doc, a) + t, Base(doc, b) + u)
  {
    if a.None? {
      PodApart(doc, b.value, t);
      ApartSymmetric(Base(doc, b), ["spec"] + t);
      ApartBelow(["spec"] + t, Base(doc, b), u);
    } else if b.None? {
      PodApart(doc, a.value, u);
      ApartBelow(Base(doc, a), ["spec"] + u, t);
    } else {
      ApartSlots(doc, a.value, b.value);
      ApartBelow(Base(doc, a), Base(doc, b), t);
      ApartBelow(Base(doc, a) + t, Base(doc, b), u);
    }
  }

  lemma SetsUnder(doc: Json, base: Tokens, t: Tokens)
    requires Walk(doc, base).Some? && t != []
    ensures SetsMember(doc, base + t) <==> SetsMember(Walk(doc, base).value, t)
  {
    assert Parent(base + t) == base + Parent(t);
    WalkAppend(doc, base, Parent(t));
  }

  lemma RequestSets(kinds: set<Kind>, doc: Json, r: Request)
    requires Shaped(doc) && Composable(kinds, doc) && Made(kinds, |Slots(doc)|, r)
    ensures SetsMember(doc, EditFor(doc, r).at)
  {
    var node := Node(doc, r.slot);
    EditIs(doc, r);
    FitsSets(node, KindsAt(kinds, r.slot), r.kind);
    SetsUnder(doc, Base(doc, r.slot), Spot(node, r.kind));
  }

  lemma SpotInContext(node: Fields, k: Kind)
    ensures InContext(Spot(node, k))
  {
  }

  lemma SamePlaceApart(kinds: set<Kind>, doc: Json, slot: Option<nat>, k: Kind, l: Kind)
    requires IsObjectAt(doc, Base(doc, slot)) && Fits(Node(doc, slot), kinds) && k in kinds && l in kinds && k != l
    ensures Apart(EditFor(doc, Request(slot, k)).at, EditFor(doc, Request(slot, l)).at)
  {
    EditIs(doc, Request(slot, k));
    EditIs(doc, Request(slot, l));
    FitsApart(Node(doc, slot), kinds, k, l);
    ApartUnder(Base(doc, slot), Spot(Node(doc, slot), k), Spot(Node(doc, slot), l));
  }

  lemma OtherPlaceApart(doc: Json, r: Request, q: Request)
    requires Shaped(doc) && IsPlace(doc, r.slot) && IsPlace(doc, q.slot) && r.slot != q.slot
    ensures Apart(EditFor(doc, r).at, EditFor(doc, q).at)
  {
    EditIs(doc, r);
    EditIs(doc, q);
    SpotInContext(Node(doc, r.slot), r.kind);
    SpotInContext(Node(doc, q.slot), q.kind);
    PlacesApart(doc, r.slot, q.slot, Spot(Node(doc, r.slot), r.kind), Spot(Node(doc, q.slot), q.kind));
  }

  lemma RequestsApart(kinds: set<Kind>, doc: Json, r: Request, q: Request)
    requires Shaped(doc) && Composable(kinds, doc) && r != q
    requires Made(kinds, |Slots(doc)|, r) && Made(kinds, |Slots(doc)|, q)
    ensures Apart(EditFor(doc, r).at, EditFor(doc, q).at)
  {
    if r.slot == q.slot {
      SamePlaceApart(KindsAt(kinds, r.slot), doc, r.slot, r.kind, q.kind);
    } else {
      OtherPlaceApart(doc, r, q);
    }
  }

  lemma EditAt(kinds: set<Kind>, doc: Json, i: nat)
    requires i < |PatchEdits(kinds, doc)|
    ensures |PatchEdits(kinds, doc)| == |Requests(kinds, |Slots(doc)|)|
    ensures var r := Requests(kinds, |Slots(doc)|)[i];
            Made(kinds, |Slots(doc)|, r) && IsPlace(doc, r.slot) && PatchEdits(kinds, doc)[i] == EditFor(doc, r)
  {
    RequestsAreMade(kinds, |Slots(doc)|, Requests(kinds, |Slots(doc)|)[i]);
  }

  lemma ComposableIndependent(kinds: set<Kind>, doc: Json)
    requires Shaped(doc) && Composable(kinds, doc)
    ensures Independent(doc, PatchEdits(kinds, doc))
  {
    var es := PatchEdits(kinds, doc);
    forall i | 0 <= i < |es| ensures SetsMember(doc, es[i].at) {
      EditAt(kinds, doc, i);
      RequestSets(kinds, doc, Requests(kinds, |Slots(doc)|)[i]);
    }
    forall i, j | 0 <= i < j < |es| ensures Apart(es[i].at, es[j].at) {
      EditAt(kinds, doc, i);
      EditAt(kinds, doc, j);
      RequestsOrdered(kinds, |Slots(doc)|, i, j);
      RequestsApart(kinds, doc, Requests(kinds, |Slots(doc)|)[i], Requests(kinds, |Slots(doc)|)[j]);
    }
  }

  lemma EditReaches(doc: Json, r: Request) returns (below: Tokens)
    requires IsObjectAt(doc, Base(doc, r.slot))
    ensures EditFor(doc, r).at + below == At(doc, r)
    ensures Walk(EditFor(doc, r).value, below) == Some(Wanted(r.kind))
  {
    EditIs(doc, r);
    var t := Spot(Node(doc, r.slot), r.kind);
    below := Below(r.kind)[|t|..];
    assert t + below == Below(r.kind);
    assert Base(doc, r.slot) + t + below == Base(doc, r.slot) + (t + below);
    NestedValue(below, Wanted(r.kind));
  }

  lemma RequestDelivered(kinds: set<Kind>, doc: Json, r: Request)
    requires Shaped(doc) && Composable(kinds, doc) && Made(kinds, |Slots(doc)|, r)
    ensures EditAll(doc, PatchEdits(kinds, doc)).Some?
    ensures Walk(EditAll(doc, PatchEdits(kinds, doc)).value, At(doc, r)) == Some(Wanted(r.kind))
  {
    ComposableIndependent(kinds, doc);
    RequestsAreMade(kinds, |Slots(doc)|, r);
    var i :| 0 <= i < |Requests(kinds, |Slots(doc)|)| && Requests(kinds, |Slots(doc)|)[i] == r;
    EditAt(kinds, doc, i);
    var below := EditReaches(doc, r);
    IndependentValues(doc, PatchEdits(kinds, doc), i, below);
  }

  // ---- And when they do not --------------------------------------------------------

  lemma SpotNames(node: Fields, k: Kind)
    ensures NamesMember(Last(Spot(node, k)))
  {
    NoIndex("securityContext");
    NoIndex("capabilities");
    NoIndex("seccompProfile");
    NoIndex("drop");
    NoIndex("readOnlyRootFilesystem");
  }

  lemma PatchEditsNameMembers(kinds: set<Kind>, doc: Json)
    requires Shaped(doc)
    ensures MemberEdits(PatchEdits(kinds, doc))
  {
    var es := PatchEdits(kinds, doc);
    forall i | 0 <= i < |es| ensures es[i].at != [] && NamesMember(Last(es[i].at)) {
      EditAt(kinds, doc, i);
      var r := Requests(kinds, |Slots(doc)|)[i];
      EditIs(doc, r);
      SpotInContext(Node(doc, r.slot), r.kind);
      SpotNames(Node(doc, r.slot), r.kind);
    }
  }

  lemma OthersApart(doc: Json, slot: Option<nat>, t: Tokens, r: Request)
    requires Shaped(doc) && IsPlace(doc, slot) && InContext(t) && IsPlace(doc, r.slot) && r.slot != slot
    ensures Apart(EditFor(doc, r).at, Base(doc, slot) + t)
  {
    EditIs(doc, r);
    SpotInContext(Node(doc, r.slot), r.kind);
    PlacesApart(doc, r.slot, slot, Spot(Node(doc, r.slot), r.kind), t);
  }

  lemma IndexOf(kinds: set<Kind>, doc: Json, r: Request) returns (i: nat)
    requires Made(kinds, |Slots(doc)|, r)
    ensures i < |PatchEdits(kinds, doc)| && PatchEdits(kinds, doc)[i] == EditFor(doc, r)
  {
    RequestsAreMade(kinds, |Slots(doc)|, r);
    i :| 0 <= i < |Requests(kinds, |Slots(doc)|)| && Requests(kinds, |Slots(doc)|)[i] == r;
    EditAt(kinds, doc, i);
  }

  lemma ParentUnder(base: Tokens, t: Tokens, u: Tokens)
    requires t != [] && Parent(t) == u
    ensures Parent(base + t) == base + u
  {
  }

  /** An edit goes straight below `u` or has nothing to do with it. */
  predicate BelowOrApart(at: Tokens, u: Tokens) {
    at != [] && (Parent(at) == u || Apart(at, u))
  }

  lemma EditBelowOrApart(kinds: set<Kind>, doc: Json, slot: Option<nat>, t: Tokens, i: nat)
    requires Shaped(doc) && IsPlace(doc, slot) && InContext(t) && i < |PatchEdits(kinds, doc)|
    requires forall l: Kind :: BelowOrApart(EditFor(doc, Request(slot, l)).at, Base(doc, slot) + t)
    ensures BelowOrApart(PatchEdits(kinds, doc)[i].at, Base(doc, slot) + t)
  {
    EditAt(kinds, doc, i);
    var r := Requests(kinds, |Slots(doc)|)[i];
    if r.slot == slot {
      assert r == Request(slot, r.kind);
    } else {
      OthersApart(doc, slot, t, r);
    }
  }

  /** One node inside a security context that is there and is no object refuses the patch. */
  lemma Refused(kinds: set<Kind>, doc: Json, slot: Option<nat>, t: Tokens, k: Kind)
    requires Shaped(doc) && IsPlace(doc, slot) && InContext(t) && k in KindsAt(kinds, slot)
    requires Walk(doc, Base(doc, slot) + t).Some? && !IsObjectAt(doc, Base(doc, slot) + t)
    requires forall l: Kind :: BelowOrApart(EditFor(doc, Request(slot, l)).at, Base(doc, slot) + t)
    requires Parent(EditFor(doc, Request(slot, k)).at) == Base(doc, slot) + t
    ensures Apply(doc, PatchOps(kinds, doc)) == None
  {
    var u, es := Base(doc, slot) + t, PatchEdits(kinds, doc);
    PatchEditsNameMembers(kinds, doc);
    forall i | 0 <= i < |es| ensures BelowOrApart(es[i].at, u) {
      EditBelowOrApart(kinds, doc, slot, t, i);
    }
    var i := IndexOf(kinds, doc, Request(slot, k));
    Stuck(doc, es, u, i);
    ApplyIsEdits(kinds, doc);
  }

  lemma ContextEdits(doc: Json, slot: Option<nat>, l: Kind)
    requires IsObjectAt(doc, Base(doc, slot)) && "securityContext" in Node(doc, slot)
    requires !Node(doc, slot)["securityContext"].Obj?
    ensures EditFor(doc, Request(slot, l)).at != []
    ensures Parent(EditFor(doc, Request(slot, l)).at) == Base(doc, slot) + ["securityContext"]
  {
    EditIs(doc, Request(slot, l));
    NoIndex("capabilities");
    ParentUnder(Base(doc, slot), Spot(Node(doc, slot), l), ["securityContext"]);
  }

  lemma ContextRefuses(kinds: set<Kind>, doc: Json, slot: Option<nat>, k: Kind)
    requires Shaped(doc) && IsPlace(doc, slot) && k in KindsAt(kinds, slot)
    requires "securityContext" in Node(doc, slot) && !Node(doc, slot)["securityContext"].Obj?
    ensures Apply(doc, PatchOps(kinds, doc)) == None
  {
    forall l: Kind
      ensures BelowOrApart(EditFor(doc, Request(slot, l)).at, Base(doc, slot) + ["securityContext"])
    {
      ContextEdits(doc, slot, l);
    }
    ContextEdits(doc, slot, k);
    WalkAppend(doc, Base(doc, slot), ["securityContext"]);
    WalkSingle(Obj(Node(doc, slot)), "securityContext");
    Refused(kinds, doc, slot, ["securityContext"], k);
  }

  lemma WalkSingle(doc: Json, key: string)
    ensures Walk(doc, [key]) == Child(doc, key)
  {
  }

  /** A context object whose capabilities are there and are no object. */
  ghost predicate BadCapabilities(doc: Json, slot: Option<nat>)
    requires IsObjectAt(doc, Base(doc, slot))
  {
    match Field(Node(doc, slot), "securityContext")
    case Some(Obj(m)) => "capabilities" in m && !m["capabilities"].Obj?
    case _ => false
  }

  lemma CapabilityEdits(doc: Json, slot: Option<nat>, l: Kind)
    requires IsObjectAt(doc, Base(doc, slot)) && BadCapabilities(doc, slot)
    ensures BelowOrApart(EditFor(doc, Request(slot, l)).at, Base(doc, slot) + ["securityContext", "capabilities"])
    ensures l == DropAllCapabilities ==>
              Parent(EditFor(doc, Request(slot, l)).at) == Base(doc, slot) + ["securityContext", "capabilities"]
  {
    EditIs(doc, Request(slot, l));
    var u := ["securityContext", "capabilities"];
    if l == DropAllCapabilities {
      ParentUnder(Base(doc, slot), Below(l), u);
    } else {
      assert |"seccompProfile"| == 14 && |"capabilities"| == 12 && |"readOnlyRootFilesystem"| == 22;
      ApartAt(Below(l), u, 1);
      ApartUnder(Base(doc, slot), Below(l), u);
    }
  }

  lemma CapabilitiesRefuse(kinds: set<Kind>, doc: Json, slot: Option<nat>)
    requires Shaped(doc) && IsPlace(doc, slot) && DropAllCapabilities in KindsAt(kinds, slot)
    requires BadCapabilities(doc, slot)
    ensures Apply(doc, PatchOps(kinds, doc)) == None
  {
    var u := ["securityContext", "capabilities"];
    forall l: Kind
      ensures BelowOrApart(EditFor(doc, Request(slot, l)).at, Base(doc, slot) + u)
    {
      CapabilityEdits(doc, slot, l);
    }
    CapabilityEdits(doc, slot, DropAllCapabilities);
    WalkAppend(doc, Base(doc, slot), u);
    WalkSingle(Node(doc, slot)["securityContext"], "capabilities");
    assert u[1..] == ["capabilities"];
    Refused(kinds, doc, slot, u, DropAllCapabilities);
  }

  /** With no security context each add brings its own, so the last one is all that is left. */
  lemma AbsentEdits(doc: Json, slot: Option<nat>, l: Kind)
    requires IsObjectAt(doc, Base(doc, slot)) && "securityContext" !in Node(doc, slot)
    ensures EditFor(doc, Request(slot, l)) ==
            Edit(Base(doc, slot) + ["securityContext"], Nest(Below(l)[1..], Wanted(l)))
  {
    EditIs(doc, Request(slot, l));
  }

  lemma OnlyItsOwn(k: Kind, l: Kind)
    requires k != l
    ensures Walk(Nest(Below(k)[1..], Wanted(k)), Below(l)[1..]) == None
  {
    assert |"seccompProfile"| == 14 && |"capabilities"| == 12 && |"readOnlyRootFilesystem"| == 22;
    assert Below(k)[1..][0] != Below(l)[1..][0];
  }

  lemma AbsentEditAt(kinds: set<Kind>, doc: Json, slot: Option<nat>, i: nat)
    requires Shaped(doc) && IsPlace(doc, slot) && "securityContext" !in Node(doc, slot)
    requires i < |PatchEdits(kinds, doc)|
    ensures var r := Requests(kinds, |Slots(doc)|)[i];
            if r.slot == slot then PatchEdits(kinds, doc)[i].at == Base(doc, slot) + ["securityContext"]
            else Apart(PatchEdits(kinds, doc)[i].at, Base(doc, slot) + ["securityContext"])
  {
    EditAt(kinds, doc, i);
    var r := Requests(kinds, |Slots(doc)|)[i];
    if r.slot == slot {
      AbsentEdits(doc, slot, r.kind);
    } else {
      OthersApart(doc, slot, ["securityContext"], r);
    }
  }

  lemma AbsentWinner(kinds: set<Kind>, doc: Json, slot: Option<nat>, w: nat) returns (k: Kind)
    requires Shaped(doc) && IsPlace(doc, slot) && "securityContext" !in Node(doc, slot)
    requires w < |PatchEdits(kinds, doc)| && PatchEdits(kinds, doc)[w].at == Base(doc, slot) + ["securityContext"]
    ensures PatchEdits(kinds, doc)[w].value == Nest(Below(k)[1..], Wanted(k))
  {
    AbsentEditAt(kinds, doc, slot, w);
    EditAt(kinds, doc, w);
    var r := Requests(kinds, |Slots(doc)|)[w];
    k := r.kind;
    if r.slot != slot {
      ApartNotPrefix(PatchEdits(kinds, doc)[w].at, Base(doc, slot) + ["securityContext"]);
    }
    AbsentEdits(doc, slot, k);
  }

  lemma AbsentLeavesOne(kinds: set<Kind>, doc: Json, slot: Option<nat>, k: Kind) returns (w: Kind)
    requires Shaped(doc) && IsPlace(doc, slot) && "securityContext" !in Node(doc, slot) && k in KindsAt(kinds, slot)
    requires EditAll(doc, PatchEdits(kinds, doc)).Some?
    ensures Walk(EditAll(doc, PatchEdits(kinds, doc)).value, Base(doc, slot) + ["securityContext"])
            == Some(Nest(Below(w)[1..], Wanted(w)))
  {
    var es, t := PatchEdits(kinds, doc), Base(doc, slot) + ["securityContext"];
    PatchEditsNameMembers(kinds, doc);
    forall i | 0 <= i < |es| ensures es[i].at == t || Apart(es[i].at, t) {
      AbsentEditAt(kinds, doc, slot, i);
    }
    var i := IndexOf(kinds, doc, Request(slot, k));
    AbsentEdits(doc, slot, k);
    var j := OneWins(doc, es, t, i);
    w := AbsentWinner(kinds, doc, slot, j);
  }

  lemma LoserIsMissing(after: Json, base: Tokens, w: Kind, l: Kind)
    requires w != l && Walk(after, base + ["securityContext"]) == Some(Nest(Below(w)[1..], Wanted(w)))
    ensures Walk(after, base + Below(l)) == None
  {
    OnlyItsOwn(w, l);
    var t, below := base + ["securityContext"], Below(l)[1..];
    assert t + below == base + Below(l);
    WalkAppend(after, t, below);
  }

  lemma AbsentLoser(kinds: set<Kind>, doc: Json, slot: Option<nat>, k: Kind, l: Kind) returns (r: Request)
    requires Shaped(doc) && IsPlace(doc, slot) && "securityContext" !in Node(doc, slot)
    requires k in KindsAt(kinds, slot) && l in KindsAt(kinds, slot) && k != l
    requires EditAll(doc, PatchEdits(kinds, doc)).Some?
    ensures r.kind in KindsAt(kinds, slot) && r.slot == slot
    ensures Walk(EditAll(doc, PatchEdits(kinds, doc)).value, At(doc, r)) == None
  {
    var w := AbsentLeavesOne(kinds, doc, slot, k);
    r := Request(slot, if w == k then l else k);
    LoserIsMissing(EditAll(doc, PatchEdits(kinds, doc)).value, Base(doc, slot), w, r.kind);
  }

  lemma MissedMeansNotComposed(kinds: set<Kind>, doc: Json, r: Request)
    requires Made(kinds, |Slots(doc)|, r)
    requires Apply(doc, PatchOps(kinds, doc)).Some? ==> Walk(Apply(doc, PatchOps(kinds, doc)).value, At(doc, r)) == None
    ensures !Composes(kinds, doc)
  {
  }

  lemma AbsentOverwrites(kinds: set<Kind>, doc: Json, slot: Option<nat>, k: Kind, l: Kind)
    requires Shaped(doc) && IsPlace(doc, slot) && "securityContext" !in Node(doc, slot)
    requires k in KindsAt(kinds, slot) && l in KindsAt(kinds, slot) && k != l
    ensures !Composes(kinds, doc)
  {
    ApplyIsEdits(kinds, doc);
    if EditAll(doc, PatchEdits(kinds, doc)).Some? {
      var r := AbsentLoser(kinds, doc, slot, k, l);
      MissedMeansNotComposed(kinds, doc, r);
    }
  }

  /** The patch composes on exactly the pods where every place fits the kinds asked of it. */
  lemma ComposesIff(kinds: set<Kind>, doc: Json)
    requires Shaped(doc)
    ensures Composes(kinds, doc) <==> Composable(kinds, doc)
  {
    if Composable(kinds, doc) {
      ApplyIsEdits(kinds, doc);
      ComposableIndependent(kinds, doc);
      IndependentApply(doc, PatchEdits(kinds, doc));
      forall r | Made(kinds, |Slots(doc)|, r)
        ensures Walk(EditAll(doc, PatchEdits(kinds, doc)).value, At(doc, r)) == Some(Wanted(r.kind))
      {
        RequestDelivered(kinds, doc, r);
      }
    } else {
      var slot :| IsPlace(doc, slot) && !Fits(Node(doc, slot), KindsAt(kinds, slot));
      Misfit(kinds, doc, slot);
    }
  }

  lemma Misfit(kinds: set<Kind>, doc: Json, slot: Option<nat>)
    requires Shaped(doc) && IsPlace(doc, slot) && !Fits(Node(doc, slot), KindsAt(kinds, slot))
    ensures !Composes(kinds, doc)
  {
    match Field(Node(doc, slot), "securityContext")
    case None =>
      var k, l :| k in KindsAt(kinds, slot) && l in KindsAt(kinds, slot) && k != l;
      AbsentOverwrites(kinds, doc, slot, k, l);
    case Some(Obj(m)) => CapabilitiesRefuse(kinds, doc, slot);
    case Some(_) =>
      var k :| k in KindsAt(kinds, slot);
      ContextRefuses(kinds, doc, slot, k);
  }

  /** ... and where it composes, a pointer apart from every target is as it was. */
  lemma ComposedFrame(kinds: set<Kind>, doc: Json, u: Tokens)
    requires Shaped(doc) && Composable(kinds, doc)
    requires forall r :: Made(kinds, |Slots(doc)|, r) ==> Apart(EditFor(doc, r).at, u)
    ensures Apply(doc, PatchOps(kinds, doc)).Some?
    ensures Walk(Apply(doc, PatchOps(kinds, doc)).value, u) == Walk(doc, u)
  {
    ApplyIsEdits(kinds, doc);
    ComposableIndependent(kinds, doc);
    var es := PatchEdits(kinds, doc);
    forall i | 0 <= i < |es| ensures Apart(es[i].at, u) {
      EditAt(kinds, doc, i);
    }
    IndependentFrame(doc, es, u);
  }
}
