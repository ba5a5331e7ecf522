/**
 JSON Patch `add` (section 4.1 of RFC 6902), what a list of adds computed against one
 document does when applied in order, and `add_nested`, which chooses where to add.
 */
module Patch {
  import opened Wrappers
  import opened Json
  import opened Pointer

  /** `{"op": "add", "path": path, "value": value}`, the only operation the webhook emits. */
  datatype Op = AddOp(path: string, value: Json)

  // ---- The add operation -----------------------------------------------------------

  /** Add below one node: set a member, insert or append an element, else refuse. */
  function AddChild(node: Json, key: string, v: Json): Option<Json> {
    match node
    case Obj(m) => Some(Obj(m[key := v]))
    case Arr(items) =>
      if key == "-" then Some(Arr(items + [v]))
      else
        (match ParseIndex(key)
         case Some(i) => if i <= |items| then Some(Arr(items[..i] + [v] + items[i..])) else None
         case None => None)
    case _ => None
  }

  function ReplaceChild(node: Json, key: string, c: Json): Json
    requires Child(node, key).Some?
  {
    match node
    case Obj(m) => Obj(m[key := c])
    case Arr(items) => Arr(items[ParseIndex(key).value := c])
  }

  function AddAt(doc: Json, ts: Tokens, v: Json): Option<Json> {
    if ts == [] then Some(v)
    else if |ts| == 1 then AddChild(doc, ts[0], v)
    else
      match Child(doc, ts[0])
      case None => None
      case Some(c) =>
        match AddAt(c, ts[1..], v)
        case None => None
        case Some(c') => Some(ReplaceChild(doc, ts[0], c'))
  }

  function ApplyOp(doc: Json, op: Op): Option<Json> {
    if op.path == "" then Some(op.value)
    else if op.path[0] != '/' then None
    else AddAt(doc, UnescapeAll(Split(op.path)[1..]), op.value)
  }

  /** The operations in order; the first one that does not apply fails the patch. */
  function Apply(doc: Json, ops: seq<Op>): Option<Json>
    decreases |ops|
  {
    if ops == [] then Some(doc)
    else
      match ApplyOp(doc, ops[0])
      case Some(d) => Apply(d, ops[1..])
      case None => None
  }

  // ---- Adds at token level ---------------------------------------------------------

  datatype Edit = Edit(at: Tokens, value: Json)

  function EditAll(doc: Json, edits: seq<Edit>): Option<Json>
    decreases |edits|
  {
    if edits == [] then Some(doc)
    else
      match AddAt(doc, edits[0].at, edits[0].value)
      case Some(d) => EditAll(d, edits[1..])
      case None => None
  }

  function OpOf(e: Edit): Op {
    AddOp(Render(e.at), e.value)
  }

  function OpsOf(edits: seq<Edit>): (ops: seq<Op>)
    ensures |ops| == |edits|
    ensures forall i :: 0 <= i < |edits| ==> ops[i] == OpOf(edits[i])
  {
    if edits == [] then [] else [OpOf(edits[0])] + OpsOf(edits[1..])
  }

  lemma OpsOfAppend(a: seq<Edit>, b: seq<Edit>)
    ensures OpsOf(a + b) == OpsOf(a) + OpsOf(b)
  {
  }

  lemma {:induction false} ApplyIsEditAll(doc: Json, edits: seq<Edit>)
    requires forall e :: e in edits ==> PlainPath(e.at)
    ensures Apply(doc, OpsOf(edits)) == EditAll(doc, edits)
    decreases |edits|
  {
    if edits != [] {
      var e := edits[0];
      PlainIsBare(e.at);
      SplitRender(e.at);
      assert ([""] + e.at)[1..] == e.at;
      assert ApplyOp(doc, OpOf(e)) == AddAt(doc, e.at, e.value);
      match AddAt(doc, e.at, e.value) {
        case Some(d) => ApplyIsEditAll(d, edits[1..]);
        case None =>
      }
      assert OpsOf(edits)[1..] == OpsOf(edits[1..]);
    }
  }

  lemma {:induction false} EditAllAppend(doc: Json, a: seq<Edit>, b: seq<Edit>)
    ensures EditAll(doc, a + b) ==
            match EditAll(doc, a) case Some(d) => EditAll(d, b) case None => None
    decreases |a|
  {
    if a == [] {
      assert a + b == b;
    } else {
      assert (a + b)[1..] == a[1..] + b;
      match AddAt(doc, a[0].at, a[0].value) {
        case Some(d) => EditAllAppend(d, a[1..], b);
        case None =>
      }
    }
  }

  function Parent(ts: Tokens): Tokens
    requires ts != []
  {
    ts[..|ts| - 1]
  }

  function Last(ts: Tokens): string
    requires ts != []
  {
    ts[|ts| - 1]
  }

  /** An add is decided by the node its parent pointer reaches, and changes just that node. */
  lemma {:induction false} AddAtParent(doc: Json, ts: Tokens, v: Json)
    requires ts != []
    ensures AddAt(doc, ts, v).Some? <==>
            Walk(doc, Parent(ts)).Some? && AddChild(Walk(doc, Parent(ts)).value, Last(ts), v).Some?
    ensures AddAt(doc, ts, v).Some? ==>
              Walk(AddAt(doc, ts, v).value, Parent(ts)) == AddChild(Walk(doc, Parent(ts)).value, Last(ts), v)
    decreases |ts|
  {
    if |ts| > 1 {
      assert Parent(ts)[0] == ts[0] && Parent(ts)[1..] == Parent(ts[1..]);
      match Child(doc, ts[0]) {
        case Some(c) => AddAtParent(c, ts[1..], v);
        case None =>
      }
    }
  }

  predicate IsObjectAt(doc: Json, ts: Tokens) {
    Walk(doc, ts).Some? && Walk(doc, ts).value.Obj?
  }

  /** The add goes into an object: it sets one member and moves nothing else. */
  predicate SetsMember(doc: Json, ts: Tokens) {
    ts != [] && IsObjectAt(doc, Parent(ts))
  }

  lemma AddedValue(doc: Json, ts: Tokens, v: Json, below: Tokens)
    requires SetsMember(doc, ts)
    ensures AddAt(doc, ts, v).Some?
    ensures Walk(AddAt(doc, ts, v).value, ts + below) == Walk(v, below)
  {
    AddAtParent(doc, ts, v);
    var d := AddAt(doc, ts, v).value;
    assert ts == Parent(ts) + [Last(ts)];
    WalkAppend(d, Parent(ts), [Last(ts)]);
    WalkAppend(d, ts, below);
  }

  /** Neither pointer is at or below the other. */
  predicate Apart(a: Tokens, b: Tokens) {
    a != [] && b != [] && (a[0] != b[0] || Apart(a[1..], b[1..]))
  }

  lemma {:induction false} ApartSymmetric(a: Tokens, b: Tokens)
    requires Apart(a, b)
    ensures Apart(b, a)
  {
    if a[0] == b[0] {
      ApartSymmetric(a[1..], b[1..]);
    }
  }

  lemma {:induction false} ApartBelow(a: Tokens, b: Tokens, below: Tokens)
    requires Apart(a, b)
    ensures Apart(a, b + below) && Apart(a + below, b)
  {
    if a[0] == b[0] {
      ApartBelow(a[1..], b[1..], below);
      assert (b + below)[1..] == b[1..] + below;
      assert (a + below)[1..] == a[1..] + below;
    }
  }

  lemma {:induction false} ApartAt(a: Tokens, b: Tokens, k: nat)
    requires k < |a| && k < |b| && a[k] != b[k]
    ensures Apart(a, b)
    decreases k
  {
    if k > 0 && a[0] == b[0] {
      ApartAt(a[1..], b[1..], k - 1);
    }
  }

  /** Replacing one child leaves the others as they were. */
  lemma ReplaceLeavesOthers(doc: Json, key: string, c: Json, other: string)
    requires Child(doc, key).Some? && key != other
    ensures Child(ReplaceChild(doc, key, c), other) == Child(doc, other)
  {
    if doc.Arr? && ParseIndex(other).Some? {
      IndexIsDecimal(key);
      IndexIsDecimal(other);
    }
  }

  /** A pointer apart from the target sees the document it saw before. */
  lemma {:induction false} AddLeavesApart(doc: Json, ts: Tokens, v: Json, u: Tokens)
    requires SetsMember(doc, ts) && Apart(ts, u)
    ensures AddAt(doc, ts, v).Some?
    ensures Walk(AddAt(doc, ts, v).value, u) == Walk(doc, u)
    decreases |ts|
  {
    AddAtParent(doc, ts, v);
    if |ts| > 1 {
      assert Parent(ts)[0] == ts[0] && Parent(ts)[1..] == Parent(ts[1..]);
      var c := Child(doc, ts[0]).value;
      if u[0] == ts[0] {
        AddLeavesApart(c, ts[1..], v, u[1..]);
      } else {
        ReplaceLeavesOthers(doc, ts[0], AddAt(c, ts[1..], v).value, u[0]);
      }
    }
  }

  /** Every object on the way to the target stays an object. */
  lemma {:induction false} AddKeepsAncestors(doc: Json, ts: Tokens, v: Json, u: Tokens)
    requires SetsMember(doc, ts) && u < ts && IsObjectAt(doc, u)
    ensures AddAt(doc, ts, v).Some? && IsObjectAt(AddAt(doc, ts, v).value, u)
    decreases |ts|
  {
    AddAtParent(doc, ts, v);
    if |ts| > 1 && u != [] {
      assert Parent(ts)[0] == ts[0] && Parent(ts)[1..] == Parent(ts[1..]);
      AddKeepsAncestors(Child(doc, ts[0]).value, ts[1..], v, u[1..]);
    }
  }

  /** Two pointers are apart unless one extends the other. */
  lemma {:induction false} ApartOrPrefix(a: Tokens, b: Tokens)
    ensures Apart(a, b) || a <= b || b <= a
  {
    if a != [] && b != [] && a[0] == b[0] {
      ApartOrPrefix(a[1..], b[1..]);
      assert a == [a[0]] + a[1..] && b == [b[0]] + b[1..];
    }
  }

  lemma {:induction false} ApartNotPrefix(a: Tokens, b: Tokens)
    requires Apart(a, b)
    ensures !(a <= b) && !(b <= a)
  {
    if a[0] == b[0] {
      ApartNotPrefix(a[1..], b[1..]);
    }
  }

  /** One add does not disturb the object another, apart, add goes into. */
  lemma AddKeepsSetsMember(doc: Json, ts: Tokens, v: Json, other: Tokens)
    requires SetsMember(doc, ts) && SetsMember(doc, other) && Apart(ts, other)
    ensures AddAt(doc, ts, v).Some? && SetsMember(AddAt(doc, ts, v).value, other)
  {
    AddAtParent(doc, ts, v);
    ApartOrPrefix(ts, Parent(other));
    if Apart(ts, Parent(other)) {
      AddLeavesApart(doc, ts, v, Parent(other));
    } else {
      ApartNotPrefix(ts, other);
      assert Parent(other) <= other;
      AddKeepsAncestors(doc, ts, v, Parent(other));
    }
  }

  // ---- Independent edits -----------------------------------------------------------

  /** Every edit sets a member of an object of `doc`, and no target is at or below another. */
  ghost predicate Independent(doc: Json, edits: seq<Edit>) {
    && (forall i :: 0 <= i < |edits| ==> SetsMember(doc, edits[i].at))
    && (forall i, j :: 0 <= i < j < |edits| ==> Apart(edits[i].at, edits[j].at))
  }

  lemma IndependentTail(doc: Json, edits: seq<Edit>)
    requires Independent(doc, edits) && edits != []
    ensures AddAt(doc, edits[0].at, edits[0].value).Some?
    ensures Independent(AddAt(doc, edits[0].at, edits[0].value).value, edits[1..])
  {
    var e, rest := edits[0], edits[1..];
    AddAtParent(doc, e.at, e.value);
    forall i | 0 <= i < |rest|
      ensures SetsMember(AddAt(doc, e.at, e.value).value, rest[i].at)
    {
      assert rest[i] == edits[i + 1];
      AddKeepsSetsMember(doc, e.at, e.value, rest[i].at);
    }
  }

  /** Independent edits computed against one document all apply, and a pointer apart from
      every target is unchanged. */
  lemma {:induction false} IndependentFrame(doc: Json, edits: seq<Edit>, u: Tokens)
    requires Independent(doc, edits)
    requires forall i :: 0 <= i < |edits| ==> Apart(edits[i].at, u)
    ensures EditAll(doc, edits).Some? && Walk(EditAll(doc, edits).value, u) == Walk(doc, u)
    decreases |edits|
  {
    if edits != [] {
      IndependentTail(doc, edits);
      AddLeavesApart(doc, edits[0].at, edits[0].value, u);
      IndependentFrame(AddAt(doc, edits[0].at, edits[0].value).value, edits[1..], u);
    }
  }

  lemma {:induction false} IndependentApply(doc: Json, edits: seq<Edit>)
    requires Independent(doc, edits)
    ensures EditAll(doc, edits).Some?
    decreases |edits|
  {
    if edits != [] {
      IndependentTail(doc, edits);
      IndependentApply(AddAt(doc, edits[0].at, edits[0].value).value, edits[1..]);
    }
  }

  /** ... and afterwards each target holds its value, all of them at once. */
  lemma {:induction false} IndependentValues(doc: Json, edits: seq<Edit>, k: nat, below: Tokens)
    requires Independent(doc, edits) && k < |edits|
    ensures EditAll(doc, edits).Some?
    ensures Walk(EditAll(doc, edits).value, edits[k].at + below) == Walk(edits[k].value, below)
    decreases |edits|
  {
    var e, rest := edits[0], edits[1..];
    IndependentTail(doc, edits);
    var d := AddAt(doc, e.at, e.value).value;
    if k == 0 {
      AddedValue(doc, e.at, e.value, below);
      forall i | 0 <= i < |rest|
        ensures Apart(rest[i].at, e.at + below)
      {
        assert rest[i] == edits[i + 1];
        ApartBelow(e.at, rest[i].at, below);
        ApartSymmetric(e.at + below, rest[i].at);
      }
      IndependentFrame(d, rest, e.at + below);
    } else {
      IndependentValues(d, rest, k - 1, below);
    }
  }

  // ---- add_nested ------------------------------------------------------------------

  function LastSlash(s: string): (r: Option<nat>)
    ensures r.Some? ==> r.value < |s| && s[r.value] == '/' && forall i :: r.value < i < |s| ==> s[i] != '/'
    ensures r.None? ==> forall i :: 0 <= i < |s| ==> s[i] != '/'
  {
    if s == "" then None
    else if s[|s| - 1] == '/' then Some(|s| - 1)
    else LastSlash(s[..|s| - 1])
  }

  /** `split_pointer`: parent and last token, with one trailing slash of the parent dropped. */
  function SplitPointer(path: string): (r: Option<(string, string)>)
    ensures r.Some? ==> |r.value.0| < |path|
  {
    if path == "" || path[0] != '/' then None
    else
      var trimmed := path[1..];
      match LastSlash(trimmed)
      case None => None
      case Some(idx) =>
        var head := path[..idx + 1];
        var parent := if head[|head| - 1] == '/' then head[..|head| - 1] else head;
        var key := trimmed[idx + 1..];
        if parent == "" then Some(("/", key)) else Some((parent, key))
  }

  function AddNested(doc: Json, path: string, value: Json): Op
    decreases |path|
  {
    if Lookup(doc, path).Some? then AddOp(path, value)
    else
      match SplitPointer(path)
      case None => AddOp(path, value)
      case Some((parent, key)) =>
        if Lookup(doc, parent).Some? then AddOp(path, value)
        else AddNested(doc, parent, Obj(map[key := value]))
  }

  /** How many leading tokens of `ts` resolve in `doc`. */
  function Resolved(doc: Json, ts: Tokens): (n: nat)
    ensures n <= |ts|
  {
    if ts == [] then 0
    else
      match Child(doc, ts[0])
      case Some(c) => 1 + Resolved(c, ts[1..])
      case None => 0
  }

  lemma {:induction false} ResolvedPrefixes(doc: Json, ts: Tokens, k: nat)
    requires k <= |ts|
    ensures Walk(doc, ts[..k]).Some? <==> k <= Resolved(doc, ts)
    decreases |ts|
  {
    if k > 0 {
      assert ts[..k][0] == ts[0] && ts[..k][1..] == ts[1..][..k - 1];
      match Child(doc, ts[0]) {
        case Some(c) => ResolvedPrefixes(c, ts[1..], k - 1);
        case None =>
      }
    }
  }

  /** The shallowest missing pointer on the way to `ts`, or `ts` itself when it resolves. */
  function Target(doc: Json, ts: Tokens): (t: Tokens)
    ensures t <= ts
    ensures ts != [] ==> t != []
  {
    if Resolved(doc, ts) == |ts| then ts else ts[..Resolved(doc, ts) + 1]
  }

  function Nest(keys: Tokens, v: Json): Json {
    if keys == [] then v else Obj(map[keys[0] := Nest(keys[1..], v)])
  }

  function NestedEdit(doc: Json, ts: Tokens, v: Json): Edit {
    var t := Target(doc, ts);
    Edit(t, Nest(ts[|t|..], v))
  }

  lemma {:induction false} NestSnoc(keys: Tokens, key: string, v: Json)
    ensures Nest(keys + [key], v) == Nest(keys, Obj(map[key := v]))
  {
    if keys == [] {
      assert keys + [key] == [key];
      assert [key][1..] == [];
    } else {
      NestSnoc(keys[1..], key, v);
      assert (keys + [key])[1..] == keys[1..] + [key];
    }
  }

  lemma {:induction false} NestedValue(keys: Tokens, v: Json)
    ensures Walk(Nest(keys, v), keys) == Some(v)
  {
    if keys != [] {
      NestedValue(keys[1..], v);
    }
  }

  lemma NestOfParent(ts: Tokens, k: nat, v: Json)
    requires k < |ts|
    ensures Nest(ts[k..], v) == Nest(Parent(ts)[k..], Obj(map[Last(ts) := v]))
  {
    assert ts[k..] == Parent(ts)[k..] + [Last(ts)];
    NestSnoc(Parent(ts)[k..], Last(ts), v);
  }

  lemma {:induction false} ResolvedOfPrefix(doc: Json, ts: Tokens, k: nat)
    requires k <= |ts| && Resolved(doc, ts) <= k
    ensures Resolved(doc, ts[..k]) == Resolved(doc, ts)
    decreases k
  {
    if k > 0 {
      assert ts[..k][0] == ts[0] && ts[..k][1..] == ts[1..][..k - 1];
      match Child(doc, ts[0]) {
        case Some(c) => ResolvedOfPrefix(c, ts[1..], k - 1);
        case None =>
      }
    }
  }

  // ---- add_nested on any pointer ---------------------------------------------------

  /** What `split_pointer` takes for the parent: an empty token before the last one goes with it,
      unless it is the first token of all. */
  function Above(ts: Tokens): (up: Tokens)
    requires |ts| > 1
    ensures up != [] && up < ts
  {
    if |ts| > 2 && ts[|ts| - 2] == "" then ts[..|ts| - 2] else Parent(ts)
  }

  lemma RenderSnoc(ts: Tokens, key: string)
    ensures Render(ts + [key]) == Render(ts) + "/" + key
  {
    RenderAppend(ts, [key]);
    assert Render([key]) == "/" + key + Render([]);
  }

  lemma RenderParts(ts: Tokens)
    requires ts != []
    ensures Render(ts) == Render(Parent(ts)) + "/" + Last(ts) && Render(ts)[0] == '/'
  {
    assert Parent(ts) + [Last(ts)] == ts;
    RenderSnoc(Parent(ts), Last(ts));
    assert Render(ts) == "/" + ts[0] + Render(ts[1..]);
  }

  lemma SplitAtLastSlash(head: string, key: string)
    requires Bare(key) && (head == "" || head[0] == '/')
    ensures head == "" ==> SplitPointer(head + "/" + key) == None
    ensures head != "" ==>
              var parent := if head[|head| - 1] == '/' then head[..|head| - 1] else head;
              SplitPointer(head + "/" + key) == Some((if parent == "" then "/" else parent, key))
  {
    var path := head + "/" + key;
    var trimmed := path[1..];
    if head == "" {
      assert trimmed == key;
    } else {
      assert trimmed[|head| - 1] == '/' && trimmed[|head|..] == key;
      forall i | |head| <= i < |trimmed| ensures trimmed[i] != '/' {
        assert trimmed[i] == key[i - |head|];
      }
      assert LastSlash(trimmed) == Some(|head| - 1);
      assert path[..|head|] == head;
    }
  }

  lemma SplitEmptyParent(ts: Tokens)
    requires BarePath(ts) && |ts| > 1 && Last(Parent(ts)) == ""
    ensures SplitPointer(Render(ts)) == Some((Render(Above(ts)), Last(ts)))
  {
    var up := Parent(ts);
    var head, grand := Render(up), Render(Parent(up));
    RenderParts(ts);
    RenderParts(up);
    assert head == grand + "/";
    assert head[..|head| - 1] == grand;
    if |ts| > 2 {
      RenderParts(Parent(up));
      assert Above(ts) == Parent(up);
    } else {
      assert Above(ts) == up && grand == "";
    }
    SplitAtLastSlash(head, Last(ts));
  }

  lemma SplitNamedParent(ts: Tokens)
    requires BarePath(ts) && |ts| > 1 && Last(Parent(ts)) != ""
    ensures SplitPointer(Render(ts)) == Some((Render(Above(ts)), Last(ts)))
  {
    var up := Parent(ts);
    var head := Render(up);
    RenderParts(ts);
    RenderParts(up);
    assert Above(ts) == up && Bare(Last(up));
    assert head[|head| - 1] == Last(up)[|Last(up)| - 1];
    SplitAtLastSlash(head, Last(ts));
  }

  /** `split_pointer` on the tokens of a pointer. */
  lemma SplitRendered(ts: Tokens)
    requires BarePath(ts) && ts != []
    ensures |ts| == 1 ==> SplitPointer(Render(ts)) == None
    ensures |ts| > 1 ==> SplitPointer(Render(ts)) == Some((Render(Above(ts)), Last(ts)))
  {
    if |ts| == 1 {
      RenderParts(ts);
      SplitAtLastSlash("", Last(ts));
    } else if Last(Parent(ts)) == "" {
      SplitEmptyParent(ts);
    } else {
      SplitNamedParent(ts);
    }
  }

  /** How many leading tokens of a written pointer resolve. */
  function Reached(doc: Json, ts: Tokens): (n: nat)
    ensures n <= |ts|
  {
    Resolved(doc, UnescapeAll(ts))
  }

  lemma UnescapePrefix(ts: Tokens, k: nat)
    requires k <= |ts|
    ensures UnescapeAll(ts[..k]) == UnescapeAll(ts)[..k]
  {
  }

  lemma LookupReached(doc: Json, ts: Tokens, k: nat)
    requires BarePath(ts) && k <= |ts|
    ensures Lookup(doc, Render(ts[..k])).Some? <==> k <= Reached(doc, ts)
  {
    LookupIsWalk(doc, ts[..k]);
    UnescapePrefix(ts, k);
    ResolvedPrefixes(doc, UnescapeAll(ts), k);
  }

  lemma ReachedOfPrefix(doc: Json, ts: Tokens, k: nat)
    requires k <= |ts| && Reached(doc, ts) <= k
    ensures Reached(doc, ts[..k]) == Reached(doc, ts)
  {
    UnescapePrefix(ts, k);
    ResolvedOfPrefix(doc, UnescapeAll(ts), k);
  }

  /** Where `add_nested` adds and what, in the tokens as written, `r` of which resolve. */
  function RawEdit(r: nat, ts: Tokens, v: Json): Edit
    requires ts != []
    decreases |ts|
  {
    if |ts| == 1 || |Above(ts)| <= r then Edit(ts, v) else RawEdit(r, Above(ts), Obj(map[Last(ts) := v]))
  }

  lemma LookupsReached(doc: Json, ts: Tokens)
    requires BarePath(ts) && |ts| > 1
    ensures Lookup(doc, Render(ts)).Some? <==> |ts| <= Reached(doc, ts)
    ensures Lookup(doc, Render(Above(ts))).Some? <==> |Above(ts)| <= Reached(doc, ts)
  {
    LookupReached(doc, ts, |ts|);
    LookupReached(doc, ts, |Above(ts)|);
    assert ts[..|ts|] == ts && ts[..|Above(ts)|] == Above(ts);
  }

  /** `add_nested` stops at the path it is given once the path or what it takes for its parent
      resolves, and otherwise asks for that parent, holding the wrapped value. */
  lemma AddNestedStep(doc: Json, ts: Tokens, v: Json)
    requires BarePath(ts) && ts != []
    ensures AddNested(doc, Render(ts), v) ==
            if |ts| == 1 || |Above(ts)| <= Reached(doc, ts) then AddOp(Render(ts), v)
            else AddNested(doc, Render(Above(ts)), Obj(map[Last(ts) := v]))
  {
    SplitRendered(ts);
    if |ts| > 1 {
      LookupsReached(doc, ts);
    }
  }

  lemma ReachedAbove(doc: Json, ts: Tokens)
    requires |ts| > 1 && Reached(doc, ts) < |Above(ts)|
    ensures Reached(doc, Above(ts)) == Reached(doc, ts)
  {
    assert Above(ts) == ts[..|Above(ts)|];
    ReachedOfPrefix(doc, ts, |Above(ts)|);
  }

  lemma {:induction false} AddNestedIsRawEdit(doc: Json, ts: Tokens, v: Json)
    requires BarePath(ts) && ts != []
    ensures AddNested(doc, Render(ts), v) == OpOf(RawEdit(Reached(doc, ts), ts, v))
    decreases |ts|
  {
    AddNestedStep(doc, ts, v);
    if |ts| > 1 && Reached(doc, ts) < |Above(ts)| {
      ReachedAbove(doc, ts);
      AddNestedIsRawEdit(doc, Above(ts), Obj(map[Last(ts) := v]));
    }
  }

  /** No empty token is lost on the way up: none of those before the last that are missing. */
  predicate NoneDropped(r: nat, ts: Tokens) {
    forall i :: 1 <= i < |ts| - 1 && r <= i ==> ts[i] != ""
  }

  function TargetLength(r: nat, ts: Tokens): (n: nat)
    ensures n <= |ts| && (ts != [] ==> n > 0)
  {
    if r >= |ts| then |ts| else r + 1
  }

  lemma EditOfParent(k: nat, ts: Tokens, v: Json)
    requires k < |ts|
    ensures Edit(Parent(ts)[..k], Nest(Parent(ts)[k..], Obj(map[Last(ts) := v]))) == Edit(ts[..k], Nest(ts[k..], v))
  {
    NestOfParent(ts, k, v);
  }

  /** Where nothing is dropped, the add is at the shallowest missing pointer and carries the
      value wrapped in the tokens below it, spelt as they were written. */
  lemma {:induction false} RawEditKeeps(r: nat, ts: Tokens, v: Json)
    requires ts != [] && NoneDropped(r, ts)
    ensures RawEdit(r, ts, v) == Edit(ts[..TargetLength(r, ts)], Nest(ts[TargetLength(r, ts)..], v))
    decreases |ts|
  {
    var n := |ts|;
    if n == 1 || n - 1 <= r {
      assert ts[..n] == ts && ts[n..] == [];
    } else {
      assert ts[n - 2] == Last(Parent(ts));
      RawEditKeeps(r, Parent(ts), Obj(map[Last(ts) := v]));
      EditOfParent(r + 1, ts, v);
    }
  }

  /** Where something is dropped, the add is below a pointer that does not resolve, or carries
      too few tokens. */
  lemma {:induction false} RawEditDrops(r: nat, ts: Tokens, v: Json) returns (m: nat, keys: Tokens)
    requires ts != []
    ensures 0 < m <= |ts| && |keys| <= |ts| - m && RawEdit(r, ts, v) == Edit(ts[..m], Nest(keys, v))
    ensures !NoneDropped(r, ts) ==> m > r + 1 || |keys| < |ts| - m
    decreases |ts|
  {
    if |ts| == 1 || |Above(ts)| <= r {
      m, keys := |ts|, [];
      assert ts[..m] == ts;
    } else {
      var up := Above(ts);
      var above;
      m, above := RawEditDrops(r, up, Obj(map[Last(ts) := v]));
      keys := above + [Last(ts)];
      NestSnoc(above, Last(ts), v);
      assert up[..m] == ts[..m];
      if !NoneDropped(r, ts) && |up| == |ts| - 1 {
        var i :| 1 <= i < |ts| - 1 && r <= i && ts[i] == "";
        assert up[i] == "" && i < |up| - 1;
      }
    }
  }

  // ---- What is found afterwards ----------------------------------------------------

  /** The node the add goes into can hold the member or element the target names. */
  predicate TakesTarget(doc: Json, t: Tokens)
    requires t != []
  {
    && Walk(doc, Parent(t)).Some?
    && match Walk(doc, Parent(t)).value
       case Obj(_) => true
       case Arr(items) => ParseIndex(Last(t)).Some? && ParseIndex(Last(t)).value <= |items|
       case _ => false
  }

  lemma AddChildDelivers(node: Json, key: string, v: Json)
    requires AddChild(node, key, v).Some?
    ensures Walk(AddChild(node, key, v).value, [key]) ==
            if node.Obj? || ParseIndex(key).Some? then Some(v) else None
  {
    var after := AddChild(node, key, v).value;
    assert Walk(after, [key]) == match Child(after, key) case Some(c) => Walk(c, []) case None => None;
  }

  /** A pointer through the target finds what the added value has there, if the target could be added. */
  lemma AfterAdd(doc: Json, t: Tokens, added: Json, below: Tokens, v: Json)
    requires t != []
    ensures AddAt(doc, t, added).Some? && Walk(AddAt(doc, t, added).value, t + below) == Some(v)
            <==> TakesTarget(doc, t) && Walk(added, below) == Some(v)
  {
    AddAtParent(doc, t, added);
    if AddAt(doc, t, added).Some? {
      var d := AddAt(doc, t, added).value;
      assert t == Parent(t) + [Last(t)];
      WalkAppend(d, t, below);
      WalkAppend(d, Parent(t), [Last(t)]);
      AddChildDelivers(Walk(doc, Parent(t)).value, Last(t), added);
    }
  }

  /** Wrapped in members, a value is found under exactly their names ... */
  lemma {:induction false} NestedValueIff(keys: Tokens, us: Tokens, v: Json)
    requires |us| == |keys|
    ensures Walk(Nest(keys, v), us) == Some(v) <==> us == keys
  {
    if keys != [] {
      NestedValueIff(keys[1..], us[1..], v);
      assert us == [us[0]] + us[1..] && keys == [keys[0]] + keys[1..];
    }
  }

  lemma {:induction false} WalkGoesDown(v: Json, us: Tokens)
    requires us != [] && Walk(v, us).Some?
    ensures Walk(v, us).value < v
    decreases |us|
  {
    var c := Child(v, us[0]).value;
    assert c < v;
    if |us| > 1 {
      WalkGoesDown(c, us[1..]);
    }
  }

  /** ... and never by a longer pointer. */
  lemma {:induction false} NestedTooDeep(keys: Tokens, us: Tokens, v: Json)
    requires |keys| < |us|
    ensures Walk(Nest(keys, v), us) != Some(v)
  {
    if keys == [] {
      if Walk(v, us) == Some(v) {
        WalkGoesDown(v, us);
      }
    } else if us[0] == keys[0] {
      NestedTooDeep(keys[1..], us[1..], v);
    }
  }

  /** The operation applies, and the requested pointer then evaluates to the requested value. */
  predicate Delivered(doc: Json, path: string, v: Json) {
    var after := ApplyOp(doc, AddNested(doc, path, v));
    after.Some? && Lookup(after.value, path) == Some(v)
  }

  /** Every token below the target is its own spelling, so the members created are the ones asked for. */
  predicate OwnSpelling(r: nat, ts: Tokens) {
    forall i :: TargetLength(r, ts) <= i < |ts| ==> Unescape(ts[i]) == ts[i]
  }

  lemma ApplyRaw(doc: Json, e: Edit)
    requires BarePath(e.at) && e.at != []
    ensures ApplyOp(doc, OpOf(e)) == AddAt(doc, UnescapeAll(e.at), e.value)
  {
    SplitRender(e.at);
    assert ([""] + e.at)[1..] == e.at;
    RenderParts(e.at);
  }

  lemma ApplyNested(doc: Json, ts: Tokens, v: Json, m: nat, added: Json)
    requires BarePath(ts) && 0 < m <= |ts| && RawEdit(Reached(doc, ts), ts, v) == Edit(ts[..m], added)
    ensures ApplyOp(doc, AddNested(doc, Render(ts), v)) == AddAt(doc, UnescapeAll(ts)[..m], added)
  {
    AddNestedIsRawEdit(doc, ts, v);
    ApplyRaw(doc, Edit(ts[..m], added));
    UnescapePrefix(ts, m);
  }

  /** Delivery, for an add at the first `m` tokens. */
  lemma DeliveredAt(doc: Json, ts: Tokens, v: Json, m: nat, added: Json)
    requires BarePath(ts) && 0 < m <= |ts| && RawEdit(Reached(doc, ts), ts, v) == Edit(ts[..m], added)
    ensures Delivered(doc, Render(ts), v) <==>
            TakesTarget(doc, UnescapeAll(ts)[..m]) && Walk(added, UnescapeAll(ts)[m..]) == Some(v)
  {
    var us := UnescapeAll(ts);
    ApplyNested(doc, ts, v, m, added);
    AfterAdd(doc, us[..m], added, us[m..], v);
    assert us[..m] + us[m..] == us;
    var after := ApplyOp(doc, AddNested(doc, Render(ts), v));
    if after.Some? {
      LookupIsWalk(after.value, ts);
    }
  }

  lemma SameSpelling(ts: Tokens, m: nat)
    requires m <= |ts|
    ensures UnescapeAll(ts)[m..] == ts[m..] <==> forall i :: m <= i < |ts| ==> Unescape(ts[i]) == ts[i]
  {
    var us := UnescapeAll(ts);
    if us[m..] == ts[m..] {
      forall i | m <= i < |ts| ensures Unescape(ts[i]) == ts[i] {
        assert us[m..][i - m] == ts[m..][i - m];
      }
    }
  }

  lemma TargetOfReached(doc: Json, ts: Tokens)
    ensures Target(doc, UnescapeAll(ts)) == UnescapeAll(ts)[..TargetLength(Reached(doc, ts), ts)]
  {
    assert UnescapeAll(ts)[..|ts|] == UnescapeAll(ts);
  }

  lemma DeliveredKept(doc: Json, ts: Tokens, v: Json)
    requires BarePath(ts) && ts != [] && NoneDropped(Reached(doc, ts), ts)
    ensures Delivered(doc, Render(ts), v) <==>
            TakesTarget(doc, Target(doc, UnescapeAll(ts))) && OwnSpelling(Reached(doc, ts), ts)
  {
    var r := Reached(doc, ts);
    var m := TargetLength(r, ts);
    RawEditKeeps(r, ts, v);
    DeliveredAt(doc, ts, v, m, Nest(ts[m..], v));
    NestedValueIff(ts[m..], UnescapeAll(ts)[m..], v);
    SameSpelling(ts, m);
    TargetOfReached(doc, ts);
  }

  lemma UnresolvedTakesNothing(doc: Json, us: Tokens, m: nat)
    requires Resolved(doc, us) + 1 < m <= |us|
    ensures !TakesTarget(doc, us[..m])
  {
    ResolvedPrefixes(doc, us, m - 1);
    assert Parent(us[..m]) == us[..m - 1];
  }

  lemma DroppedIsMissed(doc: Json, ts: Tokens, v: Json)
    requires BarePath(ts) && ts != [] && !NoneDropped(Reached(doc, ts), ts)
    ensures !Delivered(doc, Render(ts), v)
  {
    var r := Reached(doc, ts);
    var m, keys := RawEditDrops(r, ts, v);
    DeliveredAt(doc, ts, v, m, Nest(keys, v));
    if m > r + 1 {
      UnresolvedTakesNothing(doc, UnescapeAll(ts), m);
    } else {
      NestedTooDeep(keys, UnescapeAll(ts)[m..], v);
    }
  }

  /** The pointer's own tokens can be created as asked: what takes the first is an object, or an
      array its index fits; no empty token is lost; and each is spelt the way it is looked up. */
  predicate Creatable(doc: Json, ts: Tokens)
    requires ts != []
  {
    && TakesTarget(doc, Target(doc, UnescapeAll(ts)))
    && NoneDropped(Reached(doc, ts), ts) && OwnSpelling(Reached(doc, ts), ts)
  }

  /** Applied on its own, the operation makes the requested pointer evaluate to the requested value
      exactly when the pointer is empty or its tokens can be created; a string that is no pointer
      is never delivered. */
  lemma AddNestedDelivers(doc: Json, path: string, v: Json)
    ensures path == "" ==> Delivered(doc, path, v)
    ensures path != "" && path[0] != '/' ==> !Delivered(doc, path, v)
    ensures path != "" && path[0] == '/' ==>
              var ts := Split(path)[1..]; ts != [] && (Delivered(doc, path, v) <==> Creatable(doc, ts))
  {
    if path != "" && path[0] == '/' {
      var ts := Split(path)[1..];
      RenderSplit(path);
      if NoneDropped(Reached(doc, ts), ts) {
        DeliveredKept(doc, ts, v);
      } else {
        DroppedIsMissed(doc, ts, v);
      }
    }
  }

  /** Where nothing is dropped, `add_nested` emits exactly one operation, at the shallowest missing
      ancestor of the requested pointer, carrying the value wrapped in the members still missing. */
  lemma AddNestedIsNestedEdit(doc: Json, ts: Tokens, v: Json)
    requires BarePath(ts) && ts != [] && NoneDropped(Reached(doc, ts), ts)
    ensures var m := TargetLength(Reached(doc, ts), ts);
            AddNested(doc, Render(ts), v) == AddOp(Render(ts[..m]), Nest(ts[m..], v))
  {
    AddNestedIsRawEdit(doc, ts, v);
    RawEditKeeps(Reached(doc, ts), ts, v);
  }

  /** On plain tokens that is the nested edit of the tokens themselves. */
  lemma PlainNestedEdit(doc: Json, ts: Tokens, v: Json)
    requires PlainPath(ts) && ts != []
    ensures AddNested(doc, Render(ts), v) == OpOf(NestedEdit(doc, ts, v))
  {
    PlainIsBare(ts);
    forall i | 0 <= i < |ts| ensures ts[i] != "" {
      assert Plain(ts[i]);
    }
    AddNestedIsNestedEdit(doc, ts, v);
    TargetOfReached(doc, ts);
  }

  /** Added into an object, it changes nothing that is not at, above or below its target. */
  lemma AddNestedFrame(doc: Json, ts: Tokens, v: Json, u: Tokens)
    requires BarePath(ts) && ts != [] && NoneDropped(Reached(doc, ts), ts)
    requires SetsMember(doc, Target(doc, UnescapeAll(ts))) && Apart(Target(doc, UnescapeAll(ts)), u)
    ensures ApplyOp(doc, AddNested(doc, Render(ts), v)).Some?
    ensures Walk(ApplyOp(doc, AddNested(doc, Render(ts), v)).value, u) == Walk(doc, u)
  {
    var m := TargetLength(Reached(doc, ts), ts);
    RawEditKeeps(Reached(doc, ts), ts, v);
    ApplyNested(doc, ts, v, m, Nest(ts[m..], v));
    TargetOfReached(doc, ts);
    AddLeavesApart(doc, UnescapeAll(ts)[..m], Nest(ts[m..], v), u);
  }

  lemma ReachedNone(ts: Tokens)
    requires ts != []
    ensures Reached(Obj(map[]), ts) == 0
  {
  }

  lemma ReachedOne(a: string, key: string)
    ensures Reached(Obj(map[Unescape(a) := Obj(map[])]), [a, key]) == 1
  {
    var us := UnescapeAll([a, key]);
    assert us[0] == Unescape(a) && us[1..] == [Unescape(key)];
    assert Resolved(Obj(map[]), [Unescape(key)]) == 0;
  }

  /** A token that is not its own spelling, where it has to be created below one that is missing
      too, is missed: the member gets the escaped name ... */
  lemma EscapedTokenIsMissed(a: string, key: string, v: Json)
    requires Bare(a) && Bare(key) && Unescape(key) != key
    ensures !Delivered(Obj(map[]), Render([a, key]), v)
  {
    var ts := [a, key];
    ReachedNone(ts);
    DeliveredKept(Obj(map[]), ts, v);
    assert Unescape(ts[1]) != ts[1];
  }

  /** ... and below a member that is there it is found, however either is spelt. */
  lemma EscapedTokenIsFound(a: string, key: string, v: Json)
    requires Bare(a) && Bare(key)
    ensures Delivered(Obj(map[Unescape(a) := Obj(map[])]), Render([a, key]), v)
  {
    var doc, ts := Obj(map[Unescape(a) := Obj(map[])]), [a, key];
    ReachedOne(a, key);
    DeliveredKept(doc, ts, v);
    TargetOfReached(doc, ts);
    var us := UnescapeAll(ts);
    assert us[..2] == us && Parent(us) == [Unescape(a)];
    assert Walk(doc, [Unescape(a)]) == Some(Obj(map[]));
  }

  /** An empty token inside a missing path disappears together with its slash. */
  lemma EmptyTokenIsDropped(a: string, b: string, v: Json)
    requires Bare(a) && Bare(b)
    ensures AddNested(Obj(map[]), Render([a, "", b]), v) == AddOp(Render([a]), Obj(map[b := v]))
    ensures !Delivered(Obj(map[]), Render([a, "", b]), v)
  {
    var ts := [a, "", b];
    ReachedNone(ts);
    AddNestedIsRawEdit(Obj(map[]), ts, v);
    assert Above(ts) == [a];
    assert ts[1] == "";
    DroppedIsMissed(Obj(map[]), ts, v);
  }
}
