/** An admitted object's JSON folded into the flat subject the evaluator judges. */
module Subject {
  import opened Wrappers
  import opened Json
  import opened Policy

  datatype Subject = Subject(
    policyName: string, policyNamespace: string, namespace: string,
    clusterLabels: Option<Labels>, namespaceLabels: Option<Labels>, workloadLabels: Labels,
    serviceAccount: string, serviceAccountLabels: Option<Labels>,
    image: string, imageSigned: bool,
    privileged: bool, hostPid: bool, hostIpc: bool, hostNetwork: bool, hostPath: bool,
    allowPrivilegeEscalation: bool, runAsRoot: bool, addedCapabilities: seq<string>,
    wildcardRbac: bool, clusterAdminBind: bool, kind: string)

  const EMPTY_SUBJECT := Subject(
    "", "", "", None, None, map[], "", None, "", false,
    false, false, false, false, false, false, false, [], false, false, "")

  /** Whether a local signature over one image verifies, given every image of the pod, the
      pod's annotations and the bundle's trust roots. Ed25519 itself is not modelled. */
  type SignatureCheck = (string, seq<string>, Labels, seq<TrustRoot>) -> bool

  // ---- Fields ----------------------------------------------------------------------

  /** `optional_object_from`: absent and null mean none, anything but an object is refused. */
  function OptionalObject(m: Fields, key: string): Result<Option<Fields>> {
    match Field(m, key)
    case None => Ok(None)
    case Some(Null) => Ok(None)
    case Some(Obj(f)) => Ok(Some(f))
    case Some(_) => Err(Integrity)
  }

  function StringMap(v: Option<Json>): Labels {
    match v
    case Some(Obj(m)) => map k | k in m && m[k].Str? :: m[k].s
    case _ => map[]
  }

  function OptField(m: Option<Fields>, key: string): Option<Json> {
    match m
    case Some(f) => Field(f, key)
    case None => None
  }

  function OrElse<T>(a: Option<T>, b: Option<T>): Option<T> {
    if a.Some? then a else b
  }

  function RunsAsRoot(podSc: Option<Fields>, sc: Option<Fields>): bool {
    if OrElse(AsBool(OptField(sc, "runAsNonRoot")), AsBool(OptField(podSc, "runAsNonRoot"))) == Some(true) then false
    else
      match OrElse(AsI64(OptField(sc, "runAsUser")), AsI64(OptField(podSc, "runAsUser")))
      case Some(uid) => uid == 0
      case None => true
  }

  function CollectContainers(v: Option<Json>): Result<seq<Fields>> {
    match v
    case None => Ok([])
    case Some(Null) => Ok([])
    case Some(Arr(items)) =>
      if forall i :: 0 <= i < |items| ==> items[i].Obj?
      then Ok(seq(|items|, i requires 0 <= i < |items| && items[i].Obj? => items[i].fields))
      else Err(Integrity)
    case Some(_) => Err(Integrity)
  }

  function AllContainers(spec: Fields): Result<seq<Fields>> {
    var main :- CollectContainers(Field(spec, "containers"));
    var init :- CollectContainers(Field(spec, "initContainers"));
    var ephemeral :- CollectContainers(Field(spec, "ephemeralContainers"));
    Ok(main + init + ephemeral)
  }

  function VolumesHostPath(v: Option<Json>): Result<bool> {
    match v
    case None => Ok(false)
    case Some(Null) => Ok(false)
    case Some(Arr(items)) => HostPathFrom(items)
    case Some(_) => Err(Integrity)
  }

  function HostPathFrom(items: seq<Json>): Result<bool> {
    if items == [] then Ok(false)
    else if !items[0].Obj? then Err(Integrity)
    else if "hostPath" in items[0].fields then Ok(true)
    else HostPathFrom(items[1..])
  }

  // ---- Containers ------------------------------------------------------------------

  /** What the container loop accumulates. */
  datatype Totals = Totals(
    privileged: bool, allowEscalation: bool, root: bool, caps: seq<string>, images: seq<string>)

  const NO_TOTALS := Totals(false, false, false, [], [])

  function AddCaps(caps: seq<string>, add: seq<Json>): seq<string> {
    if add == [] then caps
    else
      var init, last := add[..|add| - 1], add[|add| - 1];
      var before := AddCaps(caps, init);
      if last.Str? && last.s !in before then before + [last.s] else before
  }

  function AddList(sc: Option<Fields>): seq<Json> {
    match OptField(sc, "capabilities")
    case Some(Obj(cap)) => (match Field(cap, "add") case Some(Arr(items)) => items case _ => [])
    case _ => []
  }

  predicate PermitsEscalation(sc: Option<Fields>) {
    BoolOr(OptField(sc, "allowPrivilegeEscalation"), true)
  }

  predicate IsPrivileged(sc: Option<Fields>) {
    BoolOr(OptField(sc, "privileged"), false)
  }

  function AddContainer(t: Totals, c: Fields, podSc: Option<Fields>): Totals {
    var sc := SecurityContext(c);
    var img := StrOr(Field(c, "image"), "");
    Totals(
      t.privileged || IsPrivileged(sc),
      t.allowEscalation || PermitsEscalation(sc),
      t.root || RunsAsRoot(podSc, sc),
      AddCaps(t.caps, AddList(sc)),
      if img != "" then t.images + [img] else t.images)
  }

  function SumContainers(cs: seq<Fields>, podSc: Option<Fields>): Totals {
    if cs == [] then NO_TOTALS
    else AddContainer(SumContainers(cs[..|cs| - 1], podSc), cs[|cs| - 1], podSc)
  }

  predicate ReadableContext(c: Fields) {
    OptionalObject(c, "securityContext").Ok?
  }

  predicate ReadableContexts(cs: seq<Fields>) {
    forall i :: 0 <= i < |cs| ==> ReadableContext(cs[i])
  }

  /** The security context of a container that has one. */
  function SecurityContext(c: Fields): Option<Fields> {
    ObjectAt(c, "securityContext")
  }

  /** The loop of `fill_pod`: stops at the first container whose securityContext is neither
      absent, null nor an object. */
  method FoldContainers(cs: seq<Fields>, podSc: Option<Fields>) returns (r: Result<Totals>)
    ensures r == if ReadableContexts(cs) then Ok(SumContainers(cs, podSc)) else Err(Integrity)
  {
    var t := NO_TOTALS;
    var i := 0;
    while i < |cs|
      invariant 0 <= i <= |cs|
      invariant forall j :: 0 <= j < i ==> ReadableContext(cs[j])
      invariant t == SumContainers(cs[..i], podSc)
    {
      if OptionalObject(cs[i], "securityContext").Err? {
        assert !ReadableContext(cs[i]);
        return Err(Integrity);
      }
      t := Accumulate(t, cs[i], podSc);
      assert cs[..i + 1][..i] == cs[..i];
      i := i + 1;
    }
    assert cs[..i] == cs;
    return Ok(t);
  }

  /** One pass of that loop, field by field. */
  method Accumulate(t: Totals, c: Fields, podSc: Option<Fields>) returns (out: Totals)
    ensures out == AddContainer(t, c, podSc)
  {
    out := t;
    var sc := SecurityContext(c);
    out := out.(privileged := out.privileged || IsPrivileged(sc));
    out := out.(allowEscalation := out.allowEscalation || PermitsEscalation(sc));
    out := out.(root := out.root || RunsAsRoot(podSc, sc));
    var caps := AppendCaps(out.caps, AddList(sc));
    out := out.(caps := caps);
    var img := StrOr(Field(c, "image"), "");
    if img != "" {
      out := out.(images := out.images + [img]);
    }
  }

  /** The inner loop: a capability is listed once, in the order first seen. */
  method AppendCaps(caps: seq<string>, add: seq<Json>) returns (out: seq<string>)
    ensures out == AddCaps(caps, add)
    ensures NoRepeats(caps) ==> NoRepeats(out)
    ensures forall i :: 0 <= i <= |add| ==> caps <= AddCaps(caps, add[..i]) <= out
  {
    CapsListedOnce(caps, add);
    forall i | 0 <= i <= |add| ensures caps <= AddCaps(caps, add[..i]) <= AddCaps(caps, add) {
      CapsGrow(caps, add, i);
    }
    out := caps;
    var i := 0;
    while i < |add|
      invariant 0 <= i <= |add|
      invariant out == AddCaps(caps, add[..i])
    {
      assert add[..i + 1][..i] == add[..i];
      match add[i] {
        case Str(s) =>
          if s !in out {
            out := out + [s];
          }
        case _ =>
      }
      i := i + 1;
    }
    assert add[..i] == add;
  }

  predicate NoRepeats(caps: seq<string>) {
    forall i, j :: 0 <= i < j < |caps| ==> caps[i] != caps[j]
  }

  lemma {:induction false} CapsListedOnce(caps: seq<string>, add: seq<Json>)
    ensures NoRepeats(caps) ==> NoRepeats(AddCaps(caps, add))
    decreases |add|
  {
    if add != [] {
      CapsListedOnce(caps, add[..|add| - 1]);
    }
  }

  /** What is listed stays where it is: later names only go to the end. */
  lemma {:induction false} CapsGrow(caps: seq<string>, add: seq<Json>, i: nat)
    requires i <= |add|
    ensures caps <= AddCaps(caps, add[..i]) <= AddCaps(caps, add)
    decreases |add|
  {
    if i == |add| {
      assert add[..i] == add;
      if i > 0 {
        CapsGrow(caps, add[..i - 1], 0);
        assert add[..i - 1][..0] == [];
      }
    } else {
      CapsGrow(caps, add[..|add| - 1], i);
      assert add[..|add| - 1][..i] == add[..i];
    }
  }

  /** Over all containers together, too, a capability is listed once. */
  lemma {:induction false} TotalCapsListedOnce(cs: seq<Fields>, podSc: Option<Fields>)
    ensures NoRepeats(SumContainers(cs, podSc).caps)
    decreases |cs|
  {
    if cs != [] {
      TotalCapsListedOnce(cs[..|cs| - 1], podSc);
      CapsListedOnce(SumContainers(cs[..|cs| - 1], podSc).caps, AddList(SecurityContext(cs[|cs| - 1])));
    }
  }

  predicate AddsCapability(c: Fields, cap: string) {
    Str(cap) in AddList(SecurityContext(c))
  }

  /** What the totals mean: a flag is raised exactly when some container raises it. */
  lemma {:induction false} EscalationMeaning(cs: seq<Fields>, podSc: Option<Fields>)
    ensures SumContainers(cs, podSc).allowEscalation <==>
            exists i :: 0 <= i < |cs| && PermitsEscalation(SecurityContext(cs[i]))
    decreases |cs|
  {
    if cs != [] {
      var init := cs[..|cs| - 1];
      EscalationMeaning(init, podSc);
      assert forall i :: 0 <= i < |init| ==> init[i] == cs[i];
    }
  }

  /** The same for the privileged flag ... */
  lemma {:induction false} PrivilegeMeaning(cs: seq<Fields>, podSc: Option<Fields>)
    ensures SumContainers(cs, podSc).privileged <==>
            exists i :: 0 <= i < |cs| && IsPrivileged(SecurityContext(cs[i]))
    decreases |cs|
  {
    if cs != [] {
      var init := cs[..|cs| - 1];
      PrivilegeMeaning(init, podSc);
      assert forall i :: 0 <= i < |init| ==> init[i] == cs[i];
    }
  }

  /** ... and for running as root. */
  lemma {:induction false} RootMeaning(cs: seq<Fields>, podSc: Option<Fields>)
    ensures SumContainers(cs, podSc).root <==>
            exists i :: 0 <= i < |cs| && RunsAsRoot(podSc, SecurityContext(cs[i]))
    decreases |cs|
  {
    if cs != [] {
      var init := cs[..|cs| - 1];
      RootMeaning(init, podSc);
      assert forall i :: 0 <= i < |init| ==> init[i] == cs[i];
    }
  }

  lemma {:induction false} CapsMeaning(caps: seq<string>, add: seq<Json>, cap: string)
    ensures cap in AddCaps(caps, add) <==> cap in caps || Str(cap) in add
    decreases |add|
  {
    if add != [] {
      CapsMeaning(caps, add[..|add| - 1], cap);
      assert add == add[..|add| - 1] + [add[|add| - 1]];
    }
  }

  lemma {:induction false} TotalCapsMeaning(cs: seq<Fields>, podSc: Option<Fields>, cap: string)
    ensures cap in SumContainers(cs, podSc).caps <==> exists i :: 0 <= i < |cs| && AddsCapability(cs[i], cap)
    decreases |cs|
  {
    if cs != [] {
      var init, c := cs[..|cs| - 1], cs[|cs| - 1];
      TotalCapsMeaning(init, podSc, cap);
      CapsMeaning(SumContainers(init, podSc).caps, AddList(SecurityContext(c)), cap);
      assert forall i :: 0 <= i < |init| ==> init[i] == cs[i];
    }
  }

  // ---- Images ----------------------------------------------------------------------

  predicate LooksLatest(image: string) {
    if '@' in image then false
    else
      match LastColon(image)
      case Some(i) =>
        if i > 0 && i + 1 < |image| && '/' !in image[i + 1..] then image[i + 1..] == "latest" else true
      case None => true
  }

  function LastColon(s: string): (r: Option<nat>)
    ensures r.Some? ==> r.value < |s|
  {
    if s == "" then None
    else if s[|s| - 1] == ':' then Some(|s| - 1)
    else LastColon(s[..|s| - 1])
  }

  function FirstWhere(images: seq<string>, p: string -> bool): Option<string> {
    if images == [] then None
    else if p(images[0]) then Some(images[0])
    else FirstWhere(images[1..], p)
  }

  /** The one image the evaluator judges: unsigned first, then undigested, then latest. */
  function PickImage(images: seq<string>, signed: string -> bool): string {
    var unsigned := FirstWhere(images, img => !signed(img));
    var undigested := FirstWhere(images, img => '@' !in img);
    var latest := FirstWhere(images, LooksLatest);
    if unsigned.Some? then unsigned.value
    else if undigested.Some? then undigested.value
    else if latest.Some? then latest.value
    else if images != [] then images[0] else ""
  }

  // ---- Kinds -----------------------------------------------------------------------

  /** Which images of a pod carry a signature that verifies. */
  function Signed(check: SignatureCheck, images: seq<string>, annotations: Labels, roots: seq<TrustRoot>): string -> bool {
    (image: string) => check(image, images, annotations, roots)
  }

  predicate AllSigned(images: seq<string>, signed: string -> bool) {
    images != [] && forall i :: 0 <= i < |images| ==> signed(images[i])
  }

  /** What the containers say; a pod without any is judged as one that permits everything unset. */
  function FillContainers(s: Subject, cs: seq<Fields>, podSc: Option<Fields>, annotations: Labels,
                          roots: seq<TrustRoot>, check: SignatureCheck): (r: Result<Subject>)
    ensures r.Ok? ==> r.value.kind == s.kind && r.value.namespace == s.namespace
  {
    if cs == [] then
      Ok(s.(allowPrivilegeEscalation := true, runAsRoot := RunsAsRoot(podSc, None), imageSigned := false))
    else if !ReadableContexts(cs) then Err(Integrity)
    else
      var t := SumContainers(cs, podSc);
      var signed := Signed(check, t.images, annotations, roots);
      Ok(s.(
         privileged := t.privileged, allowPrivilegeEscalation := t.allowEscalation,
         runAsRoot := t.root, addedCapabilities := t.caps,
         imageSigned := AllSigned(t.images, signed),
         image := PickImage(t.images, signed)))
  }

  /** What the spec says of the host. */
  function HostFilled(s: Subject, spec: Fields): Subject {
    s.(hostPid := BoolOr(Field(spec, "hostPID"), false),
       hostIpc := BoolOr(Field(spec, "hostIPC"), false),
       hostNetwork := BoolOr(Field(spec, "hostNetwork"), false),
       serviceAccount := StrOr(Field(spec, "serviceAccountName"), ""))
  }

  function FillPod(s: Subject, m: Fields, meta: Option<Fields>, roots: seq<TrustRoot>, check: SignatureCheck): (r: Result<Subject>)
    ensures r.Ok? ==> r.value.kind == s.kind && r.value.namespace == s.namespace
  {
    var spec :- OptionalObject(m, "spec");
    if spec.None? then Err(Integrity) else
    var spec := spec.value;
    var hostPath :- VolumesHostPath(Field(spec, "volumes"));
    var podSc :- OptionalObject(spec, "securityContext");
    var containers :- AllContainers(spec);
    var s := HostFilled(s, spec).(hostPath := hostPath);
    FillContainers(s, containers, podSc, StringMap(OptField(meta, "annotations")), roots, check)
  }

  function ListHasStar(v: Option<Json>): Result<bool> {
    match v
    case None => Ok(false)
    case Some(Null) => Ok(false)
    case Some(Arr(items)) => Ok(Str("*") in items)
    case Some(_) => Err(Integrity)
  }

  function RulesHaveWildcard(rules: seq<Json>): Result<bool> {
    if rules == [] then Ok(false)
    else if !rules[0].Obj? then Err(Integrity)
    else
      var rule := rules[0].fields;
      var verbs :- ListHasStar(Field(rule, "verbs"));
      if verbs then Ok(true) else
      var resources :- ListHasStar(Field(rule, "resources"));
      if resources then Ok(true) else
      var groups :- ListHasStar(Field(rule, "apiGroups"));
      if groups then Ok(true) else RulesHaveWildcard(rules[1..])
  }

  function WildcardRules(v: Option<Json>): Result<bool> {
    match v
    case None => Ok(false)
    case Some(Null) => Ok(false)
    case Some(Arr(items)) => RulesHaveWildcard(items)
    case Some(_) => Err(Integrity)
  }

  function FillRole(s: Subject, m: Fields): (r: Result<Subject>)
    ensures r.Ok? ==> r.value.kind == s.kind && r.value.namespace == s.namespace
  {
    var spec :- OptionalObject(m, "spec");
    var wildcard :- WildcardRules(OrElse<Json>(Field(if spec.Some? then spec.value else m, "rules"), Field(m, "rules")));
    Ok(s.(wildcardRbac := wildcard))
  }

  function IsClusterAdminRef(v: Option<Json>): Result<bool> {
    match v
    case None => Ok(false)
    case Some(Null) => Ok(false)
    case Some(Obj(ref)) =>
      Ok(StrOr(Field(ref, "kind"), "") == "ClusterRole" && StrOr(Field(ref, "name"), "") == "cluster-admin")
    case Some(_) => Err(Integrity)
  }

  function FillBinding(s: Subject, m: Fields): (r: Result<Subject>)
    ensures r.Ok? ==> r.value.kind == s.kind && r.value.namespace == s.namespace
  {
    var spec :- OptionalObject(m, "spec");
    var admin :- IsClusterAdminRef(OrElse<Json>(OptField(spec, "roleRef"), Field(m, "roleRef")));
    Ok(s.(clusterAdminBind := admin))
  }

  function SubjectFromObject(doc: Json, roots: seq<TrustRoot>, check: SignatureCheck): Result<Subject> {
    if !doc.Obj? then Err(Integrity) else
    var m := doc.fields;
    var kind := StrOr(Field(m, "kind"), "");
    var meta :- OptionalObject(m, "metadata");
    var s := EMPTY_SUBJECT.(
      kind := kind,
      namespace := StrOr(OptField(meta, "namespace"), ""),
      workloadLabels := StringMap(OptField(meta, "labels")));
    if kind == "Pod" then FillPod(s, m, meta, roots, check)
    else if kind == "Role" || kind == "ClusterRole" then FillRole(s, m)
    else if kind == "RoleBinding" || kind == "ClusterRoleBinding" then FillBinding(s, m)
    else Ok(s)
  }

  lemma UnescalatingContainers(s: Subject, cs: seq<Fields>, podSc: Option<Fields>, annotations: Labels, roots: seq<TrustRoot>, check: SignatureCheck)
    requires FillContainers(s, cs, podSc, annotations, roots, check).Ok?
    requires !FillContainers(s, cs, podSc, annotations, roots, check).value.allowPrivilegeEscalation
    ensures NoneEscalates(cs)
  {
    EscalationMeaning(cs, podSc);
  }

  /** Every container says that it does not escalate, and there is one. */
  predicate NoneEscalates(cs: seq<Fields>) {
    && cs != []
    && forall i :: 0 <= i < |cs| ==>
         && SecurityContext(cs[i]).Some?
         && Field(SecurityContext(cs[i]).value, "allowPrivilegeEscalation") == Some(Bool(false))
  }

  lemma UnescalatingPod(s: Subject, m: Fields, meta: Option<Fields>, roots: seq<TrustRoot>, check: SignatureCheck)
    requires FillPod(s, m, meta, roots, check).Ok? && !FillPod(s, m, meta, roots, check).value.allowPrivilegeEscalation
    ensures ObjectAt(m, "spec").Some? && AllContainers(ObjectAt(m, "spec").value).Ok?
    ensures NoneEscalates(AllContainers(ObjectAt(m, "spec").value).value)
  {
    var spec := ObjectAt(m, "spec").value;
    UnescalatingContainers(
      HostFilled(s, spec).(hostPath := VolumesHostPath(Field(spec, "volumes")).value), AllContainers(spec).value,
      OptionalObject(spec, "securityContext").value, StringMap(OptField(meta, "annotations")), roots, check);
  }

  /** Every container of a pod whose subject does not permit privilege escalation carries an
      object securityContext that says so; in particular the pod has containers. */
  lemma NoEscalationMeansSecurityContext(doc: Json, roots: seq<TrustRoot>, check: SignatureCheck)
    requires SubjectFromObject(doc, roots, check).Ok?
    requires SubjectFromObject(doc, roots, check).value.kind == "Pod"
    requires !SubjectFromObject(doc, roots, check).value.allowPrivilegeEscalation
    ensures ObjectAt(doc.fields, "spec").Some? && AllContainers(ObjectAt(doc.fields, "spec").value).Ok?
    ensures NoneEscalates(AllContainers(ObjectAt(doc.fields, "spec").value).value)
  {
    var meta := OptionalObject(doc.fields, "metadata").value;
    var start := EMPTY_SUBJECT.(
      kind := "Pod", namespace := StrOr(OptField(meta, "namespace"), ""), workloadLabels := StringMap(OptField(meta, "labels")));
    UnescalatingPod(start, doc.fields, meta, roots, check);
  }
}
