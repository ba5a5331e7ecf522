/**
 What an object is read as, and when it is refused: the subject of each kind of object, field by
 field, in terms of the JSON alone.
 */
module SubjectReads {
  import opened Wrappers
  import opened Json
  import opened Policy
  import opened Subject
  import opened Profile

  // ---- Places in an object -----------------------------------------------------------

  /** What an object holds under a key; nothing reads as null. */
  function At(m: Fields, key: string): Json {
    if key in m then m[key] else Null
  }

  /** What the object under one key holds under another. */
  function Under(m: Fields, key: string, inner: string): Json {
    if At(m, key).Obj? then At(At(m, key).fields, inner) else Null
  }

  function TextOf(v: Json): string {
    if v.Str? then v.s else ""
  }

  function ItemsOf(v: Json): seq<Json> {
    if v.Arr? then v.items else []
  }

  /** The members of an object that are strings. */
  ghost predicate StringsOf(labels: Labels, v: Json) {
    && (forall k :: k in labels <==> v.Obj? && k in v.fields && v.fields[k].Str?)
    && forall k :: k in labels ==> v.Obj? && k in v.fields && v.fields[k] == Str(labels[k])
  }

  predicate ObjectOrNothing(v: Json) {
    v.Null? || v.Obj?
  }

  predicate ListOrNothing(v: Json) {
    v.Null? || v.Arr?
  }

  predicate AllObjects(items: seq<Json>) {
    forall i :: 0 <= i < |items| ==> items[i].Obj?
  }

  // ---- What every kind shares --------------------------------------------------------

  /** A subject that carries only its kind, its namespace and its labels. */
  ghost predicate Bare(s: Subject, m: Fields) {
    && s.kind == TextOf(At(m, "kind"))
    && s.namespace == TextOf(Under(m, "metadata", "namespace"))
    && StringsOf(s.workloadLabels, Under(m, "metadata", "labels"))
    && s == Subject("", "", s.namespace, None, None, s.workloadLabels, "", None, "", false,
                    false, false, false, false, false, false, false, [], false, false, s.kind)
  }

  /** The subject before the kind fills it in. */
  function Start(m: Fields): Subject {
    var meta := ObjectAt(m, "metadata");
    EMPTY_SUBJECT.(
      kind := StrOr(Field(m, "kind"), ""), namespace := StrOr(OptField(meta, "namespace"), ""),
      workloadLabels := StringMap(OptField(meta, "labels")))
  }

  lemma StartIsBare(m: Fields)
    ensures Bare(Start(m), m)
  {
  }

  lemma Dispatch(m: Fields, roots: seq<TrustRoot>, check: SignatureCheck)
    requires ObjectOrNothing(At(m, "metadata"))
    ensures var kind, r := TextOf(At(m, "kind")), SubjectFromObject(Obj(m), roots, check);
            && (kind == "Pod" ==> r == FillPod(Start(m), m, ObjectAt(m, "metadata"), roots, check))
            && (kind in {"Role", "ClusterRole"} ==> r == FillRole(Start(m), m))
            && (kind in {"RoleBinding", "ClusterRoleBinding"} ==> r == FillBinding(Start(m), m))
            && (kind !in {"Pod", "Role", "ClusterRole", "RoleBinding", "ClusterRoleBinding"} ==> r == Ok(Start(m)))
  {
  }

  /** Anything that is not an object is refused, and so is an object whose metadata is not one. */
  lemma RefusedOutright(doc: Json, roots: seq<TrustRoot>, check: SignatureCheck)
    ensures !doc.Obj? || !ObjectOrNothing(At(doc.fields, "metadata")) ==> SubjectFromObject(doc, roots, check).Err?
  {
  }

  /** An object of a kind the rules say nothing about. */
  lemma OtherReads(m: Fields, roots: seq<TrustRoot>, check: SignatureCheck)
    requires TextOf(At(m, "kind")) !in {"Pod", "Role", "ClusterRole", "RoleBinding", "ClusterRoleBinding"}
    ensures SubjectFromObject(Obj(m), roots, check).Ok? <==> ObjectOrNothing(At(m, "metadata"))
    ensures SubjectFromObject(Obj(m), roots, check).Ok? ==> Bare(SubjectFromObject(Obj(m), roots, check).value, m)
  {
    RefusedOutright(Obj(m), roots, check);
    if ObjectOrNothing(At(m, "metadata")) {
      Dispatch(m, roots, check);
      StartIsBare(m);
    }
  }

  // ---- Roles and bindings --------------------------------------------------------------

  /** The member of the spec if it has one, else the object's own. */
  function SpecOr(m: Fields, key: string): Json {
    if At(m, "spec").Obj? && key in At(m, "spec").fields then At(m, "spec").fields[key] else At(m, key)
  }

  /** A rule with a star in one of its three lists. */
  predicate Wild(rule: Json) {
    && rule.Obj?
    && (Str("*") in ItemsOf(At(rule.fields, "verbs")) || Str("*") in ItemsOf(At(rule.fields, "resources"))
        || Str("*") in ItemsOf(At(rule.fields, "apiGroups")))
  }

  /** A rule that cannot be judged: it is no object, or one of its lists, read in order until a star
      is met, is no list. */
  predicate Baffling(rule: Json) {
    || !rule.Obj?
    || !ListOrNothing(At(rule.fields, "verbs"))
    || (Str("*") !in ItemsOf(At(rule.fields, "verbs"))
        && (|| !ListOrNothing(At(rule.fields, "resources"))
            || (Str("*") !in ItemsOf(At(rule.fields, "resources")) && !ListOrNothing(At(rule.fields, "apiGroups")))))
  }

  /** Rules are refused when one that cannot be judged comes before any with a star. */
  ghost predicate BaffledBy(rules: seq<Json>) {
    exists i :: 0 <= i < |rules| && Baffling(rules[i]) && forall j :: 0 <= j < i ==> !Wild(rules[j])
  }

  lemma OneRule(rule: Json, rest: seq<Json>)
    ensures RulesHaveWildcard([rule] + rest) ==
            if Baffling(rule) then Err(Integrity) else if Wild(rule) then Ok(true) else RulesHaveWildcard(rest)
  {
    assert ([rule] + rest)[1..] == rest;
  }

  lemma {:induction false} RulesRead(rules: seq<Json>)
    ensures RulesHaveWildcard(rules).Err? <==> BaffledBy(rules)
    ensures RulesHaveWildcard(rules).Err? ==> RulesHaveWildcard(rules) == Err(Integrity)
    ensures RulesHaveWildcard(rules).Ok? ==> (RulesHaveWildcard(rules).value <==> exists i :: 0 <= i < |rules| && Wild(rules[i]))
    decreases |rules|
  {
    if rules != [] {
      var rest := rules[1..];
      assert rules == [rules[0]] + rest;
      OneRule(rules[0], rest);
      RulesRead(rest);
      if Baffling(rules[0]) {
        assert BaffledBy(rules);
      } else {
        Onward(rules);
      }
    }
  }

  lemma Onward(rules: seq<Json>)
    requires rules != [] && !Baffling(rules[0])
    ensures BaffledBy(rules) <==> !Wild(rules[0]) && BaffledBy(rules[1..])
    ensures (exists i :: 0 <= i < |rules| && Wild(rules[i])) <==> Wild(rules[0]) || exists i :: 0 <= i < |rules[1..]| && Wild(rules[1..][i])
  {
    var rest := rules[1..];
    assert forall i :: 0 < i < |rules| ==> rules[i] == rest[i - 1];
    if BaffledBy(rules) {
      var i :| 0 <= i < |rules| && Baffling(rules[i]) && forall j :: 0 <= j < i ==> !Wild(rules[j]);
      assert !Wild(rules[0]);
      forall j | 0 <= j < i - 1 ensures !Wild(rest[j]) {
        assert rest[j] == rules[j + 1];
      }
      assert Baffling(rest[i - 1]);
    }
    if !Wild(rules[0]) && BaffledBy(rest) {
      var i :| 0 <= i < |rest| && Baffling(rest[i]) && forall j :: 0 <= j < i ==> !Wild(rest[j]);
      assert rest[i] == rules[i + 1];
    }
    if i :| 0 <= i < |rest| && Wild(rest[i]) {
      assert rest[i] == rules[i + 1];
    }
  }

  ghost predicate Grants(rules: Json) {
    exists i :: 0 <= i < |ItemsOf(rules)| && Wild(ItemsOf(rules)[i])
  }

  /** What the spec or the object holds under a key, as it is read. */
  function Chosen(m: Fields, key: string): Option<Json> {
    OrElse<Json>(OptField(ObjectAt(m, "spec"), key), Field(m, key))
  }

  lemma ChosenRead(m: Fields, key: string)
    ensures Chosen(m, key) == None || Chosen(m, key) == Some(SpecOr(m, key))
    ensures Chosen(m, key) == None ==> SpecOr(m, key) == Null
  {
  }

  lemma WildcardRead(m: Fields)
    ensures var rules := SpecOr(m, "rules");
            WildcardRules(Chosen(m, "rules")) ==
            if ListOrNothing(rules) && !BaffledBy(ItemsOf(rules)) then Ok(Grants(rules)) else Err(Integrity)
  {
    ChosenRead(m, "rules");
    RulesRead(ItemsOf(SpecOr(m, "rules")));
  }

  lemma RoleFilled(s: Subject, m: Fields)
    ensures !ObjectOrNothing(At(m, "spec")) ==> FillRole(s, m).Err?
    ensures ObjectOrNothing(At(m, "spec")) ==>
              FillRole(s, m) ==
              match WildcardRules(Chosen(m, "rules")) case Ok(w) => Ok(s.(wildcardRbac := w)) case Err(e) => Err(e)
  {
    if ObjectOrNothing(At(m, "spec")) {
      var spec := OptionalObject(m, "spec").value;
      assert OrElse<Json>(Field(if spec.Some? then spec.value else m, "rules"), Field(m, "rules")) == Chosen(m, "rules");
    }
  }

  lemma AdministratorRead(m: Fields)
    ensures var ref := SpecOr(m, "roleRef");
            IsClusterAdminRef(Chosen(m, "roleRef")) == if ObjectOrNothing(ref) then Ok(NamesAdministrator(ref)) else Err(Integrity)
  {
    ChosenRead(m, "roleRef");
  }

  lemma BindingFilled(s: Subject, m: Fields)
    ensures FillBinding(s, m) ==
            if ObjectOrNothing(At(m, "spec")) && ObjectOrNothing(SpecOr(m, "roleRef"))
            then Ok(s.(clusterAdminBind := NamesAdministrator(SpecOr(m, "roleRef")))) else Err(Integrity)
  {
    if ObjectOrNothing(At(m, "spec")) {
      var spec := OptionalObject(m, "spec").value;
      assert OrElse<Json>(OptField(spec, "roleRef"), Field(m, "roleRef")) == Chosen(m, "roleRef");
      AdministratorRead(m);
    }
  }

  /** A reference to the cluster's administrator. */
  predicate NamesAdministrator(ref: Json) {
    ref.Obj? && At(ref.fields, "kind") == Str("ClusterRole") && At(ref.fields, "name") == Str("cluster-admin")
  }

  /** A role grants everything exactly when one of its rules has a star; it is refused exactly when
      its rules are no list or cannot be judged. */
  lemma RoleReads(m: Fields, roots: seq<TrustRoot>, check: SignatureCheck)
    requires TextOf(At(m, "kind")) in {"Role", "ClusterRole"}
    ensures var rules := SpecOr(m, "rules");
            SubjectFromObject(Obj(m), roots, check).Ok? <==>
              && ObjectOrNothing(At(m, "metadata")) && ObjectOrNothing(At(m, "spec"))
              && ListOrNothing(rules) && !BaffledBy(ItemsOf(rules))
    ensures SubjectFromObject(Obj(m), roots, check).Ok? ==>
              var s := SubjectFromObject(Obj(m), roots, check).value;
              && Bare(s.(wildcardRbac := false), m)
              && (s.wildcardRbac <==> Grants(SpecOr(m, "rules")))
  {
    RefusedOutright(Obj(m), roots, check);
    if ObjectOrNothing(At(m, "metadata")) {
      Dispatch(m, roots, check);
      StartIsBare(m);
      RoleFilled(Start(m), m);
      WildcardRead(m);
    }
  }

  /** A binding binds the cluster's administrator exactly when its reference names that role. */
  lemma BindingReads(m: Fields, roots: seq<TrustRoot>, check: SignatureCheck)
    requires TextOf(At(m, "kind")) in {"RoleBinding", "ClusterRoleBinding"}
    ensures SubjectFromObject(Obj(m), roots, check).Ok? <==>
              ObjectOrNothing(At(m, "metadata")) && ObjectOrNothing(At(m, "spec")) && ObjectOrNothing(SpecOr(m, "roleRef"))
    ensures SubjectFromObject(Obj(m), roots, check).Ok? ==>
              var s := SubjectFromObject(Obj(m), roots, check).value;
              && Bare(s.(clusterAdminBind := false), m)
              && (s.clusterAdminBind <==> NamesAdministrator(SpecOr(m, "roleRef")))
  {
    RefusedOutright(Obj(m), roots, check);
    if ObjectOrNothing(At(m, "metadata")) {
      Dispatch(m, roots, check);
      StartIsBare(m);
      BindingFilled(Start(m), m);
    }
  }

  // ---- Pods ----------------------------------------------------------------------------

  /** The three lists of containers, one after another. */
  function Listed(spec: Fields): seq<Json> {
    ItemsOf(At(spec, "containers")) + ItemsOf(At(spec, "initContainers")) + ItemsOf(At(spec, "ephemeralContainers"))
  }

  predicate ListsLegible(spec: Fields) {
    && ListOrNothing(At(spec, "containers")) && ListOrNothing(At(spec, "initContainers"))
    && ListOrNothing(At(spec, "ephemeralContainers")) && AllObjects(Listed(spec))
  }

  lemma OneList(spec: Fields, key: string)
    ensures CollectContainers(Field(spec, key)).Ok? <==> ListOrNothing(At(spec, key)) && AllObjects(ItemsOf(At(spec, key)))
    ensures CollectContainers(Field(spec, key)).Ok? ==>
              |CollectContainers(Field(spec, key)).value| == |ItemsOf(At(spec, key))|
              && forall i :: 0 <= i < |ItemsOf(At(spec, key))| ==>
                   Obj(CollectContainers(Field(spec, key)).value[i]) == ItemsOf(At(spec, key))[i]
  {
  }

  lemma AllObjectsJoined(a: seq<Json>, b: seq<Json>, c: seq<Json>)
    ensures AllObjects(a + b + c) <==> AllObjects(a) && AllObjects(b) && AllObjects(c)
  {
    var all := a + b + c;
    if AllObjects(all) {
      assert forall i :: 0 <= i < |a| ==> a[i] == all[i];
      assert forall i :: 0 <= i < |b| ==> b[i] == all[|a| + i];
      assert forall i :: 0 <= i < |c| ==> c[i] == all[|a| + |b| + i];
    }
  }

  /** The containers are those of the three lists, in that order. */
  lemma ContainersRead(spec: Fields)
    ensures AllContainers(spec).Ok? <==> ListsLegible(spec)
    ensures AllContainers(spec).Ok? ==>
              |AllContainers(spec).value| == |Listed(spec)|
              && forall i :: 0 <= i < |Listed(spec)| ==> Obj(AllContainers(spec).value[i]) == Listed(spec)[i]
  {
    OneList(spec, "containers");
    OneList(spec, "initContainers");
    OneList(spec, "ephemeralContainers");
    AllObjectsJoined(
      ItemsOf(At(spec, "containers")), ItemsOf(At(spec, "initContainers")), ItemsOf(At(spec, "ephemeralContainers")));
  }

  predicate HostPathBefore(items: seq<Json>, i: nat)
    requires i <= |items|
  {
    exists j :: 0 <= j < i && IsHostPath(items[j])
  }

  /** Volumes are refused when one that is no object comes before any hostPath. */
  predicate InOrder(items: seq<Json>) {
    forall i :: 0 <= i < |items| && !items[i].Obj? ==> HostPathBefore(items, i)
  }

  lemma {:induction false} VolumesRead(items: seq<Json>)
    ensures HostPathFrom(items).Ok? <==> InOrder(items)
    decreases |items|
  {
    if items != [] {
      if !items[0].Obj? {
        assert !HostPathBefore(items, 0);
      } else if IsHostPath(items[0]) {
        assert forall i :: 0 < i < |items| ==> HostPathBefore(items, i);
      } else {
        VolumesRead(items[1..]);
        OrderOfRest(items);
      }
    }
  }

  lemma OrderOfRest(items: seq<Json>)
    requires items != [] && items[0].Obj? && !IsHostPath(items[0])
    ensures InOrder(items) <==> InOrder(items[1..])
  {
    var rest := items[1..];
    forall i | 0 <= i < |rest| ensures rest[i] == items[i + 1] && (HostPathBefore(rest, i) <==> HostPathBefore(items, i + 1)) {
      if HostPathBefore(items, i + 1) {
        var j :| 0 <= j < i + 1 && IsHostPath(items[j]);
        assert IsHostPath(rest[j - 1]);
      }
      if HostPathBefore(rest, i) {
        var j :| 0 <= j < i && IsHostPath(rest[j]);
        assert IsHostPath(items[j + 1]);
      }
    }
    if InOrder(rest) {
      forall i | 0 <= i < |items| && !items[i].Obj? ensures HostPathBefore(items, i) {
        assert items[i] == rest[i - 1];
      }
    }
  }

  /** The image a container names, if it names one. */
  function Named(c: Fields): seq<string> {
    if TextOf(At(c, "image")) == "" then [] else [TextOf(At(c, "image"))]
  }

  /** The images the containers name, in order. */
  function Images(cs: seq<Fields>): seq<string> {
    if cs == [] then [] else Named(cs[0]) + Images(cs[1..])
  }

  lemma {:induction false} ImagesOneMore(cs: seq<Fields>, c: Fields)
    ensures Images(cs + [c]) == Images(cs) + Named(c)
    decreases |cs|
  {
    if cs == [] {
      assert cs + [c] == [c] && [c][1..] == [];
    } else {
      ImagesOneMore(cs[1..], c);
      assert (cs + [c])[1..] == cs[1..] + [c];
    }
  }

  lemma {:induction false} ImagesRead(cs: seq<Fields>, podSc: Option<Fields>)
    ensures SumContainers(cs, podSc).images == Images(cs)
    decreases |cs|
  {
    if cs != [] {
      var init, last := cs[..|cs| - 1], cs[|cs| - 1];
      ImagesRead(init, podSc);
      ImagesOneMore(init, last);
      assert cs == init + [last];
    }
  }

  /** The first image of a kind. */
  ghost predicate IsFirst(images: seq<string>, kind: string -> bool, image: string) {
    exists i :: 0 <= i < |images| && images[i] == image && kind(image) && forall j :: 0 <= j < i ==> !kind(images[j])
  }

  ghost predicate Any(images: seq<string>, kind: string -> bool) {
    exists i :: 0 <= i < |images| && kind(images[i])
  }

  lemma {:induction false} FirstOfKind(images: seq<string>, kind: string -> bool)
    ensures FirstWhere(images, kind).Some? <==> Any(images, kind)
    ensures FirstWhere(images, kind).Some? ==> IsFirst(images, kind, FirstWhere(images, kind).value)
    decreases |images|
  {
    if images != [] && !kind(images[0]) {
      var rest := images[1..];
      FirstOfKind(rest, kind);
      assert forall i :: 0 < i < |images| ==> images[i] == rest[i - 1];
      if FirstWhere(rest, kind).Some? {
        var image := FirstWhere(rest, kind).value;
        var i :| 0 <= i < |rest| && rest[i] == image && kind(image) && forall j :: 0 <= j < i ==> !kind(rest[j]);
        assert images[i + 1] == image;
        forall j | 0 <= j < i + 1 ensures !kind(images[j]) {}
      }
    }
  }

  /** The image judged: the first unsigned one, else the first without a digest, else the first of
      all. That a tag is latest never decides it, for an image with a digest is never that. */
  ghost predicate WorstFirst(images: seq<string>, signed: string -> bool, image: string) {
    if Any(images, x => !signed(x)) then IsFirst(images, x => !signed(x), image)
    else if Any(images, x => '@' !in x) then IsFirst(images, x => '@' !in x, image)
    else image == if images == [] then "" else images[0]
  }

  lemma ImageRead(images: seq<string>, signed: string -> bool)
    ensures WorstFirst(images, signed, PickImage(images, signed))
  {
    FirstOfKind(images, x => !signed(x));
    FirstOfKind(images, x => '@' !in x);
    FirstOfKind(images, LooksLatest);
  }

  // ---- The whole pod -------------------------------------------------------------------

  predicate ContextsLegible(cs: seq<Json>)
    requires AllObjects(cs)
  {
    forall i :: 0 <= i < |cs| ==> ObjectOrNothing(At(cs[i].fields, "securityContext"))
  }

  /** What a spec must look like for the pod to be read at all. */
  predicate SpecLegible(spec: Fields) {
    && ListOrNothing(At(spec, "volumes")) && InOrder(ItemsOf(At(spec, "volumes")))
    && ObjectOrNothing(At(spec, "securityContext"))
    && ListsLegible(spec) && ContextsLegible(Listed(spec))
  }

  /** The containers of a spec. */
  function Containers(spec: Fields): (cs: seq<Fields>)
    requires ListsLegible(spec)
  {
    seq(|Listed(spec)|, i requires 0 <= i < |Listed(spec)| => Listed(spec)[i].fields)
  }

  lemma VolumesOk(spec: Fields)
    ensures VolumesHostPath(Field(spec, "volumes")).Ok? <==> ListOrNothing(At(spec, "volumes")) && InOrder(ItemsOf(At(spec, "volumes")))
  {
    VolumesRead(ItemsOf(At(spec, "volumes")));
  }

  lemma ContainersOk(spec: Fields)
    requires ListsLegible(spec)
    ensures AllContainers(spec) == Ok(Containers(spec))
    ensures ReadableContexts(Containers(spec)) <==> ContextsLegible(Listed(spec))
  {
    ContainersRead(spec);
    assert AllContainers(spec).value == Containers(spec);
    forall i | 0 <= i < |Listed(spec)|
      ensures ReadableContext(Containers(spec)[i]) <==> ObjectOrNothing(At(Listed(spec)[i].fields, "securityContext"))
    {
    }
  }

  lemma ContainersFilledIff(s: Subject, cs: seq<Fields>, podSc: Option<Fields>, annotations: Labels, roots: seq<TrustRoot>, check: SignatureCheck)
    ensures FillContainers(s, cs, podSc, annotations, roots, check).Ok? <==> ReadableContexts(cs)
  {
  }

  /** The spec of a pod, up to the containers' own contexts, can be read. */
  predicate ReachesContainers(m: Fields) {
    && At(m, "spec").Obj?
    && var spec := At(m, "spec").fields;
       && ListOrNothing(At(spec, "volumes")) && InOrder(ItemsOf(At(spec, "volumes")))
       && ObjectOrNothing(At(spec, "securityContext")) && ListsLegible(spec)
  }

  lemma PodRefused(s: Subject, m: Fields, meta: Option<Fields>, roots: seq<TrustRoot>, check: SignatureCheck)
    requires !ReachesContainers(m)
    ensures FillPod(s, m, meta, roots, check).Err?
  {
    if At(m, "spec").Obj? {
      VolumesOk(At(m, "spec").fields);
      ContainersRead(At(m, "spec").fields);
    }
  }

  lemma PodFilled(s: Subject, m: Fields, meta: Option<Fields>, roots: seq<TrustRoot>, check: SignatureCheck) returns (filled: Subject)
    requires ReachesContainers(m)
    ensures var spec := At(m, "spec").fields;
            && VolumesHostPath(Field(spec, "volumes")).Ok?
            && filled == HostFilled(s, spec).(hostPath := VolumesHostPath(Field(spec, "volumes")).value)
            && FillPod(s, m, meta, roots, check) ==
               FillContainers(filled, Containers(spec), ObjectAt(spec, "securityContext"), StringMap(OptField(meta, "annotations")), roots, check)
  {
    var spec := At(m, "spec").fields;
    assert OptionalObject(m, "spec") == Ok(Some(spec));
    assert VolumesHostPath(Field(spec, "volumes")).Ok? by {
      VolumesOk(spec);
    }
    assert AllContainers(spec) == Ok(Containers(spec)) by {
      ContainersOk(spec);
    }
    filled := HostFilled(s, spec).(hostPath := VolumesHostPath(Field(spec, "volumes")).value);
    assert OptionalObject(spec, "securityContext") == Ok(ObjectAt(spec, "securityContext"));
  }

  lemma PodOk(s: Subject, m: Fields, meta: Option<Fields>, roots: seq<TrustRoot>, check: SignatureCheck)
    ensures FillPod(s, m, meta, roots, check).Ok? <==> At(m, "spec").Obj? && SpecLegible(At(m, "spec").fields)
  {
    if ReachesContainers(m) {
      var spec := At(m, "spec").fields;
      var filled := PodFilled(s, m, meta, roots, check);
      ContainersOk(spec);
      ContainersFilledIff(
        filled, Containers(spec), ObjectAt(spec, "securityContext"), StringMap(OptField(meta, "annotations")), roots, check);
    } else {
      PodRefused(s, m, meta, roots, check);
    }
  }

  /** What a subject says of a pod's identity and of its images. */
  ghost predicate SaysWho(s: Subject, m: Fields, spec: Fields, cs: seq<Fields>, annotations: Labels, roots: seq<TrustRoot>, check: SignatureCheck) {
    && s.serviceAccount == TextOf(At(spec, "serviceAccountName"))
    && WorstFirst(Images(cs), Signed(check, Images(cs), annotations, roots), s.image)
    && (s.imageSigned <==> Images(cs) != [] && forall i :: 0 <= i < |Images(cs)| ==> check(Images(cs)[i], Images(cs), annotations, roots))
    && Bare(s.(serviceAccount := "", image := "", imageSigned := false,
               privileged := false, hostPid := false, hostIpc := false, hostNetwork := false, hostPath := false,
               allowPrivilegeEscalation := false, runAsRoot := false, addedCapabilities := []), m)
  }

  /** What a subject says a pod may do. */
  ghost predicate SaysWhat(s: Subject, spec: Fields, cs: seq<Fields>) {
    && (s.hostPid <==> At(spec, "hostPID") == Bool(true))
    && (s.hostIpc <==> At(spec, "hostIPC") == Bool(true))
    && (s.hostNetwork <==> At(spec, "hostNetwork") == Bool(true))
    && (s.hostPath <==> MountsHostPath(spec))
    && (s.privileged <==> exists i :: 0 <= i < |cs| && InContext(cs[i], "privileged") == Some(Bool(true)))
    && (s.allowPrivilegeEscalation <==> !Unescalating(cs))
    && (s.runAsRoot <==> !NonRoot(cs, ObjectAt(spec, "securityContext")))
    && NoRepeats(s.addedCapabilities)
    && forall cap :: cap in s.addedCapabilities <==> exists i :: 0 <= i < |cs| && Asks(cs[i], cap)
  }

  lemma WhatIsRead(s: Subject, spec: Fields, cs: seq<Fields>, podSc: Option<Fields>)
    requires ReadAs(s, spec, cs, podSc) && podSc == ObjectAt(spec, "securityContext")
    ensures SaysWhat(s, spec, cs)
  {
    HostPathMeaning(spec);
    FlagsRead(cs, podSc);
    RootsRead(cs, podSc);
    TotalCapsListedOnce(cs, podSc);
    forall cap ensures cap in s.addedCapabilities <==> exists i :: 0 <= i < |cs| && Asks(cs[i], cap) {
      CapabilityRead(cs, podSc, cap);
    }
  }

  lemma CapabilityRead(cs: seq<Fields>, podSc: Option<Fields>, cap: string)
    ensures cap in SumContainers(cs, podSc).caps <==> exists i :: 0 <= i < |cs| && Asks(cs[i], cap)
  {
    TotalCapsMeaning(cs, podSc, cap);
    forall i | 0 <= i < |cs| ensures AddsCapability(cs[i], cap) <==> Asks(cs[i], cap) {
      ContainerRead(cs[i], podSc, cap);
    }
  }

  /** The images decide two fields; the traits are filled in and nothing else is touched. */
  lemma ImagesFilled(s: Subject, cs: seq<Fields>, podSc: Option<Fields>, annotations: Labels, roots: seq<TrustRoot>, check: SignatureCheck)
    requires FillContainers(s, cs, podSc, annotations, roots, check).Ok? && s.image == "" && !s.imageSigned
    ensures var out, signed := FillContainers(s, cs, podSc, annotations, roots, check).value, Signed(check, Images(cs), annotations, roots);
            && out.image == PickImage(Images(cs), signed) && out.imageSigned == AllSigned(Images(cs), signed)
            && out == s.(privileged := out.privileged, allowPrivilegeEscalation := out.allowPrivilegeEscalation,
                         runAsRoot := out.runAsRoot, addedCapabilities := out.addedCapabilities,
                         imageSigned := out.imageSigned, image := out.image)
  {
    ImagesRead(cs, podSc);
    if cs == [] {
      assert PickImage([], Signed(check, [], annotations, roots)) == "";
    }
  }

  lemma WhoIsRead(m: Fields, roots: seq<TrustRoot>, check: SignatureCheck)
    requires At(m, "spec").Obj? && SpecLegible(At(m, "spec").fields)
    ensures FillPod(Start(m), m, ObjectAt(m, "metadata"), roots, check).Ok?
    ensures var spec, annotations := At(m, "spec").fields, StringMap(OptField(ObjectAt(m, "metadata"), "annotations"));
            SaysWho(FillPod(Start(m), m, ObjectAt(m, "metadata"), roots, check).value, m, spec, Containers(spec), annotations, roots, check)
  {
    var spec, meta := At(m, "spec").fields, ObjectAt(m, "metadata");
    var annotations := StringMap(OptField(meta, "annotations"));
    PodOk(Start(m), m, meta, roots, check);
    var filled := PodFilled(Start(m), m, meta, roots, check);
    ImagesFilled(filled, Containers(spec), ObjectAt(spec, "securityContext"), annotations, roots, check);
    ImageRead(Images(Containers(spec)), Signed(check, Images(Containers(spec)), annotations, roots));
    StartIsBare(m);
  }

  lemma TraitsRead(m: Fields, roots: seq<TrustRoot>, check: SignatureCheck)
    requires At(m, "spec").Obj? && SpecLegible(At(m, "spec").fields)
    requires FillPod(Start(m), m, ObjectAt(m, "metadata"), roots, check).Ok?
    ensures var spec := At(m, "spec").fields;
            SaysWhat(FillPod(Start(m), m, ObjectAt(m, "metadata"), roots, check).value, spec, Containers(spec))
  {
    var spec, cs, podSc := FilledPod(Start(m), m, ObjectAt(m, "metadata"), roots, check);
    ContainersOk(spec);
    WhatIsRead(FillPod(Start(m), m, ObjectAt(m, "metadata"), roots, check).value, spec, cs, podSc);
  }

  /** A pod is read exactly when every part that is looked at has its shape, and then the subject
      says who it is, whose images it runs and what it may do. */
  lemma PodReads(m: Fields, roots: seq<TrustRoot>, check: SignatureCheck) returns (annotations: Labels)
    requires TextOf(At(m, "kind")) == "Pod"
    ensures StringsOf(annotations, Under(m, "metadata", "annotations"))
    ensures SubjectFromObject(Obj(m), roots, check).Ok? <==>
              ObjectOrNothing(At(m, "metadata")) && At(m, "spec").Obj? && SpecLegible(At(m, "spec").fields)
    ensures SubjectFromObject(Obj(m), roots, check).Ok? ==>
              var s, spec := SubjectFromObject(Obj(m), roots, check).value, At(m, "spec").fields;
              SaysWho(s, m, spec, Containers(spec), annotations, roots, check) && SaysWhat(s, spec, Containers(spec))
  {
    annotations := StringMap(OptField(ObjectAt(m, "metadata"), "annotations"));
    RefusedOutright(Obj(m), roots, check);
    if ObjectOrNothing(At(m, "metadata")) {
      Dispatch(m, roots, check);
      PodOk(Start(m), m, ObjectAt(m, "metadata"), roots, check);
      if At(m, "spec").Obj? && SpecLegible(At(m, "spec").fields) {
        WhoIsRead(m, roots, check);
        TraitsRead(m, roots, check);
      }
    }
  }
}
