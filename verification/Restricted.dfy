/**
 What admission under the restricted profile guarantees about the patch that goes with it.
 Whether the operations compose depends on the object; the evaluator has already refused
 almost every object they would not compose on.
 */
module Restricted {
  import opened Wrappers
  import opened Json
  import opened Pointer
  import opened Patch
  import opened PodPatch
  import opened Compose
  import opened Subject
  import Policy
  import Eval
  import Review

  // ---- The containers the subject read are the containers the patch addresses -------

  function Listed(spec: Fields, key: string): Result<seq<Fields>> {
    CollectContainers(Field(spec, key))
  }

  lemma ListText(key: string)
    ensures Render(["spec", key]) == "/spec/" + key
  {
    RenderTwo("spec", key);
    assert "/" + "spec" + "/" + key == "/spec/" + key;
  }

  lemma WalkTwo(doc: Json, a: string, b: string)
    ensures Walk(doc, [a, b]) ==
            match Child(doc, a) case Some(c) => Child(c, b) case None => None
  {
    assert [a, b][1..] == [b];
    match Child(doc, a) {
      case Some(c) => WalkSingle(c, b);
      case None =>
    }
  }

  lemma ListLengthIs(doc: Json, spec: Fields, key: string)
    requires doc.Obj? && ObjectAt(doc.fields, "spec") == Some(spec) && Plain(key) && Listed(spec, key).Ok?
    ensures ListLength(doc, key) == |Listed(spec, key).value|
  {
    assert Plain("spec");
    ListText(key);
    PlainIsBare(["spec", key]);
    LookupIsWalk(doc, ["spec", key]);
    WalkTwo(doc, "spec", key);
  }

  lemma ListItem(doc: Json, spec: Fields, key: string, i: nat)
    requires doc.Obj? && ObjectAt(doc.fields, "spec") == Some(spec)
    requires Listed(spec, key).Ok? && i < |Listed(spec, key).value|
    ensures Walk(doc, ["spec", key, Decimal(i)]) == Some(Obj(Listed(spec, key).value[i]))
  {
    DecimalIsIndex(i);
    WalkTwo(doc, "spec", key);
    WalkAppend(doc, ["spec", key], [Decimal(i)]);
    assert ["spec", key] + [Decimal(i)] == ["spec", key, Decimal(i)];
    WalkSingle(Walk(doc, ["spec", key]).value, Decimal(i));
  }

  /** The first `k` lists, as the subject read them. */
  function Gathered(spec: Fields, k: nat): Result<seq<Fields>>
    requires k <= |LISTS|
  {
    if k == 0 then Ok([])
    else
      var before :- Gathered(spec, k - 1);
      var here :- Listed(spec, LISTS[k - 1]);
      Ok(before + here)
  }

  lemma GatheredIsAll(spec: Fields)
    requires AllContainers(spec).Ok?
    ensures Gathered(spec, |LISTS|) == AllContainers(spec)
  {
    var a, b := Listed(spec, "containers").value, Listed(spec, "initContainers").value;
    assert Gathered(spec, 0) == Ok([]);
    assert [] + a == a;
    assert Gathered(spec, 1) == Ok(a);
    assert Gathered(spec, 2) == Ok(a + b);
  }

  /** The pointers reach the objects, one by one. */
  predicate Reach(doc: Json, ts: seq<Tokens>, cs: seq<Fields>) {
    |ts| == |cs| && forall i :: 0 <= i < |ts| ==> Walk(doc, ts[i]) == Some(Obj(cs[i]))
  }

  lemma ReachAppend(doc: Json, ts: seq<Tokens>, cs: seq<Fields>, us: seq<Tokens>, ds: seq<Fields>)
    requires Reach(doc, ts, cs) && Reach(doc, us, ds)
    ensures Reach(doc, ts + us, cs + ds)
  {
  }

  lemma ListReached(doc: Json, spec: Fields, key: string)
    requires doc.Obj? && ObjectAt(doc.fields, "spec") == Some(spec) && Plain(key) && Listed(spec, key).Ok?
    ensures Reach(doc, ListSlots(key, ListLength(doc, key)), Listed(spec, key).value)
  {
    ListLengthIs(doc, spec, key);
    forall i | 0 <= i < |Listed(spec, key).value|
      ensures Walk(doc, ListSlots(key, ListLength(doc, key))[i]) == Some(Obj(Listed(spec, key).value[i]))
    {
      ListItem(doc, spec, key, i);
    }
  }

  lemma ListPlain(k: nat)
    requires k < |LISTS|
    ensures Plain(LISTS[k])
  {
  }

  lemma {:induction false} SlotsReachContainers(doc: Json, spec: Fields, k: nat)
    requires doc.Obj? && ObjectAt(doc.fields, "spec") == Some(spec) && k <= |LISTS| && Gathered(spec, k).Ok?
    ensures Reach(doc, SlotsUpTo(doc, k), Gathered(spec, k).value)
  {
    if k > 0 {
      SlotsReachContainers(doc, spec, k - 1);
      var key := LISTS[k - 1];
      ListPlain(k - 1);
      ListReached(doc, spec, key);
      ReachAppend(doc, SlotsUpTo(doc, k - 1), Gathered(spec, k - 1).value,
                  ListSlots(key, ListLength(doc, key)), Listed(spec, key).value);
    }
  }

  lemma ReadPodIsShaped(doc: Json, spec: Fields, cs: seq<Fields>)
    requires doc.Obj? && ObjectAt(doc.fields, "spec") == Some(spec) && AllContainers(spec) == Ok(cs)
    ensures Shaped(doc) && |Slots(doc)| == |cs| && Node(doc, None) == spec
    ensures forall i :: 0 <= i < |cs| ==> Node(doc, Some(i)) == cs[i]
  {
    GatheredIsAll(spec);
    SlotsReachContainers(doc, spec, |LISTS|);
    WalkSingle(doc, "spec");
  }

  // ---- The restricted profile ------------------------------------------------------

  const ALL_KINDS: set<Kind> := {InjectSeccompRuntimeDefault, DropAllCapabilities, ReadOnlyRootFilesystem}

  predicate ObjectOrAbsent(m: Fields, key: string) {
    match Field(m, key)
    case None => true
    case Some(v) => v.Obj?
  }

  /** All that is left to ask of a pod whose every container has a security context. */
  predicate Patchable(spec: Fields, cs: seq<Fields>) {
    && ObjectOrAbsent(spec, "securityContext")
    && forall i :: 0 <= i < |cs| && SecurityContext(cs[i]).Some? ==>
         ObjectOrAbsent(SecurityContext(cs[i]).value, "capabilities")
  }

  lemma PodFits(spec: Fields)
    ensures Fits(spec, KindsAt(ALL_KINDS, None)) <==> ObjectOrAbsent(spec, "securityContext")
  {
    assert InjectSeccompRuntimeDefault in KindsAt(ALL_KINDS, None);
  }

  lemma ContainerFits(c: Fields, i: nat)
    requires SecurityContext(c).Some?
    ensures Fits(c, KindsAt(ALL_KINDS, Some(i))) <==> ObjectOrAbsent(SecurityContext(c).value, "capabilities")
  {
  }

  lemma ComposableIsPatchable(doc: Json, spec: Fields, cs: seq<Fields>)
    requires doc.Obj? && ObjectAt(doc.fields, "spec") == Some(spec) && AllContainers(spec) == Ok(cs)
    requires forall i :: 0 <= i < |cs| ==> SecurityContext(cs[i]).Some?
    ensures Shaped(doc) && (Composable(ALL_KINDS, doc) <==> Patchable(spec, cs))
  {
    ReadPodIsShaped(doc, spec, cs);
    PodFits(spec);
    forall i | 0 <= i < |cs|
      ensures Fits(Node(doc, Some(i)), KindsAt(ALL_KINDS, Some(i))) <==> ObjectOrAbsent(SecurityContext(cs[i]).value, "capabilities")
    {
      ContainerFits(cs[i], i);
    }
    if Composable(ALL_KINDS, doc) {
      assert IsPlace(doc, None);
      forall i | 0 <= i < |cs| ensures ObjectOrAbsent(SecurityContext(cs[i]).value, "capabilities") {
        assert IsPlace(doc, Some(i));
      }
    }
  }

  lemma EscalationBreaks(p: Policy.AdmissionProgram, s: Subject)
    requires p.admit.pss == Policy.Restricted && s.kind == "Pod" && s.allowPrivilegeEscalation
    ensures Eval.Broken(p, s, Eval.AllowPrivilegeEscalation)
  {
  }

  lemma RestrictedMutations(p: Policy.AdmissionProgram)
    requires p.mode == Policy.Enforce && p.admit.pss == Policy.Restricted
    ensures Review.KindSet(Eval.Mutations(p)) == ALL_KINDS && Eval.Mutations(p) != []
  {
    assert Eval.Mutations(p) == [InjectSeccompRuntimeDefault, DropAllCapabilities, ReadOnlyRootFilesystem];
  }

  /** A restricted, enforcing policy lets a pod through only if none of its containers may
      escalate privileges, and then asks for all three patches. */
  lemma JudgedHarmless(p: Policy.AdmissionProgram, s: Subject, exceptions: seq<Policy.Exception>, now: int)
    requires p.mode == Policy.Enforce && p.admit.pss == Policy.Restricted && s.kind == "Pod"
    requires !Eval.Excused(s, Eval.AllowPrivilegeEscalation, exceptions, now)
    requires Eval.Judge(p, s, exceptions, now).allowed
    ensures !s.allowPrivilegeEscalation
  {
    if s.allowPrivilegeEscalation {
      EscalationBreaks(p, s);
      Eval.JudgeMeaning(p, s, exceptions, now);
    }
  }

  lemma PatchMeansJudged(p: Policy.AdmissionProgram, s: Subject, exceptions: seq<Policy.Exception>, now: int, doc: Json, uid: string)
    requires Review.DecisionResponse(uid, doc, Eval.Admit(p, s, exceptions, now)).body.Response?
    requires Review.DecisionResponse(uid, doc, Eval.Admit(p, s, exceptions, now)).body.patch.Some?
    ensures Eval.Admit(p, s, exceptions, now) == Eval.Judge(p, s, exceptions, now)
    ensures Eval.Judge(p, s, exceptions, now).allowed
    ensures Review.DecisionResponse(uid, doc, Eval.Admit(p, s, exceptions, now)).body.patch
            == Some(PatchOps(Review.KindSet(Eval.Mutations(p)), doc))
  {
  }

  lemma RepliedPodComposes(cfg: Review.Config, labels: Review.LabelSource, check: SignatureCheck,
                           uid: string, p: Policy.AdmissionProgram, request: Fields, doc: Json,
                           exceptions: seq<Policy.Exception>, now: int)
    requires p.mode == Policy.Enforce && p.admit.pss == Policy.Restricted && EscalationStands(cfg, exceptions, now)
    requires SubjectFromObject(doc, p.supply.trustRoots, check).Ok?
    requires SubjectFromObject(doc, p.supply.trustRoots, check).value.kind == "Pod"
    requires var s := Review.Named(cfg, request, SubjectFromObject(doc, p.supply.trustRoots, check).value);
             Review.Patched(Review.ReplyFor(labels, uid, p, doc, s, exceptions, now))
    ensures HardensOrRefuses(doc)
  {
    var read := SubjectFromObject(doc, p.supply.trustRoots, check).value;
    var s := Review.Labelled(labels, Review.Named(cfg, request, read));
    PatchMeansJudged(p, s, exceptions, now, doc, uid);
    JudgedHarmless(p, s, exceptions, now);
    NoEscalationMeansSecurityContext(doc, p.supply.trustRoots, check);
    var spec := ObjectAt(doc.fields, "spec").value;
    ComposableIsPatchable(doc, spec, AllContainers(spec).value);
    ComposesIff(ALL_KINDS, doc);
  }

  /** No exception waives privilege escalation for this policy. */
  predicate EscalationStands(cfg: Review.Config, exceptions: seq<Policy.Exception>, now: int) {
    !Policy.Waived(exceptions,
      Policy.RuleHit(cfg.policyNamespace, cfg.policyName, Eval.Id(Eval.AllowPrivilegeEscalation), Policy.Deny), now)
  }

  /** Every container carries an object securityContext, and the full patch composes exactly when
      the pod's own securityContext and every container's capabilities are absent or objects. */
  ghost predicate HardensOrRefuses(doc: Json) {
    && doc.Obj? && ObjectAt(doc.fields, "spec").Some? && AllContainers(ObjectAt(doc.fields, "spec").value).Ok?
    && var cs := AllContainers(ObjectAt(doc.fields, "spec").value).value;
       && cs != []
       && (forall i :: 0 <= i < |cs| ==> SecurityContext(cs[i]).Some?)
       && (Composes(ALL_KINDS, doc) <==> Patchable(ObjectAt(doc.fields, "spec").value, cs))
  }

  /** The reply to a request admits it with a patch, under an enforcing restricted policy none of
      whose exceptions waives privilege escalation. Then the patch is the full one for the object
      asked about; every container of that object carries an object securityContext; and all the
      operations apply and leave all the requested values in place together exactly when the pod's
      own securityContext and every container's capabilities are absent or objects. */
  lemma AdmittedPodComposes(cfg: Review.Config, labels: Review.LabelSource, check: SignatureCheck, input: Review.Input,
                            p: Policy.AdmissionProgram, exceptions: seq<Policy.Exception>, glass: Option<Review.Grant>, now: int)
    requires p.mode == Policy.Enforce && p.admit.pss == Policy.Restricted && EscalationStands(cfg, exceptions, now)
    requires Review.Patched(Review.Handle(cfg, labels, check, input, Some(p), exceptions, glass, now))
    ensures Review.Asked(input).Some? && HardensOrRefuses(Review.Asked(input).value.1)
    ensures Review.Handle(cfg, labels, check, input, Some(p), exceptions, glass, now).body.patch
            == Some(PatchOps(ALL_KINDS, Review.Asked(input).value.1))
  {
    Review.HandledPatch(cfg, labels, check, input, p, exceptions, glass, now);
    Review.PatchedIsReplied(cfg, labels, check, input, p, exceptions, glass, now);
    RestrictedMutations(p);
    var (request, doc) := Review.Asked(input).value;
    Review.SubjectKind(doc, p.supply.trustRoots, check);
    RepliedPodComposes(cfg, labels, check, Review.UidOf(input), p, request, doc, exceptions, now);
  }

  /** What a composed patch leaves in every container. */
  ghost predicate Hardened(after: Json, container: Tokens) {
    && Walk(after, container + ["securityContext", "seccompProfile"]) == Some(Obj(map["type" := Str("RuntimeDefault")]))
    && Walk(after, container + ["securityContext", "capabilities", "drop"]) == Some(Arr([Str("ALL")]))
    && Walk(after, container + ["securityContext", "readOnlyRootFilesystem"]) == Some(Bool(true))
  }

  lemma ComposedPodIsHardened(doc: Json, i: nat)
    requires Composes(ALL_KINDS, doc) && i < |Slots(doc)|
    ensures Hardened(Apply(doc, PatchOps(ALL_KINDS, doc)).value, Slots(doc)[i])
  {
    var n := |Slots(doc)|;
    assert Made(ALL_KINDS, n, Request(Some(i), InjectSeccompRuntimeDefault));
    assert Made(ALL_KINDS, n, Request(Some(i), DropAllCapabilities));
    assert Made(ALL_KINDS, n, Request(Some(i), ReadOnlyRootFilesystem));
  }

  // ---- Such pods exist -------------------------------------------------------------

  const QUIET_CONTEXT: Fields := map["allowPrivilegeEscalation" := Bool(false), "runAsNonRoot" := Bool(true)]
  const QUIET_CONTAINER: Fields := map["securityContext" := Obj(QUIET_CONTEXT)]
  const QUIET_SPEC: Fields := map["containers" := Arr([Obj(QUIET_CONTAINER)])]
  const QUIET_POD: Fields := map["kind" := Str("Pod"), "spec" := Obj(QUIET_SPEC)]

  const NO_SELECTOR := Policy.LabelSelector(map[], [])
  const RESTRICTED_POLICY := Policy.AdmissionProgram(
    Policy.Enforce, false, 0, Policy.SupplySpec(false, false, false, []),
    Policy.AdmitSpec(Policy.Fail, Policy.Restricted,
      Policy.AdmitDeny(false, false, false, false, false, false, false, false, false, []), Policy.AdmitMutate(false, false, false)),
    Policy.PolicySelector(NO_SELECTOR, NO_SELECTOR, NO_SELECTOR, NO_SELECTOR, Policy.ImageSelector([], false)))

  lemma QuietContainers()
    ensures AllContainers(QUIET_SPEC) == Ok([QUIET_CONTAINER])
  {
    var main := CollectContainers(Field(QUIET_SPEC, "containers"));
    assert main.Ok? && main.value == [QUIET_CONTAINER];
    assert [QUIET_CONTAINER] + [] + [] == [QUIET_CONTAINER];
  }

  lemma QuietTotals()
    ensures SumContainers([QUIET_CONTAINER], None) == NO_TOTALS
  {
    var cs := [QUIET_CONTAINER];
    assert cs[..0] == [];
    assert SecurityContext(QUIET_CONTAINER) == Some(QUIET_CONTEXT);
  }

  predicate Quiet(s: Subject) {
    && !s.privileged && !s.hostPid && !s.hostIpc && !s.hostNetwork && !s.hostPath
    && !s.allowPrivilegeEscalation && !s.runAsRoot && s.addedCapabilities == []
  }

  lemma QuietFill(s: Subject, check: SignatureCheck)
    ensures FillPod(s, QUIET_POD, None, [], check).Ok?
    ensures Quiet(FillPod(s, QUIET_POD, None, [], check).value) && FillPod(s, QUIET_POD, None, [], check).value.kind == s.kind
  {
    QuietContainers();
    QuietTotals();
  }

  lemma QuietSubject(check: SignatureCheck)
    ensures SubjectFromObject(Obj(QUIET_POD), [], check).Ok?
    ensures Quiet(SubjectFromObject(Obj(QUIET_POD), [], check).value) && SubjectFromObject(Obj(QUIET_POD), [], check).value.kind == "Pod"
  {
    var s := EMPTY_SUBJECT.(kind := "Pod", namespace := "", workloadLabels := map[]);
    QuietFill(s, check);
    assert SubjectFromObject(Obj(QUIET_POD), [], check) == FillPod(s, QUIET_POD, None, [], check);
  }

  lemma QuietBreaksNothing(s: Subject, rule: Eval.Rule)
    requires s.kind == "Pod" && Quiet(s)
    ensures !Eval.Broken(RESTRICTED_POLICY, s, rule)
  {
  }

  lemma NothingBrokenIsAllowed(s: Subject, exceptions: seq<Policy.Exception>, now: int)
    requires forall rule :: !Eval.Broken(RESTRICTED_POLICY, s, rule)
    ensures Eval.Judge(RESTRICTED_POLICY, s, exceptions, now).allowed
  {
    Eval.JudgeMeaning(RESTRICTED_POLICY, s, exceptions, now);
  }

  lemma PolicyApplies(s: Subject)
    requires s.policyNamespace == ""
    ensures Eval.ProgramApplies(RESTRICTED_POLICY, s) == Ok(true)
  {
  }

  lemma PatchIsNonempty(doc: Json)
    ensures PatchOps(ALL_KINDS, doc) != []
  {
    assert |KindOps(ALL_KINDS, InjectSeccompRuntimeDefault, doc, ContainerPaths(doc))| >= 1;
  }

  lemma AppliedIsJudged(p: Policy.AdmissionProgram, s: Subject, exceptions: seq<Policy.Exception>, now: int)
    requires Eval.ProgramApplies(p, s) == Ok(true) && !p.disabled
    ensures Eval.Admit(p, s, exceptions, now) == Eval.Judge(p, s, exceptions, now)
  {
  }

  lemma PatchedReply(uid: string, doc: Json, d: Eval.Decision)
    requires d.allowed && !d.failClosed && d.mode == Policy.Enforce && d.patches != []
    requires doc.Obj? && Field(doc.fields, "kind") == Some(Str("Pod")) && PatchOps(Review.KindSet(d.patches), doc) != []
    ensures Review.DecisionResponse(uid, doc, d).body
            == Review.Response(uid, true, Some(PatchOps(Review.KindSet(d.patches), doc)), Review.Nothing)
  {
  }

  lemma AllowedIsPatched(labels: Review.LabelSource, uid: string, p: Policy.AdmissionProgram, doc: Json,
                         s: Subject, exceptions: seq<Policy.Exception>, now: int)
    requires p.mode == Policy.Enforce && p.admit.pss == Policy.Restricted && !p.disabled && !Review.WatchedLabelsSelected(p)
    requires doc.Obj? && Field(doc.fields, "kind") == Some(Str("Pod"))
    requires Eval.ProgramApplies(p, Review.Labelled(labels, s)) == Ok(true)
    requires Eval.Judge(p, Review.Labelled(labels, s), exceptions, now).allowed
    ensures Review.ReplyFor(labels, uid, p, doc, s, exceptions, now).body
            == Review.Response(uid, true, Some(PatchOps(ALL_KINDS, doc)), Review.Nothing)
  {
    AppliedIsJudged(p, Review.Labelled(labels, s), exceptions, now);
    RestrictedMutations(p);
    PatchIsNonempty(doc);
    PatchedReply(uid, doc, Eval.Judge(p, Review.Labelled(labels, s), exceptions, now));
  }

  lemma QuietIsAllowed(s: Subject, now: int)
    requires s.kind == "Pod" && Quiet(s)
    ensures Eval.Judge(RESTRICTED_POLICY, s, [], now).allowed
  {
    forall rule ensures !Eval.Broken(RESTRICTED_POLICY, s, rule) {
      QuietBreaksNothing(s, rule);
    }
    NothingBrokenIsAllowed(s, [], now);
  }

  lemma QuietIsPatched(labels: Review.LabelSource, uid: string, doc: Json, s: Subject, now: int)
    requires s.kind == "Pod" && Quiet(s) && s.policyNamespace == ""
    requires doc.Obj? && Field(doc.fields, "kind") == Some(Str("Pod"))
    ensures Review.ReplyFor(labels, uid, RESTRICTED_POLICY, doc, s, [], now).body
            == Review.Response(uid, true, Some(PatchOps(ALL_KINDS, doc)), Review.Nothing)
  {
    var l := Review.Labelled(labels, s);
    QuietIsAllowed(l, now);
    PolicyApplies(l);
    AllowedIsPatched(labels, uid, RESTRICTED_POLICY, doc, s, [], now);
  }

  lemma QuietReply(cfg: Review.Config, labels: Review.LabelSource, check: SignatureCheck, uid: string, request: Fields, now: int)
    requires cfg.policyNamespace == ""
    ensures SubjectFromObject(Obj(QUIET_POD), [], check).Ok?
    ensures var s := Review.Named(cfg, request, SubjectFromObject(Obj(QUIET_POD), [], check).value);
            Review.ReplyFor(labels, uid, RESTRICTED_POLICY, Obj(QUIET_POD), s, [], now).body
            == Review.Response(uid, true, Some(PatchOps(ALL_KINDS, Obj(QUIET_POD))), Review.Nothing)
  {
    QuietSubject(check);
    var s := Review.Named(cfg, request, SubjectFromObject(Obj(QUIET_POD), [], check).value);
    QuietIsPatched(labels, uid, Obj(QUIET_POD), s, now);
  }

  /** A request that asks about an object under a uid. */
  function RequestFor(uid: string, doc: Json): Fields {
    map["uid" := Str(uid), "object" := doc]
  }

  function BodyFor(uid: string, doc: Json): Review.Input {
    Review.Parsed(Obj(map["request" := Obj(RequestFor(uid, doc))]))
  }

  lemma BodyOpens(uid: string, doc: Json, p: Policy.AdmissionProgram, now: int)
    requires uid != "" && doc.Obj?
    ensures Review.Open(BodyFor(uid, doc), Some(p), None, now) == Review.ToJudge(uid, p, RequestFor(uid, doc), doc)
  {
    WalkTwo(BodyFor(uid, doc).value, "request", "uid");
  }

  /** There are pods the theorem is about: a request for this one is answered with the full patch,
      and the patch composes on it. */
  lemma QuietPodIsAdmitted(cfg: Review.Config, labels: Review.LabelSource, check: SignatureCheck, uid: string, now: int)
    requires cfg.policyNamespace == "" && uid != ""
    ensures Review.Handle(cfg, labels, check, BodyFor(uid, Obj(QUIET_POD)), Some(RESTRICTED_POLICY), [], None, now).body
            == Review.Response(uid, true, Some(PatchOps(ALL_KINDS, Obj(QUIET_POD))), Review.Nothing)
    ensures Composes(ALL_KINDS, Obj(QUIET_POD))
  {
    BodyOpens(uid, Obj(QUIET_POD), RESTRICTED_POLICY, now);
    QuietReply(cfg, labels, check, uid, RequestFor(uid, Obj(QUIET_POD)), now);
    QuietComposes();
  }

  lemma QuietComposes()
    ensures Composes(ALL_KINDS, Obj(QUIET_POD))
  {
    QuietContainers();
    ComposableIsPatchable(Obj(QUIET_POD), QUIET_SPEC, [QUIET_CONTAINER]);
    assert Patchable(QUIET_SPEC, [QUIET_CONTAINER]);
    ComposesIff(ALL_KINDS, Obj(QUIET_POD));
  }
}
