/**
 From the JSON of a pod to the verdict: what admission under a pod security profile says about
 the object itself, across the reading of the subject and the rules that judge it.
 */
module Profile {
  import opened Wrappers
  import opened Json
  import opened Policy
  import opened Subject
  import opened Eval
  import opened Review

  // ---- What the subject says about the object ---------------------------------------

  predicate SaysTrue(m: Fields, key: string) {
    Field(m, key) == Some(Bool(true))
  }

  predicate IsHostPath(v: Json) {
    v.Obj? && "hostPath" in v.fields
  }

  predicate MountsHostPath(spec: Fields) {
    match Field(spec, "volumes")
    case Some(Arr(items)) => exists i :: 0 <= i < |items| && IsHostPath(items[i])
    case _ => false
  }

  lemma {:induction false} HostPathFromMeaning(items: seq<Json>)
    requires HostPathFrom(items).Ok?
    ensures HostPathFrom(items).value <==> exists i :: 0 <= i < |items| && IsHostPath(items[i])
  {
    if items != [] && !IsHostPath(items[0]) {
      HostPathFromMeaning(items[1..]);
      assert forall i :: 0 < i < |items| ==> items[i] == items[1..][i - 1];
      assert forall i :: 0 <= i < |items| - 1 ==> items[1..][i] == items[i + 1];
    }
  }

  lemma HostPathMeaning(spec: Fields)
    requires VolumesHostPath(Field(spec, "volumes")).Ok?
    ensures VolumesHostPath(Field(spec, "volumes")).value <==> MountsHostPath(spec)
  {
    match Field(spec, "volumes") {
      case Some(Arr(items)) => HostPathFromMeaning(items);
      case _ =>
    }
  }

  /** A pod that could be read: its spec, its containers, the pod's own security context. */
  predicate Readable(doc: Json, spec: Fields, cs: seq<Fields>, podSc: Option<Fields>) {
    && doc.Obj? && ObjectAt(doc.fields, "spec") == Some(spec) && AllContainers(spec) == Ok(cs)
    && OptionalObject(spec, "securityContext") == Ok(podSc) && VolumesHostPath(Field(spec, "volumes")).Ok?
  }

  /** The subject's traits, as the reading of a pod leaves them. */
  predicate ReadAs(s: Subject, spec: Fields, cs: seq<Fields>, podSc: Option<Fields>) {
    && s.hostPid == BoolOr(Field(spec, "hostPID"), false)
    && s.hostIpc == BoolOr(Field(spec, "hostIPC"), false)
    && s.hostNetwork == BoolOr(Field(spec, "hostNetwork"), false)
    && VolumesHostPath(Field(spec, "volumes")) == Ok(s.hostPath)
    && s.privileged == SumContainers(cs, podSc).privileged
    && s.addedCapabilities == SumContainers(cs, podSc).caps
    && s.allowPrivilegeEscalation == (cs == [] || SumContainers(cs, podSc).allowEscalation)
    && s.runAsRoot == if cs == [] then RunsAsRoot(podSc, None) else SumContainers(cs, podSc).root
  }

  lemma ContainersFilled(s: Subject, cs: seq<Fields>, podSc: Option<Fields>, annotations: Labels, roots: seq<TrustRoot>, check: SignatureCheck)
    requires FillContainers(s, cs, podSc, annotations, roots, check).Ok? && !s.privileged && s.addedCapabilities == []
    ensures var out := FillContainers(s, cs, podSc, annotations, roots, check).value;
            && out.privileged == SumContainers(cs, podSc).privileged
            && out.addedCapabilities == SumContainers(cs, podSc).caps
            && out.allowPrivilegeEscalation == (cs == [] || SumContainers(cs, podSc).allowEscalation)
            && out.runAsRoot == (if cs == [] then RunsAsRoot(podSc, None) else SumContainers(cs, podSc).root)
            && out.hostPid == s.hostPid && out.hostIpc == s.hostIpc && out.hostNetwork == s.hostNetwork && out.hostPath == s.hostPath
  {
    if cs == [] {
      assert SumContainers(cs, podSc) == NO_TOTALS;
    }
  }

  lemma FilledPod(s: Subject, m: Fields, meta: Option<Fields>, roots: seq<TrustRoot>, check: SignatureCheck)
    returns (spec: Fields, cs: seq<Fields>, podSc: Option<Fields>)
    requires FillPod(s, m, meta, roots, check).Ok? && !s.privileged && s.addedCapabilities == []
    ensures Readable(Obj(m), spec, cs, podSc) && ReadAs(FillPod(s, m, meta, roots, check).value, spec, cs, podSc)
  {
    spec := OptionalObject(m, "spec").value.value;
    cs := AllContainers(spec).value;
    podSc := OptionalObject(spec, "securityContext").value;
    var filled := HostFilled(s, spec).(hostPath := VolumesHostPath(Field(spec, "volumes")).value);
    ContainersFilled(filled, cs, podSc, StringMap(OptField(meta, "annotations")), roots, check);
  }

  /** The subject of a Pod carries the traits of the spec and the containers that were read. */
  lemma ReadPod(doc: Json, roots: seq<TrustRoot>, check: SignatureCheck) returns (spec: Fields, cs: seq<Fields>, podSc: Option<Fields>)
    requires SubjectFromObject(doc, roots, check).Ok? && SubjectFromObject(doc, roots, check).value.kind == "Pod"
    ensures Readable(doc, spec, cs, podSc) && ReadAs(SubjectFromObject(doc, roots, check).value, spec, cs, podSc)
  {
    var m := doc.fields;
    var meta := OptionalObject(m, "metadata").value;
    var s := EMPTY_SUBJECT.(
      kind := "Pod", namespace := StrOr(OptField(meta, "namespace"), ""), workloadLabels := StringMap(OptField(meta, "labels")));
    SubjectOfPod(doc, roots, check);
    spec, cs, podSc := FilledPod(s, m, meta, roots, check);
  }

  lemma SubjectOfPod(doc: Json, roots: seq<TrustRoot>, check: SignatureCheck)
    requires SubjectFromObject(doc, roots, check).Ok? && SubjectFromObject(doc, roots, check).value.kind == "Pod"
    ensures doc.Obj? && OptionalObject(doc.fields, "metadata").Ok?
    ensures var meta := OptionalObject(doc.fields, "metadata").value;
            var s := EMPTY_SUBJECT.(
              kind := "Pod", namespace := StrOr(OptField(meta, "namespace"), ""), workloadLabels := StringMap(OptField(meta, "labels")));
            SubjectFromObject(doc, roots, check) == FillPod(s, doc.fields, meta, roots, check)
  {
  }

  // ---- The profiles, as properties of the object ------------------------------------

  /** What a container's own security context holds under a key. */
  function InContext(c: Fields, key: string): Option<Json> {
    match Field(c, "securityContext")
    case Some(Obj(sc)) => Field(sc, key)
    case _ => None
  }

  predicate HostClean(spec: Fields, cs: seq<Fields>) {
    && !SaysTrue(spec, "hostPID") && !SaysTrue(spec, "hostIPC") && !SaysTrue(spec, "hostNetwork") && !MountsHostPath(spec)
    && forall i :: 0 <= i < |cs| ==> InContext(cs[i], "privileged") != Some(Bool(true))
  }

  /** A container asks for a capability by name. */
  predicate Asks(c: Fields, cap: string) {
    match InContext(c, "capabilities")
    case Some(Obj(k)) => (match Field(k, "add") case Some(Arr(items)) => Str(cap) in items case _ => false)
    case _ => false
  }

  const BASELINE_MAY_ADD: set<string> := {
    "AUDIT_WRITE", "CHOWN", "DAC_OVERRIDE", "FOWNER", "FSETID", "KILL", "MKNOD",
    "NET_BIND_SERVICE", "SETFCAP", "SETGID", "SETPCAP", "SETUID", "SYS_CHROOT"}

  /** The capabilities a container may ask for under the two profiles that say. */
  predicate MayAdd(pss: PssProfile, cap: string) {
    if pss == Restricted then cap == "NET_BIND_SERVICE" else cap in BASELINE_MAY_ADD
  }

  ghost predicate CapabilitiesWithin(pss: PssProfile, cs: seq<Fields>) {
    forall i, cap :: 0 <= i < |cs| && Asks(cs[i], cap) ==> MayAdd(pss, cap)
  }

  predicate Unescalating(cs: seq<Fields>) {
    cs != [] && forall i :: 0 <= i < |cs| ==> InContext(cs[i], "allowPrivilegeEscalation") == Some(Bool(false))
  }

  /** Not root: told not to run as root, by the container or, where it does not say, by the pod; or
      given a user other than 0, by the one or the other in the same way. */
  predicate NotRoot(own: Option<Fields>, podSc: Option<Fields>) {
    || (if Says(own, "runAsNonRoot").Bool? then Says(own, "runAsNonRoot") == Bool(true)
        else Says(podSc, "runAsNonRoot") == Bool(true))
    || (if IsUser(Says(own, "runAsUser")) then Says(own, "runAsUser") != Num(Integer(0))
        else IsUser(Says(podSc, "runAsUser")) && Says(podSc, "runAsUser") != Num(Integer(0)))
  }

  /** What a context says under a key; nothing reads as null. */
  function Says(sc: Option<Fields>, key: string): Json {
    if sc.Some? && key in sc.value then sc.value[key] else Null
  }

  predicate IsUser(v: Json) {
    v.Num? && v.n.Integer? && -0x8000_0000_0000_0000 <= v.n.i < 0x8000_0000_0000_0000
  }

  /** The pod's context stands for itself where there are no containers. */
  predicate NonRoot(cs: seq<Fields>, podSc: Option<Fields>) {
    if cs == [] then NotRoot(None, podSc)
    else forall i :: 0 <= i < |cs| ==> NotRoot(ObjectAt(cs[i], "securityContext"), podSc)
  }

  /** What a profile asks of a pod. */
  ghost predicate Meets(pss: PssProfile, spec: Fields, cs: seq<Fields>, podSc: Option<Fields>) {
    match pss
    case Privileged => true
    case Custom => true
    case Baseline => HostClean(spec, cs) && CapabilitiesWithin(pss, cs)
    case Restricted => HostClean(spec, cs) && CapabilitiesWithin(pss, cs) && Unescalating(cs) && NonRoot(cs, podSc)
  }

  /** The same, of the subject that was read. */
  ghost predicate TraitsMeet(pss: PssProfile, s: Subject) {
    var baseline := !s.privileged && !s.hostPid && !s.hostIpc && !s.hostNetwork && !s.hostPath
                    && forall i :: 0 <= i < |s.addedCapabilities| ==> MayAdd(pss, s.addedCapabilities[i]);
    match pss
    case Privileged => true
    case Custom => true
    case Baseline => baseline
    case Restricted => baseline && !s.allowPrivilegeEscalation && !s.runAsRoot
  }

  lemma CapabilitiesRead(pss: PssProfile, cs: seq<Fields>, podSc: Option<Fields>)
    ensures var caps := SumContainers(cs, podSc).caps;
            (forall i :: 0 <= i < |caps| ==> MayAdd(pss, caps[i])) <==> CapabilitiesWithin(pss, cs)
  {
    var caps := SumContainers(cs, podSc).caps;
    if forall i :: 0 <= i < |caps| ==> MayAdd(pss, caps[i]) {
      forall i, cap | 0 <= i < |cs| && Asks(cs[i], cap) ensures MayAdd(pss, cap) {
        ContainerRead(cs[i], podSc, cap);
        TotalCapsMeaning(cs, podSc, cap);
      }
    } else {
      var i :| 0 <= i < |caps| && !MayAdd(pss, caps[i]);
      TotalCapsMeaning(cs, podSc, caps[i]);
      var j :| 0 <= j < |cs| && AddsCapability(cs[j], caps[i]);
      ContainerRead(cs[j], podSc, caps[i]);
    }
  }

  /** What the reading asks of one container is what the object says of it. */
  lemma ContainerRead(c: Fields, podSc: Option<Fields>, cap: string)
    ensures IsPrivileged(SecurityContext(c)) <==> InContext(c, "privileged") == Some(Bool(true))
    ensures PermitsEscalation(SecurityContext(c)) <==> InContext(c, "allowPrivilegeEscalation") != Some(Bool(false))
    ensures AddsCapability(c, cap) <==> Asks(c, cap)
  {
  }

  lemma RootRead(own: Option<Fields>, podSc: Option<Fields>)
    ensures RunsAsRoot(podSc, own) <==> !NotRoot(own, podSc)
  {
  }

  lemma RootsRead(cs: seq<Fields>, podSc: Option<Fields>)
    ensures (if cs == [] then RunsAsRoot(podSc, None) else SumContainers(cs, podSc).root) <==> !NonRoot(cs, podSc)
  {
    RootRead(None, podSc);
    RootMeaning(cs, podSc);
    forall i | 0 <= i < |cs| ensures RunsAsRoot(podSc, SecurityContext(cs[i])) <==> !NotRoot(ObjectAt(cs[i], "securityContext"), podSc) {
      RootRead(ObjectAt(cs[i], "securityContext"), podSc);
    }
  }

  lemma FlagsRead(cs: seq<Fields>, podSc: Option<Fields>)
    ensures SumContainers(cs, podSc).privileged <==> exists i :: 0 <= i < |cs| && InContext(cs[i], "privileged") == Some(Bool(true))
    ensures cs == [] || SumContainers(cs, podSc).allowEscalation <==> !Unescalating(cs)
  {
    PrivilegeMeaning(cs, podSc);
    EscalationMeaning(cs, podSc);
    forall i | 0 <= i < |cs|
      ensures IsPrivileged(SecurityContext(cs[i])) <==> InContext(cs[i], "privileged") == Some(Bool(true))
      ensures PermitsEscalation(SecurityContext(cs[i])) <==> InContext(cs[i], "allowPrivilegeEscalation") != Some(Bool(false))
    {
      ContainerRead(cs[i], podSc, "");
    }
  }

  lemma HostCleanRead(s: Subject, spec: Fields, cs: seq<Fields>, podSc: Option<Fields>)
    requires ReadAs(s, spec, cs, podSc)
    ensures !s.privileged && !s.hostPid && !s.hostIpc && !s.hostNetwork && !s.hostPath <==> HostClean(spec, cs)
  {
    HostPathMeaning(spec);
    FlagsRead(cs, podSc);
  }

  /** The traits of the subject meet a profile exactly when the object does. */
  lemma TraitsAreTheObjects(pss: PssProfile, s: Subject, spec: Fields, cs: seq<Fields>, podSc: Option<Fields>)
    requires ReadAs(s, spec, cs, podSc)
    ensures TraitsMeet(pss, s) <==> Meets(pss, spec, cs, podSc)
  {
    HostCleanRead(s, spec, cs, podSc);
    FlagsRead(cs, podSc);
    RootsRead(cs, podSc);
    CapabilitiesRead(pss, cs, podSc);
  }

  // ---- Admission ---------------------------------------------------------------------

  /** The rules a profile can add to a policy. */
  predicate OfProfile(rule: Rule) {
    || rule.PrivilegedRule? || rule.HostPid? || rule.HostIpc? || rule.HostNetwork? || rule.HostPath?
    || rule.AllowPrivilegeEscalation? || rule.RunAsRoot? || rule.AddedCapabilities?
  }

  lemma Permitted(pss: PssProfile, cap: string)
    requires pss == Baseline || pss == Restricted
    ensures ForbidsCapability(pss, cap) <==> !MayAdd(pss, cap)
  {
  }

  lemma UnbrokenMeets(p: AdmissionProgram, s: Subject)
    requires s.kind == "Pod" && forall rule :: OfProfile(rule) ==> !Broken(p, s, rule)
    ensures TraitsMeet(p.admit.pss, s)
  {
    assert !Broken(p, s, PrivilegedRule) && !Broken(p, s, HostPid) && !Broken(p, s, HostIpc);
    assert !Broken(p, s, HostNetwork) && !Broken(p, s, HostPath);
    assert !Broken(p, s, AllowPrivilegeEscalation) && !Broken(p, s, RunAsRoot);
    assert !Broken(p, s, AddedCapabilities);
    forall i | 0 <= i < |s.addedCapabilities| ensures !Denied(p, s.addedCapabilities[i]) {}
    if p.admit.pss == Baseline || p.admit.pss == Restricted {
      forall i | 0 <= i < |s.addedCapabilities| ensures MayAdd(p.admit.pss, s.addedCapabilities[i]) {
        Permitted(p.admit.pss, s.addedCapabilities[i]);
      }
    }
  }

  /** The policy is its profile and nothing else. */
  predicate ProfileOnly(p: AdmissionProgram) {
    && !p.supply.denyUnsigned && !p.supply.requireSigned && !p.supply.denyLatestTag
    && !p.selector.image.requireDigest && p.selector.image.registriesAllow == []
    && p.admit.deny == AdmitDeny(false, false, false, false, false, false, false, false, false, [])
  }

  lemma MeetingBreaksNothing(p: AdmissionProgram, s: Subject, rule: Rule)
    requires s.kind == "Pod" && ProfileOnly(p) && TraitsMeet(p.admit.pss, s)
    ensures !Broken(p, s, rule)
  {
    if p.admit.pss == Baseline || p.admit.pss == Restricted {
      forall i | 0 <= i < |s.addedCapabilities| ensures !ForbidsCapability(p.admit.pss, s.addedCapabilities[i]) {
        Permitted(p.admit.pss, s.addedCapabilities[i]);
      }
    }
  }

  /** A subject judged and allowed by an enforcing policy, with none of the profile's rules
      waived, comes from a pod that meets the policy's profile. */
  lemma JudgedPodMeets(p: AdmissionProgram, s: Subject, exceptions: seq<Exception>, now: int,
                       spec: Fields, cs: seq<Fields>, podSc: Option<Fields>)
    requires p.mode == Enforce && s.kind == "Pod" && ReadAs(s, spec, cs, podSc)
    requires forall rule :: OfProfile(rule) ==> !Excused(s, rule, exceptions, now)
    requires Judge(p, s, exceptions, now).allowed
    ensures Meets(p.admit.pss, spec, cs, podSc)
  {
    JudgeMeaning(p, s, exceptions, now);
    UnbrokenMeets(p, s);
    TraitsAreTheObjects(p.admit.pss, s, spec, cs, podSc);
  }

  lemma MeetingIsAllowed(p: AdmissionProgram, s: Subject, now: int, spec: Fields, cs: seq<Fields>, podSc: Option<Fields>)
    requires p.mode == Enforce && ProfileOnly(p) && s.kind == "Pod" && ReadAs(s, spec, cs, podSc)
    requires Meets(p.admit.pss, spec, cs, podSc)
    ensures Judge(p, s, [], now).allowed
  {
    TraitsAreTheObjects(p.admit.pss, s, spec, cs, podSc);
    forall rule ensures !Broken(p, s, rule) {
      MeetingBreaksNothing(p, s, rule);
    }
    JudgeMeaning(p, s, [], now);
  }

  // ---- From the request to the profile ----------------------------------------------

  /** What a profile asks of a document: that it can be read as a pod and that the pod meets it. */
  ghost predicate PodMeets(pss: PssProfile, doc: Json) {
    && doc.Obj? && ObjectAt(doc.fields, "spec").Some?
    && var spec := ObjectAt(doc.fields, "spec").value;
       && AllContainers(spec).Ok? && OptionalObject(spec, "securityContext").Ok?
       && Meets(pss, spec, AllContainers(spec).value, OptionalObject(spec, "securityContext").value)
  }

  /** The body asks about an object that can be read and that the policy covers. */
  predicate Covers(cfg: Config, labels: LabelSource, check: SignatureCheck, input: Input, p: AdmissionProgram) {
    && Asked(input).Some?
    && var (request, doc) := Asked(input).value;
       var subject := JudgedSubject(cfg, labels, check, p, request, doc);
       subject.Ok? && ProgramApplies(p, subject.value) == Ok(true)
  }

  /** None of the profile's rules is waived for this policy. */
  ghost predicate NoneWaived(cfg: Config, exceptions: seq<Exception>, now: int) {
    forall rule :: OfProfile(rule) ==> !Waived(exceptions, RuleHit(cfg.policyNamespace, cfg.policyName, Id(rule), Deny), now)
  }

  /** Naming and labelling a subject leaves its traits as they were read. */
  lemma JudgedPod(cfg: Config, labels: LabelSource, check: SignatureCheck, p: AdmissionProgram, request: Fields, doc: Json)
    returns (spec: Fields, cs: seq<Fields>, podSc: Option<Fields>)
    requires JudgedSubject(cfg, labels, check, p, request, doc).Ok?
    requires JudgedSubject(cfg, labels, check, p, request, doc).value.kind == "Pod"
    ensures Readable(doc, spec, cs, podSc)
    ensures ReadAs(JudgedSubject(cfg, labels, check, p, request, doc).value, spec, cs, podSc)
  {
    spec, cs, podSc := ReadPod(doc, p.supply.trustRoots, check);
  }

  lemma JudgedNames(cfg: Config, labels: LabelSource, check: SignatureCheck, p: AdmissionProgram, request: Fields, doc: Json,
                    exceptions: seq<Exception>, now: int)
    requires JudgedSubject(cfg, labels, check, p, request, doc).Ok? && NoneWaived(cfg, exceptions, now)
    ensures forall rule :: OfProfile(rule) ==>
              !Excused(JudgedSubject(cfg, labels, check, p, request, doc).value, rule, exceptions, now)
  {
  }

  lemma JudgedKind(cfg: Config, labels: LabelSource, check: SignatureCheck, p: AdmissionProgram, input: Input)
    requires Asked(input).Some? && JudgedSubject(cfg, labels, check, p, Asked(input).value.0, Asked(input).value.1).Ok?
    ensures JudgedSubject(cfg, labels, check, p, Asked(input).value.0, Asked(input).value.1).value.kind == ReviewedKind(input)
  {
    SubjectKind(Asked(input).value.1, p.supply.trustRoots, check);
  }

  lemma CoveredIsJudged(p: AdmissionProgram, s: Subject, exceptions: seq<Exception>, now: int)
    requires ProgramApplies(p, s) == Ok(true) && p.mode == Enforce && (p.disabled ==> Admit(p, s, exceptions, now).allowed)
    ensures !p.disabled && Admit(p, s, exceptions, now) == Judge(p, s, exceptions, now)
  {
  }

  lemma ReadableMeets(pss: PssProfile, doc: Json, spec: Fields, cs: seq<Fields>, podSc: Option<Fields>)
    requires Readable(doc, spec, cs, podSc)
    ensures PodMeets(pss, doc) <==> Meets(pss, spec, cs, podSc)
  {
  }

  /** A Pod that a request gets past an enforcing policy that covers it, with none of the profile's
      rules waived and no suspension in force, meets the policy's pod security profile: the
      document itself does, container by container. */
  lemma AdmittedPodMeetsProfile(cfg: Config, labels: LabelSource, check: SignatureCheck, input: Input, p: AdmissionProgram,
                                exceptions: seq<Exception>, glass: Option<Grant>, now: int)
    requires p.mode == Enforce && ReviewedKind(input) == "Pod" && Covers(cfg, labels, check, input, p)
    requires NoneWaived(cfg, exceptions, now) && !InForce(glass, now)
    requires Handle(cfg, labels, check, input, Some(p), exceptions, glass, now).allowed
    ensures PodMeets(p.admit.pss, Asked(input).value.1)
  {
    AllowsAreDecided(cfg, labels, check, input, Some(p), exceptions, glass, now);
    var (request, doc) := Asked(input).value;
    var s := JudgedSubject(cfg, labels, check, p, request, doc).value;
    JudgedKind(cfg, labels, check, p, input);
    var spec, cs, podSc := JudgedPod(cfg, labels, check, p, request, doc);
    JudgedNames(cfg, labels, check, p, request, doc, exceptions, now);
    CoveredIsJudged(p, s, exceptions, now);
    JudgedPodMeets(p, s, exceptions, now, spec, cs, podSc);
    ReadableMeets(p.admit.pss, doc, spec, cs, podSc);
  }

  /** For a policy that is nothing but its profile, getting a Pod through is its meeting the profile. */
  lemma AdmittedIffMeetsProfile(cfg: Config, labels: LabelSource, check: SignatureCheck, input: Input, p: AdmissionProgram,
                                glass: Option<Grant>, now: int)
    requires p.mode == Enforce && !p.disabled && ProfileOnly(p)
    requires UidOf(input) != "" && ReviewedKind(input) == "Pod" && Covers(cfg, labels, check, input, p)
    requires !InForce(glass, now) && (labels.warm || WatchFree(p, "Pod"))
    ensures Handle(cfg, labels, check, input, Some(p), [], glass, now).allowed <==> PodMeets(p.admit.pss, Asked(input).value.1)
  {
    if Handle(cfg, labels, check, input, Some(p), [], glass, now).allowed {
      AdmittedPodMeetsProfile(cfg, labels, check, input, p, [], glass, now);
    }
    if PodMeets(p.admit.pss, Asked(input).value.1) {
      var (request, doc) := Asked(input).value;
      var s := JudgedSubject(cfg, labels, check, p, request, doc).value;
      JudgedKind(cfg, labels, check, p, input);
      var spec, cs, podSc := JudgedPod(cfg, labels, check, p, request, doc);
      ReadableMeets(p.admit.pss, doc, spec, cs, podSc);
      MeetingIsAllowed(p, s, now, spec, cs, podSc);
      CoveredIsJudged(p, s, [], now);
      DecidedIsAllowed(cfg, labels, check, input, p, [], glass, now);
    }
  }
}
