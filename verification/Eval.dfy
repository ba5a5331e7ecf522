/** Admit one subject against one compiled program. */
module Eval {
  import opened Wrappers
  import opened Text
  import opened Policy
  import opened Subject
  import PodPatch

  // ---- Selectors -------------------------------------------------------------------

  predicate ClusterScoped(kind: string) {
    kind == "ClusterRole" || kind == "ClusterRoleBinding"
  }

  function MatchExpression(e: Requirement, labels: Labels): Result<bool> {
    if e.operator == "In" then Ok(e.key in labels && labels[e.key] in e.values)
    else if e.operator == "NotIn" then Ok(e.key in labels ==> labels[e.key] !in e.values)
    else if e.operator == "Exists" then Ok(e.key in labels)
    else if e.operator == "DoesNotExist" then Ok(e.key !in labels)
    else Err(Compile)
  }

  function MatchExpressions(es: seq<Requirement>, labels: Labels): Result<bool> {
    if es == [] then Ok(true)
    else
      var m :- MatchExpression(es[0], labels);
      if m then MatchExpressions(es[1..], labels) else Ok(false)
  }

  function SelectorMatches(sel: LabelSelector, labels: Labels): Result<bool> {
    if forall k :: k in sel.matchLabels ==> k in labels && labels[k] == sel.matchLabels[k]
    then MatchExpressions(sel.matchExpressions, labels)
    else Ok(false)
  }

  predicate HasLabel(labels: Labels, key: string, value: string) {
    key in labels && labels[key] == value
  }

  /** What the four operators ask of the labels; any other is an error. */
  lemma MatchExpressionMeaning(e: Requirement, labels: Labels)
    ensures e.operator == "In" ==>
              MatchExpression(e, labels) == Ok(exists i :: 0 <= i < |e.values| && HasLabel(labels, e.key, e.values[i]))
    ensures e.operator == "NotIn" ==>
              MatchExpression(e, labels) == Ok(forall i :: 0 <= i < |e.values| ==> !HasLabel(labels, e.key, e.values[i]))
    ensures e.operator == "Exists" ==> MatchExpression(e, labels) == Ok(exists value :: HasLabel(labels, e.key, value))
    ensures e.operator == "DoesNotExist" ==> MatchExpression(e, labels) == Ok(forall value :: !HasLabel(labels, e.key, value))
    ensures e.operator != "In" && e.operator != "NotIn" && e.operator != "Exists" && e.operator != "DoesNotExist" ==>
              MatchExpression(e, labels) == Err(Compile)
  {
    assert e.key in labels ==> HasLabel(labels, e.key, labels[e.key]);
    if e.key in labels && labels[e.key] in e.values {
      var i :| 0 <= i < |e.values| && e.values[i] == labels[e.key];
      assert HasLabel(labels, e.key, e.values[i]);
    }
  }

  /** A selector matches exactly when its labels and all its expressions hold. */
  lemma SelectorMeaning(sel: LabelSelector, labels: Labels)
    ensures SelectorMatches(sel, labels) == Ok(true) <==>
            && (forall k :: k in sel.matchLabels ==> HasLabel(labels, k, sel.matchLabels[k]))
            && (forall i :: 0 <= i < |sel.matchExpressions| ==> MatchExpression(sel.matchExpressions[i], labels) == Ok(true))
  {
    var n := FirstUnmet(sel.matchExpressions, labels);
  }

  /** Expressions are answered left to right: the answer is that of the first one that does
      not hold, be it a mismatch or an unknown operator, and a match when there is none. */
  lemma {:induction false} FirstUnmet(es: seq<Requirement>, labels: Labels) returns (n: nat)
    ensures n <= |es| && forall j :: 0 <= j < n ==> MatchExpression(es[j], labels) == Ok(true)
    ensures n < |es| ==> MatchExpression(es[n], labels) != Ok(true)
    ensures MatchExpressions(es, labels) == if n < |es| then MatchExpression(es[n], labels) else Ok(true)
  {
    n := 0;
    if es != [] && MatchExpression(es[0], labels) == Ok(true) {
      var m := FirstUnmet(es[1..], labels);
      n := m + 1;
    }
  }

  function RequireLabels(sel: LabelSelector, labels: Option<Labels>): Result<()> {
    if sel.Nonempty() && labels.None? then Err(Integrity) else Ok(())
  }

  function OrNone(labels: Option<Labels>): Labels {
    match labels case Some(l) => l case None => map[]
  }

  /** Whether the policy covers the subject at all. Labels that were never observed are an
      error, not a mismatch; an object in no namespace is not asked about namespace labels. */
  function ProgramApplies(p: AdmissionProgram, s: Subject): Result<bool> {
    if s.policyNamespace != "" && s.namespace != s.policyNamespace then Ok(false)
    else
      var clusterScoped := ClusterScoped(s.kind);
      var _ :- RequireLabels(p.selector.cluster, s.clusterLabels);
      var _ :- if clusterScoped then Ok(()) else RequireLabels(p.selector.namespace, s.namespaceLabels);
      var _ :- if clusterScoped then Ok(()) else RequireLabels(p.selector.serviceAccount, s.serviceAccountLabels);
      var cluster :- SelectorMatches(p.selector.cluster, OrNone(s.clusterLabels));
      if !cluster then Ok(false) else
      var namespace :- if clusterScoped then Ok(true) else SelectorMatches(p.selector.namespace, OrNone(s.namespaceLabels));
      if !namespace then Ok(false) else
      var workload :- SelectorMatches(p.selector.workload, s.workloadLabels);
      if !workload then Ok(false) else
      if clusterScoped then Ok(true)
      else SelectorMatches(p.selector.serviceAccount, OrNone(s.serviceAccountLabels))
  }

  // ---- Images ----------------------------------------------------------------------

  datatype ImageRef = ImageRef(registry: string, tag: Option<string>, digest: Option<string>)

  function FirstOf(s: string, c: char): (r: nat)
    ensures r <= |s|
  {
    if s == "" || s[0] == c then 0 else 1 + FirstOf(s[1..], c)
  }

  /** What stands before a digest, and the digest. */
  function CutDigest(image: string): (string, Option<string>) {
    var at := FirstOf(image, '@');
    if at + 1 < |image| then (image[..at], Some(image[at + 1..])) else (image, None)
  }

  /** The registry, by name or by default, and what comes after it. */
  function CutRegistry(bare: string): (string, string) {
    var slash := FirstOf(bare, '/');
    var first := bare[..slash];
    if slash < |bare| && (first == "localhost" || '.' in first || ':' in first) then (first, bare[slash + 1..])
    else ("docker.io", bare)
  }

  function TagOf(rest: string): Option<string> {
    match LastColon(rest)
    case Some(i) => if i > 0 && i + 1 < |rest| && '/' !in rest[i + 1..] then Some(rest[i + 1..]) else None
    case None => None
  }

  function ParseImage(image: string): ImageRef {
    var (bare, digest) := CutDigest(image);
    var (registry, rest) := CutRegistry(bare);
    ImageRef(registry, TagOf(rest), digest)
  }

  predicate ImageIsLatest(image: string) {
    var parsed := ParseImage(image);
    parsed.tag == Some("latest") || (parsed.tag.None? && parsed.digest.None?)
  }

  // ---- Rule hits -------------------------------------------------------------------

  datatype Rule =
    | Unsigned | LatestTag | RequireDigest | RegistryAllow
    | PrivilegedRule | HostPid | HostIpc | HostNetwork | HostPath
    | AllowPrivilegeEscalation | RunAsRoot | AddedCapabilities
    | WildcardsRbac | ClusterAdminBind

  /** The identifier policies and exceptions name a rule by. */
  function Id(r: Rule): string {
    match r
    case Unsigned => "unsigned"
    case LatestTag => "latestTag"
    case RequireDigest => "requireDigest"
    case RegistryAllow => "registryAllow"
    case PrivilegedRule => "privileged"
    case HostPid => "hostPID"
    case HostIpc => "hostIPC"
    case HostNetwork => "hostNetwork"
    case HostPath => "hostPath"
    case AllowPrivilegeEscalation => "allowPrivilegeEscalation"
    case RunAsRoot => "runAsRoot"
    case AddedCapabilities => "addedCapabilities"
    case WildcardsRbac => "wildcardsRbac"
    case ClusterAdminBind => "clusterAdminBind"
  }

  const RESTRICTED_CAP := "NET_BIND_SERVICE"
  const BASELINE_CAPS: seq<string> := [
    "AUDIT_WRITE", "CHOWN", "DAC_OVERRIDE", "FOWNER", "FSETID", "KILL", "MKNOD",
    "NET_BIND_SERVICE", "SETFCAP", "SETGID", "SETPCAP", "SETUID", "SYS_CHROOT"]

  datatype Detail = Plainly | NoTrustRoots | NoPublicKeys | Registry(name: string) | Capabilities(caps: seq<string>)

  /** A rule the subject breaks, with what the message says beyond the rule. */
  datatype Pending = Pending(rule: Rule, detail: Detail)

  function Join(parts: seq<string>, sep: string): string {
    if parts == [] then "" else if |parts| == 1 then parts[0] else parts[0] + sep + Join(parts[1..], sep)
  }

  lemma {:induction false} JoinOneMore(parts: seq<string>, last: string, sep: string)
    ensures Join(parts + [last], sep) == if parts == [] then last else Join(parts, sep) + sep + last
    decreases |parts|
  {
    if parts != [] {
      JoinOneMore(parts[1..], last, sep);
      assert (parts + [last])[1..] == parts[1..] + [last];
      assert Join(parts + [last], sep) == parts[0] + sep + Join(parts[1..] + [last], sep);
    }
  }

  function Reason(h: Pending): string {
    match h.rule
    case Unsigned =>
      (match h.detail
       case NoTrustRoots => "unsigned image: no trust roots in bundle"
       case NoPublicKeys => "unsigned image: no public keys in bundle"
       case _ => "unsigned image")
    case LatestTag => "image tag latest"
    case RequireDigest => "image digest required"
    case RegistryAllow =>
      "image registry " + (if h.detail.Registry? then h.detail.name else "") + " is not in registriesAllow"
    case PrivilegedRule => "privileged container"
    case AddedCapabilities =>
      "added capabilities denied: " + Join(if h.detail.Capabilities? then h.detail.caps else [], ",")
    case WildcardsRbac => "wildcard RBAC"
    case ClusterAdminBind => "cluster-admin bind"
    case HostPid => Id(h.rule)
    case HostIpc => Id(h.rule)
    case HostNetwork => Id(h.rule)
    case HostPath => Id(h.rule)
    case AllowPrivilegeEscalation => Id(h.rule)
    case RunAsRoot => Id(h.rule)
  }

  predicate HasPublicKeys(supply: SupplySpec) {
    exists i, j :: && 0 <= i < |supply.trustRoots| && 0 <= j < |supply.trustRoots[i].publicKeys|
                   && Trim(supply.trustRoots[i].publicKeys[j]) != ""
  }

  predicate ForbidsCapability(pss: PssProfile, cap: string) {
    match pss
    case Restricted => cap != RESTRICTED_CAP
    case Baseline => cap !in BASELINE_CAPS
    case Privileged => false
    case Custom => false
  }

  predicate BaselineOn(p: AdmissionProgram) {
    p.admit.pss == Baseline || p.admit.pss == Restricted
  }

  predicate RestrictedOn(p: AdmissionProgram) {
    p.admit.pss == Restricted
  }

  function Hit(fires: bool, rule: Rule, detail: Detail): seq<Pending> {
    if fires then [Pending(rule, detail)] else []
  }

  function SupplyHits(p: AdmissionProgram, s: Subject): seq<Pending> {
    if !(p.supply.denyUnsigned || p.supply.requireSigned) then []
    else if p.supply.trustRoots == [] then Hit(true, Unsigned, NoTrustRoots)
    else if !HasPublicKeys(p.supply) then Hit(true, Unsigned, NoPublicKeys)
    else Hit(!s.imageSigned, Unsigned, Plainly)
  }

  function ImageHits(p: AdmissionProgram, s: Subject): seq<Pending> {
    var allow, registry := p.selector.image.registriesAllow, ParseImage(s.image).registry;
    Hit(p.supply.denyLatestTag && ImageIsLatest(s.image), LatestTag, Plainly)
    + Hit(p.selector.image.requireDigest && ParseImage(s.image).digest.None?, RequireDigest, Plainly)
    + Hit(allow != [] && registry !in allow, RegistryAllow, Registry(registry))
  }

  function ProcessHits(p: AdmissionProgram, s: Subject): seq<Pending> {
    var deny, baseline := p.admit.deny, BaselineOn(p);
    Hit((deny.privileged || baseline) && s.privileged, PrivilegedRule, Plainly)
    + Hit((deny.hostPid || baseline) && s.hostPid, HostPid, Plainly)
    + Hit((deny.hostIpc || baseline) && s.hostIpc, HostIpc, Plainly)
  }

  function HostHits(p: AdmissionProgram, s: Subject): seq<Pending> {
    var deny, baseline := p.admit.deny, BaselineOn(p);
    Hit((deny.hostNetwork || baseline) && s.hostNetwork, HostNetwork, Plainly)
    + Hit((deny.hostPath || baseline) && s.hostPath, HostPath, Plainly)
  }

  function UserHits(p: AdmissionProgram, s: Subject): seq<Pending> {
    var deny, restricted := p.admit.deny, RestrictedOn(p);
    Hit((deny.allowPrivilegeEscalation || restricted) && s.allowPrivilegeEscalation, AllowPrivilegeEscalation, Plainly)
    + Hit((deny.runAsRoot || restricted) && s.runAsRoot, RunAsRoot, Plainly)
  }

  predicate Denied(p: AdmissionProgram, cap: string) {
    ForbidsCapability(p.admit.pss, cap) || cap in p.admit.deny.addedCapabilities
  }

  function DeniedCaps(p: AdmissionProgram, caps: seq<string>): seq<string> {
    if caps == [] then []
    else (if Denied(p, caps[0]) then [caps[0]] else []) + DeniedCaps(p, caps[1..])
  }

  function CapabilityHits(p: AdmissionProgram, s: Subject): seq<Pending> {
    var caps := DeniedCaps(p, s.addedCapabilities);
    Hit(caps != [], AddedCapabilities, Capabilities(caps))
  }

  predicate Workload(s: Subject) {
    s.kind == "" || s.kind == "Pod"
  }

  predicate RoleLike(s: Subject) {
    s.kind == "" || s.kind == "Role" || s.kind == "ClusterRole"
  }

  predicate BindingLike(s: Subject) {
    s.kind == "" || s.kind == "RoleBinding" || s.kind == "ClusterRoleBinding"
  }

  function WorkloadHits(p: AdmissionProgram, s: Subject): seq<Pending> {
    if !Workload(s) then []
    else (SupplyHits(p, s) + ImageHits(p, s) + ProcessHits(p, s)) + (HostHits(p, s) + UserHits(p, s) + CapabilityHits(p, s))
  }

  function RoleHits(p: AdmissionProgram, s: Subject): seq<Pending> {
    Hit(RoleLike(s) && p.admit.deny.wildcardsRbac && s.wildcardRbac, WildcardsRbac, Plainly)
    + Hit(BindingLike(s) && p.admit.deny.clusterAdminBind && s.clusterAdminBind, ClusterAdminBind, Plainly)
  }

  function CollectHits(p: AdmissionProgram, s: Subject): seq<Pending> {
    WorkloadHits(p, s) + RoleHits(p, s)
  }

  // ---- The decision ----------------------------------------------------------------

  function Mutations(p: AdmissionProgram): seq<PodPatch.Kind> {
    var forced := p.mode == Enforce && p.admit.pss == Restricted;
    var m := p.admit.mutate;
    (if m.injectSeccompRuntimeDefault || forced then [PodPatch.InjectSeccompRuntimeDefault] else [])
    + (if m.dropAllCapabilities || forced then [PodPatch.DropAllCapabilities] else [])
    + (if m.readOnlyRootFilesystem || forced then [PodPatch.ReadOnlyRootFilesystem] else [])
  }

  /** A kind of patch is asked for by its own flag, or by enforcing the restricted profile. */
  lemma MutationsMeaning(p: AdmissionProgram)
    ensures var m, forced := p.admit.mutate, p.mode == Enforce && p.admit.pss == Restricted;
            && (PodPatch.InjectSeccompRuntimeDefault in Mutations(p) <==> m.injectSeccompRuntimeDefault || forced)
            && (PodPatch.DropAllCapabilities in Mutations(p) <==> m.dropAllCapabilities || forced)
            && (PodPatch.ReadOnlyRootFilesystem in Mutations(p) <==> m.readOnlyRootFilesystem || forced)
  {
  }

  datatype Decision = Decision(
    allowed: bool, failClosed: bool, mode: PolicyMode, failurePolicy: FailurePolicy,
    reasons: seq<string>, ruleIds: seq<string>, patches: seq<PodPatch.Kind>)

  /** The error's class; the detail after it is not modelled. */
  function Describe(e: Error): string {
    match e
    case Integrity => "integrity check failed"
    case Compile => "policy compile failed"
    case Degraded => "degraded"
    case Validation => "validation failed"
  }

  function FailClosed(e: Error): Decision {
    Decision(false, true, Enforce, Fail, [Describe(e)], [], [])
  }

  function EffectiveFailurePolicy(p: AdmissionProgram, namespaced: bool): FailurePolicy {
    if namespaced then Fail else p.admit.failurePolicy
  }

  function HitOf(namespace: string, policy: string, h: Pending): RuleHit {
    RuleHit(namespace, policy, Id(h.rule), Deny)
  }

  function HitsOf(namespace: string, policy: string, pending: seq<Pending>): (hits: seq<RuleHit>)
    ensures |hits| == |pending|
    ensures forall i :: 0 <= i < |pending| ==> hits[i] == HitOf(namespace, policy, pending[i])
  {
    seq(|pending|, i requires 0 <= i < |pending| => HitOf(namespace, policy, pending[i]))
  }

  /** The hits no exception waives, in order. */
  function Remaining(namespace: string, policy: string, pending: seq<Pending>, exceptions: seq<Exception>, now: int): seq<Pending> {
    if pending == [] then []
    else (if Waived(exceptions, HitOf(namespace, policy, pending[0]), now) then [] else [pending[0]])
         + Remaining(namespace, policy, pending[1..], exceptions, now)
  }

  function Rules(pending: seq<Pending>): seq<string> {
    seq(|pending|, i requires 0 <= i < |pending| => Id(pending[i].rule))
  }

  function Reasons(pending: seq<Pending>): seq<string> {
    seq(|pending|, i requires 0 <= i < |pending| => Reason(pending[i]))
  }

  function Judge(p: AdmissionProgram, s: Subject, exceptions: seq<Exception>, now: int): Decision {
    var pending := CollectHits(p, s);
    var blocked := Blocks(Evaluate(HitsOf(s.policyNamespace, s.policyName, pending), Allow, exceptions, now));
    var remaining := Remaining(s.policyNamespace, s.policyName, pending, exceptions, now);
    Decision(!blocked || p.mode != Enforce, false, p.mode,
             EffectiveFailurePolicy(p, s.policyNamespace != ""),
             Reasons(remaining), Rules(remaining), Mutations(p))
  }

  function Admit(p: AdmissionProgram, s: Subject, exceptions: seq<Exception>, now: int): Decision {
    if p.disabled && p.mode == Enforce then FailClosed(Validation)
    else
      match ProgramApplies(p, s)
      case Err(e) => FailClosed(e)
      case Ok(applies) =>
        if !applies || p.disabled then
          Decision(true, false, p.mode, EffectiveFailurePolicy(p, s.policyNamespace != ""), [], [], [])
        else Judge(p, s, exceptions, now)
  }

  /** A namespaced policy fails closed whatever it says, and so does a decision that cannot be made. */
  lemma FailurePolicyIs(p: AdmissionProgram, s: Subject, exceptions: seq<Exception>, now: int)
    ensures Admit(p, s, exceptions, now).failurePolicy ==
            if Admit(p, s, exceptions, now).failClosed || s.policyNamespace != "" then Fail else p.admit.failurePolicy
  {
  }

  // ---- What the decision means -----------------------------------------------------

  predicate HasRule(hits: seq<Pending>, rule: Rule) {
    exists i :: 0 <= i < |hits| && hits[i].rule == rule
  }

  /** When a workload breaks a rule: it has a trait the policy denies by name or its pod
      security profile forbids. */
  ghost predicate TraitDenied(p: AdmissionProgram, s: Subject, rule: Rule) {
    var deny, image := p.admit.deny, p.selector.image;
    var baseline, restricted := p.admit.pss in {Baseline, Restricted}, p.admit.pss == Restricted;
    match rule
    case Unsigned => (p.supply.denyUnsigned || p.supply.requireSigned) && !(CarriesKey(p.supply) && s.imageSigned)
    case LatestTag => p.supply.denyLatestTag && ImageIsLatest(s.image)
    case RequireDigest => image.requireDigest && ParseImage(s.image).digest.None?
    case RegistryAllow => image.registriesAllow != [] && ParseImage(s.image).registry !in image.registriesAllow
    case PrivilegedRule => s.privileged && (deny.privileged || baseline)
    case HostPid => s.hostPid && (deny.hostPid || baseline)
    case HostIpc => s.hostIpc && (deny.hostIpc || baseline)
    case HostNetwork => s.hostNetwork && (deny.hostNetwork || baseline)
    case HostPath => s.hostPath && (deny.hostPath || baseline)
    case AllowPrivilegeEscalation => s.allowPrivilegeEscalation && (deny.allowPrivilegeEscalation || restricted)
    case RunAsRoot => s.runAsRoot && (deny.runAsRoot || restricted)
    case AddedCapabilities => exists i :: 0 <= i < |s.addedCapabilities| && Denied(p, s.addedCapabilities[i])
    case WildcardsRbac => false
    case ClusterAdminBind => false
  }

  /** Some trust root carries a key that is more than spaces. */
  ghost predicate CarriesKey(supply: SupplySpec) {
    exists root, key :: root in supply.trustRoots && key in root.publicKeys && Trim(key) != ""
  }

  lemma KeysIff(supply: SupplySpec)
    ensures HasPublicKeys(supply) <==> CarriesKey(supply)
  {
    if root, key :| root in supply.trustRoots && key in root.publicKeys && Trim(key) != "" {
      var i :| 0 <= i < |supply.trustRoots| && supply.trustRoots[i] == root;
      var j :| 0 <= j < |root.publicKeys| && root.publicKeys[j] == key;
      assert supply.trustRoots[i].publicKeys[j] == key;
    }
  }

  predicate GrantDenied(p: AdmissionProgram, s: Subject, rule: Rule) {
    || (rule.WildcardsRbac? && s.kind in {"", "Role", "ClusterRole"} && s.wildcardRbac && p.admit.deny.wildcardsRbac)
    || (rule.ClusterAdminBind? && s.kind in {"", "RoleBinding", "ClusterRoleBinding"} && s.clusterAdminBind
        && p.admit.deny.clusterAdminBind)
  }

  /** Only workloads have traits, only roles and bindings make grants. */
  ghost predicate Broken(p: AdmissionProgram, s: Subject, rule: Rule) {
    (s.kind in {"", "Pod"} && TraitDenied(p, s, rule)) || GrantDenied(p, s, rule)
  }

  lemma HasRuleAppend(a: seq<Pending>, b: seq<Pending>, rule: Rule)
    ensures HasRule(a + b, rule) <==> HasRule(a, rule) || HasRule(b, rule)
  {
    if HasRule(a, rule) {
      var i :| 0 <= i < |a| && a[i].rule == rule;
      assert (a + b)[i].rule == rule;
    }
    if HasRule(b, rule) {
      var i :| 0 <= i < |b| && b[i].rule == rule;
      assert (a + b)[|a| + i].rule == rule;
    }
  }

  lemma HasRuleHit(fires: bool, r: Rule, detail: Detail, rule: Rule)
    ensures HasRule(Hit(fires, r, detail), rule) <==> fires && r == rule
  {
    if fires {
      assert Hit(fires, r, detail)[0].rule == r;
    }
  }

  lemma {:induction false} DeniedCapsMeaning(p: AdmissionProgram, caps: seq<string>)
    ensures DeniedCaps(p, caps) != [] <==> exists i :: 0 <= i < |caps| && Denied(p, caps[i])
  {
    if caps != [] {
      DeniedCapsMeaning(p, caps[1..]);
      assert forall i :: 0 < i < |caps| ==> caps[i] == caps[1..][i - 1];
      assert forall i :: 0 <= i < |caps| - 1 ==> caps[1..][i] == caps[i + 1];
    }
  }

  lemma HasRuleThree(a: seq<Pending>, b: seq<Pending>, c: seq<Pending>, rule: Rule)
    ensures HasRule(a + b + c, rule) <==> HasRule(a, rule) || HasRule(b, rule) || HasRule(c, rule)
  {
    HasRuleAppend(a, b, rule);
    HasRuleAppend(a + b, c, rule);
  }

  lemma SupplyRules(p: AdmissionProgram, s: Subject, rule: Rule)
    ensures HasRule(SupplyHits(p, s), rule) <==> rule == Unsigned && TraitDenied(p, s, rule)
  {
    KeysIff(p.supply);
    HasRuleHit(true, Unsigned, NoTrustRoots, rule);
    HasRuleHit(true, Unsigned, NoPublicKeys, rule);
    HasRuleHit(!s.imageSigned, Unsigned, Plainly, rule);
  }

  lemma ImageRules(p: AdmissionProgram, s: Subject, rule: Rule)
    ensures HasRule(ImageHits(p, s), rule) <==>
            (rule.LatestTag? || rule.RequireDigest? || rule.RegistryAllow?) && TraitDenied(p, s, rule)
  {
    var allow, registry := p.selector.image.registriesAllow, ParseImage(s.image).registry;
    var latest := p.supply.denyLatestTag && ImageIsLatest(s.image);
    var bare := p.selector.image.requireDigest && ParseImage(s.image).digest.None?;
    var foreign := allow != [] && registry !in allow;
    HasRuleHit(latest, LatestTag, Plainly, rule);
    HasRuleHit(bare, RequireDigest, Plainly, rule);
    HasRuleHit(foreign, RegistryAllow, Registry(registry), rule);
    HasRuleThree(Hit(latest, LatestTag, Plainly), Hit(bare, RequireDigest, Plainly),
                 Hit(foreign, RegistryAllow, Registry(registry)), rule);
  }

  lemma ThreeHits(a: bool, ra: Rule, b: bool, rb: Rule, c: bool, rc: Rule, rule: Rule)
    ensures HasRule(Hit(a, ra, Plainly) + Hit(b, rb, Plainly) + Hit(c, rc, Plainly), rule) <==>
            (a && rule == ra) || (b && rule == rb) || (c && rule == rc)
  {
    HasRuleHit(a, ra, Plainly, rule);
    HasRuleHit(b, rb, Plainly, rule);
    HasRuleHit(c, rc, Plainly, rule);
    HasRuleThree(Hit(a, ra, Plainly), Hit(b, rb, Plainly), Hit(c, rc, Plainly), rule);
  }

  lemma ProcessRules(p: AdmissionProgram, s: Subject, rule: Rule)
    ensures HasRule(ProcessHits(p, s), rule) <==>
            (rule.PrivilegedRule? || rule.HostPid? || rule.HostIpc?) && TraitDenied(p, s, rule)
  {
    var deny, baseline := p.admit.deny, BaselineOn(p);
    var a := (deny.privileged || baseline) && s.privileged;
    var b := (deny.hostPid || baseline) && s.hostPid;
    var c := (deny.hostIpc || baseline) && s.hostIpc;
    ThreeHits(a, PrivilegedRule, b, HostPid, c, HostIpc, rule);
  }

  lemma HostRules(p: AdmissionProgram, s: Subject, rule: Rule)
    ensures HasRule(HostHits(p, s), rule) <==> (rule.HostNetwork? || rule.HostPath?) && TraitDenied(p, s, rule)
  {
    var deny, baseline := p.admit.deny, BaselineOn(p);
    var a := (deny.hostNetwork || baseline) && s.hostNetwork;
    var b := (deny.hostPath || baseline) && s.hostPath;
    HasRuleHit(a, HostNetwork, Plainly, rule);
    HasRuleHit(b, HostPath, Plainly, rule);
    HasRuleAppend(Hit(a, HostNetwork, Plainly), Hit(b, HostPath, Plainly), rule);
  }

  lemma UserRules(p: AdmissionProgram, s: Subject, rule: Rule)
    ensures HasRule(UserHits(p, s), rule) <==> (rule.AllowPrivilegeEscalation? || rule.RunAsRoot?) && TraitDenied(p, s, rule)
  {
    var deny, restricted := p.admit.deny, RestrictedOn(p);
    var a := (deny.allowPrivilegeEscalation || restricted) && s.allowPrivilegeEscalation;
    var b := (deny.runAsRoot || restricted) && s.runAsRoot;
    HasRuleHit(a, AllowPrivilegeEscalation, Plainly, rule);
    HasRuleHit(b, RunAsRoot, Plainly, rule);
    HasRuleAppend(Hit(a, AllowPrivilegeEscalation, Plainly), Hit(b, RunAsRoot, Plainly), rule);
  }

  lemma CapabilityRules(p: AdmissionProgram, s: Subject, rule: Rule)
    ensures HasRule(CapabilityHits(p, s), rule) <==> rule == AddedCapabilities && TraitDenied(p, s, rule)
  {
    var caps := DeniedCaps(p, s.addedCapabilities);
    DeniedCapsMeaning(p, s.addedCapabilities);
    HasRuleHit(caps != [], AddedCapabilities, Capabilities(caps), rule);
  }

  lemma FirstTraits(p: AdmissionProgram, s: Subject, rule: Rule)
    ensures HasRule(SupplyHits(p, s) + ImageHits(p, s) + ProcessHits(p, s), rule) <==>
            && (rule.Unsigned? || rule.LatestTag? || rule.RequireDigest? || rule.RegistryAllow?
                || rule.PrivilegedRule? || rule.HostPid? || rule.HostIpc?)
            && TraitDenied(p, s, rule)
  {
    SupplyRules(p, s, rule);
    ImageRules(p, s, rule);
    ProcessRules(p, s, rule);
    HasRuleThree(SupplyHits(p, s), ImageHits(p, s), ProcessHits(p, s), rule);
  }

  lemma LastTraits(p: AdmissionProgram, s: Subject, rule: Rule)
    ensures HasRule(HostHits(p, s) + UserHits(p, s) + CapabilityHits(p, s), rule) <==>
            && (rule.HostNetwork? || rule.HostPath? || rule.AllowPrivilegeEscalation? || rule.RunAsRoot?
                || rule.AddedCapabilities?)
            && TraitDenied(p, s, rule)
  {
    HostRules(p, s, rule);
    UserRules(p, s, rule);
    CapabilityRules(p, s, rule);
    HasRuleThree(HostHits(p, s), UserHits(p, s), CapabilityHits(p, s), rule);
  }

  lemma WorkloadRules(p: AdmissionProgram, s: Subject, rule: Rule)
    ensures HasRule(WorkloadHits(p, s), rule) <==> Workload(s) && TraitDenied(p, s, rule)
  {
    if Workload(s) {
      FirstTraits(p, s, rule);
      LastTraits(p, s, rule);
      HasRuleAppend(SupplyHits(p, s) + ImageHits(p, s) + ProcessHits(p, s),
                    HostHits(p, s) + UserHits(p, s) + CapabilityHits(p, s), rule);
    }
  }

  lemma RoleRules(p: AdmissionProgram, s: Subject, rule: Rule)
    ensures HasRule(RoleHits(p, s), rule) <==> GrantDenied(p, s, rule)
  {
    var a := RoleLike(s) && p.admit.deny.wildcardsRbac && s.wildcardRbac;
    var b := BindingLike(s) && p.admit.deny.clusterAdminBind && s.clusterAdminBind;
    HasRuleHit(a, WildcardsRbac, Plainly, rule);
    HasRuleHit(b, ClusterAdminBind, Plainly, rule);
    HasRuleAppend(Hit(a, WildcardsRbac, Plainly), Hit(b, ClusterAdminBind, Plainly), rule);
  }

  /** The hits are the broken rules, no more and no fewer. */
  lemma HitsAreBroken(p: AdmissionProgram, s: Subject, rule: Rule)
    ensures HasRule(CollectHits(p, s), rule) <==> Broken(p, s, rule)
  {
    WorkloadRules(p, s, rule);
    RoleRules(p, s, rule);
    HasRuleAppend(WorkloadHits(p, s), RoleHits(p, s), rule);
  }

  predicate Excused(s: Subject, rule: Rule, exceptions: seq<Exception>, now: int) {
    Waived(exceptions, RuleHit(s.policyNamespace, s.policyName, Id(rule), Deny), now)
  }

  /** The names by which exceptions and decisions speak of the rules. */
  predicate Calls(name: string, rule: Rule) {
    (name, rule) in {
      ("unsigned", Unsigned), ("latestTag", LatestTag), ("requireDigest", RequireDigest), ("registryAllow", RegistryAllow),
      ("privileged", PrivilegedRule), ("hostPID", HostPid), ("hostIPC", HostIpc), ("hostNetwork", HostNetwork),
      ("hostPath", HostPath), ("allowPrivilegeEscalation", AllowPrivilegeEscalation), ("runAsRoot", RunAsRoot),
      ("addedCapabilities", AddedCapabilities), ("wildcardsRbac", WildcardsRbac), ("clusterAdminBind", ClusterAdminBind)}
  }

  lemma CallsIff(name: string, rule: Rule)
    ensures Calls(name, rule) <==> name == Id(rule)
  {
  }

  /** A rule is excused exactly when some exception for this policy and its namespace, complete and in
      its time, lists the rule by name. */
  lemma ExcusedByName(s: Subject, rule: Rule, name: string, exceptions: seq<Exception>, now: int)
    requires Calls(name, rule)
    ensures Excused(s, rule, exceptions, now) <==>
            exists i :: 0 <= i < |exceptions| && Excuses(exceptions[i], RuleHit(s.policyNamespace, s.policyName, name, Deny), now)
  {
    CallsIff(name, rule);
    WaivedIff(exceptions, RuleHit(s.policyNamespace, s.policyName, name, Deny), now);
  }

  lemma UnwaivedHit(p: AdmissionProgram, s: Subject, exceptions: seq<Exception>, now: int, i: nat)
    requires i < |CollectHits(p, s)| && !Waived(exceptions, HitOf(s.policyNamespace, s.policyName, CollectHits(p, s)[i]), now)
    ensures exists rule :: Broken(p, s, rule) && !Excused(s, rule, exceptions, now)
  {
    var rule := CollectHits(p, s)[i].rule;
    HitsAreBroken(p, s, rule);
    assert Broken(p, s, rule) && !Excused(s, rule, exceptions, now);
  }

  lemma UnexcusedRule(p: AdmissionProgram, s: Subject, exceptions: seq<Exception>, now: int, rule: Rule) returns (i: nat)
    requires Broken(p, s, rule) && !Excused(s, rule, exceptions, now)
    ensures i < |CollectHits(p, s)| && !Waived(exceptions, HitOf(s.policyNamespace, s.policyName, CollectHits(p, s)[i]), now)
  {
    HitsAreBroken(p, s, rule);
    i :| 0 <= i < |CollectHits(p, s)| && CollectHits(p, s)[i].rule == rule;
  }

  lemma BlockedByRule(p: AdmissionProgram, s: Subject, exceptions: seq<Exception>, now: int)
    requires Blocks(Evaluate(HitsOf(s.policyNamespace, s.policyName, CollectHits(p, s)), Allow, exceptions, now))
    ensures exists rule :: Broken(p, s, rule) && !Excused(s, rule, exceptions, now)
  {
    var hits := HitsOf(s.policyNamespace, s.policyName, CollectHits(p, s));
    EvaluateBlocksIff(hits, exceptions, now);
    var i :| 0 <= i < |hits| && Blocks(hits[i].action) && !Waived(exceptions, hits[i], now);
    UnwaivedHit(p, s, exceptions, now, i);
  }

  lemma RuleBlocks(p: AdmissionProgram, s: Subject, exceptions: seq<Exception>, now: int, rule: Rule)
    requires Broken(p, s, rule) && !Excused(s, rule, exceptions, now)
    ensures Blocks(Evaluate(HitsOf(s.policyNamespace, s.policyName, CollectHits(p, s)), Allow, exceptions, now))
  {
    var i := UnexcusedRule(p, s, exceptions, now, rule);
    EvaluateBlocksIff(HitsOf(s.policyNamespace, s.policyName, CollectHits(p, s)), exceptions, now);
    assert Blocks(HitsOf(s.policyNamespace, s.policyName, CollectHits(p, s))[i].action);
  }

  /** In enforce mode a covered object is allowed exactly when every rule it breaks is
      waived; in the other modes it is always allowed. */
  lemma JudgeMeaning(p: AdmissionProgram, s: Subject, exceptions: seq<Exception>, now: int)
    ensures Judge(p, s, exceptions, now).allowed <==>
            p.mode != Enforce || forall rule :: Broken(p, s, rule) ==> Excused(s, rule, exceptions, now)
  {
    if Blocks(Evaluate(HitsOf(s.policyNamespace, s.policyName, CollectHits(p, s)), Allow, exceptions, now)) {
      BlockedByRule(p, s, exceptions, now);
    } else {
      forall rule | Broken(p, s, rule) ensures Excused(s, rule, exceptions, now) {
        if !Excused(s, rule, exceptions, now) {
          RuleBlocks(p, s, exceptions, now, rule);
        }
      }
    }
  }

  lemma {:induction false} RemainingMeaning(s: Subject, pending: seq<Pending>, exceptions: seq<Exception>, now: int, rule: Rule)
    ensures HasRule(Remaining(s.policyNamespace, s.policyName, pending, exceptions, now), rule) <==>
            HasRule(pending, rule) && !Excused(s, rule, exceptions, now)
    decreases |pending|
  {
    if pending != [] {
      var head, tail := pending[0], pending[1..];
      var rest := Remaining(s.policyNamespace, s.policyName, tail, exceptions, now);
      RemainingMeaning(s, tail, exceptions, now, rule);
      assert pending == [head] + tail;
      HasRuleAppend([head], tail, rule);
      HasRuleOne(head, rule);
      if Waived(exceptions, HitOf(s.policyNamespace, s.policyName, head), now) {
        assert [] + rest == rest;
      } else {
        HasRuleAppend([head], rest, rule);
      }
    }
  }

  lemma HasRuleOne(h: Pending, rule: Rule)
    ensures HasRule([h], rule) <==> h.rule == rule
  {
    assert [h][0].rule == h.rule;
  }

  lemma IdsDiffer(a: Rule, b: Rule)
    requires Id(a) == Id(b)
    ensures a == b
  {
    assert |Id(a)| == |Id(b)| && Id(a)[0] == Id(b)[0] && Id(a)[2] == Id(b)[2] && Id(a)[4] == Id(b)[4];
  }

  lemma RulesListed(pending: seq<Pending>, rule: Rule)
    ensures Id(rule) in Rules(pending) <==> HasRule(pending, rule)
  {
    if Id(rule) in Rules(pending) {
      var i :| 0 <= i < |pending| && Rules(pending)[i] == Id(rule);
      IdsDiffer(pending[i].rule, rule);
    }
    if i :| 0 <= i < |pending| && pending[i].rule == rule {
      assert Rules(pending)[i] == Id(rule);
    }
  }

  /** What a decision reports: exactly the broken rules that no exception waives, with a reason each. */
  lemma ReportedRules(p: AdmissionProgram, s: Subject, exceptions: seq<Exception>, now: int, rule: Rule)
    ensures Id(rule) in Judge(p, s, exceptions, now).ruleIds <==> Broken(p, s, rule) && !Excused(s, rule, exceptions, now)
    ensures |Judge(p, s, exceptions, now).reasons| == |Judge(p, s, exceptions, now).ruleIds|
  {
    RemainingMeaning(s, CollectHits(p, s), exceptions, now, rule);
    HitsAreBroken(p, s, rule);
    RulesListed(Remaining(s.policyNamespace, s.policyName, CollectHits(p, s), exceptions, now), rule);
  }

  // ---- When no decision can be made ------------------------------------------------

  predicate UnknownOperator(e: Requirement) {
    e.operator != "In" && e.operator != "NotIn" && e.operator != "Exists" && e.operator != "DoesNotExist"
  }

  /** A selector stumbles: its labels hold, and so does every expression before one whose operator is unknown. */
  predicate Stumbles(sel: LabelSelector, labels: Labels) {
    && (forall k :: k in sel.matchLabels ==> k in labels && labels[k] == sel.matchLabels[k])
    && exists n :: && 0 <= n < |sel.matchExpressions| && UnknownOperator(sel.matchExpressions[n])
                   && forall j :: 0 <= j < n ==> MatchExpression(sel.matchExpressions[j], labels) == Ok(true)
  }

  lemma SelectorErrIff(sel: LabelSelector, labels: Labels)
    ensures SelectorMatches(sel, labels).Err? <==> Stumbles(sel, labels)
  {
    var es := sel.matchExpressions;
    var n := FirstUnmet(es, labels);
    if n < |es| && MatchExpression(es[n], labels).Err? {
      assert UnknownOperator(es[n]);
    }
    if Stumbles(sel, labels) {
      var m :| && 0 <= m < |es| && UnknownOperator(es[m])
               && forall j :: 0 <= j < m ==> MatchExpression(es[j], labels) == Ok(true);
      assert MatchExpression(es[m], labels).Err?;
      assert n == m;
    }
  }

  /** The selectors a subject is put to, in order, with the labels each is put to. */
  function Questions(p: AdmissionProgram, s: Subject): seq<(LabelSelector, Labels)> {
    var cluster, workload := (p.selector.cluster, OrNone(s.clusterLabels)), (p.selector.workload, s.workloadLabels);
    if s.kind == "ClusterRole" || s.kind == "ClusterRoleBinding" then [cluster, workload]
    else [cluster, (p.selector.namespace, OrNone(s.namespaceLabels)), workload,
          (p.selector.serviceAccount, OrNone(s.serviceAccountLabels))]
  }

  function Answer(questions: seq<(LabelSelector, Labels)>): Result<bool> {
    if questions == [] then Ok(true)
    else
      var first :- SelectorMatches(questions[0].0, questions[0].1);
      if first then Answer(questions[1..]) else Ok(false)
  }

  /** Labels a selector asks for were never observed. */
  predicate Unobserved(p: AdmissionProgram, s: Subject) {
    || (p.selector.cluster.Nonempty() && s.clusterLabels.None?)
    || (&& s.kind != "ClusterRole" && s.kind != "ClusterRoleBinding"
        && (|| (p.selector.namespace.Nonempty() && s.namespaceLabels.None?)
            || (p.selector.serviceAccount.Nonempty() && s.serviceAccountLabels.None?)))
  }

  predicate OutsideNamespace(s: Subject) {
    s.policyNamespace != "" && s.namespace != s.policyNamespace
  }

  lemma AppliesIsAnswer(p: AdmissionProgram, s: Subject)
    ensures ProgramApplies(p, s) ==
            if OutsideNamespace(s) then Ok(false) else if Unobserved(p, s) then Err(Integrity) else Answer(Questions(p, s))
  {
    var q := Questions(p, s);
    if ClusterScoped(s.kind) {
      assert q[1..] == [q[1]] && q[1..][1..] == [];
      assert Answer(q[1..]) == SelectorMatches(q[1].0, q[1].1);
    } else {
      assert q[1..][1..] == q[2..] && q[2..][1..] == q[3..] && q[3..][1..] == [];
      assert Answer(q[3..]) == SelectorMatches(q[3].0, q[3].1);
      assert Answer(q[2..]) == match SelectorMatches(q[2].0, q[2].1)
                               case Err(e) => Err(e)
                               case Ok(m) => if m then Answer(q[3..]) else Ok(false);
    }
  }

  /** Some selector stumbles, and every one before it matches. */
  predicate SomeStumble(questions: seq<(LabelSelector, Labels)>) {
    exists k :: && 0 <= k < |questions| && Stumbles(questions[k].0, questions[k].1)
                && forall j :: 0 <= j < k ==> SelectorMatches(questions[j].0, questions[j].1) == Ok(true)
  }

  lemma {:induction false} AnswerErrIff(questions: seq<(LabelSelector, Labels)>)
    ensures Answer(questions).Err? <==> SomeStumble(questions)
  {
    if questions != [] {
      var q, rest := questions[0], questions[1..];
      SelectorErrIff(q.0, q.1);
      AnswerErrIff(rest);
      if SelectorMatches(q.0, q.1) == Ok(true) {
        if SomeStumble(rest) {
          var k :| && 0 <= k < |rest| && Stumbles(rest[k].0, rest[k].1)
                   && forall j :: 0 <= j < k ==> SelectorMatches(rest[j].0, rest[j].1) == Ok(true);
          assert questions[k + 1] == rest[k];
        }
        if SomeStumble(questions) {
          var k :| && 0 <= k < |questions| && Stumbles(questions[k].0, questions[k].1)
                   && forall j :: 0 <= j < k ==> SelectorMatches(questions[j].0, questions[j].1) == Ok(true);
          assert rest[k - 1] == questions[k];
          assert forall j :: 0 <= j < k - 1 ==> rest[j] == questions[j + 1];
        }
      }
    }
  }

  /** A decision that could not be made is never an admission, and there is none exactly for a
      disabled enforcing policy, for labels never observed, and for an unknown operator that is
      reached: everything asked before it matches. */
  lemma FailClosedDenies(p: AdmissionProgram, s: Subject, exceptions: seq<Exception>, now: int)
    ensures Admit(p, s, exceptions, now).failClosed ==> !Admit(p, s, exceptions, now).allowed
    ensures Admit(p, s, exceptions, now).failClosed <==>
            || (p.disabled && p.mode == Enforce)
            || (!OutsideNamespace(s) && (Unobserved(p, s) || SomeStumble(Questions(p, s))))
    ensures Admit(p, s, exceptions, now).failClosed || s.policyNamespace != "" ==> Admit(p, s, exceptions, now).failurePolicy == Fail
    ensures !Admit(p, s, exceptions, now).failClosed && (p.disabled || ProgramApplies(p, s) == Ok(false)) ==>
              var d := Admit(p, s, exceptions, now); d.allowed && d.patches == [] && d.ruleIds == []
  {
    AppliesIsAnswer(p, s);
    AnswerErrIff(Questions(p, s));
  }

  // ---- Stricter profiles -----------------------------------------------------------

  function Strictness(pss: PssProfile): nat {
    match pss
    case Privileged => 0
    case Custom => 0
    case Baseline => 1
    case Restricted => 2
  }

  function WithProfile(p: AdmissionProgram, pss: PssProfile): AdmissionProgram {
    p.(admit := p.admit.(pss := pss))
  }

  lemma StricterBreaksMore(p: AdmissionProgram, s: Subject, strict: PssProfile, rule: Rule)
    requires Strictness(p.admit.pss) <= Strictness(strict) && Broken(p, s, rule)
    ensures Broken(WithProfile(p, strict), s, rule)
  {
    if rule == AddedCapabilities {
      var i :| 0 <= i < |s.addedCapabilities| && Denied(p, s.addedCapabilities[i]);
      assert RESTRICTED_CAP == BASELINE_CAPS[7];
      assert Denied(WithProfile(p, strict), s.addedCapabilities[i]);
    }
  }

  lemma AppliesBySelector(p: AdmissionProgram, q: AdmissionProgram, s: Subject)
    requires p.selector == q.selector
    ensures ProgramApplies(p, s) == ProgramApplies(q, s)
  {
  }

  lemma StricterJudgesMore(p: AdmissionProgram, s: Subject, strict: PssProfile, exceptions: seq<Exception>, now: int)
    requires Strictness(p.admit.pss) <= Strictness(strict)
    requires Judge(WithProfile(p, strict), s, exceptions, now).allowed
    ensures Judge(p, s, exceptions, now).allowed
  {
    var q := WithProfile(p, strict);
    JudgeMeaning(p, s, exceptions, now);
    JudgeMeaning(q, s, exceptions, now);
    forall rule | Broken(p, s, rule) ensures Broken(q, s, rule) {
      StricterBreaksMore(p, s, strict, rule);
    }
  }

  /** Whatever a stricter pod security profile admits, a looser one admits. */
  lemma StricterAdmitsLess(p: AdmissionProgram, s: Subject, strict: PssProfile, exceptions: seq<Exception>, now: int)
    requires Strictness(p.admit.pss) <= Strictness(strict)
    requires Admit(WithProfile(p, strict), s, exceptions, now).allowed
    ensures Admit(p, s, exceptions, now).allowed
  {
    var q := WithProfile(p, strict);
    AppliesBySelector(p, q, s);
    if ProgramApplies(p, s) == Ok(true) && !p.disabled {
      StricterJudgesMore(p, s, strict, exceptions, now);
    }
  }
}
