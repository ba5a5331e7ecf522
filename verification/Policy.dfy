/** The policy documents every plane shares, and how exceptions waive rule hits. */
module Policy {
  import opened Wrappers
  import opened Text

  type Labels = map<string, string>

  datatype PolicyMode = Observe | Audit | Enforce
  datatype FailurePolicy = Fail | Ignore
  datatype PssProfile = Privileged | Baseline | Restricted | Custom
  datatype Action = Allow | AuditAction | Deny | Kill | Isolate

  datatype Requirement = Requirement(key: string, operator: string, values: seq<string>)

  datatype LabelSelector = LabelSelector(matchLabels: Labels, matchExpressions: seq<Requirement>) {
    predicate Nonempty() {
      matchLabels != map[] || matchExpressions != []
    }
  }

  datatype ImageSelector = ImageSelector(registriesAllow: seq<string>, requireDigest: bool)

  datatype PolicySelector = PolicySelector(
    cluster: LabelSelector, namespace: LabelSelector, workload: LabelSelector,
    serviceAccount: LabelSelector, image: ImageSelector)

  datatype TrustRoot = TrustRoot(
    name: string, keylessIssuerAllow: seq<string>, publicKeys: seq<string>)

  datatype SupplySpec = SupplySpec(
    requireSigned: bool, denyUnsigned: bool, denyLatestTag: bool, trustRoots: seq<TrustRoot>)

  datatype AdmitDeny = AdmitDeny(
    privileged: bool, hostPid: bool, hostIpc: bool, hostNetwork: bool, hostPath: bool,
    allowPrivilegeEscalation: bool, runAsRoot: bool, wildcardsRbac: bool, clusterAdminBind: bool,
    addedCapabilities: seq<string>)

  datatype AdmitMutate = AdmitMutate(
    injectSeccompRuntimeDefault: bool, dropAllCapabilities: bool, readOnlyRootFilesystem: bool)

  datatype AdmitSpec = AdmitSpec(
    failurePolicy: FailurePolicy, pss: PssProfile, deny: AdmitDeny, mutate: AdmitMutate)

  datatype AdmissionProgram = AdmissionProgram(
    mode: PolicyMode, disabled: bool, priority: int, supply: SupplySpec, admit: AdmitSpec,
    selector: PolicySelector)

  // ---- Exceptions ------------------------------------------------------------------

  /** Time is counted in nanoseconds. */
  const SECOND: int := 1_000_000_000
  const DAY: int := 86_400 * SECOND
  const MAX_EXCEPTION_DAYS: int := 90
  const MIN_REASON_LEN: nat := 8

  datatype Exception = Exception(
    ticket: string, requestedBy: string, approvedBy: string, reason: string, expiresAt: int,
    namespace: string, policies: seq<string>, rules: seq<string>)

  predicate NamespaceMatches(exceptionNs: string, hitNs: string) {
    Trim(exceptionNs) == Trim(hitNs)
  }

  predicate PaperworkComplete(spec: Exception) {
    && Trim(spec.ticket) != ""
    && |Encode(Trim(spec.reason))| >= MIN_REASON_LEN
    && Trim(spec.approvedBy) != ""
    && Trim(spec.approvedBy) != Trim(spec.requestedBy)
  }

  predicate ExceptionApplies(spec: Exception, namespace: string, policy: string, rule: string, now: int) {
    && PaperworkComplete(spec)
    && now < spec.expiresAt <= now + MAX_EXCEPTION_DAYS * DAY
    && NamespaceMatches(spec.namespace, namespace)
    && policy in spec.policies
    && rule in spec.rules
  }

  datatype RuleHit = RuleHit(namespace: string, policy: string, rule: string, action: Action)

  predicate Waived(exceptions: seq<Exception>, hit: RuleHit, now: int) {
    exists i :: 0 <= i < |exceptions| && ExceptionApplies(exceptions[i], hit.namespace, hit.policy, hit.rule, now)
  }

  /** What it takes to waive a hit: a ticket, a reason of eight bytes, an approval by someone other
      than whoever asked, an end that is ahead but not more than 90 days, and the hit's own
      namespace, policy and rule. */
  ghost predicate Excuses(x: Exception, hit: RuleHit, now: int) {
    && Trim(x.ticket) != "" && |Encode(Trim(x.reason))| >= 8
    && Trim(x.approvedBy) != "" && Trim(x.approvedBy) != Trim(x.requestedBy)
    && 0 < x.expiresAt - now <= 90 * 86_400 * 1_000_000_000
    && Trim(x.namespace) == Trim(hit.namespace)
    && (exists i :: 0 <= i < |x.policies| && x.policies[i] == hit.policy)
    && (exists i :: 0 <= i < |x.rules| && x.rules[i] == hit.rule)
  }

  /** A hit is waived exactly when some exception excuses it. */
  lemma WaivedIff(exceptions: seq<Exception>, hit: RuleHit, now: int)
    ensures Waived(exceptions, hit, now) <==> exists i :: 0 <= i < |exceptions| && Excuses(exceptions[i], hit, now)
  {
    forall i | 0 <= i < |exceptions|
      ensures ExceptionApplies(exceptions[i], hit.namespace, hit.policy, hit.rule, now) <==> Excuses(exceptions[i], hit, now)
    {
      AppliesIff(exceptions[i], hit, now);
    }
  }

  lemma AppliesIff(x: Exception, hit: RuleHit, now: int)
    ensures ExceptionApplies(x, hit.namespace, hit.policy, hit.rule, now) <==> Excuses(x, hit, now)
  {
  }

  function Rank(a: Action): nat {
    match a
    case Allow => 0
    case AuditAction => 1
    case Deny => 2
    case Isolate => 3
    case Kill => 4
  }

  /** Kill is stronger than isolate, isolate than deny, deny than audit, audit than allow. */
  predicate Stronger(a: Action, b: Action) {
    match b
    case Allow => a != Allow
    case AuditAction => a == Deny || a == Isolate || a == Kill
    case Deny => a == Isolate || a == Kill
    case Isolate => a == Kill
    case Kill => false
  }

  lemma RankIsStrength(a: Action, b: Action)
    ensures Rank(a) > Rank(b) <==> Stronger(a, b)
  {
  }

  /** The strongest action among the hits no exception waives. */
  function Strongest(hits: seq<RuleHit>, exceptions: seq<Exception>, now: int): Option<Action> {
    if hits == [] then None
    else
      var rest := Strongest(hits[1..], exceptions, now);
      if Waived(exceptions, hits[0], now) then rest
      else if rest.Some? && Rank(rest.value) >= Rank(hits[0].action) then rest
      else Some(hits[0].action)
  }

  function Evaluate(hits: seq<RuleHit>, default: Action, exceptions: seq<Exception>, now: int): Action {
    match Strongest(hits, exceptions, now)
    case Some(a) => a
    case None => default
  }

  predicate Blocks(a: Action) {
    a == Deny || a == Kill || a == Isolate
  }

  /** Deny beats allow: the combination blocks exactly when some blocking hit is not waived. */
  lemma {:induction false} EvaluateBlocksIff(hits: seq<RuleHit>, exceptions: seq<Exception>, now: int)
    ensures Blocks(Evaluate(hits, Allow, exceptions, now)) <==>
            exists i :: 0 <= i < |hits| && Blocks(hits[i].action) && !Waived(exceptions, hits[i], now)
  {
    if hits != [] {
      EvaluateBlocksIff(hits[1..], exceptions, now);
      assert forall i :: 0 < i < |hits| ==> hits[i] == hits[1..][i - 1];
      assert forall i :: 0 <= i < |hits| - 1 ==> hits[1..][i] == hits[i + 1];
    }
  }
}
