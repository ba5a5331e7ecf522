/**
 From one syscall record to one exported enforcement event: the decision, the waiver, the
 guards in front of a signal, and the counters that account for every reaction.
 */
module React {
  import opened Wrappers
  import opened Policy

  const MAX_TGID: nat := 0x40_0000

  // ---- The decision ----------------------------------------------------------------

  datatype Rule = Rule(id: string, action: Action)

  /** How one rule's predicates answered for a record. */
  datatype RuleMatch = No | SkippedContainer | Yes(pathUnknown: bool)

  datatype SelectorMatch = Match | NoMatch | LabelsUnknown

  datatype Spec = Spec(mode: PolicyMode, disabled: bool, rules: seq<Rule>, defaultAction: Action)

  datatype Decision = Decision(
    action: Action, ruleId: Option<string>, labelsUnknown: bool, pathUnknown: bool, containerUnknown: bool)

  predicate Taken(spec: Spec, outcomes: seq<RuleMatch>, d: Decision, i: nat)
    requires |outcomes| == |spec.rules| && i < |outcomes|
  {
    outcomes[i].Yes? && d.action == spec.rules[i].action && d.ruleId == Some(spec.rules[i].id)
    && d.pathUnknown == outcomes[i].pathUnknown
  }

  /** No matching rule is stronger than rule `i`, and none before it is as strong. */
  predicate Strongest(spec: Spec, outcomes: seq<RuleMatch>, upTo: nat, i: nat)
    requires |outcomes| == |spec.rules| && i < |outcomes| && upTo <= |outcomes|
  {
    forall j :: 0 <= j < upTo && outcomes[j].Yes? ==>
      && !Stronger(spec.rules[j].action, spec.rules[i].action)
      && (j < i ==> Stronger(spec.rules[i].action, spec.rules[j].action))
  }

  /** The first of the strongest matching rules decides, else the default does; a rule skipped
      only because nobody could show a container is reported when it would have decided. */
  ghost predicate IsMatched(spec: Spec, outcomes: seq<RuleMatch>, unproven: bool, d: Decision)
    requires |outcomes| == |spec.rules|
  {
    && !d.labelsUnknown
    && (if exists i :: 0 <= i < |outcomes| && outcomes[i].Yes?
        then exists i :: 0 <= i < |outcomes| && Taken(spec, outcomes, d, i) && Strongest(spec, outcomes, |outcomes|, i)
        else d.action == spec.defaultAction && d.ruleId.None? && !d.pathUnknown)
    && (d.containerUnknown <==>
        unproven && exists i :: 0 <= i < |outcomes| && outcomes[i] == SkippedContainer && Stronger(spec.rules[i].action, d.action))
  }

  /** `matched_action_with`. */
  method MatchedAction(spec: Spec, outcomes: seq<RuleMatch>, unproven: bool) returns (d: Decision)
    requires |outcomes| == |spec.rules|
    ensures IsMatched(spec, outcomes, unproven, d)
  {
    forall a, b ensures Rank(a) > Rank(b) <==> Stronger(a, b) {
      RankIsStrength(a, b);
    }
    var best: Option<nat> := None;
    var skipped: Option<nat> := None;
    var i := 0;
    while i < |outcomes|
      invariant 0 <= i <= |outcomes|
      invariant best.None? ==> forall j :: 0 <= j < i ==> !outcomes[j].Yes?
      invariant best.Some? ==> best.value < i && outcomes[best.value].Yes? && Strongest(spec, outcomes, i, best.value)
      invariant skipped.Some? ==>
                  unproven && exists j :: 0 <= j < i && outcomes[j] == SkippedContainer && Rank(spec.rules[j].action) == skipped.value
      invariant forall j :: 0 <= j < i && outcomes[j] == SkippedContainer && unproven ==>
                  skipped.Some? && Rank(spec.rules[j].action) <= skipped.value
    {
      var rank := Rank(spec.rules[i].action);
      match outcomes[i] {
        case No =>
        case SkippedContainer =>
          if unproven {
            skipped := Some(if skipped.Some? && skipped.value > rank then skipped.value else rank);
          }
        case Yes(_) =>
          if best.None? || rank > Rank(spec.rules[best.value].action) {
            best := Some(i);
          }
      }
      i := i + 1;
    }
    var taken := if best.Some? then Rank(spec.rules[best.value].action) else Rank(spec.defaultAction);
    var unknown := skipped.Some? && skipped.value > taken;
    if best.Some? {
      d := Decision(spec.rules[best.value].action, Some(spec.rules[best.value].id), false, outcomes[best.value].pathUnknown, unknown);
      assert Taken(spec, outcomes, d, best.value);
    } else {
      d := Decision(spec.defaultAction, None, false, false, unknown);
    }
  }

  function CapForMode(mode: PolicyMode, disabled: bool, a: Action): Action {
    if (disabled || mode == Observe || mode == Audit) && a != Allow && a != AuditAction then AuditAction else a
  }

  /** What one record meets: the policy loaded, and how its selector and rules answered. */
  datatype Answers = Answers(bundle: Option<Spec>, selector: SelectorMatch, outcomes: seq<RuleMatch>) {
    predicate Fit() {
      bundle.Some? ==> |outcomes| == |bundle.value.rules|
    }
  }

  /** The action a policy takes on a match: the matched one where the policy is enabled and
      enforcing, and otherwise never more than an audit. */
  predicate TakenUnder(spec: Spec, matched: Action, action: Action) {
    if spec.mode == Enforce && !spec.disabled then action == matched
    else action == if matched == Allow then Allow else AuditAction
  }

  /** What the loaded policy decides about a record. Without a policy the answer is deny. */
  ghost predicate IsDecided(a: Answers, unproven: bool, d: Decision)
    requires a.Fit()
  {
    match a.bundle
    case None => d == Decision(Deny, None, false, false, false)
    case Some(spec) =>
      if a.selector == NoMatch then d == Decision(Allow, None, false, false, false)
      else exists m :: && IsMatched(spec, a.outcomes, unproven, m) && TakenUnder(spec, m.action, d.action)
                       && d == m.(action := d.action, labelsUnknown := a.selector == LabelsUnknown)
  }

  method Decide(a: Answers, unproven: bool) returns (d: Decision)
    requires a.Fit()
    ensures IsDecided(a, unproven, d)
    ensures d.containerUnknown ==> unproven
    ensures a.bundle.Some? && (a.bundle.value.disabled || a.bundle.value.mode != Enforce) ==> d.action == Allow || d.action == AuditAction
  {
    match a.bundle {
      case None => d := Decision(Deny, None, false, false, false);
      case Some(spec) =>
        if a.selector == NoMatch {
          d := Decision(Allow, None, false, false, false);
        } else {
          d := MatchedAction(spec, a.outcomes, unproven);
          d := d.(action := CapForMode(spec.mode, spec.disabled, d.action), labelsUnknown := a.selector == LabelsUnknown);
        }
    }
  }

  predicate Enforcing(a: Action) {
    a == Kill || a == Isolate || a == Deny
  }

  // ---- The guards ------------------------------------------------------------------

  datatype Role = ObserveOnly | Respond

  datatype Refusal =
    | RoleDisabled | AgentSelf | NotContainer | UnknownIdentity | ScopeUnproven
    | TgidZero | TgidInit | TgidRange | TgidSelf
    | IsolateNotImplemented | DenyNotEnforceable | TargetUnprovable | StaleTarget | TargetGone
    | NoResponder | KillFailed

  function RefuseReason(respond: bool, tgid: nat, own: nat, agentSelf: bool, inContainer: bool,
                        identityUnknown: bool, scopeUnproven: bool): Option<Refusal>
  {
    if !respond then Some(RoleDisabled)
    else if agentSelf then Some(AgentSelf)
    else if !inContainer then Some(NotContainer)
    else if identityUnknown then Some(UnknownIdentity)
    else if scopeUnproven then Some(ScopeUnproven)
    else if tgid == 0 then Some(TgidZero)
    else if tgid == 1 then Some(TgidInit)
    else if tgid >= MAX_TGID then Some(TgidRange)
    else if tgid == own then Some(TgidSelf)
    else None
  }

  function ApplyRole(role: Role, a: Action): Action {
    if role == ObserveOnly && (a == Kill || a == Isolate) then AuditAction else a
  }

  /** What a role lets be said of an action: without the respond role no kill and no isolation. */
  ghost function Shown(role: Role, a: Action): Action {
    match a
    case Kill => if role == Respond then Kill else AuditAction
    case Isolate => if role == Respond then Isolate else AuditAction
    case _ => a
  }

  /** A policy is loaded that is disabled or only observes or audits. */
  predicate UnderNoEnforcement(a: Answers) {
    a.bundle.Some? && (a.bundle.value.disabled || a.bundle.value.mode == Observe || a.bundle.value.mode == Audit)
  }

  // ---- The agent -------------------------------------------------------------------

  datatype Identity = Identity(pod: string, namespace: string) {
    predicate Unknown() {
      pod == ""
    }
  }

  const UNKNOWN_IDENTITY := Identity("", "")

  /** The datapath's part of a record, and the string view's two flags. */
  datatype Meta = Meta(cgroup: nat, tgid: nat, inContainer: bool, agentSelf: bool, viewInContainer: bool, viewAgentSelf: bool)

  /** What the rest of the node answers about one target, if asked: whether the check can be
      computed, the target's cgroup now, and what the responder does. */
  datatype Target = Target(unprovable: bool, cgroup: Option<nat>, responder: Option<bool>)

  datatype Event = Event(
    meta: Meta, lookup: Option<Identity>, unproven: bool, answers: Answers, target: Target, now: int)

  /** What an exported record says was done: a waived decision says so, and not the audit it became. */
  datatype Exported = Waived | Acted(action: Action)

  datatype Record = Record(
    action: Exported, identity: Identity, ruleId: Option<string>, executed: bool, respondError: Option<Refusal>,
    labelsUnknown: bool, pathUnknown: bool, containerUnknown: bool, waiver: Option<Exception>)

  function IdentityOf(e: Event): Identity {
    match e.lookup case Some(i) => i case None => UNKNOWN_IDENTITY
  }

  /** Whether a skipped container rule is worth reporting: the index knows the cgroup as a
      pod's, or nothing yet shows that it is not one. */
  predicate ContainerUnproven(e: Event) {
    !e.meta.inContainer && (e.lookup.Some? || e.unproven)
  }

  /** What stands in the way of an enforcing action, the first thing first: nothing enforces a
      deny, then the guards, then that isolating is not implemented, then the target. */
  function Obstacle(role: Role, own: nat, action: Action, labelsUnknown: bool, e: Event): Option<Refusal> {
    var tgid := e.meta.tgid;
    if action == Deny then Some(DenyNotEnforceable)
    else if role == ObserveOnly then Some(RoleDisabled)
    else if e.meta.agentSelf || e.meta.viewAgentSelf then Some(AgentSelf)
    else if !e.meta.inContainer || !e.meta.viewInContainer then Some(NotContainer)
    else if e.lookup.None? || e.lookup.value.pod == "" then Some(UnknownIdentity)
    else if labelsUnknown then Some(ScopeUnproven)
    else if tgid == 0 then Some(TgidZero)
    else if tgid == 1 then Some(TgidInit)
    else if tgid >= 4_194_304 then Some(TgidRange)
    else if tgid == own then Some(TgidSelf)
    else if action == Isolate then Some(IsolateNotImplemented)
    else if e.target.unprovable then Some(TargetUnprovable)
    else if e.target.cgroup.None? then Some(TargetGone)
    else if e.target.cgroup.value != e.meta.cgroup then Some(StaleTarget)
    else if e.target.responder.None? then Some(NoResponder)
    else if !e.target.responder.value then Some(KillFailed)
    else None
  }

  /** Everything that has to hold for a process to be signalled. */
  predicate MayKill(role: Role, own: nat, action: Action, labelsUnknown: bool, e: Event) {
    && action == Kill && role == Respond
    && e.meta.inContainer && e.meta.viewInContainer && !e.meta.agentSelf && !e.meta.viewAgentSelf
    && e.lookup.Some? && e.lookup.value.pod != "" && !labelsUnknown
    && 1 < e.meta.tgid < 4_194_304 && e.meta.tgid != own
    && !e.target.unprovable && e.target.cgroup == Some(e.meta.cgroup)
    && e.target.responder == Some(true)
  }

  function CountEnforcing(actions: seq<Action>): nat {
    if actions == [] then 0
    else CountEnforcing(actions[..|actions| - 1]) + if Enforcing(actions[|actions| - 1]) then 1 else 0
  }

  function CountExecuted(records: seq<Record>): nat {
    if records == [] then 0
    else CountExecuted(records[..|records| - 1]) + if records[|records| - 1].executed then 1 else 0
  }

  lemma OneMoreDecided(actions: seq<Action>, a: Action)
    ensures CountEnforcing(actions + [a]) == CountEnforcing(actions) + if Enforcing(a) then 1 else 0
  {
    assert (actions + [a])[..|actions|] == actions;
  }

  lemma OneMoreExported(records: seq<Record>, r: Record)
    ensures CountExecuted(records + [r]) == CountExecuted(records) + if r.executed then 1 else 0
  {
    assert (records + [r])[..|records|] == records;
  }

  /** Every enforcing decision is accounted for by one reaction; every kill is on a record; no
      target is checked without a reaction; and no record says both that it was executed and why not. */
  ghost predicate Accounted(reactions: nat, kills: nat, checks: nat, decided: seq<Action>, exported: seq<Record>) {
    && reactions == CountEnforcing(decided)
    && kills == CountExecuted(exported)
    && checks <= reactions
    && forall i :: 0 <= i < |exported| ==> !(exported[i].executed && exported[i].respondError.Some?)
  }

  /** One more record, with the reaction it called for. */
  lemma AccountedNext(reactions: nat, kills: nat, checks: nat, decided: seq<Action>, exported: seq<Record>,
                      moreChecks: nat, action: Action, record: Record)
    requires Accounted(reactions, kills, checks, decided, exported)
    requires moreChecks <= (if Enforcing(action) then 1 else 0) && !(record.executed && record.respondError.Some?)
    ensures Accounted(reactions + (if Enforcing(action) then 1 else 0), kills + (if record.executed then 1 else 0),
                      checks + moreChecks, decided + [action], exported + [record])
  {
    OneMoreDecided(decided, action);
    OneMoreExported(exported, record);
  }

  class Agent {
    const role: Role
    const ownTgid: nat
    const policyName: string
    const exceptions: seq<Exception>
    var respondKill: nat
    var respondRefused: nat
    var respondRoleSkipped: nat
    var respondFailed: nat
    var targetUnprovable: nat
    var targetConfirmed: nat
    var staleTarget: nat
    var containerUnprovenTotal: nat
    var exported: seq<Record>
    /** The action of every record after waivers and before the role. */
    ghost var decided: seq<Action>

    constructor (role: Role, ownTgid: nat, policyName: string, exceptions: seq<Exception>)
      ensures Valid() && exported == [] && decided == []
      ensures this.role == role && this.ownTgid == ownTgid && this.policyName == policyName && this.exceptions == exceptions
    {
      this.role, this.ownTgid, this.policyName, this.exceptions := role, ownTgid, policyName, exceptions;
      respondKill, respondRefused, respondRoleSkipped, respondFailed := 0, 0, 0, 0;
      targetUnprovable, targetConfirmed, staleTarget, containerUnprovenTotal := 0, 0, 0, 0;
      exported, decided := [], [];
    }

    function Reactions(): nat
      reads this
    {
      respondKill + respondRefused + respondRoleSkipped + respondFailed
    }

    /** How many targets were looked up before a signal. */
    function Checks(): nat
      reads this
    {
      targetConfirmed + staleTarget + targetUnprovable
    }

    ghost predicate Valid()
      reads this
    {
      Accounted(Reactions(), respondKill, Checks(), decided, exported)
    }

    /** Signal the target, once it is shown to be where the record says it was. */
    method Signal(e: Event) returns (executed: bool, error: Option<Refusal>)
      modifies this`respondKill, this`respondRefused, this`respondFailed,
               this`targetUnprovable, this`targetConfirmed, this`staleTarget
      ensures Reactions() == old(Reactions()) + 1
      ensures executed <==> !e.target.unprovable && e.target.cgroup == Some(e.meta.cgroup) && e.target.responder == Some(true)
      ensures error.Some? <==> !executed
      ensures error == if e.target.unprovable then Some(TargetUnprovable)
                       else if e.target.cgroup.None? then Some(TargetGone)
                       else if e.target.cgroup.value != e.meta.cgroup then Some(StaleTarget)
                       else if e.target.responder.None? then Some(NoResponder)
                       else if !e.target.responder.value then Some(KillFailed) else None
      ensures respondRefused == old(respondRefused) + if error.Some? && error.value != KillFailed then 1 else 0
      ensures respondKill == old(respondKill) + if executed then 1 else 0
      ensures respondFailed == old(respondFailed) + if error == Some(KillFailed) then 1 else 0
      ensures targetUnprovable == old(targetUnprovable) + if error == Some(TargetUnprovable) then 1 else 0
      ensures staleTarget == old(staleTarget) + if error == Some(StaleTarget) || error == Some(TargetGone) then 1 else 0
      ensures Checks() == old(Checks()) + 1
    {
      if e.target.unprovable {
        targetUnprovable := targetUnprovable + 1;
        respondRefused := respondRefused + 1;
        return false, Some(TargetUnprovable);
      }
      match e.target.cgroup {
        case Some(current) =>
          if current == e.meta.cgroup {
            targetConfirmed := targetConfirmed + 1;
          } else {
            staleTarget := staleTarget + 1;
            respondRefused := respondRefused + 1;
            return false, Some(StaleTarget);
          }
        case None =>
          staleTarget := staleTarget + 1;
          respondRefused := respondRefused + 1;
          return false, Some(TargetGone);
      }
      match e.target.responder {
        case None =>
          respondRefused := respondRefused + 1;
          return false, Some(NoResponder);
        case Some(ok) =>
          if ok {
            respondKill := respondKill + 1;
            return true, None;
          } else {
            respondFailed := respondFailed + 1;
            return false, Some(KillFailed);
          }
      }
    }

    /** The first guard that refuses a signal, by the flags no caller can rebuild. */
    function Guard(d: Decision, e: Event): Option<Refusal> {
      RefuseReason(role == Respond, e.meta.tgid, ownTgid, e.meta.agentSelf || e.meta.viewAgentSelf,
                   e.meta.inContainer && e.meta.viewInContainer, IdentityOf(e).Unknown(), d.labelsUnknown)
    }

    /** `react`. Exactly one of the four counters moves, for an enforcing action and for no
        other; the answer is a kill only if everything in `MayKill` holds. */
    method React(d: Decision, e: Event) returns (executed: bool, error: Option<Refusal>)
      modifies this`respondKill, this`respondRefused, this`respondRoleSkipped, this`respondFailed,
               this`targetUnprovable, this`targetConfirmed, this`staleTarget
      ensures Reactions() == old(Reactions()) + if Enforcing(d.action) then 1 else 0
      ensures executed <==> MayKill(role, ownTgid, d.action, d.labelsUnknown, e)
      ensures error.Some? <==> Enforcing(d.action) && !executed
      ensures respondKill == old(respondKill) + if executed then 1 else 0
      ensures respondFailed == old(respondFailed) + if error == Some(KillFailed) then 1 else 0
      ensures respondRoleSkipped == old(respondRoleSkipped) + if error == Some(RoleDisabled) then 1 else 0
      ensures old(Checks()) <= Checks() <= old(Checks()) + Reactions() - old(Reactions())
      ensures targetUnprovable == old(targetUnprovable) + if error == Some(TargetUnprovable) then 1 else 0
      ensures staleTarget == old(staleTarget) + if error == Some(StaleTarget) || error == Some(TargetGone) then 1 else 0
      ensures error == if Enforcing(d.action) then Obstacle(role, ownTgid, d.action, d.labelsUnknown, e) else None
    {
      match d.action {
        case Kill =>
        case Isolate =>
        case Deny =>
          respondRefused := respondRefused + 1;
          return false, Some(DenyNotEnforceable);
        case Allow => return false, None;
        case AuditAction => return false, None;
      }
      var reason := Guard(d, e);
      if reason.Some? {
        if reason.value == RoleDisabled {
          respondRoleSkipped := respondRoleSkipped + 1;
        } else {
          respondRefused := respondRefused + 1;
        }
        return false, reason;
      }
      if d.action == Isolate {
        respondRefused := respondRefused + 1;
        return false, Some(IsolateNotImplemented);
      }
      executed, error := Signal(e);
    }

    predicate Waivable(d: Decision) {
      policyName != "" && Enforcing(d.action) && d.ruleId.Some?
    }

    predicate Covered(i: nat, d: Decision, namespace: string, now: int)
      requires i < |exceptions| && d.ruleId.Some?
    {
      ExceptionApplies(exceptions[i], namespace, policyName, d.ruleId.value, now)
    }

    /** The rule hit a decision of a named rule amounts to. */
    ghost function HitBy(d: Decision, namespace: string): RuleHit
      requires d.ruleId.Some?
    {
      RuleHit(namespace, policyName, d.ruleId.value, d.action)
    }

    /** The first exception that covers an enforcing decision of a named rule. */
    ghost predicate IsWaiver(d: Decision, namespace: string, now: int, waiver: Option<Exception>) {
      match waiver
      case None => Waivable(d) ==> forall i :: 0 <= i < |exceptions| ==> !Excuses(exceptions[i], HitBy(d, namespace), now)
      case Some(spec) =>
        && Waivable(d)
        && exists i :: 0 <= i < |exceptions| && spec == exceptions[i] && Excuses(exceptions[i], HitBy(d, namespace), now)
                       && forall j :: 0 <= j < i ==> !Excuses(exceptions[j], HitBy(d, namespace), now)
    }

    /** `waiver_applies`. */
    method WaiverApplies(d: Decision, id: Identity, now: int) returns (waiver: Option<Exception>)
      ensures IsWaiver(d, id.namespace, now, waiver)
      ensures waiver.Some? ==> ExceptionLive(waiver.value, now)
    {
      if policyName == "" || !Enforcing(d.action) || d.ruleId.None? {
        return None;
      }
      var i := 0;
      while i < |exceptions|
        invariant 0 <= i <= |exceptions|
        invariant forall j :: 0 <= j < i ==> !Excuses(exceptions[j], HitBy(d, id.namespace), now)
      {
        AppliesIff(exceptions[i], HitBy(d, id.namespace), now);
        if Covered(i, d, id.namespace, now) {
          return Some(exceptions[i]);
        }
        i := i + 1;
      }
      return None;
    }

    /** The policy's decision, demoted to audit when an exception waives it. */
    ghost predicate IsJudged(e: Event, d: Decision, waiver: Option<Exception>)
      requires e.answers.Fit()
    {
      exists m :: && IsDecided(e.answers, !e.meta.inContainer && (e.lookup.Some? || e.unproven), m)
                  && IsWaiver(m, if e.lookup.Some? then e.lookup.value.namespace else "", e.now, waiver)
                  && d == if waiver.Some? then m.(action := AuditAction) else m
    }

    method Judge(e: Event) returns (d: Decision, waiver: Option<Exception>)
      requires e.answers.Fit()
      ensures IsJudged(e, d, waiver)
      ensures d.containerUnknown ==> ContainerUnproven(e)
      ensures waiver.Some? ==> d.action == AuditAction && ExceptionLive(waiver.value, e.now)
      ensures UnderNoEnforcement(e.answers) ==> !Enforcing(d.action)
    {
      d := Decide(e.answers, ContainerUnproven(e));
      waiver := WaiverApplies(d, IdentityOf(e), e.now);
      if waiver.Some? {
        d := d.(action := AuditAction);
      }
    }

    /** What a record says of the event it is about; `action` is what was decided after waivers
        and before the role. */
    ghost predicate IsRecordOf(e: Event, action: Action, record: Record)
      requires e.answers.Fit()
    {
      && IsJudged(e, Decision(action, record.ruleId, record.labelsUnknown, record.pathUnknown, record.containerUnknown), record.waiver)
      && (record.executed <==> MayKill(role, ownTgid, action, record.labelsUnknown, e))
      && (record.executed ==> record.respondError.None? && !record.containerUnknown)
      && (record.containerUnknown ==> !e.meta.inContainer && (e.lookup.Some? || e.unproven) && record.respondError.Some?)
      && (Enforcing(action) && !record.executed ==> record.respondError == Obstacle(role, ownTgid, action, record.labelsUnknown, e))
      && (!Enforcing(action) ==> record.respondError == if record.containerUnknown then Some(NotContainer) else None)
      && (UnderNoEnforcement(e.answers) ==> !record.executed && !Enforcing(action))
      && (record.waiver.Some? ==> action == AuditAction && ExceptionLive(record.waiver.value, e.now))
      && record.action == (if record.waiver.Some? then Waived else Acted(Shown(role, action)))
      && record.identity == (if e.lookup.Some? then e.lookup.value else Identity("", ""))
    }

    /** Judge, react, and write down what happened. */
    method Recorded(e: Event) returns (d: Decision, record: Record, ghost action: Action)
      requires e.answers.Fit()
      modifies this`respondKill, this`respondRefused, this`respondRoleSkipped, this`respondFailed,
               this`targetUnprovable, this`targetConfirmed, this`staleTarget, this`containerUnprovenTotal
      ensures IsRecordOf(e, action, record) && d.action == Shown(role, action)
      ensures Reactions() == old(Reactions()) + if Enforcing(action) then 1 else 0
      ensures respondKill == old(respondKill) + if record.executed then 1 else 0
      ensures old(Checks()) <= Checks() <= old(Checks()) + if Enforcing(action) then 1 else 0
      ensures containerUnprovenTotal == old(containerUnprovenTotal) + if record.containerUnknown then 1 else 0
    {
      var waiver;
      d, waiver := Judge(e);
      var executed, error := React(d, e);
      action := d.action;
      if d.containerUnknown {
        containerUnprovenTotal := containerUnprovenTotal + 1;
        if error.None? {
          error := Some(NotContainer);
        }
      }
      assert d == Decision(action, d.ruleId, d.labelsUnknown, d.pathUnknown, d.containerUnknown);
      d := d.(action := ApplyRole(role, d.action));
      var done := if waiver.Some? then Waived else Acted(d.action);
      record := Record(done, IdentityOf(e), d.ruleId, executed, error, d.labelsUnknown, d.pathUnknown, d.containerUnknown, waiver);
    }

    /** Put a record out, with the reaction it took already counted. */
    method Export(record: Record, ghost action: Action, ghost reactions: nat, ghost kills: nat, ghost checks: nat)
      requires Accounted(reactions, kills, checks, decided, exported)
      requires Reactions() == reactions + if Enforcing(action) then 1 else 0
      requires respondKill == kills + if record.executed then 1 else 0
      requires checks <= Checks() <= checks + if Enforcing(action) then 1 else 0
      requires !(record.executed && record.respondError.Some?)
      modifies this`exported, this`decided
      ensures Valid() && exported == old(exported) + [record] && decided == old(decided) + [action]
    {
      AccountedNext(reactions, kills, checks, decided, exported, Checks() - checks, action, record);
      exported, decided := exported + [record], decided + [action];
    }

    /** `handle_event_at`, with the identity and label counters left out. */
    method HandleEvent(e: Event) returns (d: Decision, record: Record, ghost action: Action)
      requires Valid() && e.answers.Fit()
      modifies this
      ensures Valid() && exported == old(exported) + [record] && decided == old(decided) + [action]
      ensures IsRecordOf(e, action, record) && d.action == Shown(role, action)
      ensures Reactions() == old(Reactions()) + if Enforcing(action) then 1 else 0
      ensures containerUnprovenTotal == old(containerUnprovenTotal) + if record.containerUnknown then 1 else 0
    {
      ghost var reactions, kills, checks := Reactions(), respondKill, Checks();
      d, record, action := Recorded(e);
      Export(record, action, reactions, kills, checks);
    }
  }

  predicate ExceptionLive(spec: Exception, now: int) {
    now < spec.expiresAt <= now + 90 * 86_400 * 1_000_000_000
  }
}
