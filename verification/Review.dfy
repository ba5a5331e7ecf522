/** The AdmissionReview webhook: one request body in, one reply out. */
module Review {
  import opened Wrappers
  import opened Json
  import opened Policy
  import opened Subject
  import opened Eval
  import Pointer
  import Patch
  import PodPatch

  /** What the label watch answers: `None` is "never observed". */
  datatype LabelSource = LabelSource(
    warm: bool, coldReason: string, clusterLabels: Option<Labels>,
    namespaceLabels: string -> Option<Labels>, serviceAccountLabels: (string, string) -> Option<Labels>)

  datatype Config = Config(policyName: string, policyNamespace: string)

  datatype Input = Empty | NotJson | Parsed(value: Json)

  datatype Grant = Grant(id: string, ticket: string, expiresAt: int)

  /** What a refusal tells whoever asked. */
  datatype Message =
    | Nothing | EmptyBody | BodyNotJson | UidRequired | RequestMissing | ProgramMissing | ObjectMissing
    | Unreadable(error: Error) | LabelsUnavailable(reason: string) | Because(text: string) | DeniedByPolicy | FailedClosed

  datatype Body =
    | Malformed(message: Message)
    | Response(uid: string, allowed: bool, patch: Option<seq<Patch.Op>>, message: Message)
    | Suspended(uid: string, grant: Grant)

  datatype Reply = Reply(status: int, body: Body, allowed: bool)

  function BadRequest(message: Message): Reply {
    Reply(400, Malformed(message), false)
  }

  function OkDeny(uid: string, message: Message): Reply {
    Reply(200, Response(uid, false, None, message), false)
  }

  // ---- From the body to the object -------------------------------------------------

  /** Either the reply is already known, or there is an object to judge. */
  datatype Opened = Answered(reply: Reply) | ToJudge(uid: string, program: AdmissionProgram, request: Fields, reviewed: Json)

  function Open(input: Input, program: Option<AdmissionProgram>, glass: Option<Grant>, now: int): Opened {
    match input
    case Empty => Answered(BadRequest(EmptyBody))
    case NotJson => Answered(BadRequest(BodyNotJson))
    case Parsed(v) =>
      var uid := StrOr(Pointer.Walk(v, ["request", "uid"]), "");
      if uid == "" then Answered(Reply(400, Response("", false, None, UidRequired), false))
      else
        var request := if v.Obj? then ObjectAt(v.fields, "request") else None;
        if request.None? then Answered(OkDeny(uid, RequestMissing))
        else if glass.Some? && now < glass.value.expiresAt then Answered(Reply(200, Suspended(uid, glass.value), true))
        else if program.None? then Answered(OkDeny(uid, ProgramMissing))
        else
          match Field(request.value, "object")
          case None => Answered(OkDeny(uid, ObjectMissing))
          case Some(Null) => Answered(OkDeny(uid, ObjectMissing))
          case Some(o) => ToJudge(uid, program.value, request.value, o)
  }

  // ---- From the object to the reply ------------------------------------------------

  predicate WatchedLabelsSelected(p: AdmissionProgram) {
    p.selector.namespace.Nonempty() || p.selector.serviceAccount.Nonempty()
  }

  const DEFAULT_SERVICE_ACCOUNT := "default"

  function Named(cfg: Config, request: Fields, s: Subject): Subject {
    var namespace := if s.namespace == "" then StrOr(Field(request, "namespace"), "") else s.namespace;
    s.(namespace := namespace, policyName := cfg.policyName, policyNamespace := cfg.policyNamespace)
  }

  function Labelled(labels: LabelSource, s: Subject): Subject {
    var account := if s.serviceAccount == "" then DEFAULT_SERVICE_ACCOUNT else s.serviceAccount;
    s.(namespaceLabels := labels.namespaceLabels(s.namespace),
       serviceAccountLabels := labels.serviceAccountLabels(s.namespace, account),
       clusterLabels := labels.clusterLabels)
  }

  function KindSet(patches: seq<PodPatch.Kind>): set<PodPatch.Kind> {
    set k | k in patches
  }

  /** The patch an allow carries: only in enforce mode, only for a Pod. */
  function PatchFor(reviewed: Json, d: Decision): Option<seq<Patch.Op>> {
    var isPod := reviewed.Obj? && AsStr(Field(reviewed.fields, "kind")) == Some("Pod");
    if d.mode == Enforce && d.patches != [] && isPod then
      var ops := PodPatch.PatchOps(KindSet(d.patches), reviewed);
      if ops == [] then None else Some(ops)
    else None
  }

  function DecisionResponse(uid: string, reviewed: Json, d: Decision): Reply {
    if d.failClosed then OkDeny(uid, if d.reasons != [] then Because(d.reasons[0]) else FailedClosed)
    else if !d.allowed then OkDeny(uid, if d.reasons == [] then DeniedByPolicy else Because(Join(d.reasons, "; ")))
    else Reply(200, Response(uid, true, PatchFor(reviewed, d), Nothing), true)
  }

  function ReplyFor(labels: LabelSource, uid: string, p: AdmissionProgram, reviewed: Json, s: Subject,
                    exceptions: seq<Exception>, now: int): Reply
  {
    if !labels.warm && !ClusterScoped(s.kind) && WatchedLabelsSelected(p) then
      OkDeny(uid, LabelsUnavailable(labels.coldReason))
    else DecisionResponse(uid, reviewed, Admit(p, Labelled(labels, s), exceptions, now))
  }

  function Handle(cfg: Config, labels: LabelSource, check: SignatureCheck, input: Input,
                  program: Option<AdmissionProgram>, exceptions: seq<Exception>, glass: Option<Grant>, now: int): Reply
  {
    match Open(input, program, glass, now)
    case Answered(reply) => reply
    case ToJudge(uid, p, request, reviewed) =>
      match SubjectFromObject(reviewed, p.supply.trustRoots, check)
      case Err(e) => OkDeny(uid, Unreadable(e))
      case Ok(s) => ReplyFor(labels, uid, p, reviewed, Named(cfg, request, s), exceptions, now)
  }

  // ---- Watched labels that nobody asks about ---------------------------------------

  /** Neither watch can matter: the policy selects on neither, or the kind has no namespace. */
  predicate WatchFree(p: AdmissionProgram, kind: string) {
    !WatchedLabelsSelected(p) || kind == "ClusterRole" || kind == "ClusterRoleBinding"
  }

  lemma EmptySelectorMatches(sel: LabelSelector, labels: Labels)
    requires !sel.Nonempty()
    ensures SelectorMatches(sel, labels) == Ok(true)
  {
  }

  predicate SameButWatched(s: Subject, t: Subject) {
    t == s.(namespaceLabels := t.namespaceLabels, serviceAccountLabels := t.serviceAccountLabels)
  }

  lemma AppliesWatchFree(p: AdmissionProgram, s: Subject, t: Subject)
    requires WatchFree(p, s.kind)
    requires SameButWatched(s, t)
    ensures ProgramApplies(p, s) == ProgramApplies(p, t)
  {
    if !WatchedLabelsSelected(p) {
      EmptySelectorMatches(p.selector.namespace, OrNone(s.namespaceLabels));
      EmptySelectorMatches(p.selector.namespace, OrNone(t.namespaceLabels));
      EmptySelectorMatches(p.selector.serviceAccount, OrNone(s.serviceAccountLabels));
      EmptySelectorMatches(p.selector.serviceAccount, OrNone(t.serviceAccountLabels));
    }
  }

  lemma ImagesIgnoreLabels(p: AdmissionProgram, s: Subject, t: Subject)
    requires SameButWatched(s, t)
    ensures SupplyHits(p, s) == SupplyHits(p, t) && ImageHits(p, s) == ImageHits(p, t)
  {
  }

  lemma HostIgnoresLabels(p: AdmissionProgram, s: Subject, t: Subject)
    requires SameButWatched(s, t)
    ensures ProcessHits(p, s) == ProcessHits(p, t) && HostHits(p, s) == HostHits(p, t)
  {
  }

  lemma UserIgnoresLabels(p: AdmissionProgram, s: Subject, t: Subject)
    requires SameButWatched(s, t)
    ensures UserHits(p, s) == UserHits(p, t) && CapabilityHits(p, s) == CapabilityHits(p, t)
  {
  }

  lemma RolesIgnoreLabels(p: AdmissionProgram, s: Subject, t: Subject)
    requires SameButWatched(s, t)
    ensures RoleHits(p, s) == RoleHits(p, t)
  {
  }

  lemma WorkloadIgnoresLabels(p: AdmissionProgram, s: Subject, t: Subject)
    requires SameButWatched(s, t)
    ensures WorkloadHits(p, s) == WorkloadHits(p, t)
  {
    ImagesIgnoreLabels(p, s, t);
    HostIgnoresLabels(p, s, t);
    UserIgnoresLabels(p, s, t);
  }

  lemma HitsIgnoreLabels(p: AdmissionProgram, s: Subject, t: Subject)
    requires SameButWatched(s, t)
    ensures CollectHits(p, s) == CollectHits(p, t)
  {
    WorkloadIgnoresLabels(p, s, t);
    RolesIgnoreLabels(p, s, t);
  }

  lemma AdmitWatchFree(p: AdmissionProgram, s: Subject, t: Subject, exceptions: seq<Exception>, now: int)
    requires WatchFree(p, s.kind)
    requires SameButWatched(s, t)
    ensures Admit(p, s, exceptions, now) == Admit(p, t, exceptions, now)
  {
    AppliesWatchFree(p, s, t);
    HitsIgnoreLabels(p, s, t);
  }

  lemma SubjectKind(reviewed: Json, roots: seq<TrustRoot>, check: SignatureCheck)
    requires SubjectFromObject(reviewed, roots, check).Ok?
    ensures reviewed.Obj?
    ensures SubjectFromObject(reviewed, roots, check).value.kind == StrOr(Field(reviewed.fields, "kind"), "")
  {
  }

  /** The kind of the object a body asks about. */
  function ReviewedKind(input: Input): string {
    if input.Parsed? && input.value.Obj? then
      match ObjectAt(input.value.fields, "request")
      case Some(request) =>
        (match Field(request, "object")
         case Some(Obj(m)) => StrOr(Field(m, "kind"), "")
         case _ => "")
      case None => ""
    else ""
  }

  lemma OpenedKind(input: Input, program: Option<AdmissionProgram>, glass: Option<Grant>, now: int)
    requires Open(input, program, glass, now).ToJudge?
    ensures program == Some(Open(input, program, glass, now).program)
    ensures !(glass.Some? && now < glass.value.expiresAt)
    ensures var reviewed := Open(input, program, glass, now).reviewed;
            reviewed.Obj? ==> ReviewedKind(input) == StrOr(Field(reviewed.fields, "kind"), "")
  {
  }

  lemma OpenedAllow(input: Input, program: Option<AdmissionProgram>, glass: Option<Grant>, now: int)
    requires Open(input, program, glass, now).Answered? && Open(input, program, glass, now).reply.allowed
    ensures Open(input, program, glass, now).reply.body.Suspended?
    ensures glass.Some? && now < glass.value.expiresAt
  {
  }

  lemma RepliesAgreeOn(a: LabelSource, b: LabelSource, uid: string, p: AdmissionProgram, reviewed: Json,
                       s: Subject, exceptions: seq<Exception>, now: int)
    requires a.clusterLabels == b.clusterLabels && WatchFree(p, s.kind)
    ensures ReplyFor(a, uid, p, reviewed, s, exceptions, now) == ReplyFor(b, uid, p, reviewed, s, exceptions, now)
  {
    AdmitWatchFree(p, Labelled(a, s), Labelled(b, s), exceptions, now);
  }

  /** Two label sources that agree on the cluster's labels answer every request body alike,
      however warm they are and whatever they watched. */
  lemma RepliesAgree(cfg: Config, a: LabelSource, b: LabelSource, check: SignatureCheck, input: Input,
                     program: Option<AdmissionProgram>, exceptions: seq<Exception>, glass: Option<Grant>, now: int)
    requires a.clusterLabels == b.clusterLabels
    requires program.Some? ==> WatchFree(program.value, ReviewedKind(input))
    ensures Handle(cfg, a, check, input, program, exceptions, glass, now) ==
            Handle(cfg, b, check, input, program, exceptions, glass, now)
  {
    match Open(input, program, glass, now)
    case Answered(reply) =>
    case ToJudge(uid, p, request, reviewed) =>
      OpenedKind(input, program, glass, now);
      match SubjectFromObject(reviewed, p.supply.trustRoots, check)
      case Err(e) =>
      case Ok(s) =>
        SubjectKind(reviewed, p.supply.trustRoots, check);
        RepliesAgreeOn(a, b, uid, p, reviewed, Named(cfg, request, s), exceptions, now);
  }

  /** A policy that does select on watched labels is never decided from a cold source: only a
      suspension in force lets anything through. */
  lemma ColdSourceDenies(cfg: Config, labels: LabelSource, check: SignatureCheck, input: Input,
                         program: Option<AdmissionProgram>, exceptions: seq<Exception>, glass: Option<Grant>, now: int)
    requires !labels.warm && program.Some? && !WatchFree(program.value, ReviewedKind(input))
    requires Handle(cfg, labels, check, input, program, exceptions, glass, now).allowed
    ensures glass.Some? && now < glass.value.expiresAt
    ensures Handle(cfg, labels, check, input, program, exceptions, glass, now).body.Suspended?
  {
    match Open(input, program, glass, now)
    case Answered(reply) => OpenedAllow(input, program, glass, now);
    case ToJudge(uid, p, request, reviewed) =>
      OpenedKind(input, program, glass, now);
      if SubjectFromObject(reviewed, p.supply.trustRoots, check).Ok? {
        SubjectKind(reviewed, p.supply.trustRoots, check);
      }
  }

  // ---- Failing closed --------------------------------------------------------------

  function UidOf(input: Input): string {
    if input.Parsed? then StrOr(Pointer.Walk(input.value, ["request", "uid"]), "") else ""
  }

  function EchoedUid(body: Body): string {
    match body
    case Malformed(_) => ""
    case Response(uid, _, _, _) => uid
    case Suspended(uid, _) => uid
  }

  lemma OpenedUid(input: Input, program: Option<AdmissionProgram>, glass: Option<Grant>, now: int)
    ensures match Open(input, program, glass, now)
            case ToJudge(uid, _, _, _) => uid == UidOf(input) != ""
            case Answered(reply) =>
              && EchoedUid(reply.body) == UidOf(input)
              && (reply.status == if UidOf(input) == "" then 400 else 200)
              && (reply.allowed ==> reply.status == 200)
  {
  }

  /** Every reply echoes the request's uid; a request without one is the only kind answered 400. */
  lemma RepliesEchoUid(cfg: Config, labels: LabelSource, check: SignatureCheck, input: Input,
                       program: Option<AdmissionProgram>, exceptions: seq<Exception>, glass: Option<Grant>, now: int)
    ensures var reply := Handle(cfg, labels, check, input, program, exceptions, glass, now);
            EchoedUid(reply.body) == UidOf(input) && reply.status == if UidOf(input) == "" then 400 else 200
  {
    OpenedUid(input, program, glass, now);
  }

  /** The request and the object a body asks about, where it has both. */
  function Asked(input: Input): Option<(Fields, Json)> {
    if input.Parsed? && input.value.Obj? then
      match ObjectAt(input.value.fields, "request")
      case Some(request) =>
        (match Field(request, "object")
         case None => None
         case Some(Null) => None
         case Some(o) => Some((request, o)))
      case None => None
    else None
  }

  /** The subject the evaluator is given: read from the object, named after the policy's
      configuration, with the labels that were watched. */
  function JudgedSubject(cfg: Config, labels: LabelSource, check: SignatureCheck, p: AdmissionProgram, request: Fields, doc: Json)
    : Result<Subject>
  {
    match SubjectFromObject(doc, p.supply.trustRoots, check)
    case Err(e) => Err(e)
    case Ok(s) => Ok(Labelled(labels, Named(cfg, request, s)))
  }

  /** The namespace of an object: its own, or else the request's. */
  function NamespaceOf(request: Fields, doc: Fields): string {
    match ObjectAt(doc, "metadata")
    case Some(meta) =>
      if "namespace" in meta && meta["namespace"].Str? && meta["namespace"].s != "" then meta["namespace"].s
      else if "namespace" in request && request["namespace"].Str? then request["namespace"].s else ""
    case None => if "namespace" in request && request["namespace"].Str? then request["namespace"].s else ""
  }

  /** The judged subject carries the policy's own name, the object's namespace or else the request's,
      and the labels observed of that namespace, of the account, which is "default" where the object
      names none, and of the cluster. */
  lemma JudgedAs(cfg: Config, labels: LabelSource, check: SignatureCheck, p: AdmissionProgram, request: Fields, doc: Json, read: Subject)
    requires SubjectFromObject(doc, p.supply.trustRoots, check) == Ok(read)
    ensures doc.Obj? && JudgedSubject(cfg, labels, check, p, request, doc).Ok?
    ensures var s, namespace := JudgedSubject(cfg, labels, check, p, request, doc).value, NamespaceOf(request, doc.fields);
            && s.policyName == cfg.policyName && s.policyNamespace == cfg.policyNamespace && s.namespace == namespace
            && s.namespaceLabels == labels.namespaceLabels(namespace) && s.clusterLabels == labels.clusterLabels
            && s.serviceAccountLabels == labels.serviceAccountLabels(namespace, if read.serviceAccount == "" then "default" else read.serviceAccount)
            && s == read.(policyName := s.policyName, policyNamespace := s.policyNamespace, namespace := s.namespace,
                          namespaceLabels := s.namespaceLabels, clusterLabels := s.clusterLabels, serviceAccountLabels := s.serviceAccountLabels)
  {
    SubjectNamespace(doc, p.supply.trustRoots, check);
  }

  lemma SubjectNamespace(doc: Json, roots: seq<TrustRoot>, check: SignatureCheck)
    requires SubjectFromObject(doc, roots, check).Ok?
    ensures doc.Obj?
    ensures SubjectFromObject(doc, roots, check).value.namespace == StrOr(OptField(ObjectAt(doc.fields, "metadata"), "namespace"), "")
  {
  }

  predicate InForce(glass: Option<Grant>, now: int) {
    glass.Some? && now < glass.value.expiresAt
  }

  lemma OpenedAsked(input: Input, program: Option<AdmissionProgram>, glass: Option<Grant>, now: int)
    ensures Open(input, program, glass, now).ToJudge? <==>
            UidOf(input) != "" && Asked(input).Some? && program.Some? && !InForce(glass, now)
    ensures Open(input, program, glass, now).ToJudge? ==>
              var o := Open(input, program, glass, now);
              program == Some(o.program) && Asked(input) == Some((o.request, o.reviewed)) && o.uid == UidOf(input)
  {
  }

  /** An allow is a live suspension, or a policy that was there, an object that could be read
      and a decision that was made and allows it. Nothing else lets a request through. */
  lemma AllowsAreDecided(cfg: Config, labels: LabelSource, check: SignatureCheck, input: Input,
                         program: Option<AdmissionProgram>, exceptions: seq<Exception>, glass: Option<Grant>, now: int)
    requires Handle(cfg, labels, check, input, program, exceptions, glass, now).allowed && !InForce(glass, now)
    ensures program.Some? && Asked(input).Some?
    ensures var (request, doc) := Asked(input).value;
            var subject := JudgedSubject(cfg, labels, check, program.value, request, doc);
            && subject.Ok?
            && Admit(program.value, subject.value, exceptions, now).allowed
            && !Admit(program.value, subject.value, exceptions, now).failClosed
  {
    OpenedAsked(input, program, glass, now);
    if Open(input, program, glass, now).Answered? {
      OpenedAllow(input, program, glass, now);
    }
  }

  /** The other way round: a readable object that is admitted is let through, unless the watch it
      needs is cold. */
  lemma DecidedIsAllowed(cfg: Config, labels: LabelSource, check: SignatureCheck, input: Input, p: AdmissionProgram,
                         exceptions: seq<Exception>, glass: Option<Grant>, now: int)
    requires UidOf(input) != "" && Asked(input).Some? && !InForce(glass, now)
    requires var (request, doc) := Asked(input).value;
             var subject := JudgedSubject(cfg, labels, check, p, request, doc);
             && subject.Ok? && (labels.warm || WatchFree(p, subject.value.kind))
             && Admit(p, subject.value, exceptions, now).allowed && !Admit(p, subject.value, exceptions, now).failClosed
    ensures Handle(cfg, labels, check, input, Some(p), exceptions, glass, now).allowed
  {
    OpenedAsked(input, Some(p), glass, now);
  }

  lemma ResponsePatch(uid: string, reviewed: Json, d: Decision)
    requires DecisionResponse(uid, reviewed, d).body.Response? && DecisionResponse(uid, reviewed, d).body.patch.Some?
    ensures d.mode == Enforce && d.allowed && !d.failClosed && d.patches != []
    ensures reviewed.Obj? && Field(reviewed.fields, "kind") == Some(Str("Pod"))
    ensures DecisionResponse(uid, reviewed, d).body.patch.value == PodPatch.PatchOps(KindSet(d.patches), reviewed)
  {
  }

  lemma AdmitMode(p: AdmissionProgram, s: Subject, exceptions: seq<Exception>, now: int)
    ensures Admit(p, s, exceptions, now).allowed ==> Admit(p, s, exceptions, now).mode == p.mode
    ensures Admit(p, s, exceptions, now).patches != [] ==> Admit(p, s, exceptions, now).patches == Mutations(p)
  {
  }

  lemma RepliedPatch(labels: LabelSource, uid: string, p: AdmissionProgram, reviewed: Json, s: Subject,
                     exceptions: seq<Exception>, now: int)
    requires Patched(ReplyFor(labels, uid, p, reviewed, s, exceptions, now))
    ensures p.mode == Enforce && reviewed.Obj? && Field(reviewed.fields, "kind") == Some(Str("Pod"))
    ensures ReplyFor(labels, uid, p, reviewed, s, exceptions, now).allowed
    ensures ReplyFor(labels, uid, p, reviewed, s, exceptions, now).body.patch.value
            == PodPatch.PatchOps(KindSet(Mutations(p)), reviewed)
  {
    var d := Admit(p, Labelled(labels, s), exceptions, now);
    ResponsePatch(uid, reviewed, d);
    AdmitMode(p, Labelled(labels, s), exceptions, now);
  }

  predicate Patched(reply: Reply) {
    reply.body.Response? && reply.body.patch.Some?
  }

  /** A patched reply is the reply to an object that was read. */
  lemma PatchedIsReplied(cfg: Config, labels: LabelSource, check: SignatureCheck, input: Input, p: AdmissionProgram,
                         exceptions: seq<Exception>, glass: Option<Grant>, now: int)
    requires Patched(Handle(cfg, labels, check, input, Some(p), exceptions, glass, now))
    ensures Asked(input).Some? && SubjectFromObject(Asked(input).value.1, p.supply.trustRoots, check).Ok?
    ensures var (request, doc) := Asked(input).value;
            Handle(cfg, labels, check, input, Some(p), exceptions, glass, now)
            == ReplyFor(labels, UidOf(input), p, doc, Named(cfg, request, SubjectFromObject(doc, p.supply.trustRoots, check).value),
                        exceptions, now)
  {
    OpenedAsked(input, Some(p), glass, now);
    OpenedUnpatched(input, Some(p), glass, now);
  }

  lemma OpenedUnpatched(input: Input, program: Option<AdmissionProgram>, glass: Option<Grant>, now: int)
    ensures Open(input, program, glass, now).Answered? ==> !Patched(Open(input, program, glass, now).reply)
  {
  }

  lemma HandledPatch(cfg: Config, labels: LabelSource, check: SignatureCheck, input: Input, p: AdmissionProgram,
                     exceptions: seq<Exception>, glass: Option<Grant>, now: int)
    requires Patched(Handle(cfg, labels, check, input, Some(p), exceptions, glass, now))
    ensures p.mode == Enforce && ReviewedKind(input) == "Pod" && Asked(input).Some?
    ensures var reply := Handle(cfg, labels, check, input, Some(p), exceptions, glass, now);
            reply.allowed && reply.body.patch == Some(PodPatch.PatchOps(KindSet(Mutations(p)), Asked(input).value.1))
  {
    PatchedIsReplied(cfg, labels, check, input, p, exceptions, glass, now);
    var (request, doc) := Asked(input).value;
    var s := Named(cfg, request, SubjectFromObject(doc, p.supply.trustRoots, check).value);
    RepliedPatch(labels, UidOf(input), p, doc, s, exceptions, now);
  }

  /** The kinds of patch a policy asks for: each by its own flag, or all three by enforcing the
      restricted profile. */
  predicate AsksFor(p: AdmissionProgram, kind: PodPatch.Kind) {
    || (p.mode == Enforce && p.admit.pss == Restricted)
    || match kind
       case InjectSeccompRuntimeDefault => p.admit.mutate.injectSeccompRuntimeDefault
       case DropAllCapabilities => p.admit.mutate.dropAllCapabilities
       case ReadOnlyRootFilesystem => p.admit.mutate.readOnlyRootFilesystem
  }

  lemma KindsAsked(p: AdmissionProgram)
    ensures forall kind :: kind in KindSet(Mutations(p)) <==> AsksFor(p, kind)
  {
    MutationsMeaning(p);
    forall kind ensures kind in KindSet(Mutations(p)) <==> AsksFor(p, kind) {
      match kind case InjectSeccompRuntimeDefault => case DropAllCapabilities => case ReadOnlyRootFilesystem =>
    }
  }

  /** Only an enforcing policy patches, only a Pod it admits, and with the kinds it asks for. */
  lemma PatchesAreEnforced(cfg: Config, labels: LabelSource, check: SignatureCheck, input: Input, p: AdmissionProgram,
                           exceptions: seq<Exception>, glass: Option<Grant>, now: int) returns (kinds: set<PodPatch.Kind>)
    requires Patched(Handle(cfg, labels, check, input, Some(p), exceptions, glass, now))
    ensures p.mode == Enforce && ReviewedKind(input) == "Pod" && Asked(input).Some?
    ensures forall kind :: kind in kinds <==> AsksFor(p, kind)
    ensures var reply := Handle(cfg, labels, check, input, Some(p), exceptions, glass, now);
            reply.allowed && reply.body.patch == Some(PodPatch.PatchOps(kinds, Asked(input).value.1))
  {
    HandledPatch(cfg, labels, check, input, p, exceptions, glass, now);
    KindsAsked(p);
    kinds := KindSet(Mutations(p));
  }

  lemma PatchesOf(p: AdmissionProgram, s: Subject, exceptions: seq<Exception>, now: int)
    requires Admit(p, s, exceptions, now).allowed && !Admit(p, s, exceptions, now).failClosed && p.mode == Enforce
    ensures Admit(p, s, exceptions, now).mode == Enforce
    ensures Admit(p, s, exceptions, now).patches == if ProgramApplies(p, s) == Ok(true) then Mutations(p) else []
  {
  }

  lemma AllowedReply(cfg: Config, labels: LabelSource, check: SignatureCheck, input: Input, p: AdmissionProgram,
                     exceptions: seq<Exception>, glass: Option<Grant>, now: int)
    requires Handle(cfg, labels, check, input, Some(p), exceptions, glass, now).allowed && !InForce(glass, now)
    ensures Asked(input).Some? && JudgedSubject(cfg, labels, check, p, Asked(input).value.0, Asked(input).value.1).Ok?
    ensures var (request, doc) := Asked(input).value;
            var d := Admit(p, JudgedSubject(cfg, labels, check, p, request, doc).value, exceptions, now);
            && d.allowed && !d.failClosed
            && Handle(cfg, labels, check, input, Some(p), exceptions, glass, now)
               == Reply(200, Response(UidOf(input), true, PatchFor(doc, d), Nothing), true)
  {
    AllowsAreDecided(cfg, labels, check, input, Some(p), exceptions, glass, now);
    OpenedAsked(input, Some(p), glass, now);
    OpenedUnpatched(input, Some(p), glass, now);
    if Open(input, Some(p), glass, now).Answered? {
      OpenedAllow(input, Some(p), glass, now);
    }
  }

  predicate IsPod(doc: Json) {
    doc.Obj? && Field(doc.fields, "kind") == Some(Str("Pod"))
  }

  lemma ReviewedPod(input: Input)
    requires Asked(input).Some?
    ensures ReviewedKind(input) == "Pod" <==> IsPod(Asked(input).value.1)
  {
  }

  lemma DecidedPatch(p: AdmissionProgram, s: Subject, exceptions: seq<Exception>, now: int, doc: Json)
    requires Admit(p, s, exceptions, now).allowed && !Admit(p, s, exceptions, now).failClosed
    ensures PatchFor(doc, Admit(p, s, exceptions, now)).Some? <==>
              && p.mode == Enforce && IsPod(doc) && ProgramApplies(p, s) == Ok(true)
              && KindSet(Mutations(p)) != {} && PodPatch.PatchOps(KindSet(Mutations(p)), doc) != []
  {
    AdmitMode(p, s, exceptions, now);
    if p.mode == Enforce {
      PatchesOf(p, s, exceptions, now);
      if Mutations(p) != [] {
        assert Mutations(p)[0] in KindSet(Mutations(p));
      }
    }
  }

  /** And it does: an admitted Pod that an enforcing policy covers is patched whenever what the policy
      asks for makes a difference. */
  lemma PatchedIff(cfg: Config, labels: LabelSource, check: SignatureCheck, input: Input, p: AdmissionProgram,
                   exceptions: seq<Exception>, glass: Option<Grant>, now: int) returns (kinds: set<PodPatch.Kind>)
    requires Handle(cfg, labels, check, input, Some(p), exceptions, glass, now).allowed && !InForce(glass, now)
    ensures forall kind :: kind in kinds <==> AsksFor(p, kind)
    ensures Asked(input).Some? && JudgedSubject(cfg, labels, check, p, Asked(input).value.0, Asked(input).value.1).Ok?
    ensures var (request, doc) := Asked(input).value;
            Patched(Handle(cfg, labels, check, input, Some(p), exceptions, glass, now)) <==>
              && p.mode == Enforce && ReviewedKind(input) == "Pod"
              && ProgramApplies(p, JudgedSubject(cfg, labels, check, p, request, doc).value) == Ok(true)
              && kinds != {} && PodPatch.PatchOps(kinds, doc) != []
  {
    AllowedReply(cfg, labels, check, input, p, exceptions, glass, now);
    KindsAsked(p);
    kinds := KindSet(Mutations(p));
    ReviewedPod(input);
    var (request, doc) := Asked(input).value;
    DecidedPatch(p, JudgedSubject(cfg, labels, check, p, request, doc).value, exceptions, now, doc);
  }
}
