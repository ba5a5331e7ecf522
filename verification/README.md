# Ferrum, modelled and proved in Dafny

Ferrum is an enforcement plane for Kubernetes. An admission webhook judges objects against a
compiled, signed policy and patches the Pods it admits; an agent on every node publishes the
policy into kernel maps, decides about syscall records and signals processes. This project
models the parts of both that are state machines, tree transformations or binary formats, and
proves what they promise.

Code that only computes is modelled by functions, with lemmas about them. Code that changes
things step by step is modelled by classes and by methods with loops, each proved against a
specification. Time is an integer. A lock is an atomic step. Every map write, file write,
journal entry and signal is an adversarial choice between success and failure: a run is
quantified over a function that says which attempts fail, or a parameter says whether one
does. A write that fails is taken to leave what it was writing to as it was.

## What is proved

**Admission patching.** `add_nested` emits one operation at the shallowest missing ancestor,
and for every pointer `Patch.AddNestedDelivers` says exactly when that operation delivers the
requested value. The operations of a patch are all computed against the
original object and applied one after another; they compose exactly on the pods described by
`Compose.ComposesIff`. Admission under the restricted profile establishes all but two of those
conditions by itself (`Restricted.AdmittedPodComposes`): what it leaves open is a `null`
securityContext on the pod and capabilities that are not an object. `Profile` goes from the
request body to the reply: a Pod that gets past an enforcing policy meets its pod security
profile as a document, and under a policy that is only its profile that is an equivalence.
`SubjectReads` says, for every kind of object, exactly when it can be read and what is read from
it, in terms of the JSON alone.

**The kernel publish protocol.** After every single map write of every run, whatever failed,
rules stand only next to cgroups their own policy selected, and rules of two policies are
never in the map together. A tick without a fault ends with exactly the wanted rules and
cgroups. The comment at `crates/ferrum-agent/src/lib.rs:62` says that every failure leaves the
rules off; the code does not do that, and the model follows the code. What the rule map holds
after a failing tick is settled by where the faults fall (`KernelPublish.Republish`), and
`KernelPublish.FailedTickIff` gives the exact condition for the rules to be off: an oversized
set or an unchanged policy leaves them as they were, a fault while retiring leaves those from
the failed slot on, and after that they are off unless a second fault stops the clearing of
what was already published.

**The unproven windows, the reaction path, the decode latch, the clock floor, the serving
certificate, break-glass.** For each, an invariant that every operation keeps, and the
statements about whole runs that follow from it.

**Binary formats.** FADM programs, FSIG envelopes, DER certificates and base64: round trips,
prefix-freedom and exactness. An FADM file is determined by its program exactly when the
program selects on no label, and is the compiler's own file exactly when its label keys ascend;
a base64 text is given back by re-encoding exactly when its spare bits are zero.

## Model

| member | source | states |
|---|---|---|
| Pointer.LookupIsWalk | crates/ferrum-admission/src/review.rs:411-423 | evaluating a pointer string, escaped or not, is walking its tokens unescaped |
| Pointer.RenderSplit | crates/ferrum-admission/src/review.rs:411-440 | every string that starts with a slash is its own tokens written out, so a statement about written tokens is one about every pointer |
| Pointer.EscapedLeadsThere | crates/ferrum-admission/src/review.rs:411-423 | every place in a document has a pointer, its tokens escaped as section 3 of RFC 6901 asks, and the pointer leads there whatever characters the keys hold |
| Pointer.DecimalIsIndex | crates/ferrum-admission/src/review.rs:403-405 | the index printed into a container pointer is the index array evaluation reads back |
| Patch.SplitRendered | crates/ferrum-admission/src/review.rs:429-440 | a pointer of several tokens splits into its last token and the rest, where an empty token before the last is lost unless it is the first; a one-token pointer does not split |
| Patch.AddNestedIsNestedEdit | crates/ferrum-admission/src/review.rs:411-427 | on every pointer no empty token of which is lost: exactly one operation, at the shallowest missing ancestor or at the pointer itself, carrying the value wrapped in the tokens below it as they were written |
| Patch.AddNestedDelivers | crates/ferrum-admission/src/review.rs:411-427 | for every string: the operation applies and the requested pointer then evaluates to the requested value, if and only if the pointer is empty, or the node above the shallowest missing ancestor is an object or an array its index fits, no missing token before the last is empty (the first aside), and every token below that ancestor is its own unescaped spelling |
| Patch.AddNestedFrame | crates/ferrum-admission/src/review.rs:411-427 | added into an object, on a pointer no empty token of which is lost, the operation applies and every pointer that is not at, above or below its target is unchanged |
| Patch.EscapedTokenIsMissed | crates/ferrum-admission/src/review.rs:411-427 | an input that fails: below a missing member, a token that is not its own spelling is created under the escaped name, and the pointer that asked for it misses it |
| Patch.EscapedTokenIsFound | crates/ferrum-admission/src/review.rs:411-427 | escaping alone does no harm: below a member that is there the value is found, however either token is spelt |
| Patch.EmptyTokenIsDropped | crates/ferrum-admission/src/review.rs:429-440 | an input that fails: an empty token inside a missing path disappears together with its slash, and the pointer that asked is not delivered |
| Patch.IndependentValues | crates/ferrum-admission/src/review.rs:354-394 | adds computed against one document, each into an object of it and none at or below another, all hold their values at once afterwards |
| Patch.IndependentFrame | crates/ferrum-admission/src/review.rs:354-394 | such adds all apply, and a pointer apart from every target is unchanged |
| PodPatch.CollectPaths | crates/ferrum-admission/src/review.rs:396-409 | one pointer per element of the three container lists, in order |
| PodPatch.BuildOps | crates/ferrum-admission/src/review.rs:354-394 | the operations of each requested kind in turn, seccomp for the pod and every container, the others for every container |
| PodPatch.SlotsDistinct | crates/ferrum-admission/src/review.rs:396-409 | no two containers have the same pointer |
| Compose.OpsAreEdits | crates/ferrum-admission/src/review.rs:354-427 | the emitted operation list is, operation for operation, the list of nested edits of the requests |
| Compose.ComposesIff | crates/ferrum-admission/src/review.rs:354-427 | the whole list applies and every requested value is in place afterwards, if and only if each place with a security context has an object there, with absent or object capabilities if they are dropped, and each place without one is asked for at most one kind |
| Compose.ComposedFrame | crates/ferrum-admission/src/review.rs:354-427 | where the list composes, every pointer apart from all targets is unchanged |
| Compose.AbsentOverwrites | crates/ferrum-admission/src/review.rs:411-427 | two kinds asked of a container without a security context never compose: the later add replaces the earlier |
| Compose.ContextRefuses | crates/ferrum-admission/src/review.rs:411-427 | a security context that is there and is not an object fails the whole patch |
| Compose.CapabilitiesRefuse | crates/ferrum-admission/src/review.rs:372-381 | capabilities that are there and are not an object fail the whole patch |
| Restricted.ReadPodIsShaped | crates/ferrum-admission/src/subject.rs:222-239 | a pod whose containers could be read has an object at every pointer the patch addresses, and it is the container that was read |
| Restricted.JudgedHarmless | crates/ferrum-admission/src/eval.rs:467-472 | an enforcing restricted policy without a waiver lets a pod through only if no container may escalate privileges |
| Restricted.RestrictedMutations | crates/ferrum-admission/src/eval.rs:522-536 | enforce and restricted together ask for all three patches |
| Restricted.AdmittedPodComposes | crates/ferrum-admission/src/review.rs:127-306 | whenever a request is answered with a patch by an enforcing restricted policy that does not waive escalation: the patch is the full one for the object asked about, every container of it has an object securityContext, and the patch composes if and only if the pod's securityContext and every container's capabilities are absent or objects |
| Restricted.ComposedPodIsHardened | crates/ferrum-admission/src/review.rs:354-394 | after a composed patch every container has the RuntimeDefault seccomp profile, drops ALL capabilities and has a read-only root, at once |
| Restricted.QuietPodIsAdmitted | crates/ferrum-admission/src/review.rs:127-239 | there is such a request: it is answered with the full patch and the patch composes on its pod |
| Profile.TraitsAreTheObjects | crates/ferrum-admission/src/subject.rs:49-129 | traits read that way meet a security profile exactly when the JSON does: host flags and volumes of the spec, and of every container its privileged and escalation flags, the capabilities it asks for against the profile's list, and the user it runs as under its own or the pod's context |
| Profile.ReadPod | crates/ferrum-admission/src/subject.rs:49-129 | the subject of a Pod carries exactly the traits of the spec, the containers and the security context that were read |
| Profile.RootRead | crates/ferrum-admission/src/subject.rs:241-256 | a container runs as root unless it, or where it is silent the pod, says runAsNonRoot, or one of the two in the same way names a user other than 0 |
| Profile.Permitted | crates/ferrum-admission/src/eval.rs:514-520 | the baseline profile allows its thirteen capabilities and the restricted one NET_BIND_SERVICE, and no others |
| Profile.AdmittedPodMeetsProfile | crates/ferrum-admission/src/review.rs:127-239 | a Pod that a request gets past an enforcing policy that covers it, with none of the profile's rules waived and no suspension in force, meets the policy's pod security profile as a document |
| Profile.AdmittedIffMeetsProfile | crates/ferrum-admission/src/review.rs:127-239 | under a policy that is nothing but its profile, a covered Pod gets through exactly when its document meets the profile |
| Subject.FoldContainers | crates/ferrum-admission/src/subject.rs:76-129 | the container loop: an unreadable securityContext anywhere refuses the pod, otherwise the totals over all containers |
| Subject.AppendCaps | crates/ferrum-admission/src/subject.rs:98-112 | a capability is listed once, and what is listed keeps its place while later names go to the end |
| Subject.EscalationMeaning | crates/ferrum-admission/src/subject.rs:76-129 | the escalation flag is raised exactly when some container permits escalation, silence included |
| Subject.PrivilegeMeaning | crates/ferrum-admission/src/subject.rs:76-129 | the privileged flag is raised exactly when some container is privileged |
| Subject.RootMeaning | crates/ferrum-admission/src/subject.rs:241-256 | the root flag is raised exactly when some container runs as root under its own or the pod's context |
| Subject.TotalCapsMeaning | crates/ferrum-admission/src/subject.rs:98-112 | a capability is listed exactly when some container adds it |
| Subject.TotalCapsListedOnce | crates/ferrum-admission/src/subject.rs:98-112 | over all containers together no capability is listed twice |
| Subject.NoEscalationMeansSecurityContext | crates/ferrum-admission/src/subject.rs:20-129 | a pod whose subject does not permit escalation has containers, and each says so in an object securityContext |
| SubjectReads.ImageRead | crates/ferrum-admission/src/subject.rs:364-377 | the one image that is judged is the first unsigned one, else the first without a digest, else the first of all; that a tag is latest never decides |
| SubjectReads.RulesRead | crates/ferrum-admission/src/subject.rs:175-202 | rules are refused exactly when one that cannot be judged comes before any with a star, and otherwise grant everything exactly when one of them has a star among its verbs, resources or API groups |
| SubjectReads.PodReads | crates/ferrum-admission/src/subject.rs:20-139 | a Pod is read if and only if metadata, spec, volumes up to the first hostPath, the three container lists and every security context have their shapes; the subject then says, in terms of the JSON alone, its namespace, labels and account, the image judged and whether all are signed, and each trait by its own condition |
| SubjectReads.ContainersRead | crates/ferrum-admission/src/subject.rs:222-239 | the containers are those of containers, initContainers and ephemeralContainers in that order, and are read exactly when each list is absent, null or a list of objects |
| SubjectReads.VolumesRead | crates/ferrum-admission/src/subject.rs:204-220 | volumes are refused exactly when one that is no object comes before any hostPath |
| SubjectReads.ImagesRead | crates/ferrum-admission/src/subject.rs:113-129 | the images are the non-empty ones of the containers, in order |
| SubjectReads.RoleReads | crates/ferrum-admission/src/subject.rs:142-202 | a role is read exactly when metadata and spec are absent or objects and its rules, the spec's or else the object's own, can be judged; it is a wildcard role exactly when one of them has a star, and carries nothing else |
| SubjectReads.BindingReads | crates/ferrum-admission/src/subject.rs:154-173 | a binding is read exactly when its reference is absent, null or an object, and binds the administrator exactly when the reference names the ClusterRole cluster-admin |
| SubjectReads.OtherReads | crates/ferrum-admission/src/subject.rs:20-47 | an object of any other kind is read whenever its metadata is absent or an object, and carries its kind, namespace and labels only |
| SubjectReads.RefusedOutright | crates/ferrum-admission/src/subject.rs:20-32 | what is no object, or has metadata that is none, is refused |
| Policy.EvaluateBlocksIff | crates/ferrum-policy/src/eval.rs:37-48 | the combination blocks exactly when some blocking hit is not waived |
| Policy.WaivedIff | crates/ferrum-policy/src/eval.rs:53-105 | a hit is waived exactly when some exception has a ticket, a reason of eight bytes, an approval by someone other than whoever asked, an end that is ahead by at most 90 days, and names the hit's namespace, policy and rule |
| Policy.RankIsStrength | crates/ferrum-policy/src/eval.rs:107-115 | kill is stronger than isolate, that than deny, that than audit, that than allow |
| Eval.FirstUnmet | crates/ferrum-admission/src/eval.rs:348-368 | match expressions are answered by the first that does not hold, mismatch or error, and match when there is none |
| Eval.MatchExpressionMeaning | crates/ferrum-admission/src/eval.rs:370-391 | In and NotIn ask whether the key has one of the values, Exists and DoesNotExist whether it has any; an absent key satisfies NotIn; every other operator is an error |
| Eval.SelectorMeaning | crates/ferrum-admission/src/eval.rs:348-368 | a selector matches exactly when each of its labels is there and each of its expressions holds |
| Eval.HitsAreBroken | crates/ferrum-admission/src/eval.rs:393-505 | the hits are the broken rules, no more and no fewer: a trait the policy denies or its profile forbids, on the kinds the rule is about |
| Eval.JudgeMeaning | crates/ferrum-admission/src/eval.rs:194-241 | in enforce mode a covered object is allowed exactly when every rule it breaks is waived |
| Eval.ExcusedByName | crates/ferrum-admission/src/eval.rs:16-29 | a rule is excused exactly when some live exception for this policy lists it by its published name |
| Eval.FailurePolicyIs | crates/ferrum-admission/src/program.rs:36-42 | the failure policy of a decision is Fail for a namespaced policy and for one that could not be made, and otherwise the program's own |
| Eval.MutationsMeaning | crates/ferrum-admission/src/eval.rs:522-536 | each kind of patch is asked for by its own flag, or all three by enforcing the restricted profile |
| Eval.ReportedRules | crates/ferrum-admission/src/eval.rs:218-241 | the rule ids of a decision are exactly those of the broken rules no exception waives, with one reason each |
| Eval.FailClosedDenies | crates/ferrum-admission/src/eval.rs:157-191 | a decision that could not be made is never an admission, and there is one exactly for a disabled enforcing policy and, inside the policy's namespace, for labels asked for but never observed or an unknown operator that is reached with everything asked before it matching; a disabled or uncovering policy admits without patching |
| Eval.SelectorErrIff | crates/ferrum-admission/src/eval.rs:348-368 | a selector is an error exactly when its labels hold and an expression with an unknown operator comes after expressions that all hold |
| Eval.StricterAdmitsLess | crates/ferrum-admission/src/eval.rs:420-486 | whatever a stricter pod security profile admits, a looser one admits |
| ImageNames.ReferenceReadsBack | crates/ferrum-admission/src/eval.rs:544-573 | every well-formed reference, with or without registry, port, tag and digest, is parsed into the registry, tag and digest it was written from, docker.io where none is named |
| ImageNames.LatestIff | crates/ferrum-admission/src/eval.rs:575-582 | a well-formed reference is latest exactly when its tag says so, or when it pins neither a tag nor a digest |
| Review.RepliesAgree | crates/ferrum-admission/src/review.rs:196-239 | two label sources that agree on cluster labels give the same reply to every body, whenever the policy selects on no watched label or the kind is cluster-scoped |
| Review.ColdSourceDenies | crates/ferrum-admission/src/review.rs:203-217 | a policy that selects on watched labels admits nothing from a cold source, except under a live break-glass grant |
| Review.RepliesEchoUid | crates/ferrum-admission/src/review.rs:135-159 | every reply echoes the request's uid, and a missing uid is the one thing answered 400 |
| Review.JudgedAs | crates/ferrum-admission/src/review.rs:190-236 | the subject judged is the one read, under the policy's name, in the object's namespace or else the request's, with the labels observed of that namespace, of its account or else the default one, and of the cluster |
| Review.AllowsAreDecided | crates/ferrum-admission/src/review.rs:127-239 | an allow without a live suspension is a policy that was present, an object that was read and a decision that was made and allows it |
| Review.DecidedIsAllowed | crates/ferrum-admission/src/review.rs:127-239 | the converse: an object that was read and is admitted gets through, unless the watch its policy needs is cold |
| Review.PatchesAreEnforced | crates/ferrum-admission/src/review.rs:127-306 | a patched reply comes only from an enforcing policy, only for a Pod it admits, and its patch is that of exactly the kinds the policy asks for: each by its own flag, or all three by the restricted profile |
| Review.PatchedIff | crates/ferrum-admission/src/review.rs:268-306 | and an admitted Pod is patched exactly when an enforcing policy covers it, asks for some kind, and the patch of those kinds is not empty |
| KernelPublish.PlanOrder | crates/ferrum-agent/src/lib.rs:148-167 | rules come off first and go back last, both exactly when the policy changed, and the set moves in between exactly when it has to |
| KernelPublish.PlanMapSyncMeaning | crates/ferrum-ebpf/src/kernel.rs:86-103 | a plan exists exactly when the set has at most 65536 members, is empty exactly when the sets are equal, and carrying it out gives the wanted set |
| KernelPublish.KernelHandle.ClearRules | crates/ferrum-ebpf/src/kernel.rs:1190-1195 | the slots up to the first failing write are cleared and the others are as they were; all are empty after success |
| KernelPublish.KernelHandle.SyncRules | crates/ferrum-ebpf/src/kernel.rs:1126-1155 | success leaves rule i of the policy in slot i for each of its rules and the rest of the 64 slots empty; a failure at one slot and a second while clearing leave exactly the slots the positions of the two faults say |
| KernelPublish.KernelHandle.SyncSelected | crates/ferrum-ebpf/src/kernel.rs:1063-1083 | success carries the plan out in one write per key; it fails exactly when one of those writes does, and leaves a set between the intersection and the union |
| KernelPublish.Republish | crates/ferrum-agent/src/lib.rs:71-111 | every map state between two writes is safe; a tick fails exactly on a fault, an oversized set or a rule set that does not fit; otherwise the 64 slots hold the wanted policy's rules, each in its own slot and no other, the set and the published digest are the wanted ones, and unchanged means they already were; where the faults fall settles every slot, and after a failing tick the rules are off exactly when `RulesOff` holds |
| KernelPublish.FailedTickIff | crates/ferrum-agent/src/lib.rs:62-111 | a failing tick leaves no rule on if and only if: none was on, for an oversized set or an unchanged policy; none was on from the slot whose clearing failed, for a fault while retiring; always, for a fault in the set or rules that do not compile; and for a fault at publishing slot f with clearing stopped at slot s, the policy has at most s rules or f is at most s |
| KernelPublish.RunSteps | crates/ferrum-agent/src/lib.rs:88-111 | carrying the planned steps out one by one, the first failure stopping the rest, leaves what the positions of the faults say and fails when they say so |
| KernelPublish.FilledEmptyFrom | crates/ferrum-ebpf/src/kernel.rs:1126-1155 | next to a published policy of n rules, none is on from slot i exactly when n is at most i |
| KernelPublish.Run | crates/ferrum-agent/src/main.rs:543-597 | over any run of ticks, bundles, pod sets and faults, every state the two maps were ever in was safe |
| KernelPublish.FailedTickKeepsRules | crates/ferrum-agent/src/lib.rs:62-65 | an input on which the promise fails: an oversized set under an unchanged policy leaves the rules on |
| UnprovenWindows.Evict | crates/ferrum-agent/src/lib.rs:547-567 | unproven entries go first and then nothing else; when all are proven more than an eighth go, and each that stays was seen strictly later than each that goes |
| UnprovenWindows.ContainerMap.Unproven | crates/ferrum-agent/src/lib.rs:1577-1608 | over the whole history of questions, syncs and errors: the map is live exactly when the last sync was accepted less than 30 seconds ago with entries and no error since; one that is not live answers false and keeps its windows; a live one answers false only for a cgroup asked about less than 300 seconds ago with a sync stamped since, a first sighting is unproven, and a proof that is good answers at once; at most 4096 windows stay, and a proof is given up only when every entry is proven and then the least recently seen first |
| UnprovenWindows.ContainerMap.Ask | crates/ferrum-agent/src/lib.rs:1585-1608 | a question to a live map keeps the window that is open while it is less than 300 seconds old and opens a new one after that, and touches no other |
| UnprovenWindows.ContainerMap.SetSynced | crates/ferrum-agent/src/lib.rs:1506-1514 | an accepted sync replaces the stamp and clears the error |
| UnprovenWindows.ContainerMap.MarkError | crates/ferrum-agent/src/lib.rs:1518-1524 | a failed sync makes the map unready and keeps stamp and windows |
| React.MatchedAction | crates/ferrum-ebpf/src/eval.rs:134-184 | the first of the strongest matching rules decides; a skipped container rule is reported exactly when it would have decided and the caller is unproven |
| React.Decide | crates/ferrum-ebpf/src/loader.rs:160-176 | deny without a policy, allow outside its selector, otherwise the matched action, which only an enforcing policy lets through: under any other mode allow stays allow and everything else becomes audit |
| React.Agent.React | crates/ferrum-agent/src/lib.rs:2545-2646 | exactly one of four counters moves for an enforcing action and none otherwise; a kill happens exactly when role, flags, identity, scope, a tgid from 2 to 4194303 that is not the agent's own, target cgroup and responder all allow it; the error is that of the first guard that fails |
| React.Agent.Signal | crates/ferrum-agent/src/lib.rs:2603-2645 | a signal is sent exactly when the target is provably still in the record's cgroup and the responder succeeds, and otherwise the error says which of the two it was |
| React.Agent.WaiverApplies | crates/ferrum-agent/src/lib.rs:2652-2677 | the first exception that excuses an enforcing decision of a named rule, and none only if there is none |
| React.Agent.HandleEvent | crates/ferrum-agent/src/lib.rs:2402-2540 | the exported record is the role-limited decision, or says waived where an exception covers it; under a mode that does not enforce nothing is executed and no enforcing action is recorded; no record is both executed and refused; the counters together account for every enforcing decision |
| Pump.PumpRecords | crates/ferrum-agent/src/pump.rs:42-82 | handled, unknown and failed count the records of each kind and add up to those read, and the agent is left in the state the stream folds to |
| Pump.ClassifyWritten | crates/ferrum-ebpf/src/event.rs:91-153 | a record written by the layout has 296 bytes and decodes to the event written under the stamp 0xFE10, or is named foreign by any other |
| Pump.WrittenOrGarbled | crates/ferrum-ebpf/src/event.rs:91-153 | every record of 296 bytes is one the layout writes, and one of any other length is garbled |
| Pump.Agent.RecordDecodeFailure | crates/ferrum-agent/src/lib.rs:2013-2023 | n failures at once are n failures one by one: they lengthen the run by n and latch the fault exactly when it reaches 64 |
| Pump.Agent.RecordAbiMismatch | crates/ferrum-agent/src/lib.rs:2056-2063 | a foreign stamp is a failure too and latches at once, unless 64 in a row latched first |
| Pump.Agent.MarkTerminalFault | crates/ferrum-agent/src/lib.rs:1887-1895 | the first reason stays |
| Pump.RunIsFailingSuffix | crates/ferrum-agent/src/lib.rs:2013-2033 | the run counter is the length of the failing suffix |
| Pump.FoldSplit | crates/ferrum-agent/src/pump.rs:42-82 | splitting a stream into batches changes nothing |
| Pump.FaultStays | crates/ferrum-agent/src/lib.rs:1887-1895 | no later record changes a latched fault |
| Pump.FaultIsFirstFatal | crates/ferrum-agent/src/lib.rs:2013-2063 | from a fault-free agent the fault is set exactly at the first foreign record or 64th failure in a row, with that record's cause |
| Clock.Ceiling | crates/ferrum-agent/src/clock.rs:209-213 | 300 seconds ahead of the wall, or the wall itself where that is past the last representable time |
| Clock.AnchorMeaning | crates/ferrum-agent/src/clock.rs:127-139 | an exception anchors a time exactly when it is live for at most 90 days, its papers are in order, it names policies and rules, none of them blank, and the time is 90 days before its end |
| Clock.TimesOfTheCalendar | crates/ferrum-agent/src/clock.rs:65-66 | times run from the first moment of the year -262143 to the last nanosecond of the year 262142 |
| Clock.Latest | crates/ferrum-agent/src/clock.rs:131-139 | the latest of the anchors, if there is one |
| Clock.MonotonicFloor.WithDir | crates/ferrum-agent/src/clock.rs:83-98 | a stored time is kept exactly when it is at most the ceiling of the wall |
| Clock.MonotonicFloor.AnchorFromExceptions | crates/ferrum-agent/src/clock.rs:130-146 | the floor becomes the later of itself and the latest signed anchor capped at the ceiling |
| Clock.MonotonicFloor.NowFrom | crates/ferrum-agent/src/clock.rs:154-170 | times returned never decrease, the floor stays within 300 seconds of the highest wall, rollbacks count the readings below the floor, and an accepted reading is persisted exactly when it is 60 seconds past the last one that was |
| Clock.MonotonicFloor.Persist | crates/ferrum-agent/src/clock.rs:173-181 | the floor reaches the file exactly when the write lands and there is a floor |
| Clock.MonotonicFloor.WriteFloor | crates/ferrum-agent/src/clock.rs:187-202 | a failed write is counted and remembered, a landed one clears that |
| Clock.ExpiredStaysExpired | crates/ferrum-agent/src/lib.rs:2652-2677 | a waiver once seen expired applies to nothing decided later in the process |
| Clock.Restart | crates/ferrum-agent/src/clock.rs:83-98 | a restart returns nothing earlier than the last written floor when the wall is at most 300 seconds behind it |
| ServingCert.TlsSource.constructor | crates/ferrum-admission/src/serving_cert.rs:121-142 | the starting certificate pins the issuer and the names |
| ServingCert.TlsSource.CheckExpiry | crates/ferrum-admission/src/serving_cert.rs:251-268 | one warning per material, exactly when it is within 30 days of its end |
| ServingCert.TlsSource.Reload | crates/ferrum-admission/src/serving_cert.rs:191-229 | swaps exactly for unexpired material of the pinned issuer that drops no name, and keeps what it replaced |
| ServingCert.TlsSource.RollBack | crates/ferrum-admission/src/serving_cert.rs:234-249 | restores the saved material exactly when there is some and it has not expired, and uses it up either way |
| ServingCert.Tick | crates/ferrum-admission/src/serving_cert.rs:288-354 | loaded and saved material always have the pinned issuer and the starting names; a tick goes from outside the warning window to inside it exactly when the replaced material expired before the rollback looked, which takes longer than the window |
| BreakGlass.BreakGlass.Verify | crates/ferrum-breakglass/src/lib.rs:226-252 | what verifies is exactly what is signed and in its window, and carries the digest of the signed bytes; a refusal says unsigned, not yet valid or expired |
| BreakGlass.Remaining | crates/ferrum-breakglass/src/lib.rs:213-216 | the whole seconds left of a grant, none once it has ended |
| BreakGlass.BreakGlass.WriteEntry | crates/ferrum-admission/src/break_glass.rs:280-316 | one entry is appended or the journal is marked broken |
| BreakGlass.BreakGlass.Activate | crates/ferrum-admission/src/break_glass.rs:206-223 | a grant comes into force only after its entry was written |
| BreakGlass.BreakGlass.Close | crates/ferrum-admission/src/break_glass.rs:169-190 | a grant is dropped first and its end journalled after |
| BreakGlass.BreakGlass.Refuse | crates/ferrum-admission/src/break_glass.rs:225-243 | every refusal is counted, and journalled only when bytes or reason differ from the last |
| BreakGlass.BreakGlass.Poll | crates/ferrum-admission/src/break_glass.rs:162-245 | a held grant covers the moment and is the last activation in the journal; the activation counter counts activation entries; without faults activations and matching closes alternate and the entries are exactly the expected ones |
| BreakGlass.BreakGlass.InForce | crates/ferrum-admission/src/break_glass.rs:110-113 | a held grant is in force exactly while its window covers the moment |
| BreakGlass.Run | crates/ferrum-admission/src/break_glass.rs:162-245 | the invariant holds over any mounts, times and journal faults |
| Wire.Reader.Next | crates/ferrum-admission/src/program.rs:96-107 | the next bytes and the cursor after them, or nothing and no movement |
| Wire.Reader.NextBlob | crates/ferrum-admission/src/bundle.rs:490-496 | a length and that many bytes, or nothing |
| Wire.BlobFraming | crates/ferrum-admission/src/bundle.rs:402-408 | a blob written in front of anything is read back and leaves exactly that |
| Fsig.EncodeFsig | crates/ferrum-admission/src/bundle.rs:235-260 | writes the envelope, which begins with FSIG and format 1, exactly for a 32-byte key, a 64-byte signature and a payload of at most a u32; refuses the rest |
| Fsig.DecodeFsig | crates/ferrum-admission/src/bundle.rs:273-314 | accepts magic, format, three blobs of the right sizes and nothing after them |
| Fsig.DecodeEncode | crates/ferrum-admission/src/bundle.rs:235-314 | decoding an encoding gives the same key, signature and payload |
| Fsig.EncodeDecode | crates/ferrum-admission/src/bundle.rs:235-314 | accepted bytes are exactly the encoding of what they decoded to |
| Fsig.DecodeInjective | crates/ferrum-admission/src/bundle.rs:273-314 | no two envelopes decode alike |
| Fadm.ParsePrefixFree | crates/ferrum-admission/src/program.rs:46-170 | every strict extension and every strict prefix of an accepted program is refused |
| Fadm.ParseEncoded | crates/ferrum-compiler/src/encode.rs:108-124 | parsing the encoding of any program whose fields fit their u16 counts and i32 priority returns that program, whatever order its labels were written in |
| FadmExact.AcceptedIsWritten | crates/ferrum-admission/src/program.rs:46-170 | accepted bytes are the writing of the one body they hold |
| FadmExact.AcceptedHeader | crates/ferrum-admission/src/program.rs:46-60 | an accepted file begins with FADM and ABI 1 |
| FadmExact.ParseAlikeIff | crates/ferrum-admission/src/program.rs:216-248 | two accepted files are equal exactly when they hold the same body, and parse alike exactly when their bodies differ in nothing but the order of a selector's labels and labels a later one overrides |
| FadmExact.MapOfLast | crates/ferrum-admission/src/program.rs:229-234 | a label ends with the value of its last occurrence |
| FadmCanonical.AcceptedIff | crates/ferrum-admission/src/program.rs:46-170 | the parser accepts exactly the files of bodies whose counts and lengths fit a u16 and whose priority fits an i32 |
| FadmCanonical.OnlyFileIff | crates/ferrum-admission/src/program.rs:229-234 | the parser is injective at exactly the programs that select on no label: such a program has one file, every other has at least two |
| FadmCanonical.CompilerFileParses | crates/ferrum-compiler/src/encode.rs:198-209 | every accepted program fits the compiler's own encoding, which parses to it |
| FadmCanonical.CanonicalIff | crates/ferrum-compiler/src/encode.rs:198-209 | accepted bytes are what the compiler writes for their program exactly when the keys of every selector strictly ascend |
| FadmCanonical.ThreeFilesOneProgram | crates/ferrum-admission/src/program.rs:229-234 | an input that shows it: three different files of one program, by label order and by a label that comes twice |
| LabelOrder.AscendingIsUnique | crates/ferrum-compiler/src/encode.rs:206-209 | a set of keys has one ascending list, the one a sorted map iterates in |
| FadmReader.ReadStr | crates/ferrum-admission/src/program.rs:146-151 | the cursor reads a u16 length and UTF-8, or refuses |
| FadmReader.ReadStrs | crates/ferrum-admission/src/program.rs:153-160 | the counted loop reads the list the format describes, or refuses |
| FadmReader.DecodeSupply | crates/ferrum-admission/src/program.rs:172-191 | agrees with the supply codec on the bytes not yet read |
| FadmReader.DecodeDeny | crates/ferrum-admission/src/program.rs:193-206 | agrees with the deny codec |
| FadmReader.DecodeMutate | crates/ferrum-admission/src/program.rs:208-214 | agrees with the mutate codec |
| FadmReader.DecodeLabelSelector | crates/ferrum-admission/src/program.rs:229-248 | agrees with the selector codec, with later labels overwriting earlier ones |
| FadmReader.DecodeSelector | crates/ferrum-admission/src/program.rs:216-227 | agrees with the scope codec |
| FadmReader.ParseProgram | crates/ferrum-admission/src/program.rs:46-82 | the cursor's parse is the parse the round trip and prefix-freedom are about |
| Text.DecodeEncode | crates/ferrum-admission/src/program.rs:146-151 | every string survives its own UTF-8 |
| Text.EncodeDecode | crates/ferrum-admission/src/program.rs:146-151 | accepted UTF-8 is exactly the encoding of what it decodes to |
| Text.TrimCuts | crates/ferrum-policy/src/eval.rs:60-66 | trimming cuts white space off both ends, and all of it |
| Der.TakeSplits | crates/ferrum-admission/src/serving_cert.rs:587-613 | an accepted element splits the input into a header, the value and a strictly shorter rest |
| Der.TlvFraming | crates/ferrum-admission/src/serving_cert.rs:587-613 | an element written by a DER encoder in front of anything is taken back whole |
| Der.SanDnsNames | crates/ferrum-admission/src/serving_cert.rs:512-531 | the loop over general names collects dNSNames and ends on every input |
| Der.AuthorityKeyId | crates/ferrum-admission/src/serving_cert.rs:533-547 | the loop over fields finds the first keyIdentifier and ends on every input |
| Der.ReadExtensions | crates/ferrum-admission/src/serving_cert.rs:481-510 | the loop over extensions reads the two it knows, past a critical flag, and ends on every input |
| Der.CertificateFacts | crates/ferrum-admission/src/serving_cert.rs:424-475 | the walk over a certificate, refusing anything out of place |
| DerCert.FactsOfCertificate | crates/ferrum-admission/src/serving_cert.rs:424-547 | for every certificate laid out by a DER encoder the facts are its notAfter, its dNSNames in order, its issuer byte for byte and its authority's keyIdentifier |
| DerCert.OneSan | crates/ferrum-admission/src/serving_cert.rs:481-531 | with one subjectAltName, wherever it stands, the names are its dNSNames |
| DerCert.OneAki | crates/ferrum-admission/src/serving_cert.rs:481-547 | with one authorityKeyIdentifier the key is its keyIdentifier |
| Base64.ValDigit | crates/ferrum-admission/src/encoding.rs:117-126 | every accepted digit is the digit of its value |
| Base64.DigitsAreTheAlphabet | crates/ferrum-admission/src/encoding.rs:46-70 | the digits are those of table 1 of RFC 4648 in its order, and the padding is the equals sign |
| Base64.B64Encode | crates/ferrum-admission/src/encoding.rs:46-70 | three bytes to four characters at a time, padded at the end |
| Base64.B64Decode | crates/ferrum-admission/src/encoding.rs:72-115 | trims, checks the length, then four characters at a time without an index out of range |
| Base64.RoundTrip | crates/ferrum-admission/src/encoding.rs:46-115 | decoding inverts encoding for every byte sequence |
| Base64.Canonical | crates/ferrum-admission/src/encoding.rs:72-115 | re-encoding an accepted, untrimmed text gives it back exactly when the last group's discarded bits are zero |

## Left out

- Sockets, HTTP, TLS handshakes, threads, stderr lines, metrics and status files: plumbing.
- Ed25519, SHA-256, PEM, X.509 time parsing and JSON parsing: their answers are parameters (`SignatureCheck`, `check`, `digestOf`, `TimeOf`, an already parsed `Json`).
- The serialised JSON of a reply and the detail text of errors: a reply is a value that names its refusal, and an error is its class.
- u64 counters are unbounded: wrap-around after 2^64 increments is not modelled.
- Image rules for every image of a pod: the evaluator judges one representative image, and the model does the same.
- `container_flag_window`, which is not bounded, and the identity and label counters of the event path.
- The FRMB wrapper around an admission program, the Secret and directory loaders, and the eBPF program FEBP.
- The hash chain of the break-glass journal: the journal is a sequence that a write extends or does not.
- The selector and path matching of runtime rules: their answers per record are inputs of `React.Decide`.
- UnprovenWindows.Evict: orders the keys by when they were seen where the source sorts the times themselves; the cut is the same.
- FadmReader.DecodeDeny: reads its nine flags in a loop where the source names them one by one.
- React.Agent.HandleEvent: leaves the policy and image digests, comm, syscall and pid out of the record, which copies them from its inputs.
- Clock.Restart: assumes that a time written to the file is read back, which holds for years 0 to 9999.
- KernelPublish.Run: takes the compiled rules of a policy as identities, slot by slot, not as kernel rule structures.
