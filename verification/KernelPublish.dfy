/**
 The two-map kernel publish protocol. Rules go into one BPF map and the cgroups they apply to
 into another; no write covers both, and any write may fail. What has to hold at every point
 in between is that rules never stand next to a set another policy selected.
 */
module KernelPublish {
  import opened Wrappers

  type Digest = string
  type CgroupId = nat

  const MAX_KERNEL_RULES: nat := 64
  const CGROUPS_MAX_ENTRIES: nat := 65536

  /** A slot of the rule map: which rule of which policy it holds. */
  datatype Slot = Empty | Rule(policy: Digest, index: nat)

  function EmptySlots(): (s: seq<Slot>)
    ensures |s| == MAX_KERNEL_RULES && forall i :: 0 <= i < |s| ==> s[i] == Empty
  {
    seq(MAX_KERNEL_RULES, _ => Empty)
  }

  /** The map when policy `d`, which compiles to `n` rules, is the only one in it. */
  function Filled(d: Digest, n: nat): (s: seq<Slot>)
    ensures |s| == MAX_KERNEL_RULES && forall i :: 0 <= i < |s| ==> s[i] == if i < n then Rule(d, i) else Empty
  {
    seq(MAX_KERNEL_RULES, i requires 0 <= i => if i < n then Rule(d, i) else Empty)
  }

  // ---- The plan --------------------------------------------------------------------

  datatype Step = RetireRules | PublishSelected | PublishRules

  function PlanKernelPublish(digest: Option<Digest>, published: Option<Digest>, selectedChanged: bool): seq<Step> {
    if digest == published then (if selectedChanged then [PublishSelected] else [])
    else [RetireRules] + (if selectedChanged then [PublishSelected] else []) + [PublishRules]
  }

  datatype SyncPlan = SyncPlan(insert: set<CgroupId>, remove: set<CgroupId>) {
    /** One write for every key. */
    function Moves(): nat {
      |remove| + |insert|
    }
  }

  function PlanMapSync(current: set<CgroupId>, next: set<CgroupId>): Option<SyncPlan> {
    if |next| > CGROUPS_MAX_ENTRIES then None else Some(SyncPlan(next - current, current - next))
  }

  /** The plan is empty exactly when the sets are equal, and carrying it out gives the wanted set. */
  lemma PlanMapSyncMeaning(current: set<CgroupId>, next: set<CgroupId>)
    ensures PlanMapSync(current, next).Some? <==> |next| <= 65_536
    ensures PlanMapSync(current, next).Some? ==>
              var plan := PlanMapSync(current, next).value;
              && (plan == SyncPlan({}, {}) <==> current == next)
              && current - plan.remove + plan.insert == next
              && plan.insert <= next && plan.insert !! current
  {
    assert current == next <==> next - current == {} && current - next == {};
    assert current - (current - next) + (next - current) == next;
  }

  // ---- Safety of the two maps ------------------------------------------------------

  /** The maps at one moment, with every set each policy has been computed to select so far. */
  datatype Maps = Maps(slots: seq<Slot>, selected: set<CgroupId>, chosen: map<Digest, set<CgroupId>>)

  /** Every cgroup the rules apply to was selected by the policy the rules come from. */
  predicate Safe(m: Maps) {
    forall i :: 0 <= i < |m.slots| && m.slots[i].Rule? ==> Owned(m, m.slots[i].policy)
  }

  predicate Owned(m: Maps, d: Digest) {
    d in m.chosen && m.selected <= m.chosen[d]
  }

  lemma SafeWithFewer(m: Maps, fewer: set<CgroupId>)
    requires Safe(m) && fewer <= m.selected
    ensures Safe(m.(selected := fewer))
  {
    forall d | Owned(m, d) ensures Owned(m.(selected := fewer), d) {}
  }

  lemma OneMoreKey(was: set<CgroupId>, ids: set<CgroupId>, rest: set<CgroupId>, id: CgroupId)
    requires rest <= ids && id in rest
    ensures was + (ids - rest) + {id} == was + (ids - (rest - {id})) <= was + ids
  {
  }

  predicate OnePolicy(slots: seq<Slot>) {
    forall i, j :: 0 <= i < |slots| && 0 <= j < |slots| && slots[i].Rule? && slots[j].Rule? ==>
      slots[i].policy == slots[j].policy
  }

  // ---- Where the faults fall -------------------------------------------------------

  predicate AllGood(fails: nat -> bool, from: nat, n: nat) {
    forall k :: from <= k < from + n ==> !fails(k)
  }

  /** How many of the `len` writes from number `from` on succeed before one fails. */
  function Good(fails: nat -> bool, from: nat, len: nat): (n: nat)
    ensures n <= len
    decreases len, from
  {
    if len == 0 || fails(from) then 0 else 1 + Good(fails, from + 1, len - 1)
  }

  /** It is the number that this says it is. */
  lemma {:induction false} GoodIs(fails: nat -> bool, from: nat, len: nat, n: nat)
    requires n <= len && AllGood(fails, from, n) && (n < len ==> fails(from + n))
    ensures Good(fails, from, len) == n
    decreases n
  {
    if n > 0 {
      assert !fails(from);
      GoodIs(fails, from + 1, len - 1, n - 1);
    }
  }

  lemma {:induction false} GoodMeans(fails: nat -> bool, from: nat, len: nat)
    ensures AllGood(fails, from, Good(fails, from, len))
    ensures Good(fails, from, len) < len ==> fails(from + Good(fails, from, len))
    decreases len
  {
    if len > 0 && !fails(from) {
      GoodMeans(fails, from + 1, len - 1);
      var n := Good(fails, from + 1, len - 1);
      forall k | from <= k < from + 1 + n ensures !fails(k) {}
    }
  }

  lemma GoodSplit(fails: nat -> bool, from: nat, a: nat, b: nat)
    ensures Good(fails, from, a + b) == if Good(fails, from, a) < a then Good(fails, from, a) else a + Good(fails, from + a, b)
  {
    GoodMeans(fails, from, a);
    GoodMeans(fails, from + a, b);
    GoodIs(fails, from, a + b, if Good(fails, from, a) < a then Good(fails, from, a) else a + Good(fails, from + a, b));
  }

  /** A map whose first `i` slots have been overwritten with those of `to`. */
  function Written(to: seq<Slot>, was: seq<Slot>, i: nat): (s: seq<Slot>)
    requires |to| == |was| && i <= |to|
    ensures |s| == |was| && forall k :: 0 <= k < |s| ==> s[k] == if k < i then to[k] else was[k]
  {
    seq(|was|, k requires 0 <= k < |was| && |to| == |was| => if k < i then to[k] else was[k])
  }

  lemma OneMoreSlot(to: seq<Slot>, was: seq<Slot>, i: nat)
    requires |to| == |was| && i < |to|
    ensures Written(to, was, i)[i := to[i]] == Written(to, was, i + 1)
  {
  }

  lemma WrittenEnds(to: seq<Slot>, was: seq<Slot>)
    requires |to| == |was|
    ensures Written(to, was, 0) == was && Written(to, was, |to|) == to
  {
  }

  /** What clearing leaves when its first write is number `at`. */
  function ClearedSlots(fails: nat -> bool, at: nat, was: seq<Slot>): (s: seq<Slot>)
    requires |was| == MAX_KERNEL_RULES
    ensures |s| == MAX_KERNEL_RULES
  {
    Written(EmptySlots(), was, Good(fails, at, MAX_KERNEL_RULES))
  }

  /** What publishing `n` rules of `d` leaves: all of them, or after a fault what the clearing
      that follows it leaves of the part already written. */
  function SyncedSlots(fails: nat -> bool, at: nat, was: seq<Slot>, d: Digest, n: nat): (s: seq<Slot>)
    requires |was| == MAX_KERNEL_RULES
    ensures |s| == MAX_KERNEL_RULES
  {
    if n > MAX_KERNEL_RULES then was
    else
      var f := Good(fails, at, MAX_KERNEL_RULES);
      var part := Written(Filled(d, n), was, f);
      if f == MAX_KERNEL_RULES then part else ClearedSlots(fails, at + f + 1, part)
  }

  // ---- The handle ------------------------------------------------------------------

  class KernelHandle {
    /** Which map writes fail, counted from the first. */
    const fails: nat -> bool
    var slots: seq<Slot>
    var selected: set<CgroupId>
    var writes: nat
    ghost var chosen: map<Digest, set<CgroupId>>
    /** The maps after every write so far. */
    ghost var trace: seq<Maps>

    constructor (fails: nat -> bool)
      ensures Valid() && slots == EmptySlots() && selected == {} && this.fails == fails
    {
      this.fails := fails;
      slots, selected, writes := EmptySlots(), {}, 0;
      chosen, trace := map[], [];
    }

    ghost function Now(): Maps
      reads this
    {
      Maps(slots, selected, chosen)
    }

    /** The maps are safe now and were after every write that was ever made. */
    ghost predicate Valid()
      reads this
    {
      && |slots| == MAX_KERNEL_RULES
      && |trace| == writes
      && Safe(Now())
      && forall k :: 0 <= k < |trace| ==> Safe(trace[k])
    }

    ghost predicate NoFault(from: nat, to: nat)
      reads this
    {
      from <= to && AllGood(fails, from, to - from)
    }

    method WriteSlot(i: nat, s: Slot) returns (ok: bool)
      requires Valid() && i < MAX_KERNEL_RULES
      requires s.Rule? ==> Owned(Now(), s.policy)
      modifies this`slots, this`writes, this`trace
      ensures Valid() && writes == old(writes) + 1 && ok == !fails(old(writes))
      ensures slots == if ok then old(slots)[i := s] else old(slots)
      ensures trace == old(trace) + [Now()]
    {
      ok := !fails(writes);
      writes := writes + 1;
      if ok {
        slots := slots[i := s];
      }
      assert Safe(Now());
      trace := trace + [Now()];
    }

    /** `clear_kernel_rules`: every slot in turn, stopping at the first write that fails. */
    method ClearRules() returns (ok: bool)
      requires Valid()
      modifies this`slots, this`writes, this`trace
      ensures Valid() && old(trace) <= trace
      ensures slots == ClearedSlots(fails, old(writes), old(slots))
      ensures ok ==> slots == EmptySlots()
      ensures ok <==> Good(fails, old(writes), MAX_KERNEL_RULES) == MAX_KERNEL_RULES
      ensures ok <==> NoFault(old(writes), writes)
      ensures ok ==> writes == old(writes) + MAX_KERNEL_RULES
    {
      ghost var was, at := slots, writes;
      WrittenEnds(EmptySlots(), was);
      var i := 0;
      while i < MAX_KERNEL_RULES
        invariant 0 <= i <= MAX_KERNEL_RULES
        invariant Valid() && old(trace) <= trace && writes == at + i
        invariant slots == Written(EmptySlots(), was, i)
        invariant AllGood(fails, at, i)
      {
        OneMoreSlot(EmptySlots(), was, i);
        ok := WriteSlot(i, Empty);
        if !ok {
          GoodIs(fails, at, MAX_KERNEL_RULES, i);
          return;
        }
        i := i + 1;
      }
      GoodIs(fails, at, MAX_KERNEL_RULES, MAX_KERNEL_RULES);
      ok := true;
    }

    /** The writes of `sync_kernel_rules` up to the first that fails. */
    method FillSlots(d: Digest, n: nat) returns (ok: bool)
      requires Valid() && Owned(Now(), d)
      modifies this`slots, this`writes, this`trace
      ensures Valid() && old(trace) <= trace
      ensures slots == Written(Filled(d, n), old(slots), Good(fails, old(writes), MAX_KERNEL_RULES))
      ensures ok <==> Good(fails, old(writes), MAX_KERNEL_RULES) == MAX_KERNEL_RULES
      ensures ok <==> NoFault(old(writes), writes)
      ensures writes == old(writes) + if ok then MAX_KERNEL_RULES else Good(fails, old(writes), MAX_KERNEL_RULES) + 1
    {
      ghost var was, at := slots, writes;
      var to := Filled(d, n);
      WrittenEnds(to, was);
      var i := 0;
      while i < MAX_KERNEL_RULES
        invariant 0 <= i <= MAX_KERNEL_RULES
        invariant Valid() && old(trace) <= trace && writes == at + i
        invariant slots == Written(to, was, i)
        invariant AllGood(fails, at, i)
      {
        OneMoreSlot(to, was, i);
        ok := WriteSlot(i, to[i]);
        if !ok {
          GoodIs(fails, at, MAX_KERNEL_RULES, i);
          return;
        }
        i := i + 1;
      }
      GoodIs(fails, at, MAX_KERNEL_RULES, MAX_KERNEL_RULES);
      ok := true;
    }

    /** `sync_kernel_rules`: all slots are written, and a failure half way clears them again. */
    method SyncRules(d: Digest, n: nat) returns (ok: bool)
      requires Valid() && Owned(Now(), d)
      modifies this`slots, this`writes, this`trace
      ensures Valid() && old(trace) <= trace
      ensures slots == SyncedSlots(fails, old(writes), old(slots), d, n)
      ensures ok <==> n <= MAX_KERNEL_RULES && Good(fails, old(writes), MAX_KERNEL_RULES) == MAX_KERNEL_RULES
      ensures ok <==> n <= MAX_KERNEL_RULES && NoFault(old(writes), writes)
      ensures ok ==> slots == Filled(d, n) && writes == old(writes) + MAX_KERNEL_RULES
      ensures ok ==> |slots| == 64 && forall i :: 0 <= i < 64 ==> slots[i] == if i < n then Rule(d, i) else Empty
      ensures n > MAX_KERNEL_RULES ==> writes == old(writes)
    {
      if n > MAX_KERNEL_RULES {
        return false;
      }
      GoodMeans(fails, writes, MAX_KERNEL_RULES);
      ok := FillSlots(d, n);
      if !ok {
        ghost var f := writes - 1;
        var cleared := ClearRules();
        assert fails(f);
      }
    }

    /** One key of the selected map, inserted or removed. */
    method WriteSelected(id: CgroupId, present: bool) returns (ok: bool)
      requires Valid()
      requires present ==> Safe(Now().(selected := selected + {id}))
      modifies this`selected, this`writes, this`trace
      ensures Valid() && writes == old(writes) + 1 && ok == !fails(old(writes))
      ensures selected == if !ok then old(selected) else if present then old(selected) + {id} else old(selected) - {id}
      ensures trace == old(trace) + [Now()]
    {
      ok := !fails(writes);
      writes := writes + 1;
      if ok {
        selected := if present then selected + {id} else selected - {id};
      }
      assert Safe(Now());
      trace := trace + [Now()];
    }

    method RemoveAll(ids: set<CgroupId>) returns (ok: bool)
      requires Valid()
      modifies this`selected, this`writes, this`trace
      ensures Valid() && old(trace) <= trace
      ensures ok <==> Good(fails, old(writes), |ids|) == |ids|
      ensures ok <==> NoFault(old(writes), writes)
      ensures ok ==> writes == old(writes) + |ids|
      ensures !ok ==> writes == old(writes) + Good(fails, old(writes), |ids|) + 1
      ensures ok ==> selected == old(selected) - ids
      ensures old(selected) - ids <= selected <= old(selected)
    {
      ghost var before, at, done: nat := selected, writes, 0;
      var rest := ids;
      while rest != {}
        invariant Valid() && old(trace) <= trace
        invariant writes == at + done && AllGood(fails, at, done)
        invariant done + |rest| == |ids|
        invariant rest <= ids && selected == before - (ids - rest)
      {
        var id :| id in rest;
        ok := WriteSelected(id, false);
        if !ok {
          GoodIs(fails, at, |ids|, done);
          return;
        }
        rest, done := rest - {id}, done + 1;
      }
      GoodIs(fails, at, |ids|, done);
      ok := true;
    }

    method InsertAll(ids: set<CgroupId>) returns (ok: bool)
      requires Valid() && Safe(Now().(selected := selected + ids))
      modifies this`selected, this`writes, this`trace
      ensures Valid() && old(trace) <= trace
      ensures ok <==> Good(fails, old(writes), |ids|) == |ids|
      ensures ok <==> NoFault(old(writes), writes)
      ensures ok ==> writes == old(writes) + |ids|
      ensures !ok ==> writes == old(writes) + Good(fails, old(writes), |ids|) + 1
      ensures ok ==> selected == old(selected) + ids
      ensures old(selected) <= selected <= old(selected) + ids
    {
      ghost var before, at, done: nat := Now(), writes, 0;
      var rest := ids;
      while rest != {}
        invariant Valid() && old(trace) <= trace && slots == before.slots
        invariant writes == at + done && AllGood(fails, at, done)
        invariant done + |rest| == |ids|
        invariant rest <= ids && selected == before.selected + (ids - rest)
      {
        var id :| id in rest;
        OneMoreKey(before.selected, ids, rest, id);
        SafeWithFewer(before.(selected := before.selected + ids), selected + {id});
        ok := WriteSelected(id, true);
        if !ok {
          GoodIs(fails, at, |ids|, done);
          return;
        }
        rest, done := rest - {id}, done + 1;
      }
      GoodIs(fails, at, |ids|, done);
      ok := true;
    }

    /** `sync_selected_cgroups`: removals first; a failure leaves part of the plan done. */
    method SyncSelected(plan: SyncPlan) returns (ok: bool)
      requires Valid() && Safe(Now().(selected := selected + plan.insert))
      modifies this`selected, this`writes, this`trace
      ensures Valid() && old(trace) <= trace
      ensures ok <==> Good(fails, old(writes), plan.Moves()) == plan.Moves()
      ensures ok <==> NoFault(old(writes), writes)
      ensures ok ==> writes == old(writes) + plan.Moves()
      ensures ok ==> selected == old(selected) - plan.remove + plan.insert
      ensures old(selected) - plan.remove <= selected <= old(selected) + plan.insert
    {
      GoodSplit(fails, writes, |plan.remove|, |plan.insert|);
      ok := RemoveAll(plan.remove);
      if ok {
        ok := InsertAll(plan.insert);
      }
    }
  }

  // ---- One tick --------------------------------------------------------------------

  /** What the agent answers in one tick: the bundle in force and the cgroups it selects. */
  datatype Policy = Policy(digest: Option<Digest>, want: set<CgroupId>)

  datatype Outcome = Unchanged | Published(digest: Option<Digest>) | Failed

  /** With no bundle there is nothing to select. */
  predicate Computed(p: Policy) {
    p.digest.None? ==> p.want == {}
  }

  function AddChoice(chosen: map<Digest, set<CgroupId>>, p: Policy): map<Digest, set<CgroupId>> {
    match p.digest
    case None => chosen
    case Some(d) => chosen[d := p.want + if d in chosen then chosen[d] else {}]
  }

  /** What the ring thread's bookkeeping means between ticks: a published digest says the rule
      map holds that policy whole, next to cgroups that policy selected. */
  ghost predicate Consistent(h: KernelHandle, compiled: Digest -> nat, published: Option<Digest>)
    reads h
  {
    && h.Valid()
    && OnePolicy(h.slots) && Compiles(compiled, published)
    && (published.Some? ==> Owned(h.Now(), published.value) && h.slots == Filled(published.value, compiled(published.value)))
  }

  /** The ring thread's `published` after a tick. */
  function AfterTick(published: Option<Digest>, r: Outcome): Option<Digest> {
    match r
    case Unchanged => published
    case Published(digest) => digest
    case Failed => None
  }

  /** The rule map a policy asks for. */
  function RulesOf(compiled: Digest -> nat, digest: Option<Digest>): seq<Slot> {
    match digest
    case Some(d) => Filled(d, compiled(d))
    case None => EmptySlots()
  }

  predicate Compiles(compiled: Digest -> nat, digest: Option<Digest>) {
    digest.Some? ==> compiled(digest.value) <= MAX_KERNEL_RULES
  }

  /** What a tick leaves in the rule map: what was there, all of it or from a slot on that could not
      be cleared; nothing; a policy's rules; or those of them published before slot `to` that the
      clearing, stopped at slot `from`, did not reach. */
  datatype Left = Kept | Cleared(upTo: nat) | Off | Full(policy: Digest, rules: nat) | Partly(policy: Digest, rules: nat, from: nat, to: nat)

  predicate InRange(l: Left) {
    match l
    case Cleared(i) => i <= MAX_KERNEL_RULES
    case Partly(_, _, from, to) => from <= MAX_KERNEL_RULES && to <= MAX_KERNEL_RULES
    case _ => true
  }

  function SlotsOf(l: Left, was: seq<Slot>): (s: seq<Slot>)
    requires |was| == MAX_KERNEL_RULES && InRange(l)
    ensures |s| == MAX_KERNEL_RULES
  {
    match l
    case Kept => was
    case Cleared(i) => Written(EmptySlots(), was, i)
    case Off => EmptySlots()
    case Full(d, n) => Filled(d, n)
    case Partly(d, n, from, to) => Written(EmptySlots(), Written(Filled(d, n), EmptySlots(), to), from)
  }

  /** What decides how a tick goes: the faults, the policy, how many writes move the selected set,
      and whether the policy changed. */
  datatype Course = Course(fails: nat -> bool, compiled: Digest -> nat, digest: Option<Digest>, moves: nat, changed: bool)

  /** What a tick leaves, and whether it fails, from the publishing of the rules on ... */
  function RulesStage(c: Course, at: nat): (r: (Left, bool))
    ensures InRange(r.0)
  {
    match c.digest
    case None => (Off, false)
    case Some(d) =>
      var n, to := c.compiled(d), Good(c.fails, at, MAX_KERNEL_RULES);
      if n > MAX_KERNEL_RULES then (Off, true)
      else if to == MAX_KERNEL_RULES then (Full(d, n), false)
      else (Partly(d, n, Good(c.fails, at + to + 1, MAX_KERNEL_RULES), to), true)
  }

  /** ... from the moving of the set on ... */
  function SelectedStage(c: Course, at: nat): (r: (Left, bool))
    ensures InRange(r.0)
  {
    if Good(c.fails, at, c.moves) < c.moves then (if c.changed then Off else Kept, true)
    else if c.changed then RulesStage(c, at + c.moves)
    else (Kept, false)
  }

  /** ... and from the retiring of the rules on. */
  function RetireStage(c: Course, at: nat): (r: (Left, bool))
    ensures InRange(r.0)
  {
    var i := Good(c.fails, at, MAX_KERNEL_RULES);
    if i < MAX_KERNEL_RULES then (Cleared(i), true) else SelectedStage(c, at + MAX_KERNEL_RULES)
  }

  function Stage(c: Course, step: Step, at: nat): (r: (Left, bool))
    ensures InRange(r.0)
  {
    match step
    case RetireRules => RetireStage(c, at)
    case PublishSelected => SelectedStage(c, at)
    case PublishRules => RulesStage(c, at)
  }

  function CourseOf(fails: nat -> bool, compiled: Digest -> nat, published: Option<Digest>, p: Policy, moves: nat): Course {
    Course(fails, compiled, p.digest, moves, p.digest != published)
  }

  /** What a tick whose first write is number `at` leaves, and whether it fails. */
  function TickOutcome(c: Course, at: nat, want: set<CgroupId>): (r: (Left, bool))
    ensures InRange(r.0)
  {
    if |want| > CGROUPS_MAX_ENTRIES then (Kept, true)
    else if c.changed then RetireStage(c, at)
    else SelectedStage(c, at)
  }

  lemma OnePolicyKept(was: seq<Slot>, now: seq<Slot>)
    requires OnePolicy(was) && |now| == |was| && forall i :: 0 <= i < |now| ==> now[i] == Empty || now[i] == was[i]
    ensures OnePolicy(now)
  {
  }

  lemma MoreChosen(m: Maps, p: Policy)
    requires Safe(m)
    ensures Safe(m.(chosen := AddChoice(m.chosen, p)))
    ensures forall d :: Owned(m, d) ==> Owned(m.(chosen := AddChoice(m.chosen, p)), d)
    ensures p.digest.Some? ==> p.digest.value in AddChoice(m.chosen, p) && p.want <= AddChoice(m.chosen, p)[p.digest.value]
  {
    forall d | Owned(m, d) ensures Owned(m.(chosen := AddChoice(m.chosen, p)), d) {}
  }

  lemma OnePolicySynced(fails: nat -> bool, at: nat, d: Digest, n: nat)
    ensures OnePolicy(SyncedSlots(fails, at, EmptySlots(), d, n))
  {
    var s := SyncedSlots(fails, at, EmptySlots(), d, n);
    assert forall i :: 0 <= i < |s| ==> s[i] == Empty || s[i] == Rule(d, i);
  }

  lemma SyncedIsLeft(c: Course, at: nat, was: seq<Slot>)
    requires |was| == MAX_KERNEL_RULES && c.digest.Some?
    ensures SyncedSlots(c.fails, at, EmptySlots(), c.digest.value, c.compiled(c.digest.value)) == SlotsOf(RulesStage(c, at).0, was)
  {
    WrittenEnds(Filled(c.digest.value, c.compiled(c.digest.value)), EmptySlots());
  }

  /** Put the rules of the policy in an empty map; with no policy there are none to put. */
  method PublishNewRules(h: KernelHandle, compiled: Digest -> nat, digest: Option<Digest>, ghost c: Course, ghost was: seq<Slot>)
    returns (ok: bool)
    requires h.Valid() && h.slots == EmptySlots() && (digest.Some? ==> Owned(h.Now(), digest.value))
    requires c.fails == h.fails && c.compiled == compiled && c.digest == digest && |was| == MAX_KERNEL_RULES
    modifies h`slots, h`writes, h`trace
    ensures h.Valid() && OnePolicy(h.slots) && old(h.trace) <= h.trace
    ensures ok <==> Compiles(compiled, digest) && h.NoFault(old(h.writes), h.writes)
    ensures ok <==> !RulesStage(c, old(h.writes)).1
    ensures h.slots == SlotsOf(RulesStage(c, old(h.writes)).0, was)
  {
    match digest {
      case Some(d) =>
        OnePolicySynced(h.fails, h.writes, d, compiled(d));
        SyncedIsLeft(c, h.writes, was);
        ok := h.SyncRules(d, compiled(d));
      case None => ok := true;
    }
  }

  /** What is in the rule map when a step comes up, in a tick that found `was`. */
  predicate Before(step: Step, changed: bool, slots: seq<Slot>, was: seq<Slot>) {
    match step
    case RetireRules => slots == was
    case PublishSelected => slots == if changed then EmptySlots() else was
    case PublishRules => slots == EmptySlots()
  }

  /** What a step that succeeded hands on: the stage it began is the stage that comes next, or is over. */
  ghost predicate Handed(c: Course, step: Step, at: nat, next: nat, slots: seq<Slot>, was: seq<Slot>)
    requires |was| == MAX_KERNEL_RULES
  {
    match step
    case RetireRules => RetireStage(c, at) == SelectedStage(c, next)
    case PublishSelected =>
      SelectedStage(c, at) == (if c.changed then RulesStage(c, next) else (Kept, false)) && (c.changed || slots == was)
    case PublishRules => !RulesStage(c, at).1 && slots == SlotsOf(RulesStage(c, at).0, was)
  }

  method Retire(h: KernelHandle, ghost c: Course) returns (ok: bool)
    requires h.Valid() && OnePolicy(h.slots) && c.fails == h.fails
    modifies h`slots, h`writes, h`trace
    ensures h.Valid() && OnePolicy(h.slots) && old(h.trace) <= h.trace
    ensures ok <==> h.NoFault(old(h.writes), h.writes)
    ensures ok ==> h.slots == EmptySlots() && RetireStage(c, old(h.writes)) == SelectedStage(c, h.writes)
    ensures !ok ==> RetireStage(c, old(h.writes)).1 && h.slots == SlotsOf(RetireStage(c, old(h.writes)).0, old(h.slots))
  {
    ok := h.ClearRules();
    OnePolicyKept(old(h.slots), h.slots);
  }

  method Move(h: KernelHandle, plan: SyncPlan, ghost c: Course, ghost was: seq<Slot>) returns (ok: bool)
    requires h.Valid() && Safe(h.Now().(selected := h.selected + plan.insert)) && c.fails == h.fails && c.moves == plan.Moves()
    requires |was| == MAX_KERNEL_RULES && h.slots == if c.changed then EmptySlots() else was
    modifies h`selected, h`writes, h`trace
    ensures h.Valid() && old(h.trace) <= h.trace
    ensures ok <==> h.NoFault(old(h.writes), h.writes)
    ensures ok ==> h.selected == old(h.selected) - plan.remove + plan.insert
    ensures ok ==> SelectedStage(c, old(h.writes)) == if c.changed then RulesStage(c, h.writes) else (Kept, false)
    ensures !ok ==> SelectedStage(c, old(h.writes)).1 && h.slots == SlotsOf(SelectedStage(c, old(h.writes)).0, was)
  {
    ok := h.SyncSelected(plan);
  }

  /** Carry out one step of the plan. A step that fails leaves the rule map as the tick leaves it;
      one that succeeds hands on to the next. */
  method RunStep(h: KernelHandle, compiled: Digest -> nat, p: Policy, plan: SyncPlan, step: Step, ghost c: Course, ghost was: seq<Slot>)
    returns (ok: bool)
    requires h.Valid() && OnePolicy(h.slots) && |was| == MAX_KERNEL_RULES && Before(step, c.changed, h.slots, was)
    requires c == Course(h.fails, compiled, p.digest, plan.Moves(), c.changed)
    requires step == PublishSelected ==> Safe(h.Now().(selected := h.selected + plan.insert))
    requires step == PublishRules && p.digest.Some? ==> Owned(h.Now(), p.digest.value)
    modifies h`slots, h`selected, h`writes, h`trace
    ensures h.Valid() && OnePolicy(h.slots) && old(h.trace) <= h.trace
    ensures ok <==> h.NoFault(old(h.writes), h.writes) && (step == PublishRules ==> Compiles(compiled, p.digest))
    ensures step != PublishSelected ==> h.selected == old(h.selected)
    ensures step == PublishSelected ==> h.slots == old(h.slots)
    ensures step == PublishSelected && ok ==> h.selected == old(h.selected) - plan.remove + plan.insert
    ensures step == RetireRules && ok ==> h.slots == EmptySlots()
    ensures !ok ==> Stage(c, step, old(h.writes)).1 && h.slots == SlotsOf(Stage(c, step, old(h.writes)).0, was)
    ensures ok ==> Handed(c, step, old(h.writes), h.writes, h.slots, was)
  {
    match step {
      case RetireRules =>
        ok := Retire(h, c);
      case PublishSelected =>
        ok := Move(h, plan, c, was);
      case PublishRules =>
        ok := PublishNewRules(h, compiled, p.digest, c, was);
    }
  }

  /** Moving the selected set under the policy that is already published, or under no rules,
      leaves the rules next to cgroups of their own policy. */
  lemma SelectingIsSafe(m: Maps, compiled: Digest -> nat, p: Policy, published: Option<Digest>, insert: set<CgroupId>)
    requires Safe(m) && Computed(p) && insert <= p.want
    requires p.digest.Some? ==> p.digest.value in m.chosen && p.want <= m.chosen[p.digest.value]
    requires m.slots == EmptySlots()
             || (p.digest == published && (published.Some? ==> m.slots == Filled(published.value, compiled(published.value))))
    ensures Safe(m.(selected := m.selected + insert))
  {
    if p.digest.None? {
      assert m.selected + insert == m.selected;
    }
  }

  /** The steps in order. Rules come off before anything else and go back after everything
      else, both exactly when the policy changed; the set moves exactly when it has to. */
  lemma PlanOrder(digest: Option<Digest>, published: Option<Digest>, selectedChanged: bool, k: nat)
    requires k < |PlanKernelPublish(digest, published, selectedChanged)|
    ensures var steps := PlanKernelPublish(digest, published, selectedChanged);
            match steps[k]
            case RetireRules => k == 0 && digest != published
            case PublishRules => k == |steps| - 1 && k > 0 && digest != published && (selectedChanged ==> steps[k - 1] == PublishSelected)
            case PublishSelected => selectedChanged && if digest == published then |steps| == 1 else k == 1 && |steps| == 3
    ensures digest != published ==> PlanKernelPublish(digest, published, selectedChanged)[0] == RetireRules
  {
  }

  function StepsTo(p: Policy, published: Option<Digest>, plan: SyncPlan): seq<Step> {
    PlanKernelPublish(p.digest, published, plan != SyncPlan({}, {}))
  }

  /** What is there when step `k` of the plan comes up: under an unchanged policy the rules that
      were there, under a new one none; and the new set exactly once its step is done. */
  ghost predicate Midway(now: Maps, was: Maps, compiled: Digest -> nat, p: Policy, published: Option<Digest>, plan: SyncPlan, k: nat) {
    var steps := StepsTo(p, published, plan);
    && k <= |steps| && now.chosen == was.chosen
    && (k == 0 || p.digest == published ==> now.slots == was.slots)
    && (p.digest != published && 0 < k < |steps| ==> now.slots == EmptySlots())
    && (p.digest != published && k == |steps| ==> Compiles(compiled, p.digest))
    && (k == |steps| || steps[k] == PublishRules ==> now.selected == p.want)
    && (k < |steps| && steps[k] != PublishRules ==> now.selected == was.selected)
  }

  /** What a tick starts from: the bookkeeping is right, and the plan is for this policy. */
  ghost predicate Ready(was: Maps, compiled: Digest -> nat, p: Policy, published: Option<Digest>, plan: SyncPlan) {
    && Computed(p)
    && Compiles(compiled, published)
    && (published.Some? ==> Owned(was, published.value) && was.slots == Filled(published.value, compiled(published.value)))
    && (p.digest.Some? ==> p.digest.value in was.chosen && p.want <= was.chosen[p.digest.value])
    && |p.want| <= CGROUPS_MAX_ENTRIES && plan == PlanMapSync(was.selected, p.want).value
  }

  /** Where a tick stands before step `k`: what it will leave is what the steps from there on
      leave, and after the last it has left it. */
  ghost predicate OnCourse(c: Course, steps: seq<Step>, k: nat, at: nat, slots: seq<Slot>, was: seq<Slot>, spec: (Left, bool))
    requires |was| == MAX_KERNEL_RULES && InRange(spec.0)
  {
    if k < |steps| then Stage(c, steps[k], at) == spec else !spec.1 && slots == SlotsOf(spec.0, was)
  }

  lemma NextOnCourse(c: Course, p: Policy, published: Option<Digest>, plan: SyncPlan, k: nat, at: nat, next: nat,
                     slots: seq<Slot>, was: seq<Slot>, spec: (Left, bool))
    requires |was| == MAX_KERNEL_RULES && InRange(spec.0) && k < |StepsTo(p, published, plan)|
    requires c.changed == (p.digest != published) && c.moves == plan.Moves()
    requires Stage(c, StepsTo(p, published, plan)[k], at) == spec
    requires Handed(c, StepsTo(p, published, plan)[k], at, next, slots, was)
    ensures OnCourse(c, StepsTo(p, published, plan), k + 1, next, slots, was, spec)
  {
    PlanOrder(p.digest, published, plan != SyncPlan({}, {}), k);
  }

  /** What step `k` of the plan, done, makes of where the tick stood. */
  lemma NextMidway(now: Maps, next: Maps, was: Maps, compiled: Digest -> nat, p: Policy, published: Option<Digest>, plan: SyncPlan, k: nat)
    requires Ready(was, compiled, p, published, plan) && Midway(now, was, compiled, p, published, plan, k)
    requires k < |StepsTo(p, published, plan)| && next.chosen == now.chosen
    requires match StepsTo(p, published, plan)[k]
             case RetireRules => next.slots == EmptySlots() && next.selected == now.selected
             case PublishSelected => next.slots == now.slots && next.selected == now.selected - plan.remove + plan.insert
             case PublishRules => next.selected == now.selected && Compiles(compiled, p.digest)
    ensures Midway(next, was, compiled, p, published, plan, k + 1)
  {
    PlanMapSyncMeaning(was.selected, p.want);
    PlanOrder(p.digest, published, plan != SyncPlan({}, {}), k);
  }

  /** What midway guarantees the step that comes up. */
  lemma MidwayAllows(now: Maps, was: Maps, compiled: Digest -> nat, p: Policy, published: Option<Digest>, plan: SyncPlan, k: nat)
    requires Ready(was, compiled, p, published, plan) && Midway(now, was, compiled, p, published, plan, k) && Safe(now)
    requires k < |StepsTo(p, published, plan)|
    ensures var step := StepsTo(p, published, plan)[k];
            && Before(step, p.digest != published, now.slots, was.slots)
            && (step == PublishSelected ==> Safe(now.(selected := now.selected + plan.insert)))
            && (step == PublishRules && p.digest.Some? ==> Owned(now, p.digest.value))
  {
    PlanMapSyncMeaning(was.selected, p.want);
    PlanOrder(p.digest, published, plan != SyncPlan({}, {}), k);
    if StepsTo(p, published, plan)[k] == PublishSelected {
      SelectingIsSafe(now, compiled, p, published, plan.insert);
    }
  }

  /** One step from midway to midway. */
  method RunNext(h: KernelHandle, compiled: Digest -> nat, p: Policy, published: Option<Digest>, plan: SyncPlan, k: nat,
                 ghost was: Maps, ghost spec: (Left, bool))
    returns (ok: bool)
    requires h.Valid() && OnePolicy(h.slots) && Ready(was, compiled, p, published, plan)
    requires Midway(h.Now(), was, compiled, p, published, plan, k) && k < |StepsTo(p, published, plan)|
    requires |was.slots| == MAX_KERNEL_RULES && InRange(spec.0)
    requires OnCourse(CourseOf(h.fails, compiled, published, p, plan.Moves()), StepsTo(p, published, plan), k, h.writes, h.slots,
                      was.slots, spec)
    modifies h`slots, h`selected, h`writes, h`trace
    ensures h.Valid() && OnePolicy(h.slots) && old(h.trace) <= h.trace
    ensures ok <==> h.NoFault(old(h.writes), h.writes)
                    && (StepsTo(p, published, plan)[k] == PublishRules ==> Compiles(compiled, p.digest))
    ensures ok ==> Midway(h.Now(), was, compiled, p, published, plan, k + 1)
    ensures ok ==> OnCourse(CourseOf(h.fails, compiled, published, p, plan.Moves()), StepsTo(p, published, plan), k + 1,
                            h.writes, h.slots, was.slots, spec)
    ensures !ok ==> spec.1 && h.slots == SlotsOf(spec.0, was.slots)
  {
    ghost var c, now, at := CourseOf(h.fails, compiled, published, p, plan.Moves()), h.Now(), h.writes;
    var step := StepsTo(p, published, plan)[k];
    MidwayAllows(now, was, compiled, p, published, plan, k);
    ok := RunStep(h, compiled, p, plan, step, c, was.slots);
    if ok {
      NextMidway(now, h.Now(), was, compiled, p, published, plan, k);
      NextOnCourse(c, p, published, plan, k, at, h.writes, h.slots, was.slots, spec);
    }
  }

  lemma FirstStage(c: Course, p: Policy, published: Option<Digest>, plan: SyncPlan, at: nat, was: seq<Slot>)
    requires |was| == MAX_KERNEL_RULES && |p.want| <= CGROUPS_MAX_ENTRIES
    requires c.changed == (p.digest != published) && c.moves == plan.Moves()
    ensures OnCourse(c, StepsTo(p, published, plan), 0, at, was, was, TickOutcome(c, at, p.want))
  {
  }

  lemma RulesComeLast(p: Policy, published: Option<Digest>, plan: SyncPlan, k: nat)
    requires k < |StepsTo(p, published, plan)| && StepsTo(p, published, plan)[k] == PublishRules
    ensures p.digest != published
  {
  }

  /** The steps of a plan, stopping at the first that fails, and where that leaves the two maps. */
  method RunSteps(h: KernelHandle, compiled: Digest -> nat, p: Policy, published: Option<Digest>, plan: SyncPlan) returns (ok: bool)
    requires h.Valid() && OnePolicy(h.slots) && Ready(h.Now(), compiled, p, published, plan)
    modifies h`slots, h`selected, h`writes, h`trace
    ensures h.Valid() && OnePolicy(h.slots) && old(h.trace) <= h.trace
    ensures ok <==> h.NoFault(old(h.writes), h.writes) && (p.digest != published ==> Compiles(compiled, p.digest))
    ensures var outcome := TickOutcome(CourseOf(h.fails, compiled, published, p, plan.Moves()), old(h.writes), p.want);
            outcome.1 == !ok && h.slots == SlotsOf(outcome.0, old(h.slots))
    ensures ok ==> h.selected == p.want
  {
    PlanMapSyncMeaning(h.selected, p.want);
    var steps := StepsTo(p, published, plan);
    ghost var at, was := h.writes, h.Now();
    ghost var c := CourseOf(h.fails, compiled, published, p, plan.Moves());
    ghost var spec := TickOutcome(c, at, p.want);
    FirstStage(c, p, published, plan, at, was.slots);
    var k := 0;
    while k < |steps|
      invariant 0 <= k <= |steps|
      invariant h.Valid() && OnePolicy(h.slots) && old(h.trace) <= h.trace && h.NoFault(at, h.writes)
      invariant OnCourse(c, steps, k, h.writes, h.slots, was.slots, spec)
      invariant Midway(h.Now(), was, compiled, p, published, plan, k)
    {
      ok := RunNext(h, compiled, p, published, plan, k, was, spec);
      if !ok {
        if steps[k] == PublishRules {
          RulesComeLast(p, published, plan, k);
        }
        return;
      }
      k := k + 1;
    }
    ok := true;
  }

  /** A tick that does not fail leaves the rules of the policy, if it changed, and those that
      were there, if it did not. */
  lemma GoodTickLeaves(c: Course, at: nat, want: set<CgroupId>, was: seq<Slot>)
    requires |was| == MAX_KERNEL_RULES && !TickOutcome(c, at, want).1
    ensures SlotsOf(TickOutcome(c, at, want).0, was) == if c.changed then RulesOf(c.compiled, c.digest) else was
  {
  }

  /** The steps of a plan, and what they come to. */
  method RunTick(h: KernelHandle, compiled: Digest -> nat, p: Policy, published: Option<Digest>, plan: SyncPlan) returns (ok: bool)
    requires h.Valid() && OnePolicy(h.slots) && Ready(h.Now(), compiled, p, published, plan)
    modifies h`slots, h`selected, h`writes, h`trace
    ensures h.Valid() && OnePolicy(h.slots) && old(h.trace) <= h.trace
    ensures ok <==> h.NoFault(old(h.writes), h.writes) && (p.digest != published ==> Compiles(compiled, p.digest))
    ensures ok ==> h.selected == p.want && h.slots == if p.digest == published then old(h.slots) else RulesOf(compiled, p.digest)
    ensures Consistent(h, compiled, if ok then p.digest else None)
    ensures var c := CourseOf(h.fails, compiled, published, p, plan.Moves());
            var outcome := TickOutcome(c, old(h.writes), p.want);
            && (!ok <==> outcome.1) && h.slots == SlotsOf(outcome.0, old(h.slots))
            && (!ok ==> (h.slots == EmptySlots() <==> RulesOff(c, old(h.writes), old(h.slots), p.want)))
  {
    ghost var at, was, c := h.writes, h.slots, CourseOf(h.fails, compiled, published, p, plan.Moves());
    ok := RunSteps(h, compiled, p, published, plan);
    if ok {
      GoodTickLeaves(c, at, p.want, was);
    } else {
      FailedTickIff(c, at, was, p.want);
    }
  }

  /** The writes it takes to move the selected set; none are made for one that does not fit. */
  function MovesTo(selected: set<CgroupId>, want: set<CgroupId>): nat {
    |selected - want| + |want - selected|
  }

  lemma PlanMoves(selected: set<CgroupId>, want: set<CgroupId>)
    requires |want| <= CGROUPS_MAX_ENTRIES
    ensures var plan := PlanMapSync(selected, want).value;
            plan.Moves() == MovesTo(selected, want) && (plan != SyncPlan({}, {}) <==> MovesTo(selected, want) != 0)
  {
  }

  /**
   `republish_kernel_policy`. Between ticks the bookkeeping is consistent; after every single
   write of a tick, failed or not, the maps are safe; a tick without a fault ends with exactly
   the wanted rules and cgroups; "unchanged" is answered only when they are there already; and
   what a failing tick leaves in the rule map is settled by where the faults fall.
   */
  method Republish(h: KernelHandle, compiled: Digest -> nat, p: Policy, published: Option<Digest>) returns (r: Outcome)
    requires Consistent(h, compiled, published) && Computed(p)
    modifies h
    ensures Consistent(h, compiled, AfterTick(published, r)) && old(h.trace) <= h.trace
    ensures h.chosen == AddChoice(old(h.chosen), p)
    ensures r == Failed <==> || |p.want| > CGROUPS_MAX_ENTRIES
                             || !h.NoFault(old(h.writes), h.writes)
                             || (p.digest != published && !Compiles(compiled, p.digest))
    ensures var c := CourseOf(h.fails, compiled, published, p, MovesTo(old(h.selected), p.want));
            var outcome := TickOutcome(c, old(h.writes), p.want);
            && (r == Failed <==> outcome.1) && h.slots == SlotsOf(outcome.0, old(h.slots))
            && (r == Failed ==> (h.slots == EmptySlots() <==> RulesOff(c, old(h.writes), old(h.slots), p.want)))
    ensures r != Failed ==> h.selected == p.want && AfterTick(published, r) == p.digest
    ensures |h.slots| == 64
    ensures r != Failed && p.digest.Some? ==>
              && compiled(p.digest.value) <= 64
              && (forall i :: 0 <= i < 64 ==> h.slots[i] == if i < compiled(p.digest.value) then Rule(p.digest.value, i) else Empty)
              && (forall i, k :: 0 <= i < 64 && 0 <= k < compiled(p.digest.value) ==> (h.slots[i] == Rule(p.digest.value, k) <==> i == k))
    ensures r != Failed && p.digest.None? && published.Some? ==> forall i :: 0 <= i < 64 ==> h.slots[i] == Empty
    ensures r == Unchanged ==> h.slots == old(h.slots) && h.selected == old(h.selected) && h.writes == old(h.writes)
  {
    ghost var at, was := h.writes, h.slots;
    ghost var c := CourseOf(h.fails, compiled, published, p, MovesTo(h.selected, p.want));
    MoreChosen(h.Now(), p);
    h.chosen := AddChoice(h.chosen, p);
    var plan := PlanMapSync(h.selected, p.want);
    if plan.None? {
      FailedTickIff(c, at, was, p.want);
      return Failed;
    }
    PlanMoves(h.selected, p.want);
    if PlanKernelPublish(p.digest, published, plan.value != SyncPlan({}, {})) == [] {
      PlanMapSyncMeaning(h.selected, p.want);
      return Unchanged;
    }
    var ok := RunTick(h, compiled, p, published, plan.value);
    return if ok then Published(p.digest) else Failed;
  }

  /** The ring thread: any bundles and pod sets, any faults. Every state of the two maps that
      ever existed, between any two writes of the run, was safe. */
  method Run(h: KernelHandle, compiled: Digest -> nat, ticks: seq<Policy>) returns (published: Option<Digest>)
    requires h.Valid() && h.slots == EmptySlots()
    requires forall k :: 0 <= k < |ticks| ==> Computed(ticks[k])
    modifies h
    ensures Consistent(h, compiled, published)
    ensures |h.trace| == h.writes && forall k :: 0 <= k < |h.trace| ==> Safe(h.trace[k])
    ensures old(h.trace) <= h.trace
  {
    published := None;
    var k := 0;
    while k < |ticks|
      invariant 0 <= k <= |ticks|
      invariant Consistent(h, compiled, published) && old(h.trace) <= h.trace
    {
      var r := Republish(h, compiled, ticks[k], published);
      published := AfterTick(published, r);
      k := k + 1;
    }
  }

  // ---- When a failed tick leaves the rules off -------------------------------------

  /** The slots a clearing that stops at `i` does not reach are empty already. */
  predicate EmptyFrom(slots: seq<Slot>, i: nat) {
    forall k :: i <= k < |slots| ==> slots[k] == Empty
  }

  /**
   Where a failing tick has to fail for the rule map to be empty after it.
   An oversized set or an unchanged policy touches no rule, so the map had to be empty before.
   A fault while retiring leaves the slots from the failed write on.
   A fault in the selected set, or rules that do not compile, come after retiring and before publishing.
   A fault at publishing slot `f` is cleared again; a second one at clearing slot `s` leaves the
   rules published from `s` up to `f`.
   */
  predicate RulesOff(c: Course, at: nat, was: seq<Slot>, want: set<CgroupId>) {
    if |want| > CGROUPS_MAX_ENTRIES || !c.changed then EmptyFrom(was, 0)
    else
      var i := Good(c.fails, at, MAX_KERNEL_RULES);
      if i < MAX_KERNEL_RULES then EmptyFrom(was, i)
      else if Good(c.fails, at + MAX_KERNEL_RULES, c.moves) < c.moves || c.digest.None? then true
      else
        var n, from := c.compiled(c.digest.value), at + MAX_KERNEL_RULES + c.moves;
        var f := Good(c.fails, from, MAX_KERNEL_RULES);
        var s := Good(c.fails, from + f + 1, MAX_KERNEL_RULES);
        n > MAX_KERNEL_RULES || n <= s || f <= s
  }

  /** Next to a policy of `n` rules: those from slot `i` on are off exactly when it has no more than `i`. */
  lemma FilledEmptyFrom(d: Digest, n: nat, i: nat)
    requires n <= MAX_KERNEL_RULES
    ensures EmptyFrom(Filled(d, n), i) <==> n <= i
  {
    if i < n {
      assert Filled(d, n)[i] == Rule(d, i);
    }
  }

  lemma WrittenEmptyIff(was: seq<Slot>, i: nat)
    requires |was| == MAX_KERNEL_RULES && i <= MAX_KERNEL_RULES
    ensures Written(EmptySlots(), was, i) == EmptySlots() <==> EmptyFrom(was, i)
  {
    var s := Written(EmptySlots(), was, i);
    assert forall k :: 0 <= k < |s| ==> s[k] == if k < i then Empty else was[k];
    if s == EmptySlots() {
      forall k | i <= k < |was| ensures was[k] == Empty {
        assert s[k] == EmptySlots()[k];
      }
    }
  }

  lemma PartEmptyIff(d: Digest, n: nat, f: nat, c: nat)
    requires f <= MAX_KERNEL_RULES && c <= MAX_KERNEL_RULES && n <= MAX_KERNEL_RULES
    ensures EmptyFrom(Written(Filled(d, n), EmptySlots(), f), c) <==> n <= c || f <= c
  {
    var part := Written(Filled(d, n), EmptySlots(), f);
    assert forall k :: 0 <= k < |part| ==> part[k] == if k < f && k < n then Rule(d, k) else Empty;
    if c < n && c < f {
      assert part[c] == Rule(d, c);
    }
  }

  /** Whether what is left is nothing, by what is left. */
  predicate LeftOff(l: Left, was: seq<Slot>) {
    match l
    case Kept => EmptyFrom(was, 0)
    case Cleared(i) => EmptyFrom(was, i)
    case Off => true
    case Full(_, n) => n == 0
    case Partly(_, n, from, to) => n <= from || to <= from
  }

  lemma LeftOffIff(l: Left, was: seq<Slot>)
    requires |was| == MAX_KERNEL_RULES && InRange(l) && (l.Partly? ==> l.rules <= MAX_KERNEL_RULES)
    ensures SlotsOf(l, was) == EmptySlots() <==> LeftOff(l, was)
  {
    match l {
      case Kept => WrittenEmptyIff(was, 0); assert Written(EmptySlots(), was, 0) == was;
      case Cleared(i) => WrittenEmptyIff(was, i);
      case Off =>
      case Full(d, n) => assert n > 0 ==> Filled(d, n)[0] != EmptySlots()[0];
      case Partly(d, n, from, to) =>
        WrittenEmptyIff(Written(Filled(d, n), EmptySlots(), to), from);
        PartEmptyIff(d, n, to, from);
    }
  }

  /** What a failing tick leaves is off exactly when `RulesOff` says so ... */
  lemma RulesOffIs(c: Course, at: nat, was: seq<Slot>, want: set<CgroupId>)
    requires TickOutcome(c, at, want).1
    ensures LeftOff(TickOutcome(c, at, want).0, was) <==> RulesOff(c, at, was, want)
    ensures TickOutcome(c, at, want).0.Partly? ==> TickOutcome(c, at, want).0.rules <= MAX_KERNEL_RULES
  {
  }

  /** ... and so is the rule map. */
  lemma FailedTickIff(c: Course, at: nat, was: seq<Slot>, want: set<CgroupId>)
    requires |was| == MAX_KERNEL_RULES && TickOutcome(c, at, want).1
    ensures SlotsOf(TickOutcome(c, at, want).0, was) == EmptySlots() <==> RulesOff(c, at, was, want)
  {
    RulesOffIs(c, at, was, want);
    LeftOffIff(TickOutcome(c, at, want).0, was);
  }

  function Below(n: nat): (s: set<CgroupId>)
    ensures |s| == n && forall x :: x in s ==> x < n
  {
    if n == 0 then {} else Below(n - 1) + {n - 1}
  }

  /** Under an unchanged policy a failing tick does not retire the rules: they stay on. */
  method FailedTickKeepsRules(d: Digest) returns (h: KernelHandle, r: Outcome)
    ensures fresh(h) && r == Failed && h.slots == Filled(d, 1) != EmptySlots()
  {
    h := new KernelHandle(_ => false);
    r := Republish(h, _ => 1, Policy(Some(d), {}), None);
    r := Republish(h, _ => 1, Policy(Some(d), Below(CGROUPS_MAX_ENTRIES + 1)), Some(d));
    assert Filled(d, 1)[0] != EmptySlots()[0];
  }
}
