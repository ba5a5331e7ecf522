/**
 Which cgroups have been shown not to be containers. A question opens a window; a sync of the
 container map stamped after the window opened closes it for as long as the proof is good.
 The windows live in a bounded map that two tiers of eviction keep from filling up.
 */
module UnprovenWindows {
  import opened Wrappers
  import opened Policy

  type CgroupId = nat

  const TRACKED_MAX: nat := 4096
  const PROOF_TTL: int := 300 * SECOND
  const SYNC_BUDGET: int := 30 * SECOND

  datatype Window = Window(openedAt: int, seenAt: int)

  type Windows = map<CgroupId, Window>

  /** `saturating_duration_since`. */
  function Since(now: int, at: int): int {
    if now < at then 0 else now - at
  }

  predicate SyncedAfter(syncedAt: Option<int>, at: int) {
    syncedAt.Some? && syncedAt.value > at
  }

  predicate Proven(w: Window, syncedAt: Option<int>, now: int) {
    SyncedAfter(syncedAt, w.openedAt) && Since(now, w.openedAt) < PROOF_TTL
  }

  /** What a proof is worth: a sync stamped after the window opened, less than 300 seconds ago. */
  ghost predicate StillGood(w: Window, syncedAt: Option<int>, now: int) {
    syncedAt.Some? && w.openedAt < syncedAt.value && now - w.openedAt < 300 * 1_000_000_000
  }

  // ---- Eviction --------------------------------------------------------------------

  predicate OrderedBySeen(ids: seq<CgroupId>, windows: Windows)
    requires forall i :: 0 <= i < |ids| ==> ids[i] in windows
  {
    forall i, j :: 0 <= i < j < |ids| ==> windows[ids[i]].seenAt <= windows[ids[j]].seenAt
  }

  predicate Distinct(ids: seq<CgroupId>) {
    forall i, j :: 0 <= i < j < |ids| ==> ids[i] != ids[j]
  }

  function ElementsOf(ids: seq<CgroupId>): set<CgroupId> {
    set i | 0 <= i < |ids| :: ids[i]
  }

  lemma OneMoreElement(ids: seq<CgroupId>)
    requires Distinct(ids) && ids != []
    ensures var n := |ids| - 1;
            ElementsOf(ids) == ElementsOf(ids[..n]) + {ids[n]} && ids[n] !in ElementsOf(ids[..n])
  {
    var n := |ids| - 1;
    forall i | 0 <= i < n ensures ids[i] in ElementsOf(ids[..n]) {
      assert ids[..n][i] == ids[i];
    }
    assert ids[n] in ElementsOf(ids);
  }

  lemma {:induction false} DistinctCount(ids: seq<CgroupId>)
    requires Distinct(ids)
    ensures |ElementsOf(ids)| == |ids|
  {
    if ids != [] {
      var init, last := ids[..|ids| - 1], ids[|ids| - 1];
      DistinctCount(init);
      OneMoreElement(ids);
    }
  }

  /** The keys by when they were last seen, earliest first. */
  method SortBySeen(windows: Windows) returns (ids: seq<CgroupId>)
    ensures ElementsOf(ids) == windows.Keys && Distinct(ids)
    ensures forall i :: 0 <= i < |ids| ==> ids[i] in windows
    ensures OrderedBySeen(ids, windows)
  {
    ids := [];
    var rest := windows.Keys;
    while rest != {}
      invariant rest <= windows.Keys && Distinct(ids)
      invariant ElementsOf(ids) == windows.Keys - rest
      invariant forall i :: 0 <= i < |ids| ==> ids[i] in windows
      invariant OrderedBySeen(ids, windows)
    {
      var id :| id in rest;
      ids := InsertBySeen(windows, ids, id);
      rest := rest - {id};
    }
  }

  method InsertBySeen(windows: Windows, ids: seq<CgroupId>, id: CgroupId) returns (out: seq<CgroupId>)
    requires forall i :: 0 <= i < |ids| ==> ids[i] in windows && ids[i] != id
    requires OrderedBySeen(ids, windows) && Distinct(ids) && id in windows
    ensures ElementsOf(out) == ElementsOf(ids) + {id} && Distinct(out)
    ensures forall i :: 0 <= i < |out| ==> out[i] in windows
    ensures OrderedBySeen(out, windows)
  {
    var k := |ids|;
    while k > 0 && windows[ids[k - 1]].seenAt > windows[id].seenAt
      invariant 0 <= k <= |ids|
      invariant forall i :: k <= i < |ids| ==> windows[id].seenAt <= windows[ids[i]].seenAt
    {
      k := k - 1;
    }
    out := ids[..k] + [id] + ids[k..];
    Inserted(ids, k, id);
    InsertedDistinct(ids, k, id);
    InsertedOrder(windows, ids, k, id);
  }

  /** Where an element of the longer list stood before. */
  lemma InsertedAt(ids: seq<CgroupId>, k: nat, id: CgroupId, i: nat)
    requires k <= |ids| && i <= |ids|
    ensures (ids[..k] + [id] + ids[k..])[i] == if i < k then ids[i] else if i == k then id else ids[i - 1]
  {
  }

  lemma InsertedDistinct(ids: seq<CgroupId>, k: nat, id: CgroupId)
    requires Distinct(ids) && k <= |ids| && forall i :: 0 <= i < |ids| ==> ids[i] != id
    ensures Distinct(ids[..k] + [id] + ids[k..])
  {
    var out := ids[..k] + [id] + ids[k..];
    forall i, j | 0 <= i < j < |out| ensures out[i] != out[j] {
      InsertedAt(ids, k, id, i);
      InsertedAt(ids, k, id, j);
    }
  }

  /** Around the place of insertion the list stays in order. */
  lemma SeenAround(windows: Windows, ids: seq<CgroupId>, k: nat, id: CgroupId, i: nat)
    requires forall i :: 0 <= i < |ids| ==> ids[i] in windows
    requires OrderedBySeen(ids, windows) && id in windows && k <= |ids| && i < |ids|
    requires k > 0 ==> windows[ids[k - 1]].seenAt <= windows[id].seenAt
    requires k < |ids| ==> windows[id].seenAt <= windows[ids[k]].seenAt
    ensures if i < k then windows[ids[i]].seenAt <= windows[id].seenAt else windows[id].seenAt <= windows[ids[i]].seenAt
  {
    if i < k - 1 {
      assert windows[ids[i]].seenAt <= windows[ids[k - 1]].seenAt;
    } else if i > k {
      assert windows[ids[k]].seenAt <= windows[ids[i]].seenAt;
    }
  }

  lemma InsertedOrder(windows: Windows, ids: seq<CgroupId>, k: nat, id: CgroupId)
    requires forall i :: 0 <= i < |ids| ==> ids[i] in windows
    requires OrderedBySeen(ids, windows) && id in windows && k <= |ids|
    requires k > 0 ==> windows[ids[k - 1]].seenAt <= windows[id].seenAt
    requires k < |ids| ==> windows[id].seenAt <= windows[ids[k]].seenAt
    ensures var out := ids[..k] + [id] + ids[k..];
            (forall i :: 0 <= i < |out| ==> out[i] in windows) && OrderedBySeen(out, windows)
  {
    var out := ids[..k] + [id] + ids[k..];
    forall i | 0 <= i < |out| ensures out[i] in windows {
      InsertedAt(ids, k, id, i);
    }
    forall i, j | 0 <= i < j < |out| ensures windows[out[i]].seenAt <= windows[out[j]].seenAt {
      InsertedAt(ids, k, id, i);
      InsertedAt(ids, k, id, j);
      if j == k {
        SeenAround(windows, ids, k, id, i);
      } else if i == k {
        SeenAround(windows, ids, k, id, j - 1);
      }
    }
  }

  lemma Inserted(ids: seq<CgroupId>, k: nat, id: CgroupId)
    requires k <= |ids|
    ensures ElementsOf(ids[..k] + [id] + ids[k..]) == ElementsOf(ids) + {id}
  {
    var out := ids[..k] + [id] + ids[k..];
    assert out[k] == id;
    forall i | 0 <= i < |ids| ensures ids[i] in ElementsOf(out) {
      assert out[if i < k then i else i + 1] == ids[i];
    }
  }

  /** What an eviction keeps, unchanged. */
  predicate Keeps(windows: Windows, out: Windows) {
    out.Keys <= windows.Keys && forall id :: id in out ==> out[id] == windows[id]
  }

  /**
   `evict_unproven`. Entries that carry no proof go first and then nothing else does; only
   when every entry is proven are proven ones given up, more than an eighth of them, and each
   that stays was seen strictly later than each that goes.
   */
  method Evict(windows: Windows, syncedAt: Option<int>, now: int) returns (out: Windows)
    requires windows != map[]
    ensures Keeps(windows, out) && |out| < |windows|
    ensures (exists id :: id in windows && !StillGood(windows[id], syncedAt, now)) ==>
              forall id :: id in windows ==> (id in out <==> StillGood(windows[id], syncedAt, now))
    ensures (forall id :: id in windows ==> StillGood(windows[id], syncedAt, now)) ==>
              && |windows| - |out| >= |windows| / 8 + 1
              && forall id, gone :: id in out && gone in windows && gone !in out ==> windows[gone].seenAt < windows[id].seenAt
  {
    out := map id | id in windows && Proven(windows[id], syncedAt, now) :: windows[id];
    assert (forall id :: id in windows ==> Proven(windows[id], syncedAt, now)) ==> out.Keys == windows.Keys;
    if |out.Keys| < |windows.Keys| {
      return;
    }
    SameSize(out.Keys, windows.Keys);
    out := DropLeastSeen(windows);
  }

  /** A proof is given up only when every entry is proven, and then the least recently seen go:
      each that stays, other than `id`, was seen strictly later. */
  ghost predicate GivenUpLast(was: Windows, out: Windows, id: CgroupId, syncedAt: Option<int>, now: int) {
    forall gone :: gone in was && gone !in out && StillGood(was[gone], syncedAt, now) ==>
      forall other :: other in was ==>
        && StillGood(was[other], syncedAt, now)
        && (other in out && other != id ==> was[gone].seenAt < out[other].seenAt)
  }

  /** Make room for `id` if there is none. */
  method MakeRoom(windows: Windows, id: CgroupId, syncedAt: Option<int>, now: int) returns (out: Windows)
    requires |windows| <= TRACKED_MAX
    ensures Keeps(windows, out) && (id in out || |out| < TRACKED_MAX) && (id in out <==> id in windows)
    ensures |windows| < TRACKED_MAX || id in windows ==> out == windows
    ensures GivenUpLast(windows, out, id, syncedAt, now)
  {
    out := windows;
    if |windows| >= TRACKED_MAX && id !in windows {
      out := Evict(windows, syncedAt, now);
    }
  }

  /** The window a question about `id` leaves: the one that is open while it is good, else a new one. */
  function Touched(windows: Windows, id: CgroupId, now: int): Window {
    Window(if id in windows && Since(now, windows[id].openedAt) < PROOF_TTL then windows[id].openedAt else now, now)
  }

  /** The windows after a question about `id`: its own refreshed, the others as they were or gone. */
  method Touch(windows: Windows, id: CgroupId, syncedAt: Option<int>, now: int) returns (out: Windows)
    requires |windows| <= TRACKED_MAX
    ensures |out| <= TRACKED_MAX && id in out && out[id] == Touched(windows, id, now)
    ensures forall other :: other in out && other != id ==> other in windows && out[other] == windows[other]
    ensures |windows| < TRACKED_MAX || id in windows ==> windows.Keys <= out.Keys
    ensures GivenUpLast(windows, out, id, syncedAt, now)
  {
    var room := MakeRoom(windows, id, syncedAt, now);
    var entry := if id in room then room[id] else Window(now, now);
    entry := entry.(seenAt := now);
    if Since(now, entry.openedAt) >= PROOF_TTL {
      entry := entry.(openedAt := now);
    }
    out := room[id := entry];
    OneMoreKey(room, id, entry);
  }

  /** The answer the windows give to a question about `id`. */
  method Answer(windows: Windows, id: CgroupId, syncedAt: int, now: int) returns (out: Windows, unproven: bool)
    requires |windows| <= TRACKED_MAX
    ensures |out| <= TRACKED_MAX && id in out && out[id] == Touched(windows, id, now)
    ensures forall other :: other in out && other != id ==> other in windows && out[other] == windows[other]
    ensures |windows| < TRACKED_MAX || id in windows ==> windows.Keys <= out.Keys
    ensures GivenUpLast(windows, out, id, Some(syncedAt), now)
    ensures unproven <==> out[id].openedAt >= syncedAt
    ensures out[id].openedAt == if id in windows && now - windows[id].openedAt < 300 * 1_000_000_000 then windows[id].openedAt else now
    ensures id in windows && StillGood(windows[id], Some(syncedAt), now) ==> !unproven
  {
    out := Touch(windows, id, Some(syncedAt), now);
    unproven := !SyncedAfter(Some(syncedAt), out[id].openedAt);
  }

  lemma OneMoreKey(windows: Windows, id: CgroupId, w: Window)
    ensures |windows[id := w]| == |windows| + if id in windows then 0 else 1
  {
    assert windows[id := w].Keys == windows.Keys + {id};
    assert |windows[id := w].Keys| == |windows[id := w]| && |windows.Keys| == |windows|;
  }

  lemma SameSize<T>(a: set<T>, b: set<T>)
    requires a <= b && |a| >= |b|
    ensures a == b
  {
    assert b == a + (b - a);
    assert |b - a| == 0;
  }

  lemma Fewer<T>(a: set<T>, b: set<T>)
    requires a <= b
    ensures |a| <= |b|
  {
    assert b == a + (b - a);
  }

  method DropLeastSeen(windows: Windows) returns (out: Windows)
    requires windows != map[]
    ensures Keeps(windows, out)
    ensures |windows| - |out| >= |windows| / 8 + 1
    ensures forall id, gone :: id in out && gone in windows && gone !in out ==> windows[gone].seenAt < windows[id].seenAt
  {
    var ids := SortBySeen(windows);
    DistinctCount(ids);
    var n := |ids| / 8;
    var cut := windows[ids[n]].seenAt;
    out := map id | id in windows && windows[id].seenAt > cut :: windows[id];
    CutCount(windows, ids, n, out);
  }

  /** The first `n + 1` keys in order, and any that tie with the last of them, are not in `out`. */
  lemma CutCount(windows: Windows, ids: seq<CgroupId>, n: nat, out: Windows)
    requires Distinct(ids) && n < |ids| && forall i :: 0 <= i < |ids| ==> ids[i] in windows
    requires OrderedBySeen(ids, windows)
    requires out.Keys <= windows.Keys && forall id :: id in out ==> windows[id].seenAt > windows[ids[n]].seenAt
    ensures |windows| - |out| >= n + 1
  {
    var gone := ids[..n + 1];
    DistinctCount(gone);
    forall id | id in ElementsOf(gone) ensures id in windows && id !in out {
      var i :| 0 <= i < |gone| && gone[i] == id;
      assert gone[i] == ids[i];
      assert windows[ids[i]].seenAt <= windows[ids[n]].seenAt;
    }
    FewerKeys(windows.Keys, out.Keys, ElementsOf(gone));
    assert |windows.Keys| == |windows| && |out.Keys| == |out|;
  }

  lemma FewerKeys<T>(all: set<T>, kept: set<T>, gone: set<T>)
    requires kept <= all && gone <= all && gone !! kept
    ensures |all| - |kept| >= |gone|
  {
    Fewer(kept + gone, all);
  }

  // ---- The agent's container map state ---------------------------------------------

  /** What happened so far: questions answered while the map was live, accepted syncs, errors. */
  datatype Event = Asked(id: CgroupId, at: int) | Synced(stamp: int, count: nat) | Errored

  /** The last sync or error. */
  function LastSync(past: seq<Event>): Option<Event> {
    if past == [] then None
    else if past[|past| - 1].Asked? then LastSync(past[..|past| - 1])
    else Some(past[|past| - 1])
  }

  lemma OneMoreEvent(past: seq<Event>, e: Event)
    ensures LastSync(past + [e]) == if e.Asked? then LastSync(past) else Some(e)
  {
    assert (past + [e])[..|past|] == past;
  }

  lemma {:induction false} LastSyncHappened(past: seq<Event>)
    ensures LastSync(past).Some? ==> LastSync(past).value in past
  {
    if past != [] && past[|past| - 1].Asked? {
      LastSyncHappened(past[..|past| - 1]);
    }
  }

  /** The map is live: the last thing to happen to it was a sync that put something in it, stamped
      less than 30 seconds ago, and no error has come since. */
  ghost predicate Live(past: seq<Event>, now: int) {
    match LastSync(past)
    case Some(Synced(stamp, count)) => count > 0 && now - stamp < 30 * 1_000_000_000
    case _ => false
  }

  /** The cgroup was asked about before, less than 300 seconds ago, and a sync was stamped after that. */
  ghost predicate Settled(past: seq<Event>, id: CgroupId, now: int) {
    exists i, j :: && 0 <= i < |past| && 0 <= j < |past| && past[i].Asked? && past[j].Synced?
                   && past[i].id == id && past[i].at < now && now - past[i].at < 300 * 1_000_000_000
                   && past[i].at < past[j].stamp
  }

  /** The fields say what the last sync or error was; the stamp is of an accepted sync. */
  ghost predicate Current(synced: bool, syncedAt: Option<int>, entries: nat, failed: bool, clock: int, past: seq<Event>) {
    && (match LastSync(past)
        case None => !synced && !failed
        case Some(Synced(stamp, count)) => synced && syncedAt == Some(stamp) && entries == count && !failed
        case Some(_) => !synced && failed)
    && (syncedAt.Some? ==> syncedAt.value <= clock && exists count :: Synced(syncedAt.value, count) in past)
  }

  lemma CurrentAfterQuestion(synced: bool, syncedAt: Option<int>, entries: nat, failed: bool, clock: int, past: seq<Event>,
                             id: CgroupId, now: int)
    requires Current(synced, syncedAt, entries, failed, clock, past) && clock <= now
    ensures Current(synced, syncedAt, entries, failed, now, past + [Asked(id, now)])
  {
    OneMoreEvent(past, Asked(id, now));
  }

  lemma LiveIs(synced: bool, syncedAt: Option<int>, entries: nat, failed: bool, clock: int, past: seq<Event>, now: int)
    requires Current(synced, syncedAt, entries, failed, clock, past) && clock <= now
    ensures synced ==> syncedAt.Some?
    ensures Live(past, now) <==> synced && entries > 0 && !failed && now - syncedAt.value < 30 * 1_000_000_000
  {
    LastSyncHappened(past);
  }

  ghost predicate Rooted(windows: Windows, clock: int, past: seq<Event>) {
    forall id :: id in windows ==> windows[id].openedAt <= clock && Asked(id, windows[id].openedAt) in past
  }

  /** A question leaves every window opened by a question. */
  lemma RootedNext(windows: Windows, clock: int, past: seq<Event>, out: Windows, id: CgroupId, now: int)
    requires Rooted(windows, clock, past) && clock <= now
    requires id in out && (out[id].openedAt == now || (id in windows && out[id].openedAt == windows[id].openedAt))
    requires forall other :: other in out && other != id ==> other in windows && out[other] == windows[other]
    ensures Rooted(out, now, past + [Asked(id, now)])
  {
    assert (past + [Asked(id, now)])[|past|] == Asked(id, now);
  }

  ghost predicate Unasked(past: seq<Event>, id: CgroupId) {
    forall i :: 0 <= i < |past| && past[i].Asked? ==> past[i].id != id
  }

  lemma UnaskedHasNoWindow(windows: Windows, clock: int, past: seq<Event>, id: CgroupId)
    requires Rooted(windows, clock, past) && Unasked(past, id)
    ensures id !in windows
  {
  }

  lemma SettledBy(past: seq<Event>, id: CgroupId, at: int, stamp: int, now: int)
    requires Asked(id, at) in past && (exists count :: Synced(stamp, count) in past) && at < stamp <= now
    requires now - at < 300 * 1_000_000_000
    ensures Settled(past, id, now)
  {
    var count :| Synced(stamp, count) in past;
    var i :| 0 <= i < |past| && past[i] == Asked(id, at);
    var j :| 0 <= j < |past| && past[j] == Synced(stamp, count);
  }

  class ContainerMap {
    var synced: bool
    var syncedAt: Option<int>
    var entries: nat
    var failed: bool
    var windows: Windows
    ghost var clock: int
    ghost var history: seq<Event>

    constructor (start: int)
      ensures Valid() && history == [] && windows == map[] && clock == start
    {
      synced, syncedAt, entries, failed, windows := false, None, 0, false, map[];
      clock, history := start, [];
    }

    /** The map is bounded, and every window was opened by a question about its cgroup. */
    ghost predicate Valid()
      reads this
    {
      |windows| <= TRACKED_MAX && Current(synced, syncedAt, entries, failed, clock, history) && Rooted(windows, clock, history)
    }

    predicate Ready(now: int)
      reads this
    {
      synced && entries > 0 && !failed && syncedAt.Some? && Since(now, syncedAt.value) < SYNC_BUDGET
    }

    /** `set_container_map_synced_at`. */
    method SetSynced(count: nat, stamp: int, ghost now: int)
      requires Valid() && clock <= now && stamp <= now
      modifies this
      ensures Valid() && clock == now && history == old(history) + [Synced(stamp, count)]
      ensures synced && syncedAt == Some(stamp) && entries == count && !failed && windows == old(windows)
    {
      OneMoreEvent(history, Synced(stamp, count));
      syncedAt, entries, synced, failed := Some(stamp), count, true, false;
      clock, history := now, history + [Synced(stamp, count)];
      assert history[|history| - 1] == Synced(stamp, count);
    }

    /** `mark_container_map_error`: the stamp and the windows stay. */
    method MarkError(ghost now: int)
      requires Valid() && clock <= now
      modifies this
      ensures Valid() && clock == now && history == old(history) + [Errored]
      ensures !synced && failed && syncedAt == old(syncedAt) && entries == old(entries) && windows == old(windows)
    {
      OneMoreEvent(history, Errored);
      synced, failed, clock, history := false, true, now, history + [Errored];
    }

    /** A question put to a live map: an answer of "not a container" is settled, a first sighting is
        unproven, a window that is still good answers at once, and the window left is the one that
        was open, while it is less than 300 seconds old, else a new one. */
    method Ask(id: CgroupId, now: int) returns (unproven: bool)
      requires Valid() && clock <= now && syncedAt.Some?
      modifies this`windows, this`clock, this`history
      ensures Valid() && clock == now && history == old(history) + [Asked(id, now)]
      ensures !unproven ==> Settled(old(history), id, now)
      ensures id in old(windows) && StillGood(old(windows)[id], syncedAt, now) ==> !unproven
      ensures id !in old(windows) ==> unproven
      ensures id in windows && windows[id].seenAt == now && (unproven <==> windows[id].openedAt >= syncedAt.value)
      ensures windows[id].openedAt == if id in old(windows) && now - old(windows)[id].openedAt < 300 * 1_000_000_000
                                      then old(windows)[id].openedAt else now
      ensures forall other :: other in windows && other != id ==> other in old(windows) && windows[other] == old(windows)[other]
      ensures |old(windows)| < 4096 || id in old(windows) ==> old(windows).Keys <= windows.Keys
      ensures GivenUpLast(old(windows), windows, id, syncedAt, now)
    {
      var out;
      out, unproven := Answer(windows, id, syncedAt.value, now);
      RootedNext(windows, clock, history, out, id, now);
      CurrentAfterQuestion(synced, syncedAt, entries, failed, clock, history, id, now);
      if !unproven {
        SettledBy(history, id, out[id].openedAt, syncedAt.value, now);
      }
      windows, clock, history := out, now, history + [Asked(id, now)];
    }

    /** `container_unproven`. A map that is not live answers false and keeps its windows; a live one
        is asked. */
    method Unproven(id: CgroupId, now: int) returns (unproven: bool)
      requires Valid() && clock <= now
      modifies this`windows, this`clock, this`history
      ensures Valid() && clock == now && |windows| <= 4096
      ensures Live(old(history), now) <==> synced && entries > 0 && !failed && now - syncedAt.value < 30 * 1_000_000_000
      ensures !Live(old(history), now) ==> !unproven && windows == old(windows) && history == old(history)
      ensures Live(old(history), now) ==> history == old(history) + [Asked(id, now)]
      ensures Live(old(history), now) && !unproven ==> Settled(old(history), id, now)
      ensures Live(old(history), now) && Unasked(old(history), id) ==> unproven
      ensures Live(old(history), now) && id in old(windows) && StillGood(old(windows)[id], syncedAt, now) ==> !unproven
      ensures Live(old(history), now) ==>
                && id in windows && windows[id].seenAt == now && (unproven <==> windows[id].openedAt >= syncedAt.value)
                && windows[id].openedAt == if id in old(windows) && now - old(windows)[id].openedAt < 300 * 1_000_000_000
                                           then old(windows)[id].openedAt else now
      ensures forall other :: other in windows && other != id ==> other in old(windows) && windows[other] == old(windows)[other]
      ensures |old(windows)| < 4096 || id in old(windows) ==> old(windows).Keys <= windows.Keys
      ensures GivenUpLast(old(windows), windows, id, syncedAt, now)
    {
      LiveIs(synced, syncedAt, entries, failed, clock, history, now);
      if !Ready(now) {
        clock := now;
        return false;
      }
      if Unasked(history, id) {
        UnaskedHasNoWindow(windows, clock, history, id);
      }
      unproven := Ask(id, now);
    }
  }
}
