/**
 The monotonic floor under the wall clock. Waivers expire by the time it returns, so what has
 to hold is that this time never runs backwards, in a process or across a restart, and never
 runs ahead of the wall by more than the skew it allows.
 */
module Clock {
  import opened Wrappers
  import opened Text
  import opened Policy

  const MIN_UTC: int := -8_334_601_228_800 * SECOND
  const MAX_UTC: int := 8_210_266_876_800 * SECOND - 1
  const MAX_ANCHOR_SKEW: int := 300 * SECOND
  const PERSIST_STEP: int := 60 * SECOND

  type Time = t: int | MIN_UTC <= t <= MAX_UTC witness 0

  /** The day of the proleptic Gregorian calendar a year begins on. */
  function NewYear(year: int): int {
    365 * (year - 1) + (year - 1) / 4 - (year - 1) / 100 + (year - 1) / 400
  }

  /** Times run from the beginning of the year -262143 to the last nanosecond of the year 262142. */
  lemma TimesOfTheCalendar()
    ensures MIN_UTC == (NewYear(-262_143) - NewYear(1970)) * 86_400 * 1_000_000_000
    ensures MAX_UTC + 1 == (NewYear(262_143) - NewYear(1970)) * 86_400 * 1_000_000_000
  {
  }

  /** How far ahead of a wall reading an anchor may push the floor. */
  function Ceiling(wall: Time): (c: Time)
    ensures wall <= c <= wall + MAX_ANCHOR_SKEW
    ensures c == wall + 300 * 1_000_000_000 || (c == wall && wall + 300 * 1_000_000_000 > MAX_UTC)
  {
    if wall + MAX_ANCHOR_SKEW <= MAX_UTC then wall + MAX_ANCHOR_SKEW else wall
  }

  function Later(a: Time, b: Time): (t: Time)
    ensures a <= t && b <= t && (t == a || t == b)
  {
    if a < b then b else a
  }

  function Earlier(a: Time, b: Time): (t: Time)
    ensures t <= a && t <= b && (t == a || t == b)
  {
    if a < b then a else b
  }

  // ---- The signed anchor -----------------------------------------------------------

  /** `validate_exception`, at the reading it takes of its own. */
  predicate ValidException(spec: Exception, at: int) {
    && PaperworkComplete(spec)
    && at < spec.expiresAt <= at + MAX_EXCEPTION_DAYS * DAY
    && spec.policies != [] && (forall i :: 0 <= i < |spec.policies| ==> Trim(spec.policies[i]) != "")
    && spec.rules != [] && (forall i :: 0 <= i < |spec.rules| ==> Trim(spec.rules[i]) != "")
  }

  /** The time a live exception proves has passed: its expiry less the longest life allowed. */
  function AnchorOf(spec: Exception, at: int): Option<Time> {
    var t := spec.expiresAt - MAX_EXCEPTION_DAYS * DAY;
    if ValidException(spec, at) && MIN_UTC <= t <= MAX_UTC then Some(t) else None
  }

  function Anchors(specs: seq<Exception>, at: int): (r: seq<Option<Time>>)
    ensures |r| == |specs| && forall i :: 0 <= i < |specs| ==> r[i] == AnchorOf(specs[i], at)
  {
    seq(|specs|, i requires 0 <= i < |specs| => AnchorOf(specs[i], at))
  }

  /** An exception that shows a time has passed: a live one with its papers in order that names
      policies and rules, none of them blank. */
  ghost predicate Vouches(x: Exception, at: int) {
    && Trim(x.ticket) != "" && |Encode(Trim(x.reason))| >= 8
    && Trim(x.approvedBy) != "" && Trim(x.approvedBy) != Trim(x.requestedBy)
    && 0 < x.expiresAt - at <= 90 * 86_400 * 1_000_000_000
    && |x.policies| > 0 && (forall name :: name in x.policies ==> Trim(name) != "")
    && |x.rules| > 0 && (forall name :: name in x.rules ==> Trim(name) != "")
  }

  /** The time it shows: 90 days before its end. */
  ghost predicate Shows(x: Exception, at: int, t: int) {
    Vouches(x, at) && t == x.expiresAt - 90 * 86_400 * 1_000_000_000
  }

  lemma AnchorMeaning(x: Exception, at: int, t: Time)
    ensures AnchorOf(x, at) == Some(t) <==> Shows(x, at, t)
  {
    assert (forall i :: 0 <= i < |x.policies| ==> Trim(x.policies[i]) != "") <==> (forall name :: name in x.policies ==> Trim(name) != "");
    assert (forall i :: 0 <= i < |x.rules| ==> Trim(x.rules[i]) != "") <==> (forall name :: name in x.rules ==> Trim(name) != "");
  }

  lemma LatestShown(specs: seq<Exception>, at: int, best: Option<Time>)
    requires IsLatest(Anchors(specs, at), best)
    ensures best.Some? ==> exists i :: 0 <= i < |specs| && Shows(specs[i], at, best.value)
    ensures forall i, t: Time :: 0 <= i < |specs| && Shows(specs[i], at, t) ==> best.Some? && t <= best.value
  {
    if best.Some? {
      var i :| 0 <= i < |specs| && Anchors(specs, at)[i] == best;
      AnchorMeaning(specs[i], at, best.value);
    }
    forall i, t: Time | 0 <= i < |specs| && Shows(specs[i], at, t) ensures best.Some? && t <= best.value {
      AnchorMeaning(specs[i], at, t);
      assert Anchors(specs, at)[i] == Some(t);
    }
  }

  predicate IsLatest(anchors: seq<Option<Time>>, best: Option<Time>) {
    && (forall i :: 0 <= i < |anchors| && anchors[i].Some? ==> best.Some? && anchors[i].value <= best.value)
    && (best.Some? ==> best in anchors)
  }

  method Latest(anchors: seq<Option<Time>>) returns (best: Option<Time>)
    ensures IsLatest(anchors, best)
  {
    best := None;
    var i := 0;
    while i < |anchors|
      invariant 0 <= i <= |anchors|
      invariant IsLatest(anchors[..i], best)
    {
      if anchors[i].Some? && (best.None? || best.value < anchors[i].value) {
        best := anchors[i];
      }
      assert anchors[..i + 1] == anchors[..i] + [anchors[i]];
      i := i + 1;
    }
    assert anchors[..i] == anchors;
  }

  // ---- The floor -------------------------------------------------------------------

  /** The `observed-time` file, which outlives the process. */
  class Disk {
    var observed: Option<Time>

    constructor (observed: Option<Time>)
      ensures this.observed == observed
    {
      this.observed := observed;
    }
  }

  class MonotonicFloor {
    const disk: Disk?
    var floor: Time
    var persisted: Time
    var rollbacks: nat
    var persistFailed: nat
    var persistFailing: bool
    /** The latest wall reading seen, and every time handed out, in order. */
    ghost var highest: Option<Time>
    ghost var returned: seq<Time>

    ghost predicate Valid()
      reads this
    {
      && persisted <= floor
      && (floor == MIN_UTC || (highest.Some? && floor <= highest.value + 300 * 1_000_000_000))
      && (forall i :: 0 <= i < |returned| ==> returned[i] <= floor)
      && (forall i, j :: 0 <= i < j < |returned| ==> returned[i] <= returned[j])
    }

    ghost predicate Seen(before: Option<Time>, wall: Time)
      reads this
    {
      highest == Some(if before.Some? then Later(before.value, wall) else wall)
    }

    constructor ()
      ensures Valid() && floor == MIN_UTC && returned == [] && rollbacks == 0 && disk == null
    {
      disk := null;
      floor, persisted, rollbacks, persistFailed, persistFailing := MIN_UTC, MIN_UTC, 0, 0, false;
      highest, returned := None, [];
    }

    /** `with_dir_at`: a stored time is kept exactly when the wall is not too far behind it. */
    constructor WithDir(disk: Disk, wall: Time)
      ensures Valid() && returned == [] && rollbacks == 0 && this.disk == disk && highest == Some(wall)
      ensures floor == persisted == match disk.observed
              case Some(t) => if t <= Ceiling(wall) then t else MIN_UTC
              case None => MIN_UTC
    {
      this.disk := disk;
      var stored := if disk.observed.Some? && disk.observed.value <= Ceiling(wall) then disk.observed.value else MIN_UTC;
      floor, persisted, rollbacks, persistFailed, persistFailing := stored, stored, 0, 0, false;
      highest, returned := Some(wall), [];
    }

    /** `write_floor`; `lands` is whether the file write succeeds. */
    method WriteFloor(when: Time, lands: bool)
      modifies this`persistFailed, this`persistFailing, disk
      ensures disk != null ==> disk.observed == if lands then Some(when) else old(disk.observed)
      ensures disk != null ==> persistFailing == !lands && persistFailed == old(persistFailed) + if lands then 0 else 1
      ensures disk == null ==> persistFailing == old(persistFailing) && persistFailed == old(persistFailed)
    {
      if disk != null {
        if lands {
          disk.observed := Some(when);
          persistFailing := false;
        } else {
          persistFailed := persistFailed + 1;
          persistFailing := true;
        }
      }
    }

    /** `anchor_from_exceptions_at`: the latest anchor, capped just above the wall, lifts the floor. */
    method AnchorFromExceptions(specs: seq<Exception>, at: int, wall: Time) returns (best: Option<Time>)
      requires Valid()
      modifies this`floor, this`highest
      ensures Valid() && Seen(old(highest), wall)
      ensures best.Some? ==> exists i :: 0 <= i < |specs| && Shows(specs[i], at, best.value)
      ensures forall i, t: Time :: 0 <= i < |specs| && Shows(specs[i], at, t) ==> best.Some? && t <= best.value
      ensures floor == match best case Some(a) => Later(old(floor), Earlier(a, Ceiling(wall))) case None => old(floor)
    {
      highest := Some(if highest.Some? then Later(highest.value, wall) else wall);
      best := Latest(Anchors(specs, at));
      LatestShown(specs, at, best);
      if best.Some? {
        var anchor := Earlier(best.value, Ceiling(wall));
        if anchor > floor {
          floor := anchor;
        }
      }
    }

    /** `now_from`. The time returned is the later of the wall and the floor, it is the new
        floor, and only a wall below the floor counts as a rollback. */
    method NowFrom(wall: Time, lands: bool) returns (now: Time)
      requires Valid()
      modifies this, disk
      ensures Valid() && Seen(old(highest), wall)
      ensures now == floor == Later(old(floor), wall) && returned == old(returned) + [now]
      ensures rollbacks == old(rollbacks) + if wall < old(floor) then 1 else 0
      ensures wall >= old(floor) ==> floor - persisted < 60 * 1_000_000_000
      ensures persisted == if wall >= old(floor) && wall - old(persisted) >= 60 * 1_000_000_000 then wall else old(persisted)
      ensures disk != null ==> disk.observed == if persisted != old(persisted) && lands then Some(now) else old(disk.observed)
    {
      highest := Some(if highest.Some? then Later(highest.value, wall) else wall);
      if wall < floor {
        rollbacks := rollbacks + 1;
        now := floor;
      } else {
        floor := wall;
        if (wall - persisted) / SECOND >= PERSIST_STEP / SECOND {
          persisted := wall;
          WriteFloor(wall, lands);
        }
        now := wall;
      }
      returned := returned + [now];
    }

    /** `persist`: the floor goes to disk now, if there is one to speak of. */
    method Persist(lands: bool)
      requires Valid()
      modifies this`persisted, this`persistFailed, this`persistFailing, disk
      ensures Valid() && persisted == floor
      ensures disk != null ==>
                disk.observed == if lands && floor > MIN_UTC then Some(floor) else old(disk.observed)
    {
      if floor != MIN_UTC {
        persisted := floor;
        WriteFloor(floor, lands);
      }
    }
  }

  // ---- What it is for --------------------------------------------------------------

  /** A waiver once seen expired applies to nothing decided later in the process. */
  lemma ExpiredStaysExpired(clock: MonotonicFloor, i: nat, j: nat, spec: Exception, namespace: string, policy: string, rule: string)
    requires clock.Valid() && i <= j < |clock.returned| && spec.expiresAt <= clock.returned[i]
    ensures !ExceptionApplies(spec, namespace, policy, rule, clock.returned[j])
  {
  }

  /** A restart keeps the floor that was written last whenever the wall is at most the allowed
      skew behind it, and then nothing it returns is earlier. */
  method Restart(disk: Disk, wall: Time, lands: bool) returns (clock: MonotonicFloor, now: Time)
    modifies disk
    ensures fresh(clock) && clock.Valid() && clock.returned == [now]
    ensures old(disk.observed).Some? && old(disk.observed).value - 300 * 1_000_000_000 <= wall <= MAX_UTC - 300 * 1_000_000_000 ==>
              now >= old(disk.observed).value
    ensures wall <= now <= Ceiling(wall)
  {
    clock := new MonotonicFloor.WithDir(disk, wall);
    now := clock.NowFrom(wall, lands);
  }
}
