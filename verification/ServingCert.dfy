/**
 The serving certificate the webhook hands to new connections, replaced in place when its
 Secret rotates. Only material of the starting issuer that serves every starting name may
 replace it, and a swap onto material about to expire is undone.
 */
module ServingCert {
  import opened Wrappers
  import opened Wire

  const I64_MAX: int := 0x7fff_ffff_ffff_ffff
  const DAY_SECS: int := 86_400
  const WARN_DAYS: int := 30
  const WARN_WINDOW: int := WARN_DAYS * DAY_SECS

  type UnixTime = t: int | 0 <= t <= I64_MAX

  /** The issuer's Name, byte for byte, and the key id when the certificate names one. */
  datatype Issuer = Issuer(nameDer: bytes, keyId: Option<bytes>)

  datatype CertFacts = CertFacts(notAfter: int, dnsNames: seq<string>, issuer: Issuer)

  /** A TLS configuration, opaque, with the facts of the certificate in it. */
  datatype Material = Material(config: int, facts: CertFacts)

  datatype Loaded = Loaded(material: Material, warned: bool)

  function SaturatingAdd(a: UnixTime, b: nat): (r: UnixTime)
    ensures a <= r <= a + b
  {
    if a + b <= I64_MAX then a + b else I64_MAX
  }

  predicate ExpiresSoon(facts: CertFacts, now: UnixTime) {
    facts.notAfter <= SaturatingAdd(now, WARN_WINDOW)
  }

  predicate Covers(facts: CertFacts, names: seq<string>) {
    forall i :: 0 <= i < |names| ==> names[i] in facts.dnsNames
  }

  lemma CoversTransitive(a: CertFacts, b: CertFacts, names: seq<string>)
    requires Covers(a, b.dnsNames) && Covers(b, names)
    ensures Covers(a, names)
  {
    forall i | 0 <= i < |names| ensures names[i] in a.dnsNames {
      var j :| 0 <= j < |b.dnsNames| && b.dnsNames[j] == names[i];
    }
  }

  /** `read_material`: what parses, has not expired and has a DNS name. */
  function ReadMaterial(parsed: Option<Material>, now: UnixTime): Option<Material> {
    if parsed.Some? && parsed.value.facts.notAfter > now && parsed.value.facts.dnsNames != [] then parsed else None
  }

  /** The material a reload may swap in: it parses, expires after now, has a name and every name of
      what is served, and comes from the pinned issuer. */
  ghost function Accepted(parsed: Option<Material>, now: UnixTime, current: CertFacts, pinned: Issuer): Option<Material> {
    match parsed
    case None => None
    case Some(Material(config, CertFacts(notAfter, names, issuer))) =>
      if now < notAfter && |names| > 0 && (forall name :: name in current.dnsNames ==> name in names)
         && issuer.nameDer == pinned.nameDer && issuer.keyId == pinned.keyId
      then parsed else None
  }

  /** Within 30 days of the end, counted in seconds that fit an i64. */
  ghost predicate InWindow(facts: CertFacts, now: UnixTime) {
    facts.notAfter - now <= 30 * 86_400 && facts.notAfter <= 9_223_372_036_854_775_807
  }

  predicate StaleRotation(before: CertFacts, after: CertFacts, now: UnixTime) {
    ExpiresSoon(after, now) && !ExpiresSoon(before, now)
  }

  ghost predicate WentStale(before: CertFacts, after: CertFacts, now: UnixTime) {
    InWindow(after, now) && !InWindow(before, now)
  }

  datatype MountStat = Present(stamp: int) | Absent | Unreadable

  /** The clock readings of one tick, in the order they are taken. */
  datatype Readings = Readings(check: UnixTime, read: UnixTime, swapped: UnixTime, stale: UnixTime, rollBack: UnixTime)

  class TlsSource {
    const pinnedIssuer: Issuer
    ghost const startNames: seq<string>
    var loaded: Loaded
    var previous: Option<Loaded>
    var reloadFailures: nat
    var expiryWarnings: nat
    var rollbacks: nat
    var mountUnreadable: nat
    var mountAbsent: nat

    /** What an API server that trusts one CA and dials one name can be served. */
    ghost predicate Servable(m: Material) {
      m.facts.issuer == pinnedIssuer && Covers(m.facts, startNames) && m.facts.dnsNames != []
    }

    ghost predicate Valid()
      reads this
    {
      Servable(loaded.material) && (previous.Some? ==> Servable(previous.value.material))
    }

    function Facts(): CertFacts
      reads this
    {
      loaded.material.facts
    }

    /** `load`, once the material has been read. */
    constructor (m: Material, now: UnixTime)
      requires m.facts.dnsNames != []
      ensures Valid() && loaded.material == m && previous.None?
      ensures pinnedIssuer == m.facts.issuer && startNames == m.facts.dnsNames
      ensures loaded.warned <==> InWindow(m.facts, now)
    {
      pinnedIssuer, startNames := m.facts.issuer, m.facts.dnsNames;
      loaded, previous := Loaded(m, false), None;
      reloadFailures, expiryWarnings, rollbacks, mountUnreadable, mountAbsent := 0, 0, 0, 0, 0;
      new;
      CheckExpiry(now);
    }

    /** One warning per material that enters the window. */
    method CheckExpiry(now: UnixTime)
      modifies this`loaded, this`expiryWarnings
      ensures loaded == old(loaded).(warned := old(loaded).warned || InWindow(old(Facts()), now))
      ensures expiryWarnings == old(expiryWarnings) + if loaded.warned && !old(loaded).warned then 1 else 0
    {
      if loaded.warned || !ExpiresSoon(loaded.material.facts, now) {
        return;
      }
      loaded := loaded.(warned := true);
      expiryWarnings := expiryWarnings + 1;
    }

    /** `reload`: swap on success, keeping what was serving; otherwise change nothing but a counter. */
    method Reload(parsed: Option<Material>, read: UnixTime, swapped: UnixTime) returns (ok: bool)
      requires Valid()
      modifies this`loaded, this`previous, this`reloadFailures, this`expiryWarnings
      ensures Valid()
      ensures ok <==> Accepted(parsed, read, old(Facts()), pinnedIssuer).Some?
      ensures ok ==> Some(loaded.material) == parsed && previous == Some(old(loaded)) && reloadFailures == old(reloadFailures)
      ensures !ok ==> loaded == old(loaded) && previous == old(previous) && reloadFailures == old(reloadFailures) + 1
    {
      var current := Facts();
      var m := ReadMaterial(parsed, read);
      if m.None? || !Covers(m.value.facts, current.dnsNames) || m.value.facts.issuer != pinnedIssuer {
        reloadFailures := reloadFailures + 1;
        return false;
      }
      CoversTransitive(m.value.facts, current, startNames);
      previous := Some(loaded);
      loaded := Loaded(m.value, false);
      CheckExpiry(swapped);
      return true;
    }

    /** `roll_back`: the saved material is used up either way, and serves only if it has not expired. */
    method RollBack(now: UnixTime) returns (ok: bool)
      requires Valid()
      modifies this`loaded, this`previous, this`rollbacks
      ensures Valid() && previous.None?
      ensures ok <==> old(previous).Some? && old(previous).value.material.facts.notAfter > now
      ensures loaded == if ok then old(previous).value else old(loaded)
      ensures rollbacks == old(rollbacks) + if ok then 1 else 0
    {
      var candidate := previous;
      previous := None;
      if candidate.None? || candidate.value.material.facts.notAfter <= now {
        return false;
      }
      loaded := candidate.value;
      rollbacks := rollbacks + 1;
      return true;
    }
  }

  /** The swap of a tick is not undone although it is stale: what it replaced has expired by
      the time the rollback looks. */
  ghost predicate CannotUndo(before: CertFacts, after: CertFacts, t: Readings) {
    WentStale(before, after, t.stale) && before.notAfter <= t.rollBack
  }

  /**
   One pass of `poll_loop`. The source keeps serving what the starting caBundle and name can
   be served; and it goes from material outside the warning window to material inside it
   exactly when a stale swap can no longer be undone, which takes a tick at least as long as
   the window between the check and the rollback.
   */
  method Tick(source: TlsSource, stat: Option<MountStat>, next: MountStat, parsed: Option<Material>, t: Readings)
    returns (stat': Option<MountStat>)
    requires source.Valid()
    modifies source
    ensures source.Valid() && stat' == Some(next)
    ensures var before := old(source.Facts());
            var m := if Some(next) != stat && next.Present? then Accepted(parsed, t.read, before, source.pinnedIssuer) else None;
            match m
            case None => source.Facts() == before && source.previous == old(source.previous)
            case Some(m) =>
              if !WentStale(before, m.facts, t.stale) then source.loaded.material == m && source.previous.Some?
              else && source.previous.None?
                   && source.loaded.material == if CannotUndo(before, m.facts, t) then m else old(source.loaded.material)
    ensures var seen := Some(next) != stat;
            && source.mountAbsent == old(source.mountAbsent) + (if seen && next.Absent? then 1 else 0)
            && source.mountUnreadable == old(source.mountUnreadable) + (if seen && next.Unreadable? then 1 else 0)
            && source.reloadFailures == old(source.reloadFailures)
               + (if seen && next.Present? && Accepted(parsed, t.read, old(source.Facts()), source.pinnedIssuer).None? then 1 else 0)
    ensures source.rollbacks > old(source.rollbacks) <==>
            && Some(next) != stat && next.Present?
            && var m := Accepted(parsed, t.read, old(source.Facts()), source.pinnedIssuer);
               m.Some? && WentStale(old(source.Facts()), m.value.facts, t.stale) && !CannotUndo(old(source.Facts()), m.value.facts, t)
    ensures WentStale(old(source.Facts()), source.Facts(), t.stale) ==>
              old(source.Facts()).notAfter <= t.rollBack && t.rollBack - t.stale > 30 * 86_400
  {
    source.CheckExpiry(t.check);
    stat' := Some(next);
    if stat' == stat {
      return;
    }
    match next {
      case Absent =>
        source.mountAbsent := source.mountAbsent + 1;
      case Unreadable =>
        source.mountUnreadable := source.mountUnreadable + 1;
      case Present(_) =>
        var before := source.Facts();
        var ok := source.Reload(parsed, t.read, t.swapped);
        if ok && StaleRotation(before, source.Facts(), t.stale) {
          var undone := source.RollBack(t.rollBack);
        }
    }
  }
}
