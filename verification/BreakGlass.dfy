/**
 Break-glass: a signed grant on a mount suspends enforcement for a while, and a journal says
 when it did. The journal may refuse an entry at any time; what has to hold is that nothing
 is ever suspended that the journal does not say is suspended.
 */
module BreakGlass {
  import opened Wrappers
  import opened Text
  import opened Policy

  datatype Grant = Grant(id: string, issuedAt: int, expiresAt: int)

  datatype Verified = Verified(grant: Grant, digest: string) {
    predicate Covers(now: int) {
      grant.issuedAt <= now < grant.expiresAt
    }
  }

  /** What is on the mount: both files, readable, or nothing. */
  datatype Mount = Nothing | Material(raw: seq<byte>, signature: seq<byte>)

  /** Signature, parsing and the clock-free rules: not modelled, only their answer. */
  datatype Checked = Signed(grant: Grant) | Unacceptable(reason: string)

  datatype Refusal = Because(reason: string) | NotYetValid(grant: Grant) | AlreadyExpired(grant: Grant)

  datatype Verdict = Good(verified: Verified) | Bad(refusal: Refusal)

  datatype EventKind = Activated | Expired | Revoked | Rejected

  datatype Detail = SuspendedFor(seconds: int) | WindowClosed | Removed | Superseded | Refused(refusal: Refusal)

  datatype Entry = Entry(kind: EventKind, at: int, digest: string, detail: Detail)

  // ---- Reading a journal -----------------------------------------------------------

  function LastLifecycle(es: seq<Entry>): Option<Entry> {
    if es == [] then None
    else if es[|es| - 1].kind != Rejected then Some(es[|es| - 1])
    else LastLifecycle(es[..|es| - 1])
  }

  function CountActivated(es: seq<Entry>): nat {
    if es == [] then 0 else CountActivated(es[..|es| - 1]) + if es[|es| - 1].kind == Activated then 1 else 0
  }

  /** Activations and closes alternate, each close names the grant that was activated, and the
      one left open, if any, is `held`. */
  predicate Alternates(es: seq<Entry>, held: Option<string>) {
    if es == [] then held.None?
    else
      var init, e := es[..|es| - 1], es[|es| - 1];
      match e.kind
      case Rejected => Alternates(init, held)
      case Activated => held == Some(e.digest) && Alternates(init, None)
      case Expired => held.None? && Alternates(init, Some(e.digest))
      case Revoked => held.None? && Alternates(init, Some(e.digest))
  }

  // ---- What a poll journals when every entry lands ---------------------------------

  function Closing(held: Option<Verified>, kind: EventKind, now: int, detail: Detail): seq<Entry> {
    match held case Some(v) => [Entry(kind, now, v.digest, detail)] case None => []
  }

  function Alive(held: Option<Verified>, now: int): Option<Verified> {
    if held.Some? && held.value.Covers(now) then held else None
  }

  function Expiry(held: Option<Verified>, now: int): seq<Entry> {
    if Alive(held, now).Some? then [] else Closing(held, Expired, now, WindowClosed)
  }

  function Superseding(held: Option<Verified>, v: Verified, now: int): seq<Entry> {
    if held.Some? && held.value.digest == v.digest then []
    else Closing(held, Revoked, now, Superseded) + [Entry(Activated, now, v.digest, SuspendedFor(Remaining(v, now)))]
  }

  lemma Appended(es: seq<Entry>, e: Entry)
    ensures (es + [e])[..|es + [e]| - 1] == es && (es + [e])[|es|] == e
  {
  }

  /** A refusal leaves the record of what is in force as it was. */
  lemma RejectionChangesNothing(es: seq<Entry>, e: Entry, held: Option<string>)
    requires e.kind == Rejected
    ensures LastLifecycle(es + [e]) == LastLifecycle(es)
    ensures CountActivated(es + [e]) == CountActivated(es)
    ensures Alternates(es + [e], held) <==> Alternates(es, held)
  {
    Appended(es, e);
  }

  class BreakGlass {
    /** Which journal writes land, counted from the first. */
    const lands: nat -> bool
    const check: (seq<byte>, seq<byte>) -> Checked
    const digestOf: seq<byte> -> string
    var active: Option<Verified>
    var lastRejection: Option<(string, Refusal)>
    var activations: nat
    var rejections: nat
    var attempts: nat
    var journalBroken: bool
    /** The entries written since the process armed itself. */
    var written: seq<Entry>

    constructor (lands: nat -> bool, check: (seq<byte>, seq<byte>) -> Checked, digestOf: seq<byte> -> string)
      ensures Valid() && active.None? && written == []
      ensures this.lands == lands && this.check == check && this.digestOf == digestOf
    {
      this.lands, this.check, this.digestOf := lands, check, digestOf;
      active, lastRejection, activations, rejections, attempts, journalBroken, written := None, None, 0, 0, 0, false, [];
    }

    function Held(): Option<string>
      reads this
    {
      match active case Some(v) => Some(v.digest) case None => None
    }

    /** A grant in force is the one the journal last said came into force. */
    ghost predicate Recorded()
      reads this
    {
      active.Some? ==>
        && LastLifecycle(written).Some?
        && LastLifecycle(written).value.kind == Activated
        && LastLifecycle(written).value.digest == active.value.digest
    }

    ghost predicate NoFault()
      reads this
    {
      forall n :: 0 <= n < attempts ==> lands(n)
    }

    ghost predicate Valid()
      reads this
    {
      Recorded() && activations == CountActivated(written) && (NoFault() ==> Alternates(written, Held()))
    }

    /** `write_entry`. */
    method WriteEntry(e: Entry) returns (ok: bool)
      modifies this`written, this`attempts, this`journalBroken
      ensures ok == lands(old(attempts)) && attempts == old(attempts) + 1 && journalBroken == !ok
      ensures written == if ok then old(written) + [e] else old(written)
    {
      ok := lands(attempts);
      attempts := attempts + 1;
      if ok {
        written := written + [e];
      }
      journalBroken := !ok;
    }

    /** Drop the held grant, then say so. */
    method Close(kind: EventKind, now: int, detail: Detail)
      requires Valid() && active.Some? && (kind == Expired || kind == Revoked)
      modifies this`active, this`written, this`attempts, this`journalBroken
      ensures Valid() && active.None?
      ensures written == old(written) || written == old(written) + [Entry(kind, now, old(active).value.digest, detail)]
      ensures old(written) <= written && forall i :: |old(written)| <= i < |written| ==> written[i].kind != Rejected
      ensures NoFault() ==> old(NoFault()) && written == old(written) + [Entry(kind, now, old(active).value.digest, detail)]
    {
      var e := Entry(kind, now, active.value.digest, detail);
      active := None;
      Appended(written, e);
      var ok := WriteEntry(e);
      assert !ok ==> !lands(attempts - 1);
    }

    /** Say that a grant comes into force, then let it. */
    method Activate(v: Verified, now: int)
      requires Valid() && active.None?
      modifies this`active, this`activations, this`written, this`attempts, this`journalBroken
      ensures Valid()
      ensures active.Some? ==> active == Some(v) && activations == old(activations) + 1
      ensures active.None? ==> activations == old(activations) && written == old(written) && !NoFault()
      ensures NoFault() ==> old(NoFault())
      ensures active.Some? ==> written == old(written) + [Entry(Activated, now, v.digest, SuspendedFor(Remaining(v, now)))]
    {
      var e := Entry(Activated, now, v.digest, SuspendedFor(Remaining(v, now)));
      Appended(written, e);
      var ok := WriteEntry(e);
      if !ok {
        assert !lands(attempts - 1);
        return;
      }
      activations := activations + 1;
      active := Some(v);
    }

    function Verify(raw: seq<byte>, signature: seq<byte>, now: int): (v: Verdict)
      reads this
      ensures v.Good? <==> check(raw, signature).Signed? && check(raw, signature).grant.issuedAt <= now < check(raw, signature).grant.expiresAt
      ensures v.Good? ==> v.verified == Verified(check(raw, signature).grant, digestOf(raw)) && v.verified.Covers(now)
      ensures v.Bad? && check(raw, signature).Unacceptable? ==> v.refusal == Because(check(raw, signature).reason)
      ensures v.Bad? && check(raw, signature).Signed? ==>
                v.refusal == if check(raw, signature).grant.issuedAt > now then NotYetValid(check(raw, signature).grant)
                             else AlreadyExpired(check(raw, signature).grant)
    {
      match check(raw, signature)
      case Unacceptable(reason) => Bad(Because(reason))
      case Signed(grant) =>
        if now < grant.issuedAt then Bad(NotYetValid(grant))
        else if now >= grant.expiresAt then Bad(AlreadyExpired(grant))
        else Good(Verified(grant, digestOf(raw)))
    }

    /** A grant that no longer verifies is refused: counted always, journalled only when the
        last poll was not refused for the same bytes and the same reason. */
    method Refuse(raw: seq<byte>, refusal: Refusal, now: int)
      requires Valid()
      modifies this`lastRejection, this`rejections, this`written, this`attempts, this`journalBroken
      ensures Valid() && rejections == old(rejections) + 1 && lastRejection == Some((digestOf(raw), refusal))
      ensures old(lastRejection) == Some((digestOf(raw), refusal)) ==> written == old(written) && attempts == old(attempts)
      ensures old(lastRejection) != Some((digestOf(raw), refusal)) && NoFault() ==>
                written == old(written) + [Entry(Rejected, now, "", Refused(refusal))]
      ensures NoFault() ==> old(NoFault())
      ensures written == old(written) || written == old(written) + [Entry(Rejected, now, "", Refused(refusal))]
    {
      rejections := rejections + 1;
      var key := (digestOf(raw), refusal);
      var repeated := lastRejection == Some(key);
      lastRejection := Some(key);
      if !repeated {
        var e := Entry(Rejected, now, "", Refused(refusal));
        RejectionChangesNothing(written, e, Held());
        var ok := WriteEntry(e);
        assert NoFault() ==> old(NoFault());
        assert !ok ==> !lands(attempts - 1);
      }
    }

    /** The mount holds a grant that verifies: keep it, or let it supersede what is held. */
    method Accept(v: Verified, now: int)
      requires Valid() && v.Covers(now) && (active.Some? ==> active.value.Covers(now))
      modifies this`active, this`activations, this`written, this`attempts, this`journalBroken
      ensures Valid() && (active.Some? ==> active.value.Covers(now) && active.value.digest == v.digest)
      ensures active.Some? ==> active == old(active) || active == Some(v)
      ensures NoFault() ==> old(NoFault()) && active.Some? && written == old(written) + Superseding(old(active), v, now)
      ensures old(Held()) == Some(v.digest) ==> active == old(active) && written == old(written) && activations == old(activations)
    {
      if active.Some? && active.value.digest == v.digest {
        return;
      }
      if active.Some? {
        Close(Revoked, now, Superseded);
      }
      Activate(v, now);
    }

    method ExpireHeld(now: int)
      requires Valid()
      modifies this`active, this`written, this`attempts, this`journalBroken
      ensures Valid() && active == Alive(old(active), now)
      ensures old(written) <= written && forall i :: |old(written)| <= i < |written| ==> written[i].kind != Rejected
      ensures NoFault() ==> old(NoFault()) && written == old(written) + Expiry(old(active), now)
    {
      if active.Some? && !active.value.Covers(now) {
        Close(Expired, now, WindowClosed);
      }
    }

    ghost function JournalledFor(held: Option<Verified>, refused: Option<(string, Refusal)>, mount: Mount, now: int): seq<Entry>
      reads this
    {
      match mount
      case Nothing => Closing(held, Revoked, now, Removed)
      case Material(raw, signature) =>
        match Verify(raw, signature, now)
        case Good(v) => Superseding(held, v, now)
        case Bad(refusal) =>
          if refused == Some((digestOf(raw), refusal)) then [] else [Entry(Rejected, now, "", Refused(refusal))]
    }

    /**
     `poll`. Afterwards a held grant covers the moment and is the one the journal says is in
     force; an empty mount holds nothing; and a refusal leaves a live grant alone, counts, and
     is journalled only when it is a new one.
     */
    method Poll(mount: Mount, now: int)
      requires Valid()
      modifies this
      ensures Valid() && (active.Some? ==> active.value.grant.issuedAt <= now < active.value.grant.expiresAt)
      ensures NoFault() ==>
                written == old(written) + Expiry(old(active), now) + JournalledFor(Alive(old(active), now), old(lastRejection), mount, now)
      ensures mount.Nothing? ==> active.None? && lastRejection.None? && rejections == old(rejections)
      ensures mount.Material? ==>
                match Verify(mount.raw, mount.signature, now)
                case Good(v) =>
                  && lastRejection.None? && rejections == old(rejections)
                  && (active.Some? ==> active.value.digest == v.digest && (active == Some(v) || active == old(active)))
                  && (NoFault() ==> active.Some?)
                case Bad(refusal) =>
                  && rejections == old(rejections) + 1 && activations == old(activations)
                  && active == Alive(old(active), now) && lastRejection == Some((digestOf(mount.raw), refusal))
                  && (old(lastRejection) == lastRejection ==>
                        old(written) <= written && forall i :: |old(written)| <= i < |written| ==> written[i].kind != Rejected)
    {
      ExpireHeld(now);
      match mount {
        case Nothing =>
          if active.Some? {
            Close(Revoked, now, Removed);
          }
          lastRejection := None;
        case Material(raw, signature) =>
          match Verify(raw, signature, now) {
            case Good(v) =>
              lastRejection := None;
              Accept(v, now);
            case Bad(refusal) =>
              Refuse(raw, refusal, now);
          }
      }
    }

    /** `active`: the held grant, if its window still covers the moment it is asked. */
    function InForce(now: int): (r: Option<Verified>)
      reads this
      ensures r.Some? ==> r == active
      ensures r.Some? <==> active.Some? && active.value.grant.issuedAt <= now < active.value.grant.expiresAt
    {
      if active.Some? && active.value.Covers(now) then active else None
    }
  }

  /** The whole seconds left of a grant. */
  function Remaining(v: Verified, now: int): (seconds: int)
    ensures v.grant.expiresAt <= now ==> seconds == 0
    ensures v.grant.expiresAt > now ==> seconds * 1_000_000_000 <= v.grant.expiresAt - now < (seconds + 1) * 1_000_000_000
  {
    if v.grant.expiresAt <= now then 0 else (v.grant.expiresAt - now) / SECOND
  }

  /** A run of polls: any mounts, any times, any journal faults. */
  method Run(glass: BreakGlass, mounts: seq<Mount>, times: seq<int>)
    requires glass.Valid() && |times| == |mounts|
    modifies glass
    ensures glass.Valid()
  {
    var i := 0;
    while i < |mounts|
      invariant 0 <= i <= |mounts| && glass.Valid()
    {
      glass.Poll(mounts[i], times[i]);
      i := i + 1;
    }
  }
}
