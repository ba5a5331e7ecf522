/** The record pump: what decodes, what does not, and when the datapath is given up on. */
module Pump {
  import opened Wrappers
  import opened Text
  import opened Wire

  const EVENT_WIRE_LEN: nat := 296
  const DATAPATH_ABI: nat := 0xFE10
  const DECODE_FAILURE_RUN_MAX: nat := 64

  const COMM_LEN: nat := 16
  const PATH_LEN: nat := 256

  type RingRecord = bytes

  /** The event a record carries; the targets are little-endian. */
  datatype Event = Event(
    cgroup: nat, pid: nat, tgid: nat, syscall: nat, action: byte, flags: byte, stamp: nat, comm: bytes, path: bytes)

  const U64_MAX: nat := 0xFFFF_FFFF_FFFF_FFFF

  predicate EventOk(e: Event) {
    && e.cgroup <= U64_MAX && e.pid <= U32_MAX && e.tgid <= U32_MAX && e.syscall <= U32_MAX && e.stamp <= U16_MAX
    && |e.comm| == COMM_LEN && |e.path| == PATH_LEN
  }

  function U32At(b: RingRecord, at: nat): nat
    requires at + 4 <= |b|
  {
    U32Of(b[at..at + 4])
  }

  function StampOf(b: RingRecord): nat
    requires |b| == EVENT_WIRE_LEN
  {
    U16Of(b[22..24])
  }

  function FieldsOf(b: RingRecord): Event
    requires |b| == EVENT_WIRE_LEN
  {
    Event(U32At(b, 0) + 0x1_0000_0000 * U32At(b, 4), U32At(b, 8), U32At(b, 12), U32At(b, 16),
          b[20], b[21], StampOf(b), b[24..40], b[40..296])
  }

  /** `decode_event` accepts a record, `abi_stamp_mismatch` names its stamp, or neither. */
  datatype Class = Decoded(event: Event) | Foreign(stamp: nat) | Garbled

  function Classify(record: RingRecord): Class {
    if |record| != EVENT_WIRE_LEN then Garbled
    else if StampOf(record) != DATAPATH_ABI then Foreign(StampOf(record))
    else Decoded(FieldsOf(record))
  }

  /** `encode_event`. */
  function PutHead(e: Event): (b: bytes)
    requires EventOk(e)
    ensures |b| == 20
  {
    PutU32(e.cgroup % 0x1_0000_0000) + PutU32(e.cgroup / 0x1_0000_0000) + PutU32(e.pid) + PutU32(e.tgid) + PutU32(e.syscall)
  }

  function PutEvent(e: Event): (b: bytes)
    requires EventOk(e)
    ensures |b| == EVENT_WIRE_LEN
  {
    PutHead(e) + ([e.action, e.flags] + PutU16(e.stamp)) + (e.comm + e.path)
  }

  lemma HeadReadsBack(e: Event)
    requires EventOk(e)
    ensures var b := PutEvent(e);
            U32At(b, 0) == e.cgroup % 0x1_0000_0000 && U32At(b, 4) == e.cgroup / 0x1_0000_0000
            && U32At(b, 8) == e.pid && U32At(b, 12) == e.tgid && U32At(b, 16) == e.syscall
  {
    var b := PutEvent(e);
    assert b[..20] == PutHead(e);
    assert b[0..4] == PutU32(e.cgroup % 0x1_0000_0000) && b[4..8] == PutU32(e.cgroup / 0x1_0000_0000);
    assert b[8..12] == PutU32(e.pid) && b[12..16] == PutU32(e.tgid) && b[16..20] == PutU32(e.syscall);
    U32RoundTrip(e.cgroup % 0x1_0000_0000);
    U32RoundTrip(e.cgroup / 0x1_0000_0000);
    U32RoundTrip(e.pid);
    U32RoundTrip(e.tgid);
    U32RoundTrip(e.syscall);
  }

  lemma TailReadsBack(e: Event)
    requires EventOk(e)
    ensures var b := PutEvent(e);
            b[20] == e.action && b[21] == e.flags && StampOf(b) == e.stamp && b[24..40] == e.comm && b[40..296] == e.path
  {
    var b := PutEvent(e);
    assert b[22..24] == PutU16(e.stamp);
    U16RoundTrip(e.stamp);
    assert b[24..40] == e.comm && b[40..296] == e.path;
  }

  /** A record written by the layout is decoded to the event that was written, unless its stamp
      is another build's, and then it is named foreign by that stamp. */
  lemma ClassifyWritten(e: Event)
    requires EventOk(e)
    ensures |PutEvent(e)| == 296
    ensures Classify(PutEvent(e)) == if e.stamp == 0xFE10 then Decoded(e) else Foreign(e.stamp)
  {
    HeadReadsBack(e);
    TailReadsBack(e);
    assert FieldsOf(PutEvent(e)).cgroup == e.cgroup;
  }

  /** Every record of the layout's length is one that the layout writes, and any other is garbled. */
  lemma WrittenOrGarbled(record: RingRecord) returns (e: Event)
    ensures |record| != 296 ==> Classify(record) == Garbled
    ensures |record| == 296 ==> EventOk(e) && PutEvent(e) == record
  {
    if |record| != 296 {
      e := Event(0, 0, 0, 0, 0, 0, 0, [], []);
    } else {
      e := FieldsOf(record);
      WordsBack(record);
      U16Exact(record[22..24]);
      assert record == record[..20] + ([record[20], record[21]] + record[22..24]) + (record[24..40] + record[40..296]);
    }
  }

  lemma WordsBack(record: RingRecord)
    requires |record| == 296
    ensures EventOk(FieldsOf(record)) && PutHead(FieldsOf(record)) == record[..20]
  {
    var e, lo, hi := FieldsOf(record), U32At(record, 0), U32At(record, 4);
    assert e.cgroup % 0x1_0000_0000 == lo && e.cgroup / 0x1_0000_0000 == hi;
    U32Exact(record[0..4]);
    U32Exact(record[4..8]);
    U32Exact(record[8..12]);
    U32Exact(record[12..16]);
    U32Exact(record[16..20]);
    assert record[..20] == record[0..4] + record[4..8] + record[8..12] + record[12..16] + record[16..20];
  }

  function ClassifyAll(records: seq<RingRecord>): (cs: seq<Class>)
    ensures |cs| == |records| && forall i :: 0 <= i < |records| ==> cs[i] == Classify(records[i])
  {
    seq(|records|, i requires 0 <= i < |records| => Classify(records[i]))
  }

  // ---- The decode state ------------------------------------------------------------

  datatype Fault = Undecodable | AbiMismatch(stamp: nat) | Elsewhere

  datatype State = State(failed: nat, run: nat, mismatches: nat, fault: Option<Fault>)

  /** First reason wins. */
  function Latch(fault: Option<Fault>, reason: Fault): Option<Fault> {
    if fault.None? then Some(reason) else fault
  }

  function Failure(s: State): State {
    State(s.failed + 1, s.run + 1, s.mismatches,
          if s.run + 1 >= DECODE_FAILURE_RUN_MAX then Latch(s.fault, Undecodable) else s.fault)
  }

  function Step(s: State, c: Class): State {
    match c
    case Decoded(_) => s.(run := 0)
    case Garbled => Failure(s)
    case Foreign(stamp) => var t := Failure(s.(mismatches := s.mismatches + 1)); t.(fault := Latch(t.fault, AbiMismatch(stamp)))
  }

  function Fold(s: State, cs: seq<Class>): State {
    if cs == [] then s else Step(Fold(s, cs[..|cs| - 1]), cs[|cs| - 1])
  }

  /** So many failures in a row, one by one. */
  function Failures(s: State, n: nat): State {
    if n == 0 then s else Failure(Failures(s, n - 1))
  }

  /** Counting them at once comes to the same. */
  lemma {:induction false} FailuresAtOnce(s: State, n: nat)
    requires n > 0
    ensures Failures(s, n) == State(s.failed + n, s.run + n, s.mismatches,
                                    if s.run + n >= DECODE_FAILURE_RUN_MAX then Latch(s.fault, Undecodable) else s.fault)
  {
    if n > 1 {
      FailuresAtOnce(s, n - 1);
    } else {
      assert Failures(s, 0) == s;
    }
  }

  // ---- The agent and the loop ------------------------------------------------------

  datatype Stats = Stats(handled: nat, decodeFailed: nat, unknownSyscall: nat)

  class Agent {
    var decodeFailed: nat
    var decodeFailedRun: nat
    var datapathAbiMismatch: nat
    var terminalFault: Option<Fault>

    constructor ()
      ensures Decoding() == State(0, 0, 0, None)
    {
      decodeFailed, decodeFailedRun, datapathAbiMismatch, terminalFault := 0, 0, 0, None;
    }

    function Decoding(): State
      reads this
    {
      State(decodeFailed, decodeFailedRun, datapathAbiMismatch, terminalFault)
    }

    method MarkTerminalFault(reason: Fault)
      modifies this`terminalFault
      ensures terminalFault == Latch(old(terminalFault), reason)
    {
      if terminalFault.None? {
        terminalFault := Some(reason);
      }
    }

    method RecordDecodeFailure(n: nat)
      modifies this`decodeFailed, this`decodeFailedRun, this`terminalFault
      ensures Decoding() == Failures(old(Decoding()), n)
      ensures decodeFailed == old(decodeFailed) + n && decodeFailedRun == old(decodeFailedRun) + n
      ensures terminalFault == if n > 0 && decodeFailedRun >= 64 && old(terminalFault).None? then Some(Undecodable) else old(terminalFault)
    {
      if n == 0 {
        return;
      }
      FailuresAtOnce(Decoding(), n);
      decodeFailed := decodeFailed + n;
      decodeFailedRun := decodeFailedRun + n;
      if decodeFailedRun >= DECODE_FAILURE_RUN_MAX {
        MarkTerminalFault(Undecodable);
      }
    }

    method RecordDecodeSuccess()
      modifies this`decodeFailedRun
      ensures Decoding() == old(Decoding()).(run := 0)
    {
      decodeFailedRun := 0;
    }

    method RecordAbiMismatch(stamp: nat)
      modifies this
      ensures Decoding() == Step(old(Decoding()), Foreign(stamp))
    {
      datapathAbiMismatch := datapathAbiMismatch + 1;
      RecordDecodeFailure(1);
      MarkTerminalFault(AbiMismatch(stamp));
    }
  }

  function Tally(cs: seq<Class>, p: Class -> bool): nat {
    if cs == [] then 0 else Tally(cs[..|cs| - 1], p) + if p(cs[|cs| - 1]) then 1 else 0
  }

  function IsHandled(known: nat -> bool): Class -> bool {
    (c: Class) => c.Decoded? && known(c.event.syscall)
  }

  function IsUnknown(known: nat -> bool): Class -> bool {
    (c: Class) => c.Decoded? && !known(c.event.syscall)
  }

  lemma OneMore(start: State, cs: seq<Class>, i: nat, p: Class -> bool)
    requires i < |cs|
    ensures Fold(start, cs[..i + 1]) == Step(Fold(start, cs[..i]), cs[i])
    ensures Tally(cs[..i + 1], p) == Tally(cs[..i], p) + if p(cs[i]) then 1 else 0
  {
    assert cs[..i + 1][..i] == cs[..i];
  }

  /** One record, by what it turned out to be. */
  method PumpOne(agent: Agent, known: nat -> bool, c: Class, stats: Stats) returns (out: Stats)
    modifies agent
    ensures agent.Decoding() == Step(old(agent.Decoding()), c)
    ensures out == Stats(stats.handled + (if IsHandled(known)(c) then 1 else 0),
                         stats.decodeFailed + (if c.Decoded? then 0 else 1),
                         stats.unknownSyscall + (if IsUnknown(known)(c) then 1 else 0))
    ensures agent.decodeFailed == old(agent.decodeFailed) + if c.Decoded? then 0 else 1
  {
    out := stats;
    match c {
      case Decoded(event) =>
        agent.RecordDecodeSuccess();
        if known(event.syscall) {
          out := out.(handled := out.handled + 1);
        } else {
          out := out.(unknownSyscall := out.unknownSyscall + 1);
        }
      case Foreign(stamp) =>
        out := out.(decodeFailed := out.decodeFailed + 1);
        agent.RecordAbiMismatch(stamp);
      case Garbled =>
        out := out.(decodeFailed := out.decodeFailed + 1);
        agent.RecordDecodeFailure(1);
    }
  }

  /** `pump_records`. Every record read is handled, unknown or failed, and the agent is left in
      the state the whole stream folds to. */
  method PumpRecords(agent: Agent, known: nat -> bool, records: seq<RingRecord>) returns (stats: Stats)
    modifies agent
    ensures agent.Decoding() == Fold(old(agent.Decoding()), ClassifyAll(records))
    ensures stats.handled + stats.unknownSyscall + stats.decodeFailed == |records|
    ensures stats.handled == Tally(ClassifyAll(records), IsHandled(known))
    ensures stats.unknownSyscall == Tally(ClassifyAll(records), IsUnknown(known))
    ensures agent.decodeFailed == old(agent.decodeFailed) + stats.decodeFailed
  {
    stats := Stats(0, 0, 0);
    var i := 0;
    ghost var start, cs := agent.Decoding(), ClassifyAll(records);
    while i < |records|
      invariant 0 <= i <= |records|
      invariant agent.Decoding() == Fold(start, cs[..i])
      invariant stats.handled + stats.unknownSyscall + stats.decodeFailed == i
      invariant stats.handled == Tally(cs[..i], IsHandled(known)) && stats.unknownSyscall == Tally(cs[..i], IsUnknown(known))
      invariant agent.decodeFailed == old(agent.decodeFailed) + stats.decodeFailed
    {
      OneMore(start, cs, i, IsHandled(known));
      OneMore(start, cs, i, IsUnknown(known));
      stats := PumpOne(agent, known, Classify(records[i]), stats);
      i := i + 1;
    }
    assert cs[..i] == cs;
  }

  // ---- What the state means --------------------------------------------------------

  predicate Fails(c: Class) {
    !c.Decoded?
  }

  /** `run` counts the records at the end of the stream that failed with no success after them;
      a stream of nothing but failures continues the run it began with. */
  predicate FailingRun(cs: seq<Class>, before: nat, run: nat) {
    || (run == |cs| + before && forall i :: 0 <= i < |cs| ==> Fails(cs[i]))
    || (run < |cs| && !Fails(cs[|cs| - run - 1]) && forall i :: |cs| - run <= i < |cs| ==> Fails(cs[i]))
  }

  lemma {:induction false} RunIsFailingSuffix(s: State, cs: seq<Class>)
    ensures FailingRun(cs, s.run, Fold(s, cs).run)
    decreases |cs|
  {
    if cs != [] {
      RunIsFailingSuffix(s, cs[..|cs| - 1]);
    }
  }

  /** Splitting a stream into batches changes nothing. */
  lemma {:induction false} FoldSplit(s: State, a: seq<Class>, b: seq<Class>)
    ensures Fold(s, a + b) == Fold(Fold(s, a), b)
    decreases |b|
  {
    if b == [] {
      assert a + b == a;
    } else {
      FoldSplit(s, a, b[..|b| - 1]);
      assert (a + b)[..|a + b| - 1] == a + b[..|b| - 1];
    }
  }

  lemma {:induction false} FaultStays(s: State, cs: seq<Class>)
    requires s.fault.Some?
    ensures Fold(s, cs).fault == s.fault
    decreases |cs|
  {
    if cs != [] {
      FaultStays(s, cs[..|cs| - 1]);
    }
  }

  /** Record `k` is one the datapath is given up on: of another build, or the last of 64
      failures in a row. */
  predicate Fatal(s: State, cs: seq<Class>, k: nat)
    requires k < |cs|
  {
    cs[k].Foreign? || (cs[k].Garbled? && Fold(s, cs[..k]).run >= 63)
  }

  /** The cause that is latched: 64 in a row is named before a foreign stamp is. */
  function Cause(s: State, cs: seq<Class>, k: nat): Fault
    requires k < |cs|
  {
    if Fold(s, cs[..k]).run >= 63 then Undecodable
    else if cs[k].Foreign? then AbiMismatch(cs[k].stamp) else Undecodable
  }

  /** From a fault-free agent the fault is set exactly at the first fatal record, with that
      record's cause, and stays what it is. */
  lemma {:induction false} FaultIsFirstFatal(s: State, cs: seq<Class>) returns (k: nat)
    requires s.fault.None?
    ensures k <= |cs| && forall j :: 0 <= j < k ==> !Fatal(s, cs, j)
    ensures k < |cs| ==> Fatal(s, cs, k) && Fold(s, cs).fault == Some(Cause(s, cs, k))
    ensures k == |cs| ==> Fold(s, cs).fault.None?
    decreases |cs|
  {
    if cs == [] {
      k := 0;
    } else {
      var n := |cs| - 1;
      var init := cs[..n];
      k := FaultIsFirstFatal(s, init);
      forall j | 0 <= j < n ensures Fatal(s, cs, j) <==> Fatal(s, init, j) {
        assert init[..j] == cs[..j];
      }
      if k < n {
        assert init[..k] == cs[..k];
      } else if !Fatal(s, cs, n) {
        k := n + 1;
      }
    }
  }
}
