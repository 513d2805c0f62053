/** Sequence numbers of a TCP client connection (src/tcp.rs), as section 3.3 of
    RFC 793 has them: modulo 2^32. */
module Tcp {
  import opened Base
  import R = Ring

  const U32: int := 0x1_0000_0000
  const MAX_SEGMENT: nat := 1480
  const HEADER: nat := 20

  datatype Status = Closed | SynSent | Established | FinWait1 | FinWait2 | TimeWait

  datatype Flags = Flags(fin: bool, syn: bool, rst: bool, psh: bool, ack: bool)

  const SYN := Flags(false, true, false, false, false)
  const ACK := Flags(false, false, false, false, true)
  const PSH_ACK := Flags(false, false, false, true, true)
  const FIN_ACK := Flags(true, false, false, false, true)

  datatype Segment = Segment(seqNum: nat, ackNum: nat, flags: Flags, data: seq<byte>)

  /** iss is the first sequence number, log every segment handed to IP. */
  datatype Conn = Conn(inUse: bool, status: Status, sendSeq: nat, sendAck: nat, finReceived: bool, iss: nat,
    log: seq<Segment>)

  function Wrapped(n: int): (r: nat)
    ensures r < U32
  {
    n % U32
  }

  // ---- operations --------------------------------------------------------------------------------

  /** A segment that does not fit is not sent. */
  function Transmit(c: Conn, flags: Flags, data: seq<byte>): Conn {
    if HEADER + |data| > MAX_SEGMENT then c
    else c.(log := c.log + [Segment(c.sendSeq, c.sendAck, flags, data)])
  }

  /** connect: a fresh connection and its SYN. */
  function Opened(iss: nat): (r: Conn)
    ensures r.log == [Segment(iss, 0, Flags(false, true, false, false, false), [])]
  {
    Transmit(Conn(true, SynSent, iss, 0, false, iss, []), SYN, [])
  }

  /** send: one segment of at most 1460 bytes with everything there is to acknowledge.  A longer one
      is counted but not sent. */
  function Sent(c: Conn, data: seq<byte>): (r: Conn)
    ensures r.sendAck == c.sendAck && r.status == c.status && (!c.inUse || c.status != Established ==> r == c)
    ensures c.inUse && c.status == Established ==>
      r.sendSeq == (c.sendSeq + |data|) % 0x1_0000_0000 &&
      r.log == if |data| <= 1460 then
        c.log + [Segment(c.sendSeq, r.sendAck, Flags(false, false, false, true, true), data)] else c.log
  {
    if !c.inUse || c.status != Established then c
    else
      var t := Transmit(c, PSH_ACK, data);
      t.(sendSeq := Wrapped(t.sendSeq + |data|))
  }

  /** The first half of close. */
  function Closing(c: Conn): (r: Conn)
    ensures c.inUse && (c.status == Established || c.status == SynSent) ==>
      r.log == c.log + [Segment(c.sendSeq, r.sendAck, Flags(true, false, false, false, true), [])] &&
      r.sendSeq == (c.sendSeq + 1) % 0x1_0000_0000 && r.status == FinWait1
    ensures !c.inUse || (c.status != Established && c.status != SynSent) ==> r == c
  {
    if c.inUse && (c.status == Established || c.status == SynSent) then
      var t := Transmit(c, FIN_ACK, []);
      t.(sendSeq := Wrapped(t.sendSeq + 1), status := FinWait1)
    else c
  }

  /** The second half. */
  function Finish(c: Conn): (r: Conn)
    ensures !r.inUse && r.status == Closed && r.log == c.log
  {
    c.(inUse := false, status := Closed)
  }

  function Acknowledged(c: Conn, ack: int): Conn {
    Transmit(c.(sendAck := Wrapped(ack)), ACK, [])
  }

  /** rx, for a segment of this connection. */
  function Received(c: Conn, s: Segment): Conn {
    if s.flags.rst then c.(status := Closed, inUse := false, finReceived := true)
    else
      match c.status
      case SynSent =>
        if s.flags.syn && s.flags.ack && s.ackNum == Wrapped(c.sendSeq + 1) then
          Acknowledged(c.(sendSeq := s.ackNum), s.seqNum + 1).(status := Established)
        else c
      case Established =>
        var c1 := if s.data != [] then Acknowledged(c, s.seqNum + |s.data|) else c;
        if s.flags.fin then Acknowledged(c1, s.seqNum + |s.data| + 1).(finReceived := true, status := TimeWait) else c1
      case FinWait1 =>
        if !s.flags.ack then c
        else if s.flags.fin then Acknowledged(c, s.seqNum + 1).(status := TimeWait)
        else c.(status := FinWait2)
      case FinWait2 =>
        if s.flags.fin then Acknowledged(c, s.seqNum + 1).(finReceived := true, status := TimeWait) else c
      case _ => c
  }

  // ---- accounting ----------------------------------------------------------------------------------

  /** Data bytes in the first n segments. */
  function DataLen(log: seq<Segment>, n: nat): nat
    requires n <= |log|
  {
    if n == 0 then 0 else DataLen(log, n - 1) + |log[n - 1].data|
  }

  /** The data segments follow each other without gap or overlap from iss + 1 on. */
  ghost predicate Contiguous(log: seq<Segment>, iss: nat) {
    forall i :: 0 <= i < |log| && |log[i].data| > 0 ==> InPlace(log, iss, i)
  }

  ghost predicate InPlace(log: seq<Segment>, iss: nat, i: nat)
    requires i < |log|
  {
    log[i].seqNum == Wrapped(iss + 1 + DataLen(log, i))
  }

  ghost predicate Accounted(c: Conn) {
    c.iss < U32 && c.sendSeq < U32 && Contiguous(c.log, c.iss) &&
    (c.status == SynSent ==> c.sendSeq == c.iss && DataLen(c.log, |c.log|) == 0) &&
    (c.status == Established ==> c.sendSeq == Wrapped(c.iss + 1 + DataLen(c.log, |c.log|)))
  }

  lemma {:induction false} DataLenPrefix(log: seq<Segment>, s: Segment, n: nat)
    requires n <= |log|
    ensures DataLen(log + [s], n) == DataLen(log, n)
    decreases n
  {
    if n > 0 {
      DataLenPrefix(log, s, n - 1);
    }
  }

  lemma DataLenLast(log: seq<Segment>, s: Segment)
    ensures DataLen(log + [s], |log| + 1) == DataLen(log, |log|) + |s.data|
  {
    DataLenPrefix(log, s, |log|);
  }

  lemma PlaceKept(log: seq<Segment>, s: Segment, iss: nat, i: nat)
    requires i < |log| && InPlace(log, iss, i)
    ensures InPlace(log + [s], iss, i)
  {
    hide Wrapped, DataLen;
    DataLenPrefix(log, s, i);
  }

  lemma Appended(log: seq<Segment>, s: Segment, iss: nat)
    requires Contiguous(log, iss) && (|s.data| > 0 ==> s.seqNum == Wrapped(iss + 1 + DataLen(log, |log|)))
    ensures Contiguous(log + [s], iss) && DataLen(log + [s], |log| + 1) == DataLen(log, |log|) + |s.data|
  {
    hide Wrapped, DataLen, InPlace;
    var r := log + [s];
    forall i | 0 <= i < |r| && |r[i].data| > 0 ensures InPlace(r, iss, i) {
      if i < |log| {
        assert r[i] == log[i];
        PlaceKept(log, s, iss, i);
      } else {
        LastInPlace(log, s, iss);
      }
    }
    DataLenLast(log, s);
  }

  lemma LastInPlace(log: seq<Segment>, s: Segment, iss: nat)
    requires s.seqNum == Wrapped(iss + 1 + DataLen(log, |log|))
    ensures InPlace(log + [s], iss, |log|)
  {
    hide Wrapped, DataLen;
    DataLenPrefix(log, s, |log|);
  }

  /** Segments without data may be sent at any time. */
  lemma EmptyTransmit(c: Conn, flags: Flags)
    requires Accounted(c)
    ensures Accounted(Transmit(c, flags, [])) &&
      DataLen(Transmit(c, flags, []).log, |c.log| + 1) == DataLen(c.log, |c.log|)
  {
    hide Wrapped, DataLen;
    Appended(c.log, Segment(c.sendSeq, c.sendAck, flags, []), c.iss);
  }

  lemma WrappedAdd(a: int, n: int)
    ensures Wrapped(Wrapped(a) + n) == Wrapped(a + n)
  {
  }

  lemma OpenedAccounted(iss: nat)
    requires iss < U32
    ensures Accounted(Opened(iss))
  {
    EmptyTransmit(Conn(true, SynSent, iss, 0, false, iss, []), SYN);
  }

  /** A send that fits in a segment continues the stream. */
  lemma SentAccounted(c: Conn, data: seq<byte>)
    requires Accounted(c) && HEADER + |data| <= MAX_SEGMENT
    ensures Accounted(Sent(c, data))
  {
    hide Wrapped, DataLen;
    if c.inUse && c.status == Established {
      Appended(c.log, Segment(c.sendSeq, c.sendAck, PSH_ACK, data), c.iss);
      WrappedAdd(c.iss + 1 + DataLen(c.log, |c.log|), |data|);
    }
  }

  lemma AcknowledgedAccounted(c: Conn, ack: int)
    requires Accounted(c)
    ensures Accounted(Acknowledged(c, ack))
  {
    hide Wrapped, DataLen;
    EmptyTransmit(c.(sendAck := Wrapped(ack)), ACK);
  }

  lemma ReceivedAccounted(c: Conn, s: Segment)
    requires Accounted(c)
    ensures Accounted(Received(c, s))
  {
    hide Wrapped, DataLen;
    if !s.flags.rst {
      match c.status
      case SynSent =>
        if s.flags.syn && s.flags.ack && s.ackNum == Wrapped(c.sendSeq + 1) {
          AcknowledgedAccounted(c.(status := Established, sendSeq := s.ackNum), s.seqNum + 1);
        }
      case Established =>
        if s.data != [] {
          AcknowledgedAccounted(c, s.seqNum + |s.data|);
        }
        var c1 := if s.data != [] then Acknowledged(c, s.seqNum + |s.data|) else c;
        AcknowledgedAccounted(c1, s.seqNum + |s.data| + 1);
      case FinWait1 => AcknowledgedAccounted(c, s.seqNum + 1);
      case FinWait2 => AcknowledgedAccounted(c, s.seqNum + 1);
      case _ =>
    }
  }

  lemma ClosingAccounted(c: Conn)
    requires Accounted(c)
    ensures Accounted(Closing(c))
  {
    hide Wrapped, DataLen;
    EmptyTransmit(c, FIN_ACK);
  }

  // ---- runs ------------------------------------------------------------------------------------------

  datatype Op = Send(data: seq<byte>) | Receive(s: Segment) | Close | Release

  function Perform(c: Conn, op: Op): Conn {
    match op
    case Send(data) => Sent(c, data)
    case Receive(s) => Received(c, s)
    case Close => Closing(c)
    case Release => Finish(c)
  }

  function PerformAll(c: Conn, ops: seq<Op>): Conn {
    if ops == [] then c else Perform(PerformAll(c, ops[..|ops| - 1]), ops[|ops| - 1])
  }

  predicate Small(op: Op) {
    op.Send? ==> HEADER + |op.data| <= MAX_SEGMENT
  }

  /** On every connection, with sends of at most 1460 bytes, the data segments occupy
      contiguous sequence ranges from iss + 1, whatever arrives meanwhile. */
  lemma {:induction false} StreamContiguous(iss: nat, ops: seq<Op>)
    requires iss < U32 && forall i :: 0 <= i < |ops| ==> Small(ops[i])
    ensures Accounted(PerformAll(Opened(iss), ops))
    decreases |ops|
  {
    if ops == [] {
      OpenedAccounted(iss);
    } else {
      var n := |ops| - 1;
      var c := PerformAll(Opened(iss), ops[..n]);
      StreamContiguous(iss, ops[..n]);
      assert Small(ops[n]);
      match ops[n]
      case Send(data) => SentAccounted(c, data);
      case Receive(s) => ReceivedAccounted(c, s);
      case Close => ClosingAccounted(c);
      case Release =>
    }
  }

  /** A larger send is not transmitted but counted: the next data leaves a gap. */
  lemma LargeSendLeavesGap(c: Conn, data: seq<byte>, more: seq<byte>)
    requires Accounted(c) && c.inUse && c.status == Established && 1460 < |data| < 0x1_0000 - HEADER &&
      0 < |more| <= 1460
    ensures Sent(c, data).log == c.log && !Contiguous(Sent(Sent(c, data), more).log, c.iss)
  {
    hide Wrapped, DataLen;
    var n := DataLen(c.log, |c.log|);
    var c1 := Sent(c, data);
    var c2 := Sent(c1, more);
    WrappedAdd(c.iss + 1 + n, |data|);
    var s := Segment(c1.sendSeq, c1.sendAck, PSH_ACK, more);
    assert c2.log == c.log + [s];
    DataLenPrefix(c.log, s, |c.log|);
    assert c2.log[|c.log|] == s && !InPlace(c2.log, c.iss, |c.log|) by {
      Different(c.iss + 1 + n, |data|);
    }
  }

  lemma Different(a: int, n: int)
    requires 0 < n < U32
    ensures Wrapped(a + n) != Wrapped(a)
  {
  }

  // ---- what is on the wire ----------------------------------------------------------------------------

  /** From c to c' only bare acknowledgements were sent, the last of them up to date. */
  ghost predicate Answers(c: Conn, c': Conn) {
    c.log <= c'.log && c'.iss == c.iss && (forall i :: |c.log| <= i < |c'.log| ==> Bare(c'.log[i])) &&
    if c'.log == c.log then c'.sendAck == c.sendAck else c'.log[|c'.log| - 1].ackNum == c'.sendAck
  }

  predicate Bare(s: Segment) {
    s.flags == Flags(false, false, false, false, true) && s.data == []
  }

  lemma OneAnswer(c: Conn, ack: int)
    ensures var c' := Acknowledged(c, ack);
      Answers(c, c') && c'.sendAck == ack % 0x1_0000_0000 &&
      c'.log == c.log + [Segment(c.sendSeq, ack % 0x1_0000_0000, Flags(false, false, false, false, true), [])]
  {
  }

  /** An arriving segment is answered with acknowledgements of all that has arrived. */
  lemma ReceivedAnswers(c: Conn, s: Segment)
    ensures Answers(c, Received(c, s))
  {
    hide Acknowledged, Wrapped, Bare;
    OneAnswer(c, s.seqNum + 1);
    OneAnswer(c.(sendSeq := s.ackNum), s.seqNum + 1);
    if c.status == Established && !s.flags.rst {
      DataAnswered(c, s);
    }
  }

  /** An established connection acknowledges the data, and then the FIN. */
  lemma DataAnswered(c: Conn, s: Segment)
    requires c.status == Established && !s.flags.rst
    ensures Answers(c, Received(c, s))
    ensures
      var fin := |c.log| + if s.data != [] then 1 else 0;
      var log := Received(c, s).log;
      |log| == fin + (if s.flags.fin then 1 else 0) &&
      (s.data != [] ==> log[|c.log|].ackNum == (s.seqNum + |s.data|) % 0x1_0000_0000) &&
      (s.flags.fin ==> log[fin].ackNum == (s.seqNum + |s.data| + 1) % 0x1_0000_0000)
  {
    hide Acknowledged, Wrapped, Bare;
    var n := s.seqNum + |s.data|;
    OneAnswer(c, n);
    OneAnswer(if s.data != [] then Acknowledged(c, n) else c, n + 1);
  }

  /** The data of all segments. */
  function Carried(log: seq<Segment>): seq<byte> {
    if log == [] then [] else Carried(log[..|log| - 1]) + log[|log| - 1].data
  }

  /** What was handed to send while the connection was established, in pieces of at most 1460 bytes. */
  function Handed(iss: nat, ops: seq<Op>): seq<byte> {
    if ops == [] then []
    else
      var before, op := ops[..|ops| - 1], ops[|ops| - 1];
      var c := PerformAll(Opened(iss), before);
      Handed(iss, before) +
        if op.Send? && c.inUse && c.status == Established && |op.data| <= 1460 then op.data else []
  }

  lemma {:induction false} CarriedBare(log: seq<Segment>, more: seq<Segment>)
    requires forall i :: 0 <= i < |more| ==> more[i].data == []
    ensures Carried(log + more) == Carried(log)
    decreases |more|
  {
    if more == [] {
      assert log + more == log;
    } else {
      var n := |more| - 1;
      assert (log + more)[..|log| + n] == log + more[..n];
      CarriedBare(log, more[..n]);
    }
  }

  lemma CarriedOne(log: seq<Segment>, s: Segment)
    ensures Carried(log + [s]) == Carried(log) + s.data
  {
    assert (log + [s])[..|log|] == log;
  }

  /** The first segment is the SYN, and the last one acknowledges all there is to acknowledge. */
  ghost predicate UpToDate(c: Conn) {
    c.log != [] && c.log[0] == Segment(c.iss, 0, Flags(false, true, false, false, false), []) &&
    c.log[|c.log| - 1].ackNum == c.sendAck
  }

  /** In every run from connect the data on the wire are what send was handed, in order, and the last
      segment acknowledges everything that the connection takes as arrived. */
  lemma {:induction false} WireCarries(iss: nat, ops: seq<Op>)
    ensures var c := PerformAll(Opened(iss), ops);
      c.iss == iss && UpToDate(c) && Carried(c.log) == Handed(iss, ops)
    decreases |ops|
  {
    hide Wrapped, Received;
    if ops == [] {
      CarriedBare([], Opened(iss).log);
      assert [] + Opened(iss).log == Opened(iss).log;
    } else {
      var n := |ops| - 1;
      var c := PerformAll(Opened(iss), ops[..n]);
      WireCarries(iss, ops[..n]);
      match ops[n]
      case Send(data) => CarriedOne(c.log, Segment(c.sendSeq, c.sendAck, PSH_ACK, data));
      case Receive(s) => AnswersCarried(c, s);
      case Close => CarriedOne(c.log, Segment(c.sendSeq, c.sendAck, FIN_ACK, []));
      case Release =>
    }
  }

  lemma AnswersCarried(c: Conn, s: Segment)
    requires UpToDate(c)
    ensures var c' := Received(c, s); UpToDate(c') && Carried(c'.log) == Carried(c.log) && c'.iss == c.iss
  {
    hide Received;
    ReceivedAnswers(c, s);
    var c' := Received(c, s);
    assert c'.log == c.log + c'.log[|c.log|..];
    CarriedBare(c.log, c'.log[|c.log|..]);
  }

  /** No data and no second FIN follow a FIN. */
  ghost predicate FinLast(c: Conn) {
    (forall i, j :: 0 <= i < j < |c.log| && c.log[i].flags.fin ==> c.log[j].data == [] && !c.log[j].flags.fin) &&
    (c.status == SynSent || c.status == Established ==> forall i :: 0 <= i < |c.log| ==> !c.log[i].flags.fin)
  }

  lemma AnsweredFinLast(c: Conn, s: Segment)
    requires FinLast(c)
    ensures FinLast(Received(c, s))
  {
    var c' := Received(c, s);
    assert c'.status == SynSent || c'.status == Established ==> c.status == SynSent || c.status == Established;
    ReceivedAnswers(c, s);
    hide Received;
    forall i | 0 <= i < |c'.log| ensures i < |c.log| ==> c'.log[i] == c.log[i] {
    }
  }

  /** In every run the FIN is the end of what is sent, but for acknowledgements. */
  lemma {:induction false} NothingAfterFin(iss: nat, ops: seq<Op>)
    ensures FinLast(PerformAll(Opened(iss), ops))
    decreases |ops|
  {
    hide Wrapped, Received;
    if ops != [] {
      var n := |ops| - 1;
      var c := PerformAll(Opened(iss), ops[..n]);
      NothingAfterFin(iss, ops[..n]);
      match ops[n]
      case Send(data) =>
      case Receive(s) => AnsweredFinLast(c, s);
      case Close =>
      case Release =>
    }
  }

  // ---- what is acknowledged, and what is stored ----------------------------------------------------

  /** The ring after a segment has arrived. */
  function Stored(c: Conn, ring: R.State, s: Segment): (ring': R.State)
    requires R.Inv(ring)
    ensures R.Inv(ring')
  {
    if c.status == Established && !s.flags.rst then R.ProduceAll(ring, s.data) else ring
  }

  /** The acknowledgement sent for s covers byte k of its payload. */
  predicate Covers(ack: nat, s: Segment, k: nat) {
    k < |s.data| && k < Wrapped(ack - s.seqNum)
  }

  /** Byte k of the payload of s is in the ring. */
  ghost predicate InRing(ring: R.State, ring': R.State, s: Segment, k: nat)
    requires k < |s.data|
  {
    |ring.accepted| + k < |ring'.accepted| && ring'.accepted[|ring.accepted| + k] == s.data[k]
  }

  /** The acknowledgement of a data segment covers its whole payload.  Every byte that it covers is in
      the ring exactly when the payload fits behind what is waiting; the bytes beyond are lost. */
  lemma AcknowledgedStored(c: Conn, ring: R.State, s: Segment)
    requires R.Inv(ring) && c.status == Established && !s.flags.rst && 0 < |s.data| < U32 - 1
    ensures forall k :: 0 <= k < |s.data| ==> Covers(Received(c, s).sendAck, s, k)
    ensures forall k :: 0 <= k < |s.data| ==> (InRing(ring, Stored(c, ring, s), s, k) <==> k < R.Room(ring))
    ensures (forall k :: 0 <= k && Covers(Received(c, s).sendAck, s, k) ==> InRing(ring, Stored(c, ring, s), s, k)) <==>
      R.Waiting(ring) + |s.data| < 4096
  {
    hide Wrapped, R.Inv;
    var n := |s.data|;
    CoveredUpTo(s.seqNum, n);
    CoveredUpTo(s.seqNum, n + 1);
    R.PrefixKept(ring, s.data);
    if R.Waiting(ring) + n >= R.SIZE {
      assert Covers(Received(c, s).sendAck, s, n - 1) && !InRing(ring, Stored(c, ring, s), s, n - 1);
    }
  }

  lemma CoveredUpTo(a: nat, n: nat)
    requires n < U32
    ensures Wrapped(Wrapped(a + n) - a) == n
  {
  }

  /** From a fresh connection: 4095 bytes are kept, and the byte after them is acknowledged and lost. */
  lemma FullRingDrops(c: Conn, buf: seq<byte>, s: Segment)
    requires |buf| == 4096 && c.status == Established && !s.flags.rst && |s.data| == 1
    ensures R.Inv(R.Initial(buf))
    ensures var full := R.ProduceAll(R.Initial(buf), seq(4095, _ => 0));
      Covers(Received(c, s).sendAck, s, 0) && Stored(c, full, s).accepted == full.accepted
  {
    hide Wrapped, R.Inv;
    R.InitialHolds(buf);
    var bs := seq(R.SIZE - 1, _ => 0);
    R.PrefixKept(R.Initial(buf), bs);
    var full := R.ProduceAll(R.Initial(buf), bs);
    R.PrefixKept(full, s.data);
    AcknowledgedStored(c, full, s);
  }

  /** What happens to an established connection: data arrives in order, or recv accesses the ring. */
  datatype Event = Arrives(data: seq<byte>) | Reads(max: nat)

  function Happen(ring: R.State, e: Event): (ring': R.State)
    requires R.Inv(ring)
    ensures R.Inv(ring')
  {
    match e
    case Arrives(data) => R.ProduceAll(ring, data)
    case Reads(max) =>
      R.ConsumeKeeps(ring, max);
      R.Consume(ring, max)
  }

  function HappenAll(ring: R.State, es: seq<Event>): (ring': R.State)
    requires R.Inv(ring)
    ensures R.Inv(ring')
  {
    if es == [] then ring else Happen(HappenAll(ring, es[..|es| - 1]), es[|es| - 1])
  }

  /** The connection meanwhile: each segment starts where the last acknowledgement ended. */
  function HearAll(c: Conn, es: seq<Event>): Conn {
    if es == [] then c
    else
      var c1 := HearAll(c, es[..|es| - 1]);
      match es[|es| - 1]
      case Arrives(data) => Received(c1, Segment(c1.sendAck, c1.sendSeq, ACK, data))
      case Reads(_) => c1
  }

  /** All payload so far. */
  function Payload(es: seq<Event>): seq<byte> {
    if es == [] then []
    else
      var e := es[|es| - 1];
      Payload(es[..|es| - 1]) + if e.Arrives? then e.data else []
  }

  /** Every payload fits when it arrives. */
  ghost predicate Roomy(ring: R.State, es: seq<Event>)
    requires R.Inv(ring)
  {
    es != [] ==>
      var n := |es| - 1;
      Roomy(ring, es[..n]) &&
      (es[n].Arrives? ==> R.Waiting(HappenAll(ring, es[..n])) + |es[n].data| < 4096)
  }

  /** In every run on an established connection all payload is acknowledged.  The stream that recv will
      see is that payload exactly when every segment fitted on arrival. */
  lemma {:induction false} StreamKept(c: Conn, ring: R.State, es: seq<Event>)
    requires R.Inv(ring) && c.status == Established && c.sendAck < U32
    ensures var c', ring' := HearAll(c, es), HappenAll(ring, es);
      c'.status == Established && c'.sendAck == Wrapped(c.sendAck + |Payload(es)|) &&
      |ring'.accepted| <= |ring.accepted| + |Payload(es)| &&
      (ring'.accepted == ring.accepted + Payload(es) <==> Roomy(ring, es))
    decreases |es|
  {
    hide Wrapped, R.Inv;
    if es == [] {
      WrappedSmall(c.sendAck);
    } else {
      var n := |es| - 1;
      var c1, ring1, p := HearAll(c, es[..n]), HappenAll(ring, es[..n]), Payload(es[..n]);
      StreamKept(c, ring, es[..n]);
      match es[n]
      case Arrives(d) =>
        R.PrefixKept(ring1, d);
        Heard(c1, d);
        WrappedAdd(c.sendAck + |p|, |d|);
        BothWhole(ring1.accepted, R.Kept(ring1, d), ring.accepted, p, d);
      case Reads(max) =>
        R.ConsumeKeeps(ring1, max);
        AcceptedStays(ring1, max);
        assert p + [] == p;
    }
  }

  lemma Heard(c: Conn, data: seq<byte>)
    requires c.status == Established && c.sendAck < U32
    ensures var c' := Received(c, Segment(c.sendAck, c.sendSeq, ACK, data));
      c'.status == Established && c'.sendAck == Wrapped(c.sendAck + |data|)
  {
  }

  lemma AcceptedStays(ring: R.State, max: nat)
    requires R.Inv(ring) && (ring.reader.GotHead? ==> ring.reader.head < R.SIZE)
    ensures R.Consume(ring, max).accepted == ring.accepted
  {
  }

  /** Two parts, neither longer than it should be, make the whole only if both are whole. */
  lemma BothWhole(a: seq<byte>, kept: seq<byte>, acc: seq<byte>, p: seq<byte>, d: seq<byte>)
    requires |a| <= |acc| + |p| && kept <= d
    ensures a + kept == acc + (p + d) <==> a == acc + p && kept == d
  {
    assert acc + (p + d) == (acc + p) + d;
    if a + kept == acc + (p + d) {
      assert |kept| == |d| && |a| == |acc + p|;
      assert a == (a + kept)[..|a|] == acc + p;
    }
  }

  lemma WrappedSmall(a: nat)
    requires a < U32
    ensures Wrapped(a) == a
  {
  }

  // ---- one connection in place -------------------------------------------------------------------------

  class Connection {
    var inUse: bool
    var status: Status
    var sendSeq: nat
    var sendAck: nat
    var finReceived: bool
    var connected: bool
    var ring: R.State
    ghost var iss: nat
    ghost var log: seq<Segment>

    ghost function State(): Conn
      reads this
    {
      Conn(inUse, status, sendSeq, sendAck, finReceived, iss, log)
    }

    /** connect up to the first SYN; ticks seeds the sequence number. */
    constructor (ticks: nat)
      ensures State() == Opened(Wrapped(ticks * 12345 + 1)) && R.Inv(ring) && ring.accepted == []
    {
      inUse, status, finReceived, connected := true, SynSent, false, false;
      sendSeq, sendAck := Wrapped(ticks * 12345 + 1), 0;
      iss, log := Wrapped(ticks * 12345 + 1), [];
      ring := R.Initial(seq(R.SIZE, _ => 0));
      new;
      R.InitialHolds(seq(R.SIZE, _ => 0));
      SendSegment(SYN, []);
    }

    method SendSegment(flags: Flags, data: seq<byte>)
      modifies this`log
      ensures State() == Transmit(old(State()), flags, data)
    {
      if HEADER + |data| > MAX_SEGMENT {
        return;
      }
      log := log + [Segment(sendSeq, sendAck, flags, data)];
    }

    method Send(data: seq<byte>) returns (r: int)
      requires |data| < 0x1_0000 - HEADER
      modifies this
      ensures State() == Sent(old(State()), data) && ring == old(ring) && (r == 0 || r == -1)
      ensures r == 0 <==> old(inUse) && old(status) == Established
    {
      if !inUse || status != Established {
        return -1;
      }
      SendSegment(PSH_ACK, data);
      sendSeq := Wrapped(sendSeq + |data|);
      return 0;
    }

    /** close, up to the wait for the peer. */
    method StartClose()
      modifies this
      ensures State() == Closing(old(State())) && ring == old(ring)
    {
      if !inUse {
        return;
      }
      if status == Established || status == SynSent {
        SendSegment(FIN_ACK, []);
        sendSeq := Wrapped(sendSeq + 1);
        status := FinWait1;
      }
    }

    /** close, after the wait. */
    method FinishClose()
      modifies this
      ensures State() == Finish(old(State())) && ring == old(ring)
    {
      inUse, status := false, Closed;
    }

    /** Copy a payload into the ring until it is full. */
    method Store(bs: seq<byte>)
      requires R.Inv(ring)
      modifies this`ring
      ensures R.Inv(ring) && ring == R.ProduceAll(old(ring), bs)
      ensures ring.accepted == old(ring.accepted + R.Kept(ring, bs)) && ring.delivered == old(ring.delivered)
    {
      R.PrefixKept(ring, bs);
      var j := 0;
      while j < |bs|
        invariant j <= |bs| && R.Inv(ring) && R.ProduceAll(ring, bs[j..]) == R.ProduceAll(old(ring), bs)
      {
        if R.NextOf(ring.head) == ring.tail {
          R.FullStaysFull(ring, bs[j..]);
          return;
        }
        R.ProduceKeeps(ring, bs[j]);
        assert bs[j..][1..] == bs[j + 1..];
        ring := R.Produce(ring, bs[j]);
        j := j + 1;
      }
    }

    /** An arriving segment; its payload goes to the ring, all of it is acknowledged. */
    method Rx(s: Segment)
      requires R.Inv(ring)
      modifies this
      ensures State() == Received(old(State()), s) && R.Inv(ring) && ring == Stored(old(State()), old(ring), s)
      ensures old(status) == Established && !s.flags.rst ==>
        ring.accepted == old(ring.accepted + R.Kept(ring, s.data)) &&
        (ring.accepted == old(ring.accepted) + s.data <==> old(R.Waiting(ring)) + |s.data| < 4096)
    {
      hide Wrapped, R.Inv;
      R.PrefixKept(ring, s.data);
      R.AllKept(ring, s.data);
      if s.flags.rst {
        status, inUse, connected, finReceived := Closed, false, false, true;
        return;
      }
      match status
      case SynSent =>
        if s.flags.syn && s.flags.ack && s.ackNum == Wrapped(sendSeq + 1) {
          sendSeq, sendAck := s.ackNum, Wrapped(s.seqNum + 1);
          SendSegment(ACK, []);
          status, connected := Established, true;
        }
      case Established =>
        if s.data != [] {
          Store(s.data);
          sendAck := Wrapped(s.seqNum + |s.data|);
          SendSegment(ACK, []);
        }
        if s.flags.fin {
          sendAck := Wrapped(s.seqNum + |s.data| + 1);
          SendSegment(ACK, []);
          finReceived, status := true, TimeWait;
        }
      case FinWait1 =>
        if s.flags.ack {
          if s.flags.fin {
            sendAck := Wrapped(s.seqNum + 1);
            SendSegment(ACK, []);
            status := TimeWait;
          } else {
            status := FinWait2;
          }
        }
      case FinWait2 =>
        if s.flags.fin {
          sendAck := Wrapped(s.seqNum + 1);
          SendSegment(ACK, []);
          status, finReceived := TimeWait, true;
        }
      case _ =>
    }
  }
}
