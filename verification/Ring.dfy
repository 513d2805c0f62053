/** The receive buffer of a TCP connection (src/tcp.rs): filled by the interrupt
    handler, emptied by recv, which the handler may interrupt at any point. */
module Ring {
  import opened Base

  const SIZE: nat := 4096

  /** What recv does next; it copies `count` bytes from `tail` on. */
  datatype Reader = Idle | GotHead(head: nat) | Copying(tail: nat, count: nat, copied: seq<byte>)

  /** accepted are all bytes put into the ring, delivered all bytes recv has returned. */
  datatype State = State(buf: seq<byte>, head: nat, tail: nat, reader: Reader, accepted: seq<byte>,
    delivered: seq<byte>)

  function Initial(buf: seq<byte>): State {
    State(buf, 0, 0, Idle, [], [])
  }

  // ---- steps ---------------------------------------------------------------------------------------

  function NextOf(i: nat): nat { (i + 1) % SIZE }

  /** One byte of a segment: dropped when the ring is full. */
  function Produce(s: State, b: byte): State
    requires |s.buf| == SIZE && s.head < SIZE
  {
    if NextOf(s.head) == s.tail then s
    else s.(buf := s.buf[s.head := b], head := NextOf(s.head), accepted := s.accepted + [b])
  }

  function Available(head: nat, tail: nat): nat
    requires head < SIZE && tail < SIZE
  {
    if head > tail then head - tail else SIZE - tail + head
  }

  /** One access of recv to the shared ring, for a caller that wants at most `max` bytes. */
  function Consume(s: State, max: nat): State
    requires |s.buf| == SIZE && s.head < SIZE && s.tail < SIZE && (s.reader.GotHead? ==> s.reader.head < SIZE)
  {
    match s.reader
    case Idle => s.(reader := GotHead(s.head))
    case GotHead(h) =>
      if h == s.tail then s.(reader := Idle)
      else
        var avail := Available(h, s.tail);
        s.(reader := Copying(s.tail, if avail > max then max else avail, []))
    case Copying(t, n, copied) =>
      if |copied| < n then s.(reader := Copying(t, n, copied + [s.buf[(t + |copied|) % SIZE]]))
      else s.(tail := (t + n) % SIZE, delivered := s.delivered + copied, reader := Idle)
  }

  // ---- invariant -----------------------------------------------------------------------------------

  /** Bytes accepted and not delivered are in the ring, in order; it is never quite full. */
  ghost predicate Holds(s: State) {
    |s.buf| == SIZE && |s.delivered| <= |s.accepted| < |s.delivered| + SIZE &&
    s.delivered == s.accepted[..|s.delivered|] &&
    s.head == Place(|s.accepted|) && s.tail == Place(|s.delivered|) &&
    forall k :: |s.delivered| <= k < |s.accepted| ==> s.buf[Place(k)] == s.accepted[k]
  }

  function Place(k: nat): (i: nat)
    ensures i < SIZE
  {
    k % SIZE
  }

  /** What recv has read so far is the start of what is due. */
  ghost predicate Reading(s: State) {
    match s.reader
    case Idle => true
    case GotHead(h) => exists n :: |s.delivered| <= n <= |s.accepted| && h == Place(n)
    case Copying(t, n, copied) =>
      t == s.tail && |copied| <= n && |s.delivered| + n <= |s.accepted| &&
      copied == s.accepted[|s.delivered|..|s.delivered| + |copied|]
  }

  ghost predicate Inv(s: State) {
    Holds(s) && Reading(s)
  }

  /** Distinct unread bytes sit in distinct places. */
  lemma PlacesDiffer(a: nat, b: nat)
    requires a < b < a + SIZE
    ensures Place(a) != Place(b)
  {
  }

  lemma NextPlace(k: nat)
    ensures NextOf(Place(k)) == Place(k + 1)
  {
  }

  lemma AvailableIs(a: nat, b: nat)
    requires a < b < a + SIZE
    ensures Available(Place(b), Place(a)) == b - a
  {
  }

  lemma PlaceFrom(a: nat, k: nat)
    ensures (Place(a) + k) % SIZE == Place(a + k)
  {
  }

  lemma PlaceAround(a: nat)
    ensures Place(a + SIZE) == Place(a)
  {
  }

  lemma ProduceKeeps(s: State, b: byte)
    requires Inv(s)
    ensures Inv(Produce(s, b)) && s.accepted <= Produce(s, b).accepted
  {
    hide Place, NextOf;
    var s' := Produce(s, b);
    NextPlace(|s.accepted|);
    PlaceAround(|s.delivered|);
    if s' != s {
      assert |s.accepted| + 1 < |s.delivered| + SIZE;
      forall k | |s'.delivered| <= k < |s'.accepted| ensures s'.buf[Place(k)] == s'.accepted[k] {
        if k < |s.accepted| {
          PlacesDiffer(k, |s.accepted|);
        }
      }
      if s.reader.GotHead? {
        var n :| |s.delivered| <= n <= |s.accepted| && s.reader.head == Place(n);
        assert n <= |s'.accepted|;
      }
    }
  }

  /** A byte is dropped exactly when 4095 bytes are waiting. */
  lemma DroppedWhenFull(s: State, b: byte)
    requires Inv(s)
    ensures Produce(s, b) == s <==> |s.accepted| - |s.delivered| == 4095
  {
    NextPlace(|s.accepted|);
    if |s.accepted| - |s.delivered| == SIZE - 1 {
      PlaceFrom(|s.delivered|, SIZE);
    } else {
      PlacesDiffer(|s.delivered|, |s.accepted| + 1);
      assert |Produce(s, b).accepted| == |s.accepted| + 1;
    }
  }

  lemma ConsumeKeeps(s: State, max: nat)
    requires Inv(s)
    ensures (s.reader.GotHead? ==> s.reader.head < SIZE) && Inv(Consume(s, max)) &&
      s.delivered <= Consume(s, max).delivered
  {
    hide Place, Available;
    var d := |s.delivered|;
    match s.reader
    case Idle => assert Place(|s.accepted|) == s.head;
    case GotHead(h) =>
      var n :| d <= n <= |s.accepted| && h == Place(n);
      if h != s.tail {
        assert n != d;
        AvailableIs(d, n);
      }
    case Copying(t, n, copied) => CopyKeeps(s, max);
  }

  lemma CopyKeeps(s: State, max: nat)
    requires Inv(s) && s.reader.Copying?
    ensures Inv(Consume(s, max)) && s.delivered <= Consume(s, max).delivered
  {
    hide Place, Available;
    var d, n, copied := |s.delivered|, s.reader.count, s.reader.copied;
    PlaceFrom(d, |copied|);
    PlaceFrom(d, n);
    if |copied| < n {
      assert s.buf[Place(d + |copied|)] == s.accepted[d + |copied|];
    } else {
      assert s.delivered + copied == s.accepted[..d + n];
    }
  }

  /** The payload of a segment, byte by byte; once the ring is full the rest is dropped. */
  function ProduceAll(s: State, bs: seq<byte>): (s': State)
    requires Inv(s)
    ensures Inv(s') && s.accepted <= s'.accepted
    decreases |bs|
  {
    if bs == [] then s
    else
      ProduceKeeps(s, bs[0]);
      ProduceAll(Produce(s, bs[0]), bs[1..])
  }

  /** How many bytes wait for recv, and how many more fit. */
  function Waiting(s: State): (n: nat)
    requires Inv(s)
    ensures n < SIZE
  {
    |s.accepted| - |s.delivered|
  }

  function Room(s: State): nat
    requires Inv(s)
  {
    SIZE - 1 - Waiting(s)
  }

  /** The part of bs that the ring keeps. */
  function Kept(s: State, bs: seq<byte>): (kept: seq<byte>)
    requires Inv(s)
    ensures kept <= bs
  {
    if |bs| <= Room(s) then bs else bs[..Room(s)]
  }

  /** A payload is kept as far as there is room, and nothing that was there is lost. */
  lemma {:induction false} PrefixKept(s: State, bs: seq<byte>)
    requires Inv(s)
    ensures ProduceAll(s, bs).accepted == s.accepted + Kept(s, bs)
    ensures ProduceAll(s, bs).delivered == s.delivered && ProduceAll(s, bs).reader == s.reader
    decreases |bs|
  {
    hide Inv, Produce;
    if bs != [] {
      var s1 := FirstProduced(s, bs);
      PrefixKept(s1, bs[1..]);
      if Room(s) > 0 {
        assert [bs[0]] + Kept(s1, bs[1..]) == Kept(s, bs);
      }
    }
  }

  lemma FirstProduced(s: State, bs: seq<byte>) returns (s1: State)
    requires Inv(s) && bs != []
    ensures Inv(s1) && ProduceAll(s, bs) == ProduceAll(s1, bs[1..])
    ensures s1.delivered == s.delivered && s1.reader == s.reader
    ensures if Room(s) > 0 then s1.accepted == s.accepted + [bs[0]] else s1 == s
  {
    s1 := Produce(s, bs[0]);
    ProduceKeeps(s, bs[0]);
    DroppedWhenFull(s, bs[0]);
  }

  /** All of a payload is kept exactly when it fits behind what is waiting. */
  lemma AllKept(s: State, bs: seq<byte>)
    requires Inv(s)
    ensures ProduceAll(s, bs).accepted == s.accepted + bs <==> Waiting(s) + |bs| < 4096
  {
    hide Inv;
    PrefixKept(s, bs);
    assert |Kept(s, bs)| < |bs| || Kept(s, bs) == bs;
  }

  /** A full ring stays as it is. */
  lemma {:induction false} FullStaysFull(s: State, bs: seq<byte>)
    requires Inv(s) && NextOf(s.head) == s.tail
    ensures ProduceAll(s, bs) == s
    decreases |bs|
  {
    if bs != [] {
      FullStaysFull(s, bs[1..]);
    }
  }

  // ---- runs ------------------------------------------------------------------------------------------

  datatype Step = Received(b: byte) | Read(max: nat)

  ghost predicate IsRun(states: seq<State>, steps: seq<Step>) {
    |states| == |steps| + 1 && Inv(states[0]) &&
    forall i :: 0 <= i < |steps| ==> Inv(states[i]) ==> Follows(states[i], steps[i], states[i + 1])
  }

  ghost predicate Follows(s: State, step: Step, s': State)
    requires Inv(s)
  {
    (s.reader.GotHead? ==> s.reader.head < SIZE) &&
    s' == match step
          case Received(b) => Produce(s, b)
          case Read(max) => Consume(s, max)
  }

  /** In every interleaving, what recv has returned is the start of what was accepted,
      and every byte accepted and not yet returned is still in the ring. */
  lemma {:induction false} StreamOrder(states: seq<State>, steps: seq<Step>, n: nat)
    requires IsRun(states, steps) && n < |states|
    ensures Inv(states[n]) && states[n].delivered <= states[n].accepted
    decreases n
  {
    if n > 0 {
      StreamOrder(states, steps, n - 1);
      var s := states[n - 1];
      assert Follows(s, steps[n - 1], states[n - 1 + 1]);
      match steps[n - 1]
      case Received(b) => ProduceKeeps(s, b);
      case Read(max) => ConsumeKeeps(s, max);
    }
  }

  lemma InitialHolds(buf: seq<byte>)
    requires |buf| == SIZE
    ensures Inv(Initial(buf))
  {
  }
}
