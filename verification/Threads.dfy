/** The round-robin scheduler (src/thread.rs). */
module Threads {
  const MAX_THREADS: nat := 32
  const U32: int := 0x1_0000_0000

  datatype Status = Ready | Running | Blocked | Dead
  datatype Thread = Thread(id: nat, status: Status)

  /** The thread table, CURRENT_THREAD and NEXT_ID. */
  datatype Sched = Sched(threads: seq<Thread>, current: nat, nextId: nat)

  /** Exactly one thread runs, and it is the current one; thread 0 never ends or blocks. */
  ghost predicate Safe(s: Sched) {
    |s.threads| == MAX_THREADS && s.current < MAX_THREADS &&
    (forall i :: 0 <= i < MAX_THREADS ==> (s.threads[i].status == Running) == (i == s.current)) &&
    (s.threads[0].status == Ready || s.threads[0].status == Running)
  }

  /** The same while the current thread has just died. */
  ghost predicate Dying(s: Sched) {
    |s.threads| == MAX_THREADS && 0 < s.current < MAX_THREADS && s.threads[s.current].status == Dead &&
    (forall i :: 0 <= i < MAX_THREADS ==> s.threads[i].status != Running) && s.threads[0].status == Ready
  }

  /** Slot i steps after the current one, cyclically. */
  function Slot(s: Sched, i: nat): nat {
    (s.current + i) % MAX_THREADS
  }

  /** How many steps after the current slot the first ready thread is, from i steps on;
      33 if there is none. */
  function Scan(s: Sched, i: nat): (k: nat)
    requires |s.threads| == MAX_THREADS && i <= MAX_THREADS + 1
    ensures i <= k <= MAX_THREADS + 1
    ensures k <= MAX_THREADS ==> s.threads[Slot(s, k)].status == Ready
    ensures forall j :: i <= j < k ==> s.threads[Slot(s, j)].status != Ready
    decreases MAX_THREADS + 1 - i
  {
    if i == MAX_THREADS + 1 then i
    else if s.threads[Slot(s, i)].status == Ready then i
    else Scan(s, i + 1)
  }

  function Switch(s: Sched, next: nat): (s': Sched)
    requires |s.threads| == MAX_THREADS && s.current < MAX_THREADS && next < MAX_THREADS
    ensures |s'.threads| == MAX_THREADS
  {
    if next == s.current then s
    else
      var cur := s.threads[s.current];
      var t := if cur.status == Running then s.threads[s.current := cur.(status := Ready)] else s.threads;
      s.(threads := t[next := t[next].(status := Running)], current := next)
  }

  function Scheduled(s: Sched): (s': Sched)
    requires |s.threads| == MAX_THREADS && s.current < MAX_THREADS
    ensures |s'.threads| == MAX_THREADS
  {
    var k := Scan(s, 1);
    if k <= MAX_THREADS then Switch(s, Slot(s, k)) else s
  }

  /** The first dead slot, from i on. */
  function FreeSlot(s: Sched, i: nat): (k: nat)
    requires |s.threads| == MAX_THREADS && i <= MAX_THREADS
    ensures i <= k <= MAX_THREADS
    ensures k < MAX_THREADS ==> s.threads[k].status == Dead
    decreases MAX_THREADS - i
  {
    if i == MAX_THREADS || s.threads[i].status == Dead then i else FreeSlot(s, i + 1)
  }

  /** A new thread in slot k, with the next id; ids are 32-bit and wrap around. */
  function Created(s: Sched, k: nat): (s': Sched)
    requires |s.threads| == MAX_THREADS && k < MAX_THREADS
    ensures |s'.threads| == MAX_THREADS
  {
    s.(threads := s.threads[k := Thread(s.nextId, Ready)], nextId := (s.nextId + 1) % U32)
  }

  function Killed(s: Sched): (s': Sched)
    requires |s.threads| == MAX_THREADS && s.current < MAX_THREADS
    ensures |s'.threads| == MAX_THREADS
  {
    s.(threads := s.threads[s.current := s.threads[s.current].(status := Dead)])
  }

  lemma ScheduleSafe(s: Sched)
    requires Safe(s) || Dying(s)
    ensures Safe(Scheduled(s))
  {
    var k := Scan(s, 1);
    if Dying(s) {
      assert Slot(s, MAX_THREADS - s.current) == 0;
      assert k <= MAX_THREADS - s.current;
    }
  }

  // ---- bounded fairness ------------------------------------------------------------------------

  /** Steps from the current slot to slot t, cyclically. */
  function Distance(s: Sched, t: nat): nat
    requires t < MAX_THREADS && s.current < MAX_THREADS
  {
    (t + MAX_THREADS - s.current) % MAX_THREADS
  }

  /** Going k of d steps leaves d - k. */
  lemma Closer(s: Sched, t: nat, k: nat)
    requires t < MAX_THREADS && s.current < MAX_THREADS && 1 <= k <= Distance(s, t)
    ensures Slot(s, Distance(s, t)) == t
    ensures (t + MAX_THREADS - Slot(s, k)) % MAX_THREADS == Distance(s, t) - k
  {
  }

  /** A schedule either picks t or brings the current slot strictly closer to it. */
  lemma ScheduleCloser(s: Sched, t: nat)
    requires (Safe(s) || Dying(s)) && t < MAX_THREADS && s.threads[t].status == Ready
    ensures var s' := Scheduled(s);
      Safe(s') && 0 < Distance(s, t) && (s'.current == t || (0 < Distance(s', t) < Distance(s, t)))
  {
    ScheduleSafe(s);
    assert t != s.current;
    var d, k := Distance(s, t), Scan(s, 1);
    assert d > 0 by { NotHere(s, t); }
    Closer(s, t, d);
    hide Distance, Slot, Safe, Dying;
    assert k <= d;
    Closer(s, t, k);
    SlotBound(s, k);
    CloserAfter(s, t, k);
  }

  lemma NotHere(s: Sched, t: nat)
    requires t < MAX_THREADS && s.current < MAX_THREADS && t != s.current
    ensures Distance(s, t) > 0
  {
  }

  lemma SlotBound(s: Sched, k: nat)
    ensures Slot(s, k) < MAX_THREADS
  {
  }

  lemma CloserAfter(s: Sched, t: nat, k: nat)
    requires |s.threads| == MAX_THREADS && t < MAX_THREADS && s.current < MAX_THREADS && 1 <= k <= Distance(s, t)
    ensures Slot(s, k) != s.current
    ensures Distance(Switch(s, Slot(s, k)), t) == Distance(s, t) - k
    ensures Distance(s, t) == k ==> Slot(s, k) == t
    ensures Switch(s, Slot(s, k)).current == Slot(s, k)
  {
    Closer(s, t, k);
  }

  datatype Event = Yield | Exit | Create(ok: bool)

  /** One kernel event on the scheduler.  Creation is one step; it may fail for lack of memory. */
  ghost predicate Step(s: Sched, e: Event, s': Sched)
    requires Safe(s)
  {
    match e
    case Yield => s' == Scheduled(s)
    case Exit => s.current != 0 && s' == Scheduled(Killed(s))
    case Create(ok) => s' == if ok && FreeSlot(s, 0) < MAX_THREADS then Created(s, FreeSlot(s, 0)) else s
  }

  lemma StepSafe(s: Sched, e: Event, s': Sched)
    requires Safe(s) && Step(s, e, s')
    ensures Safe(s')
  {
    match e
    case Yield => ScheduleSafe(s);
    case Exit =>
      assert Dying(Killed(s));
      ScheduleSafe(Killed(s));
    case Create(_) =>
  }

  /** A run: the states before and after each event. */
  ghost predicate IsRun(states: seq<Sched>, events: seq<Event>) {
    |states| == |events| + 1 && Safe(states[0]) &&
    forall i :: 0 <= i < |events| ==> Safe(states[i]) && Step(states[i], events[i], states[i + 1])
  }

  function Schedules(events: seq<Event>): nat {
    if events == [] then 0 else Schedules(events[..|events| - 1]) + if events[|events| - 1].Create? then 0 else 1
  }

  /** While t stays ready, every schedule brings it closer, whatever threads come and go. */
  lemma {:induction false} StaysReady(states: seq<Sched>, events: seq<Event>, t: nat)
    requires IsRun(states, events) && t < MAX_THREADS
    requires forall i :: 0 <= i < |states| ==>
      |states[i].threads| == MAX_THREADS && states[i].threads[t].status == Ready
    ensures Safe(states[|events|]) && 0 < Distance(states[|events|], t) <= Distance(states[0], t) - Schedules(events)
    decreases |events|
  {
    var n := |events|;
    if n == 0 {
      assert t != states[0].current;
    } else {
      StaysReady(states[..n], events[..n - 1], t);
      assert Step(states[n - 1], events[n - 1], states[n - 1 + 1]);
      hide Step, Safe, Distance;
      StepCloser(states[n - 1], events[n - 1], states[n], t);
    }
  }

  lemma StepCloser(s: Sched, e: Event, s': Sched, t: nat)
    requires Safe(s) && Step(s, e, s') && t < MAX_THREADS && s.threads[t].status == Ready
    requires |s'.threads| == MAX_THREADS && s'.threads[t].status == Ready
    ensures Safe(s') && 0 < Distance(s', t) <= Distance(s, t) - if e.Create? then 0 else 1
  {
    StepSafe(s, e, s');
    assert s'.current != t;
    if e.Yield? {
      hide Scheduled, Distance, Safe;
      ScheduleCloser(s, t);
    } else if e.Exit? {
      assert Dying(Killed(s));
      hide Scheduled, Distance, Safe, Dying;
      ScheduleCloser(Killed(s), t);
    } else {
      assert s.current == s'.current;
    }
  }

  /** A ready thread stays so or starts to run. */
  lemma ReadyOrRunning(s: Sched, e: Event, s': Sched, t: nat)
    requires Safe(s) && Step(s, e, s') && t < MAX_THREADS && s.threads[t].status == Ready
    ensures Safe(s') && (s'.threads[t].status == Ready || s'.current == t)
  {
    StepSafe(s, e, s');
  }

  lemma {:induction false} FirstChange(states: seq<Sched>, events: seq<Event>, t: nat, n: nat) returns (i: nat)
    requires IsRun(states, events) && t < MAX_THREADS && states[0].threads[t].status == Ready
    requires n < |states| && |states[n].threads| == MAX_THREADS && states[n].threads[t].status != Ready
    ensures i <= n && Safe(states[i]) && states[i].current == t
    decreases n
  {
    var s := states[n - 1];
    assert Step(s, events[n - 1], states[n]);
    if s.threads[t].status == Ready {
      ReadyOrRunning(s, events[n - 1], states[n], t);
      i := n;
    } else {
      i := FirstChange(states, events, t, n - 1);
    }
  }

  /** A ready thread runs before the 31st schedule is over, whatever threads exit or are created. */
  lemma ChosenWithin31(states: seq<Sched>, events: seq<Event>, t: nat) returns (i: nat)
    requires IsRun(states, events) && t < MAX_THREADS && states[0].threads[t].status == Ready && Schedules(events) >= 31
    ensures i < |states| && Safe(states[i]) && states[i].current == t
  {
    if forall n :: 0 <= n < |states| ==> |states[n].threads| == MAX_THREADS && states[n].threads[t].status == Ready {
      StaysReady(states, events, t);
      assert false;
    }
    RunSafe(states, events);
    var n :| 0 <= n < |states| && (|states[n].threads| != MAX_THREADS || states[n].threads[t].status != Ready);
    i := FirstChange(states, events, t, n);
  }

  lemma RunSafe(states: seq<Sched>, events: seq<Event>)
    requires IsRun(states, events)
    ensures forall i :: 0 <= i < |states| ==> Safe(states[i])
  {
    forall i | 0 <= i < |states| ensures Safe(states[i]) {
      if i > 0 {
        assert Step(states[i - 1], events[i - 1], states[i - 1 + 1]);
        StepSafe(states[i - 1], events[i - 1], states[i]);
      }
    }
  }

  // ---- the table in place -------------------------------------------------------------------------

  class Scheduler {
    const threads: array<Thread>
    var current: nat
    var nextId: nat

    ghost function State(): Sched
      reads this, threads
    {
      Sched(threads[..], current, nextId)
    }

    ghost predicate Valid()
      reads this, threads
    {
      threads.Length == MAX_THREADS && Safe(State())
    }

    constructor ()
      ensures Valid() && fresh(threads) && current == 0 && nextId == 1
    {
      threads := new Thread[MAX_THREADS](_ => Thread(0, Dead));
      current, nextId := 0, 1;
      new;
      threads[0] := Thread(0, Running);
    }

    method Schedule()
      requires threads.Length == MAX_THREADS && current < MAX_THREADS
      modifies this`current, threads
      ensures State() == Scheduled(old(State()))
    {
      var cur, next, i := current, current, 1;
      while i <= MAX_THREADS
        invariant 1 <= i <= MAX_THREADS + 1 && next == cur && Scan(State(), i) == Scan(State(), 1)
      {
        var candidate := (cur + i) % MAX_THREADS;
        if threads[candidate].status == Ready {
          next := candidate;
          break;
        }
        i := i + 1;
      }
      if next == cur {
        return;
      }
      if threads[cur].status == Running {
        threads[cur] := threads[cur].(status := Ready);
      }
      threads[next] := threads[next].(status := Running);
      current := next;
    }

    /** Spawn a thread; the id comes back as a signed 32-bit number, -1 for failure. */
    method Create(hasStack: bool) returns (tid: int)
      requires Valid() && nextId < U32
      modifies this`nextId, threads
      ensures Valid() && Step(old(State()), Event.Create(hasStack), State())
      ensures if hasStack && FreeSlot(old(State()), 0) < 32 then
          tid == (if old(nextId) < 0x8000_0000 then old(nextId) else old(nextId) - 0x1_0000_0000) &&
          nextId == (old(nextId) + 1) % 0x1_0000_0000
        else tid == -1 && nextId == old(nextId)
    {
      var slot := 0;
      while slot < MAX_THREADS
        invariant slot <= MAX_THREADS && FreeSlot(State(), slot) == FreeSlot(State(), 0)
      {
        if threads[slot].status == Dead {
          break;
        }
        slot := slot + 1;
      }
      if slot == MAX_THREADS || !hasStack {
        return -1;
      }
      StepSafe(State(), Event.Create(true), Created(State(), slot));
      tid := AsI32(nextId);
      threads[slot] := Thread(nextId, Ready);
      nextId := (nextId + 1) % U32;
      assert State() == Created(old(State()), slot);
    }

    method YieldThread()
      requires Valid()
      modifies this`current, threads
      ensures Valid() && Step(old(State()), Event.Yield, State())
    {
      ScheduleSafe(State());
      Schedule();
    }

    /** The current thread ends; another one takes over. */
    method ExitThread()
      requires Valid() && current != 0
      modifies this`current, threads
      ensures Valid() && Step(old(State()), Event.Exit, State()) && current != old(current)
    {
      threads[current] := threads[current].(status := Dead);
      assert State() == Killed(old(State())) && Dying(State());
      ScheduleSafe(State());
      Schedule();
    }

    method IsAlive(id: int) returns (r: bool)
      requires Valid()
      ensures r == Alive(State(), id % 0x1_0000_0000)
    {
      var i := 0;
      while i < MAX_THREADS
        invariant i <= MAX_THREADS
        invariant forall k :: 0 <= k < i ==> !(threads[k].status != Dead && threads[k].id == id % U32)
      {
        if threads[i].status != Dead && threads[i].id == id % U32 {
          return true;
        }
        i := i + 1;
      }
      return false;
    }
  }

  function AsI32(x: nat): int {
    if x % U32 < U32 / 2 then x % U32 else x % U32 - U32
  }

  ghost predicate Alive(s: Sched, id: int) {
    exists k :: 0 <= k < |s.threads| && s.threads[k].status != Dead && s.threads[k].id == id
  }
}
