/** Running a program in a thread of its own (src/recovery.rs), under every
    interleaving with the child, with fatal faults and with other threads. */
module Recovery {
  import opened Base
  import opened Threads

  const NO_RESULT: int := -99

  /** What run_protected does next. */
  datatype Parent = Reset | Clear | Spawn | Poll | Check | Wait | Fetch | Returned(r: int)

  /** What the child does next: run the program, signal, exit. */
  datatype Child = NotStarted | Computing | Wrote | Signalled | Gone

  /** published is the child's result once it has written it. */
  datatype World = World(s: Sched, pslot: nat, parent: Parent, cslot: nat, tid: nat, child: Child,
                         done: bool, result: int, published: Option<int>)

  predicate Started(w: World) {
    w.child != NotStarted
  }

  // ---- steps -----------------------------------------------------------------------------------

  ghost predicate ParentStep(w: World, w': World)
    requires Safe(w.s)
  {
    w.s.current == w.pslot &&
    match w.parent
    case Reset => w' == w.(result := NO_RESULT, parent := Clear)
    case Clear => w' == w.(done := false, parent := Spawn)
    case Spawn => SpawnFails(w, w') || SpawnWorks(w, w')
    case Poll => w' == w.(parent := if w.done then Fetch else Check)
    case Check => w' == w.(parent := if Alive(w.s, w.tid) then Wait else Fetch)
    case Wait => w' == w.(s := Scheduled(w.s), parent := Poll)
    case Fetch => w' == w.(parent := Returned(w.result))
    case Returned(_) => false
  }

  /** create found no slot or no stack. */
  predicate SpawnFails(w: World, w': World) {
    w' == w.(parent := Returned(NO_RESULT))
  }

  /** create made a thread; its id is taken as a signed number, and a negative one looks
      like a failure. */
  ghost predicate SpawnWorks(w: World, w': World)
    requires Safe(w.s)
  {
    var k := FreeSlot(w.s, 0);
    k < MAX_THREADS && w.s.nextId + 1 < U32 &&
    w' == w.(s := Created(w.s, k), cslot := k, tid := w.s.nextId, child := Computing,
             parent := if AsI32(w.s.nextId) < 0 then Returned(NO_RESULT) else Poll)
  }

  /** The child returns or calls exit with any v, or is killed by a fault at any point. */
  ghost predicate ChildStep(w: World, w': World)
    requires Safe(w.s)
  {
    w.s.current == w.cslot && (w.child == Computing || w.child == Wrote || w.child == Signalled) &&
    ((w.child == Computing && w'.published.Some? &&
      w' == w.(child := Wrote, result := w'.published.value, published := w'.published)) ||
     (w.child == Wrote && w' == w.(child := Signalled, done := true)) ||
     (w.cslot != 0 && w' == w.(s := Scheduled(Killed(w.s)), child := Gone)))
  }

  /** The timer, or any other thread: yields, ends, creates a thread. */
  ghost predicate OtherStep(w: World, e: Event, w': World)
    requires Safe(w.s)
  {
    Step(w.s, e, w'.s) && w' == w.(s := w'.s) && (e.Create? ==> w.s.nextId + 1 < U32) &&
    (e.Exit? ==> w.s.current != w.pslot && !(Active(w) && w.s.current == w.cslot))
  }

  predicate Active(w: World) {
    w.child == Computing || w.child == Wrote || w.child == Signalled
  }

  /** Whose step it is. */
  datatype Action = ByParent | ByChild | ByOther(e: Event)

  ghost predicate Next(w: World, a: Action, w': World)
    requires Safe(w.s)
  {
    match a
    case ByParent => ParentStep(w, w')
    case ByChild => ChildStep(w, w')
    case ByOther(e) => OtherStep(w, e, w')
  }

  /** The parent has a step exactly when it has the processor and has not returned; and a child that
      is there and has the processor has one. */
  lemma WhoMoves(w: World)
    requires Safe(w.s)
    ensures (exists w' :: ParentStep(w, w')) <==> w.s.current == w.pslot && !w.parent.Returned?
    ensures Active(w) && w.cslot != 0 ==> ((exists w' :: ChildStep(w, w')) <==> w.s.current == w.cslot)
  {
    if w.s.current == w.pslot && !w.parent.Returned? {
      var w' := match w.parent
        case Reset => w.(result := NO_RESULT, parent := Clear)
        case Clear => w.(done := false, parent := Spawn)
        case Spawn => w.(parent := Returned(NO_RESULT))
        case Poll => w.(parent := if w.done then Fetch else Check)
        case Check => w.(parent := if Alive(w.s, w.tid) then Wait else Fetch)
        case Wait => w.(s := Scheduled(w.s), parent := Poll)
        case Fetch => w.(parent := Returned(w.result))
        case Returned(_) => w;
      assert ParentStep(w, w');
    }
    if Active(w) && w.cslot != 0 && w.s.current == w.cslot {
      assert ChildStep(w, w.(s := Scheduled(Killed(w.s)), child := Gone));
    }
  }

  // ---- invariant ----------------------------------------------------------------------------------

  /** Not dead and not blocked: no code of the kernel blocks a thread. */
  predicate Runnable(s: Sched, k: nat) {
    k < |s.threads| && (s.threads[k].status == Ready || s.threads[k].status == Running)
  }

  /** Ids in use are distinct and below the next one. */
  ghost predicate IdsFresh(s: Sched) {
    (forall i :: 0 <= i < |s.threads| && s.threads[i].status != Dead ==> s.threads[i].id < s.nextId) &&
    (forall i, j :: 0 <= i < j < |s.threads| && s.threads[i].status != Dead && s.threads[j].status != Dead ==>
      s.threads[i].id != s.threads[j].id)
  }

  ghost predicate ChildThere(w: World) {
    w.tid < w.s.nextId && w.cslot < MAX_THREADS && w.cslot != w.pslot && |w.s.threads| == MAX_THREADS &&
    if Active(w) then w.s.threads[w.cslot] == Thread(w.tid, w.s.threads[w.cslot].status) &&
    w.s.threads[w.cslot].status != Dead
    else !Alive(w.s, w.tid)
  }

  /** result and done say what the child has published. */
  predicate Published(w: World) {
    w.result == (if w.published.Some? then w.published.value else -99) &&
    match w.child
    case NotStarted => w.published == None
    case Computing => w.published == None && !w.done
    case Wrote => w.published.Some? && !w.done
    case Signalled => w.published.Some? && w.done
    case Gone => w.done ==> w.published.Some?
  }

  predicate Finished(w: World) {
    w.child == Signalled || w.child == Gone
  }

  ghost predicate Inv(w: World) {
    Safe(w.s) && IdsFresh(w.s) && w.s.nextId < U32 && w.pslot < MAX_THREADS && Runnable(w.s, w.pslot) &&
    (Started(w) ==> ChildThere(w)) &&
    match w.parent
    case Reset => !Started(w) && w.published == None
    case Clear => !Started(w) && w.published == None && w.result == -99
    case Spawn => !Started(w) && Published(w) && !w.done
    case Poll | Check | Wait => Started(w) && Published(w) && w.tid < U32 / 2
    case Fetch => Started(w) && Published(w) && w.tid < U32 / 2 && Finished(w)
    case Returned(r) =>
      if !Started(w) then r == -99 && w.published == None
      else Published(w) && if w.tid < U32 / 2 then r == w.result && Finished(w) else r == -99
  }

  /** What run_protected ought to return. */
  function Outcome(w: World): int {
    if w.published.Some? then w.published.value else -99
  }

  // ---- what scheduler steps keep ----------------------------------------------------------------

  /** The same threads are alive, in the same slots, but for slot k if dies. */
  ghost predicate SameLife(s: Sched, s': Sched, k: nat, dies: bool) {
    |s'.threads| == |s.threads| == MAX_THREADS && s'.nextId == s.nextId &&
    forall i {:trigger s'.threads[i]} {:trigger s.threads[i]} :: 0 <= i < MAX_THREADS ==>
      s'.threads[i].id == s.threads[i].id &&
      (s'.threads[i].status == Dead) == (s.threads[i].status == Dead || (dies && i == k)) &&
      (s'.threads[i].status == Blocked ==> s.threads[i].status == Blocked)
  }

  lemma ScheduledLife(s: Sched)
    requires Safe(s) || Dying(s)
    ensures SameLife(s, Scheduled(s), 0, false) && Safe(Scheduled(s))
  {
    ScheduleSafe(s);
  }

  lemma KilledLife(s: Sched)
    requires Safe(s) && s.current != 0
    ensures SameLife(s, Scheduled(Killed(s)), s.current, true) && Safe(Scheduled(Killed(s)))
  {
    assert Dying(Killed(s));
    ScheduledLife(Killed(s));
    hide Scheduled;
  }

  lemma FreshKept(s: Sched, s': Sched, k: nat, dies: bool)
    requires IdsFresh(s) && SameLife(s, s', k, dies)
    ensures IdsFresh(s')
  {
  }

  lemma CreatedFresh(s: Sched, k: nat)
    requires Safe(s) && IdsFresh(s) && s.nextId + 1 < U32 && k < MAX_THREADS && s.threads[k].status == Dead
    ensures IdsFresh(Created(s, k)) && Safe(Created(s, k))
  {
  }

  /** Nothing about parent and child changes in the table when others come and go. */
  lemma OthersKept(w: World, s': Sched, k: nat, dies: bool)
    requires Inv(w) && Safe(s') && SameLife(w.s, s', k, dies) && (dies ==> k != w.pslot && !(Active(w) && k == w.cslot))
    ensures Inv(w.(s := s'))
  {
    FreshKept(w.s, s', k, dies);
    var w' := w.(s := s');
    if Started(w) && !Active(w) {
      assert !Alive(s', w.tid) by { NotRevived(w.s, s', k, dies, w.tid); }
    }
  }

  lemma NotRevived(s: Sched, s': Sched, k: nat, dies: bool, id: nat)
    requires SameLife(s, s', k, dies) && !Alive(s, id)
    ensures !Alive(s', id)
  {
    forall i | 0 <= i < |s'.threads| && s'.threads[i].status != Dead ensures s'.threads[i].id != id {
      assert s.threads[i].status != Dead;
    }
  }

  lemma CreatedKept(w: World, k: nat)
    requires Inv(w) && w.s.nextId + 1 < U32 && k < MAX_THREADS && w.s.threads[k].status == Dead
    ensures Inv(w.(s := Created(w.s, k)))
  {
    CreatedFresh(w.s, k);
    var s' := Created(w.s, k);
    if Started(w) && !Active(w) {
      forall i | 0 <= i < |s'.threads| && s'.threads[i].status != Dead ensures s'.threads[i].id != w.tid {
        assert i != k ==> w.s.threads[i] == s'.threads[i];
      }
    }
  }

  // ---- safety -------------------------------------------------------------------------------------

  lemma ParentKeeps(w: World, w': World)
    requires Inv(w) && ParentStep(w, w')
    ensures Inv(w')
  {
    if w.parent == Spawn {
      if !SpawnFails(w, w') {
        SpawnKeeps(w, w');
      }
    } else if w.parent == Check {
      assert Active(w) ==> Alive(w.s, w.tid);
    } else if w.parent == Wait {
      ScheduledLife(w.s);
      OthersKept(w, Scheduled(w.s), 0, false);
    }
  }

  lemma SpawnKeeps(w: World, w': World)
    requires Inv(w) && w.parent == Spawn && SpawnWorks(w, w')
    ensures Inv(w')
  {
    hide FreeSlot;
    var k := FreeSlot(w.s, 0);
    assert k != w.pslot;
    CreatedFresh(w.s, k);
    CreatedThread(w.s, k);
    hide Safe, IdsFresh, Created, Alive;
  }

  lemma CreatedThread(s: Sched, k: nat)
    requires |s.threads| == MAX_THREADS && k < MAX_THREADS && s.nextId + 1 < U32
    ensures var s' := Created(s, k);
      s'.threads[k] == Thread(s.nextId, Ready) && s'.nextId == s.nextId + 1 &&
      (forall i :: 0 <= i < MAX_THREADS && i != k ==> s'.threads[i] == s.threads[i])
    ensures AsI32(s.nextId) < 0 <==> s.nextId >= U32 / 2
  {
    Quotient(s.nextId, U32, 0, s.nextId);
    Quotient(s.nextId + 1, U32, 0, s.nextId + 1);
  }

  lemma ChildKeeps(w: World, w': World)
    requires Inv(w) && ChildStep(w, w')
    ensures Inv(w')
  {
    if w'.child == Gone {
      KilledLife(w.s);
      FreshKept(w.s, w'.s, w.s.current, true);
      forall i | 0 <= i < |w'.s.threads| && w'.s.threads[i].status != Dead ensures w'.s.threads[i].id != w.tid {
        assert i != w.cslot && w.s.threads[i].status != Dead && w.s.threads[w.cslot].status != Dead;
      }
    }
  }

  lemma OtherKeeps(w: World, e: Event, w': World)
    requires Inv(w) && OtherStep(w, e, w')
    ensures Inv(w')
  {
    match e
    case Yield =>
      ScheduledLife(w.s);
      OthersKept(w, w'.s, 0, false);
    case Exit =>
      KilledLife(w.s);
      OthersKept(w, w'.s, w.s.current, true);
    case Create(ok) =>
      if w'.s != w.s {
        CreatedKept(w, FreeSlot(w.s, 0));
      }
  }

  lemma NextKeeps(w: World, a: Action, w': World)
    requires Inv(w) && Next(w, a, w')
    ensures Inv(w')
  {
    hide Inv, ParentStep, ChildStep, OtherStep, Safe;
    match a
    case ByParent => ParentKeeps(w, w');
    case ByChild => ChildKeeps(w, w');
    case ByOther(e) => OtherKeeps(w, e, w');
  }

  /** run_protected is called by a live thread. */
  ghost predicate Init(w: World) {
    Safe(w.s) && IdsFresh(w.s) && w.s.nextId < U32 && w.pslot < MAX_THREADS && Runnable(w.s, w.pslot) &&
    w.parent == Reset && w.child == NotStarted && w.published == None
  }

  ghost predicate IsRun(ws: seq<World>, acts: seq<Action>) {
    |ws| == |acts| + 1 && Init(ws[0]) && forall i :: 0 <= i < |acts| ==>
      Safe(ws[i].s) && Next(ws[i], acts[i], ws[i + 1])
  }

  lemma {:induction false} RunKeeps(ws: seq<World>, acts: seq<Action>, n: nat)
    requires IsRun(ws, acts) && n < |ws|
    ensures Inv(ws[n])
    decreases n
  {
    if n > 0 {
      RunKeeps(ws, acts, n - 1);
      assert Next(ws[n - 1], acts[n - 1], ws[n - 1 + 1]);
      NextKeeps(ws[n - 1], acts[n - 1], ws[n]);
    }
  }

  /** In every run: when run_protected has returned, it returned the child's published
      result, or -99 if the child died before publishing one or was never created;
      and the child publishes nothing afterwards.  Ids below 2^31 only. */
  lemma ReturnsOutcome(ws: seq<World>, acts: seq<Action>, n: nat)
    requires IsRun(ws, acts) && n < |ws| && ws[n].parent.Returned? && (Started(ws[n]) ==> ws[n].tid < 0x8000_0000)
    ensures ws[n].parent.r == Outcome(ws[n]) && (Started(ws[n]) ==> Finished(ws[n]))
  {
    RunKeeps(ws, acts, n);
  }

  /** From id 2^31 on, run_protected gives up although its child was created. */
  lemma LargeIdsLost(w: World, w': World)
    requires Inv(w) && w.parent == Spawn && w.s.current == w.pslot && SpawnWorks(w, w') && ParentStep(w, w')
    ensures w'.parent.Returned? <==> w.s.nextId >= 0x8000_0000
    ensures w'.parent.Returned? ==> Active(w') && !Finished(w')
  {
    CreatedThread(w.s, FreeSlot(w.s, 0));
  }

  // ---- the wait ends ----------------------------------------------------------------------------------

  predicate Waiting(w: World) {
    w.parent == Poll || w.parent == Check || w.parent == Wait || w.parent == Fetch
  }

  /** Steps the parent still has to take once the child is finished. */
  function Remaining(w: World): nat {
    match w.parent
    case Fetch => 1
    case Poll => if w.done then 2 else 3
    case Wait => if w.done then 3 else 4
    case Check => if w.child == Gone then 2 else 4
    case _ => 0
  }

  /** Once the child is finished, every step of the parent brings its return closer, and no
      other step takes it away. */
  lemma WaitStep(w: World, a: Action, w': World)
    requires Inv(w) && Next(w, a, w') && Finished(w) && Waiting(w)
    ensures Inv(w') && Finished(w') && Remaining(w) <= 4
    ensures Waiting(w') || w'.parent == Returned(Outcome(w'))
    ensures if a == ByParent then Remaining(w') < Remaining(w) else Remaining(w') <= Remaining(w) && Waiting(w')
  {
    NextKeeps(w, a, w');
    assert w.child == Signalled ==> w.done;
  }

  /** What has been returned stays returned. */
  lemma ReturnedStays(w: World, a: Action, w': World)
    requires Inv(w) && Next(w, a, w') && Finished(w) && w.parent == Returned(Outcome(w))
    ensures Finished(w') && w'.parent == Returned(Outcome(w'))
  {
  }

  // ---- the parent gets its turns -------------------------------------------------------------------------

  /** The event a step is for the scheduler; Create(false) leaves it alone. */
  function EventOf(w: World, a: Action, w': World): Event {
    match a
    case ByParent => if w.parent == Wait then Yield else Create(w'.s != w.s)
    case ByChild => if w'.child == Gone then Exit else Create(false)
    case ByOther(e) => e
  }

  lemma EventStep(w: World, a: Action, w': World)
    requires Inv(w) && Next(w, a, w')
    ensures Step(w.s, EventOf(w, a, w'), w'.s)
  {
  }

  function States(ws: seq<World>): (ss: seq<Sched>)
    ensures |ss| == |ws| && forall i :: 0 <= i < |ws| ==> ss[i] == ws[i].s
  {
    if ws == [] then [] else States(ws[..|ws| - 1]) + [ws[|ws| - 1].s]
  }

  function Events(ws: seq<World>, acts: seq<Action>): (es: seq<Event>)
    requires |ws| == |acts| + 1
    ensures |es| == |acts| && forall i :: 0 <= i < |acts| ==> es[i] == EventOf(ws[i], acts[i], ws[i + 1])
  {
    if acts == [] then []
    else
      var n := |acts| - 1;
      Events(ws[..n + 1], acts[..n]) + [EventOf(ws[n], acts[n], ws[n + 1])]
  }

  /** Schedules among the first n steps. */
  function Ticks(ws: seq<World>, acts: seq<Action>, n: nat): nat
    requires |ws| == |acts| + 1 && n <= |acts|
  {
    if n == 0 then 0 else Ticks(ws, acts, n - 1) + if IsTick(ws, acts, n - 1) then 1 else 0
  }

  predicate IsTick(ws: seq<World>, acts: seq<Action>, i: nat)
    requires |ws| == |acts| + 1 && i < |acts|
  {
    !EventOf(ws[i], acts[i], ws[i + 1]).Create?
  }

  /** No schedule takes the processor from the waiting parent before it has done a step in
      its time slice. */
  ghost predicate Fair(ws: seq<World>, acts: seq<Action>)
    requires |ws| == |acts| + 1
  {
    forall n {:trigger IsTick(ws, acts, n)} ::
      0 <= n < |acts| && Waiting(ws[n]) && ws[n].s.current == ws[n].pslot && acts[n] != ByParent &&
      IsTick(ws, acts, n) ==>
        exists k :: 0 <= k < n && acts[k] == ByParent && Ticks(ws, acts, k) == Ticks(ws, acts, n)
  }

  /** Consecutive steps between states in which the invariant holds. */
  ghost predicate IsPath(ws: seq<World>, acts: seq<Action>) {
    |ws| == |acts| + 1 && (forall i :: 0 <= i < |ws| ==> Inv(ws[i])) &&
    forall i :: 0 <= i < |acts| ==> Next(ws[i], acts[i], ws[i + 1])
  }

  lemma RunIsPath(ws: seq<World>, acts: seq<Action>)
    requires IsRun(ws, acts)
    ensures IsPath(ws, acts)
  {
    hide Next, Init, Inv;
    forall i | 0 <= i < |ws| ensures Inv(ws[i]) {
      RunKeeps(ws, acts, i);
    }
    forall i | 0 <= i < |acts| ensures Inv(ws[i]) && Next(ws[i], acts[i], ws[i + 1]) {
    }
  }

  lemma StepOf(ws: seq<World>, acts: seq<Action>, i: nat)
    requires |ws| == |acts| + 1 && IsPath(ws, acts) && i < |acts|
    ensures Inv(ws[i]) && Inv(ws[i + 1]) && Next(ws[i], acts[i], ws[i + 1])
  {
  }

  lemma InvAt(ws: seq<World>, acts: seq<Action>, i: nat)
    requires |ws| == |acts| + 1 && IsPath(ws, acts) && i < |ws|
    ensures Inv(ws[i])
  {
  }

  /** The c-th step from m on that is a schedule, counting from 1. */
  lemma {:induction false} NthTick(ws: seq<World>, acts: seq<Action>, m: nat, n: nat, c: nat) returns (j: nat)
    requires |ws| == |acts| + 1 && m <= n <= |acts| && c >= 1 && Ticks(ws, acts, n) - Ticks(ws, acts, m) >= c
    ensures m <= j < n && IsTick(ws, acts, j) && Ticks(ws, acts, j) == Ticks(ws, acts, m) + c - 1
    decreases n
  {
    hide IsTick;
    if Ticks(ws, acts, n - 1) - Ticks(ws, acts, m) >= c {
      j := NthTick(ws, acts, m, n - 1, c);
    } else {
      j := n - 1;
    }
  }

  lemma NextTick(ws: seq<World>, acts: seq<Action>, e: nat)
    requires |ws| == |acts| + 1 && e < |acts| && IsTick(ws, acts, e)
    ensures Ticks(ws, acts, e + 1) == Ticks(ws, acts, e) + 1
  {
    hide IsTick;
  }

  lemma {:induction false} TicksGrow(ws: seq<World>, acts: seq<Action>, m: nat, n: nat)
    requires |ws| == |acts| + 1 && m <= n <= |acts|
    ensures Ticks(ws, acts, m) <= Ticks(ws, acts, n)
    decreases n
  {
    if m < n {
      TicksGrow(ws, acts, m, n - 1);
    }
  }

  lemma {:induction false} SchedulesAre(ws: seq<World>, acts: seq<Action>, m: nat, n: nat)
    requires |ws| == |acts| + 1 && m <= n <= |acts|
    ensures Schedules(Events(ws, acts)[m..n]) == Ticks(ws, acts, n) - Ticks(ws, acts, m)
    decreases n
  {
    var es := Events(ws, acts)[m..n];
    if m < n {
      SchedulesAre(ws, acts, m, n - 1);
      assert es[..|es| - 1] == Events(ws, acts)[m..n - 1];
      assert es[|es| - 1] == EventOf(ws[n - 1], acts[n - 1], ws[n]);
    }
  }

  /** Without a schedule nobody else gets the processor, and only the parent changes what it does next. */
  lemma {:induction false} SameSlice(ws: seq<World>, acts: seq<Action>, m: nat, n: nat)
    requires |ws| == |acts| + 1 && IsPath(ws, acts) && m <= n <= |acts|
    ensures ws[n].pslot == ws[m].pslot
    ensures Ticks(ws, acts, n) == Ticks(ws, acts, m) ==> ws[n].s.current == ws[m].s.current
    ensures (forall k :: m <= k < n ==> acts[k] != ByParent) ==> ws[n].parent == ws[m].parent
    decreases n
  {
    hide IsPath, Inv, Next;
    if m < n {
      SameSlice(ws, acts, m, n - 1);
      TicksGrow(ws, acts, m, n - 1);
      StepOf(ws, acts, n - 1);
      StepEffect(ws[n - 1], acts[n - 1], ws[n]);
      hide EventOf;
    }
  }

  lemma StepEffect(w: World, a: Action, w': World)
    requires Inv(w) && Next(w, a, w')
    ensures w'.pslot == w.pslot && (EventOf(w, a, w').Create? ==> w'.s.current == w.s.current) &&
      (a != ByParent ==> w'.parent == w.parent)
  {
    EventStep(w, a, w');
  }

  lemma PartStep(ws: seq<World>, acts: seq<Action>, i: nat)
    requires |ws| == |acts| + 1 && IsPath(ws, acts) && i < |acts|
    ensures Safe(ws[i].s) && Step(ws[i].s, EventOf(ws[i], acts[i], ws[i + 1]), ws[i + 1].s)
  {
    hide IsPath, Inv, Next, Step, Safe, EventOf;
    StepOf(ws, acts, i);
    InvSafe(ws[i]);
    EventStep(ws[i], acts[i], ws[i + 1]);
  }

  /** The scheduler's view of steps m to n. */
  lemma PartIsRun(ws: seq<World>, acts: seq<Action>, m: nat, n: nat)
    requires |ws| == |acts| + 1 && IsPath(ws, acts) && m <= n <= |acts|
    ensures Threads.IsRun(States(ws)[m..n + 1], Events(ws, acts)[m..n])
  {
    hide IsPath, Inv, Next, Step, Safe, EventOf, States, Events, Init;
    var ss, es := States(ws)[m..n + 1], Events(ws, acts)[m..n];
    forall i | 0 <= i < |es| ensures Safe(ss[i]) && Step(ss[i], es[i], ss[i + 1]) {
      assert ss[i] == ws[m + i].s && ss[i + 1] == ws[m + i + 1].s &&
        es[i] == EventOf(ws[m + i], acts[m + i], ws[m + i + 1]);
      PartStep(ws, acts, m + i);
    }
    InvAt(ws, acts, m);
    InvSafe(ws[m]);
    assert ss[0] == ws[m].s;
  }

  lemma InvSafe(w: World)
    requires Inv(w)
    ensures Safe(w.s) && w.pslot < MAX_THREADS && (w.s.current == w.pslot || w.s.threads[w.pslot].status == Ready)
  {
  }

  /** From step m on, 31 schedules bring the processor to the parent. */
  lemma Chosen(ws: seq<World>, acts: seq<Action>, m: nat, n: nat) returns (i: nat)
    requires |ws| == |acts| + 1 && IsPath(ws, acts) && m <= n <= |acts| && Ticks(ws, acts, n) - Ticks(ws, acts, m) >= 31
    ensures m <= i <= n && ws[i].s.current == ws[i].pslot
  {
    hide IsPath, Inv, Next, Safe, Threads.IsRun, States, Events, Ticks, Schedules;
    var w := ws[m];
    InvAt(ws, acts, m);
    InvSafe(w);
    if w.s.current == w.pslot {
      return m;
    }
    PartIsRun(ws, acts, m, n);
    SchedulesAre(ws, acts, m, n);
    assert States(ws)[m..n + 1][0] == w.s;
    var j := ChosenWithin31(States(ws)[m..n + 1], Events(ws, acts)[m..n], w.pslot);
    i := m + j;
    assert States(ws)[m..n + 1][j] == ws[i].s;
    SameSlice(ws, acts, m, i);
  }

  /** In a fair run 33 schedules include a step of the waiting parent. */
  lemma GetsTurn(ws: seq<World>, acts: seq<Action>, m: nat, n: nat) returns (k: nat)
    requires |ws| == |acts| + 1 && IsPath(ws, acts) && Fair(ws, acts) && m <= n <= |acts| && Waiting(ws[m])
    requires Ticks(ws, acts, n) - Ticks(ws, acts, m) >= 33
    ensures m <= k < n && acts[k] == ByParent
  {
    hide IsPath, Fair;
    if exists i :: m <= i < n && acts[i] == ByParent {
      k :| m <= k < n && acts[k] == ByParent;
    } else {
      k := m;
      Starved(ws, acts, m, n);
    }
  }

  /** Without a step of the parent there are fewer. */
  lemma Starved(ws: seq<World>, acts: seq<Action>, m: nat, n: nat)
    requires |ws| == |acts| + 1 && IsPath(ws, acts) && Fair(ws, acts) && m <= n <= |acts| && Waiting(ws[m])
    requires forall i :: m <= i < n ==> acts[i] != ByParent
    ensures Ticks(ws, acts, n) - Ticks(ws, acts, m) < 33
  {
    hide IsPath, Inv, Next, IsTick, EventOf, Ticks;
    if Ticks(ws, acts, n) - Ticks(ws, acts, m) < 33 {
      return;
    }
    var j1 := NthTick(ws, acts, m, n, 1);
    NextTick(ws, acts, j1);
    var j32 := NthTick(ws, acts, j1 + 1, n, 32);
    var i := Chosen(ws, acts, j1 + 1, j32);
    TicksGrow(ws, acts, i, j32);
    NextTick(ws, acts, j32);
    var j := NthTick(ws, acts, i, j32 + 1, 1);
    SameSlice(ws, acts, i, j);
    SameSlice(ws, acts, m, j);
    var k :| 0 <= k < j && acts[k] == ByParent && Ticks(ws, acts, k) == Ticks(ws, acts, j);
    TicksGrow(ws, acts, k, m);
    TicksGrow(ws, acts, j1 + 1, i);
  }

  /** The first step of the parent from m on. */
  lemma {:induction false} FirstTurn(ws: seq<World>, acts: seq<Action>, m: nat, k: nat) returns (f: nat)
    requires m <= k < |acts| && acts[k] == ByParent
    ensures m <= f <= k && acts[f] == ByParent && forall i :: m <= i < f ==> acts[i] != ByParent
    decreases k - m
  {
    if acts[m] == ByParent {
      f := m;
    } else {
      f := FirstTurn(ws, acts, m + 1, k);
    }
  }

  /** Up to its next step the finished child stays finished and the parent's way gets no longer. */
  lemma {:induction false} WaitsOn(ws: seq<World>, acts: seq<Action>, m: nat, f: nat)
    requires |ws| == |acts| + 1 && IsPath(ws, acts) && m <= f <= |acts| && Finished(ws[m]) && Waiting(ws[m])
    requires forall i :: m <= i < f ==> acts[i] != ByParent
    ensures Finished(ws[f]) && Waiting(ws[f]) && Remaining(ws[f]) <= Remaining(ws[m])
    decreases f
  {
    hide IsPath, Inv, Next;
    if m < f {
      WaitsOn(ws, acts, m, f - 1);
      StepOf(ws, acts, f - 1);
      WaitStep(ws[f - 1], acts[f - 1], ws[f]);
    }
  }

  lemma {:induction false} ReturnedUntil(ws: seq<World>, acts: seq<Action>, m: nat, n: nat)
    requires |ws| == |acts| + 1 && IsPath(ws, acts) && m <= n <= |acts| && Finished(ws[m]) &&
      ws[m].parent == Returned(Outcome(ws[m]))
    ensures ws[n].parent == Returned(Outcome(ws[n])) && Finished(ws[n])
    decreases n
  {
    hide IsPath, Inv, Next;
    if m < n {
      ReturnedUntil(ws, acts, m, n - 1);
      StepOf(ws, acts, n - 1);
      ReturnedStays(ws[n - 1], acts[n - 1], ws[n]);
    }
  }

  lemma {:induction false} WaitEndsOn(ws: seq<World>, acts: seq<Action>, m: nat, n: nat)
    requires |ws| == |acts| + 1 && IsPath(ws, acts) && Fair(ws, acts) && m <= n <= |acts| && Finished(ws[m])
    requires Waiting(ws[m]) || ws[m].parent == Returned(Outcome(ws[m]))
    requires Waiting(ws[m]) ==> Ticks(ws, acts, n) - Ticks(ws, acts, m) >= 33 * Remaining(ws[m])
    ensures ws[n].parent == Returned(Outcome(ws[n]))
    decreases if Waiting(ws[m]) then Remaining(ws[m]) else 0
  {
    hide IsPath, Inv, Next, IsTick, Fair, Ticks;
    if !Waiting(ws[m]) {
      ReturnedUntil(ws, acts, m, n);
      return;
    }
    assert Remaining(ws[m]) >= 1;
    var e := NthTick(ws, acts, m, n, 33);
    NextTick(ws, acts, e);
    var k := GetsTurn(ws, acts, m, e + 1);
    var f := FirstTurn(ws, acts, m, k);
    TicksGrow(ws, acts, f + 1, e + 1);
    WaitsOn(ws, acts, m, f);
    StepOf(ws, acts, f);
    WaitStep(ws[f], acts[f], ws[f + 1]);
    WaitEndsOn(ws, acts, f + 1, n);
  }

  /** In every fair run run_protected has returned the outcome 132 schedules after the child is
      finished, whatever other threads come and go. */
  lemma WaitEnds(ws: seq<World>, acts: seq<Action>, m: nat, n: nat)
    requires |ws| == |acts| + 1 && IsRun(ws, acts) && Fair(ws, acts) && m <= n <= |acts| && Finished(ws[m]) &&
      Waiting(ws[m])
    requires Ticks(ws, acts, n) - Ticks(ws, acts, m) >= 132
    ensures ws[n].parent == Returned(Outcome(ws[n]))
  {
    hide Fair, IsPath, IsRun, Ticks;
    RunIsPath(ws, acts);
    assert Remaining(ws[m]) <= 4;
    WaitEndsOn(ws, acts, m, n);
  }
}
