/** What a thread of the pool does when no other thread moves: a worker takes and runs the next
    job, an add links its job in and wakes a worker.  Together with the invariant, which holds
    however the threads are interleaved, this says what the code is for. */
module ThreadPoolWalks {
  import opened Wrappers
  import Slots
  import opened ThreadPool
  import opened ThreadPoolInvariants

  /* ---- Steps of one worker ---- */

  predicate CanStep(m: Mem, i: nat, pc: WPc) {
    WCanMove(m, pc) && Slots.WellFormed(m.buffers) && i < |m.buffers.phases|
  }

  /** `n` steps of worker `i` by itself. */
  ghost predicate WorkerWalk(m: Mem, i: nat, pc: WPc, n: nat, m': Mem, pc': WPc)
    decreases n
  {
    if n == 0 then m' == m && pc' == pc
    else CanStep(m, i, pc) && var (m1, pc1) := WorkerStep(m, i, pc); WorkerWalk(m1, i, pc1, n - 1, m', pc')
  }

  lemma {:induction false} OneMoreStep(m: Mem, i: nat, pc: WPc, n: nat, m1: Mem, pc1: WPc)
    requires WorkerWalk(m, i, pc, n, m1, pc1) && CanStep(m1, i, pc1)
    ensures WorkerWalk(m, i, pc, n + 1, WorkerStep(m1, i, pc1).0, WorkerStep(m1, i, pc1).1)
    decreases n
  {
    hide WorkerStep;
    if n > 0 {
      OneMoreStep(WorkerStep(m, i, pc).0, i, WorkerStep(m, i, pc).1, n - 1, m1, pc1);
    }
  }

  lemma {:induction false} WalkJoin(m: Mem, i: nat, pc: WPc, n: nat, m1: Mem, pc1: WPc, k: nat, m2: Mem, pc2: WPc)
    requires WorkerWalk(m, i, pc, n, m1, pc1) && WorkerWalk(m1, i, pc1, k, m2, pc2)
    ensures WorkerWalk(m, i, pc, n + k, m2, pc2)
    decreases n
  {
    hide WorkerStep;
    if n > 0 {
      WalkJoin(WorkerStep(m, i, pc).0, i, WorkerStep(m, i, pc).1, n - 1, m1, pc1, k, m2, pc2);
    }
  }

  /** Where a worker stands, with the shared memory. */
  predicate Ready(m: Mem, i: nat) {
    && m.poolLock == None && m.queueLock == None && !m.stop
    && Slots.WellFormed(m.buffers) && i < |m.buffers.phases| && m.buffers.phases[i].Idle?
  }

  /** From the top of the loop to the call of job_dequeue. */
  lemma ToDequeue(m: Mem, i: nat, pc: WPc)
    requires Ready(m, i) && m.queue.front.Some? && (pc.WLock? || pc.WWoken?)
    ensures WorkerWalk(m, i, pc, 3, m.(poolLock := Some(Worker(i))), WDequeue(DLock))
  {
    hide WorkerWalk;
    var m1 := m.(poolLock := Some(Worker(i)));
    NoSteps(m, i, pc);
    OneMoreStep(m, i, pc, 0, m, pc);
    OneMoreStep(m, i, pc, 1, m1, WReadFront);
    OneMoreStep(m, i, pc, 2, m1, WCheckStop);
  }

  lemma NoSteps(m: Mem, i: nat, pc: WPc)
    ensures WorkerWalk(m, i, pc, 0, m, pc)
  {
  }

  /** The queue and the record of taken jobs after job_dequeue. */
  function Dequeued(m: Mem, j: Job): Mem
    requires j in m.queue.next
  {
    var q, next := m.queue, m.queue.next[j];
    m.(queue := Queue(next, if next == None then None else q.rear, q.next, q.count - 1), taken := m.taken + [j])
  }

  /** Up to the removal, */
  lemma ToAdvance(m: Mem, i: nat, j: Job)
    requires m.queueLock == None && m.queue.front == Some(j) && j in m.queue.next
    requires Slots.WellFormed(m.buffers) && i < |m.buffers.phases|
    ensures WorkerWalk(m, i, WDequeue(DLock), 3, m.(queueLock := Some(Worker(i))), WDequeue(DAdvance(j)))
  {
    hide WorkerWalk;
    var pc, m1 := WDequeue(DLock), m.(queueLock := Some(Worker(i)));
    NoSteps(m, i, pc);
    OneMoreStep(m, i, pc, 0, m, pc);
    OneMoreStep(m, i, pc, 1, m1, WDequeue(DTest));
    OneMoreStep(m, i, pc, 2, m1, WDequeue(DTake));
  }

  /** the removal itself, */
  lemma Removing(m: Mem, i: nat, j: Job) returns (n: nat)
    requires m.queue.front == Some(j) && j in m.queue.next && Slots.WellFormed(m.buffers) && i < |m.buffers.phases|
    ensures var d := Dequeued(m, j);
            WorkerWalk(m, i, WDequeue(DAdvance(j)), n,
              d.(queue := d.queue.(count := m.queue.count)), WDequeue(DCount(j)))
  {
    hide WorkerWalk;
    var pc := WDequeue(DAdvance(j));
    var m2 := m.(queue := m.queue.(front := m.queue.next[j]), taken := m.taken + [j]);
    NoSteps(m, i, pc);
    OneMoreStep(m, i, pc, 0, m, pc);
    OneMoreStep(m, i, pc, 1, m2, WDequeue(DTestEmpty(j)));
    n := 2;
    if m2.queue.front == None {
      OneMoreStep(m, i, pc, 2, m2, WDequeue(DClearRear(j)));
      n := 3;
    }
  }

  /** and the count. */
  lemma Counting(m: Mem, i: nat, j: Job)
    requires Slots.WellFormed(m.buffers) && i < |m.buffers.phases|
    ensures WorkerWalk(m, i, WDequeue(DCount(j)), 2,
              m.(queue := m.queue.(count := m.queue.count - 1), queueLock := None), WCountUp(j))
  {
    hide WorkerWalk;
    var pc := WDequeue(DCount(j));
    NoSteps(m, i, pc);
    OneMoreStep(m, i, pc, 0, m, pc);
    OneMoreStep(m, i, pc, 1, m.(queue := m.queue.(count := m.queue.count - 1)), WDequeue(DUnlock(j)));
  }

  lemma ThroughDequeue(m: Mem, i: nat, j: Job) returns (n: nat)
    requires m.queueLock == None && m.queue.front == Some(j) && j in m.queue.next
    requires Slots.WellFormed(m.buffers) && i < |m.buffers.phases|
    ensures WorkerWalk(m, i, WDequeue(DLock), n, Dequeued(m, j), WCountUp(j))
  {
    hide WorkerWalk;
    var pc, m1 := WDequeue(DLock), m.(queueLock := Some(Worker(i)));
    ToAdvance(m, i, j);
    var k := Removing(m1, i, j);
    var d := Dequeued(m1, j);
    var m2 := d.(queue := d.queue.(count := m.queue.count));
    WalkJoin(m, i, pc, 3, m1, WDequeue(DAdvance(j)), k, m2, WDequeue(DCount(j)));
    Counting(m2, i, j);
    WalkJoin(m, i, pc, 3 + k, m2, WDequeue(DCount(j)), 2, Dequeued(m, j), WCountUp(j));
    n := 3 + k + 2;
  }

  /** From the dequeued job to its function. */
  lemma ToHandling(m: Mem, i: nat, j: Job)
    requires Slots.WellFormed(m.buffers) && i < |m.buffers.phases|
    ensures WorkerWalk(m, i, WCountUp(j), 3, m.(active := true, poolLock := None, runs := m.runs + [Run(i, j)]),
            WHandling(j))
  {
    hide WorkerWalk;
    var pc := WCountUp(j);
    NoSteps(m, i, pc);
    OneMoreStep(m, i, pc, 0, m, pc);
    OneMoreStep(m, i, pc, 1, m.(active := true), WRelease(j));
    OneMoreStep(m, i, pc, 2, m.(active := true, poolLock := None), WCall(j));
  }

  /** From the function's return to the top of the loop. */
  lemma FromHandling(m: Mem, i: nat)
    requires m.poolLock == None && Slots.WellFormed(m.buffers) && i < |m.buffers.phases|
    ensures WorkerWalk(m, i, WRelock, 4, m.(active := !m.active), WLock)
  {
    hide WorkerWalk;
    var m1 := m.(poolLock := Some(Worker(i)));
    var m2 := m1.(active := !m.active);
    NoSteps(m, i, WRelock);
    OneMoreStep(m, i, WRelock, 0, m, WRelock);
    OneMoreStep(m, i, WRelock, 1, m1, WCountDown);
    OneMoreStep(m, i, WRelock, 2, m2, WSignal);
    OneMoreStep(m, i, WRelock, 3, m2, WUnlock);
    assert m2.(poolLock := None) == m.(active := !m.active);
  }

  /* ---- The function itself: a slot claimed and released ---- */

  lemma {:induction false} CrowdingRun(b: Slots.State, sched: seq<nat>)
    requires Slots.Owned(b) && Slots.Crowding(b) && |b.phases| <= |b.used| && Slots.Schedule(sched, |b.phases|)
    ensures Slots.Owned(Slots.Run(b, sched)) && Slots.Crowding(Slots.Run(b, sched))
    decreases |sched|
  {
    if sched != [] {
      var before := sched[..|sched| - 1];
      CrowdingRun(b, before);
      Slots.OwnedStep(Slots.Run(b, before), sched[|sched| - 1]);
      Slots.CrowdingStep(Slots.Run(b, before), sched[|sched| - 1]);
    }
  }

  /** An idle claimant always finds a free slot. */
  lemma SomeSlotFree(b: Slots.State, i: nat)
    requires Slots.Owned(b) && Slots.Crowding(b) && |b.phases| <= |b.used| && i < |b.phases| && b.phases[i].Idle?
    ensures Slots.FirstFree(b.used, 0) < |b.used|
  {
    hide Slots.Run, Slots.Owned, Slots.Crowding;
    assert Slots.WellFormed(b) by { OwnedWellFormed(b); }
    Slots.WalkClaimsFirstFree(b, i);
    var f := Slots.FirstFree(b.used, 0);
    CrowdingRun(b, Slots.Walk(i, f + 1));
    var r := Slots.Run(b, Slots.Walk(i, f + 1));
    Slots.CrowdingMeansFound(r);
    assert r.phases[i] in r.phases;
  }

  lemma OwnedWellFormed(b: Slots.State)
    requires Slots.Owned(b)
    ensures Slots.WellFormed(b)
  {
  }

  /** While slots are tried, the job goes on. */
  lemma {:induction false} Trying(m: Mem, i: nat, j: Job, k: nat)
    requires Slots.WellFormed(m.buffers) && i < |m.buffers.phases| && m.buffers.phases[i].Idle? && k <= |m.buffers.used|
    requires forall x :: 0 <= x < k ==> m.buffers.used[x]
    ensures WorkerWalk(m, i, WHandling(j), k + 1,
              m.(buffers := m.buffers.(phases := m.buffers.phases[i := Slots.ScanFrom(|m.buffers.used|, k)])),
              WHandling(j))
    decreases k
  {
    hide WorkerWalk;
    var b := m.buffers;
    if k == 0 {
      NoSteps(m, i, WHandling(j));
      OneMoreStep(m, i, WHandling(j), 0, m, WHandling(j));
    } else {
      Trying(m, i, j, k - 1);
      var b1 := b.(phases := b.phases[i := Slots.ScanFrom(|b.used|, k - 1)]);
      OneMoreStep(m, i, WHandling(j), k, m.(buffers := b1), WHandling(j));
      assert Slots.Step(b1, i).phases == b.phases[i := Slots.ScanFrom(|b.used|, k)];
    }
  }

  /** A buffer is claimed and given back; nothing else changes. */
  lemma ThroughHandling(m: Mem, i: nat, j: Job) returns (n: nat)
    requires Slots.Owned(m.buffers) && Slots.Crowding(m.buffers) && |m.buffers.phases| <= |m.buffers.used|
    requires i < |m.buffers.phases| && m.buffers.phases[i].Idle?
    ensures WorkerWalk(m, i, WHandling(j), n,
              m.(buffers := m.buffers.(claims := m.buffers.claims + 1, releases := m.buffers.releases + 1)), WRelock)
  {
    hide WorkerWalk, Slots.Owned, Slots.Crowding;
    var b := m.buffers;
    assert Slots.WellFormed(b) by { OwnedWellFormed(b); }
    SomeSlotFree(b, i);
    var f := Slots.FirstFree(b.used, 0);
    Trying(m, i, j, f);
    var b1 := b.(phases := b.phases[i := Slots.Scanning(f)]);
    OneMoreStep(m, i, WHandling(j), f + 1, m.(buffers := b1), WHandling(j));
    var b2 := b.(used := b.used[f := true], phases := b.phases[i := Slots.Holding(f)], claims := b.claims + 1);
    assert Slots.Step(b1, i) == b2 by { assert b1.phases[i := Slots.Holding(f)] == b2.phases; }
    OneMoreStep(m, i, WHandling(j), f + 2, m.(buffers := b2), WHandling(j));
    assert b2.used[f := false] == b.used && b2.phases[i := Slots.Idle] == b.phases;
    n := f + 3;
  }

  /** The memory after worker `i` has run job `j`: the job unlinked, taken and run; the flag of
      active threads cleared; a buffer used once more and free again. */
  function AfterJob(m: Mem, i: nat, j: Job): Mem
    requires j in m.queue.next
  {
    Dequeued(m, j).(runs := m.runs + [Run(i, j)], active := false,
      buffers := m.buffers.(claims := m.buffers.claims + 1, releases := m.buffers.releases + 1))
  }

  /** A worker at the top of its loop, or woken, that finds a job takes it, runs it, gives its
      buffer back and returns to the top. */
  lemma WorkerRunsNextJob(m: Mem, i: nat, pc: WPc, j: Job) returns (n: nat)
    requires Ready(m, i) && m.queue.front == Some(j) && j in m.queue.next && (pc.WLock? || pc.WWoken?)
    requires Slots.Owned(m.buffers) && Slots.Crowding(m.buffers) && |m.buffers.phases| <= |m.buffers.used|
    ensures WorkerWalk(m, i, pc, n, AfterJob(m, i, j), WLock)
  {
    hide WorkerWalk, Slots.Owned, Slots.Crowding, WorkerStep;
    var m1 := m.(poolLock := Some(Worker(i)));
    ToDequeue(m, i, pc);
    var k := ThroughDequeue(m1, i, j);
    WalkJoin(m, i, pc, 3, m1, WDequeue(DLock), k, Dequeued(m1, j), WCountUp(j));
    n := 3 + k;
    var m2 := Dequeued(m1, j);
    ToHandling(m2, i, j);
    var m3 := m2.(active := true, poolLock := None, runs := m2.runs + [Run(i, j)]);
    WalkJoin(m, i, pc, n, m2, WCountUp(j), 3, m3, WHandling(j));
    k := ThroughHandling(m3, i, j);
    var m4 := m3.(buffers := m3.buffers.(claims := m3.buffers.claims + 1, releases := m3.buffers.releases + 1));
    WalkJoin(m, i, pc, n + 3, m3, WHandling(j), k, m4, WRelock);
    FromHandling(m4, i);
    WalkJoin(m, i, pc, n + 3 + k, m4, WRelock, 4, m4.(active := !m4.active), WLock);
    n := n + 3 + k + 4;
    assert m4.(active := !m4.active) == AfterJob(m, i, j);
  }

  /** One that finds no job goes to sleep, and one that finds the pool stopping leaves, and both
      change nothing. */
  lemma WorkerWithoutJob(m: Mem, i: nat, pc: WPc)
    requires m.poolLock == None && Slots.WellFormed(m.buffers) && i < |m.buffers.phases| && (pc.WLock? || pc.WWoken?)
    ensures m.queue.front == None && !m.stop ==> WorkerWalk(m, i, pc, 4, m, WAsleep)
    ensures m.queue.front == None && m.stop ==> WorkerWalk(m, i, pc, 5, m, WDone)
    ensures m.queue.front.Some? && m.stop ==> WorkerWalk(m, i, pc, 4, m, WDone)
  {
    hide WorkerWalk;
    var m1 := m.(poolLock := Some(Worker(i)));
    assert m1.(poolLock := None) == m;
    NoSteps(m, i, pc);
    OneMoreStep(m, i, pc, 0, m, pc);
    OneMoreStep(m, i, pc, 1, m1, WReadFront);
    if m.queue.front == None {
      OneMoreStep(m, i, pc, 2, m1, WReadStop);
      if m.stop {
        OneMoreStep(m, i, pc, 3, m1, WCheckStop);
        OneMoreStep(m, i, pc, 4, m1, WLeave);
      } else {
        OneMoreStep(m, i, pc, 3, m1, WSleep);
      }
    } else if m.stop {
      OneMoreStep(m, i, pc, 2, m1, WCheckStop);
      OneMoreStep(m, i, pc, 3, m1, WLeave);
    }
  }

  /* ---- The whole pool, one thread moving ---- */

  /** A run from `s` in which only thread `t` moves; its signals wake whom the scheduler chooses. */
  ghost predicate AloneRun(s: State, t: Tid, states: seq<State>, events: seq<Event>) {
    && |states| == |events| + 1 && states[0] == s
    && forall k :: 0 <= k < |events| ==>
         && events[k].Move? && events[k].t == t
         && Enabled(states[k], events[k]) && states[k + 1] == Next(states[k], events[k])
  }

  lemma AloneRest(s: State, t: Tid, states: seq<State>, events: seq<Event>)
    requires AloneRun(s, t, states, events) && events != []
    ensures events[0].Move? && events[0].t == t && Enabled(s, events[0])
    ensures AloneRun(Next(s, events[0]), t, states[1..], events[1..])
  {
    hide Enabled, Next;
    var ss, es := states[1..], events[1..];
    forall k | 0 <= k < |es|
      ensures es[k].Move? && es[k].t == t && Enabled(ss[k], es[k]) && ss[k + 1] == Next(ss[k], es[k])
    {
      assert es[k] == events[k + 1] && ss[k] == states[k + 1] && ss[k + 1] == states[k + 1 + 1];
    }
  }

  lemma AloneInv(s: State, t: Tid, states: seq<State>, events: seq<Event>, k: nat)
    requires AloneRun(s, t, states, events) && Inv(s) && k < |states|
    ensures Inv(states[k])
    decreases k
  {
    hide Inv, Enabled, Next;
    if k > 0 {
      AloneInv(s, t, states, events, k - 1);
      assert states[k] == Next(states[k - 1], events[k - 1]);
      StepInv(states[k - 1], events[k - 1]);
    }
  }

  /** A move of a worker, whoever is woken by it. */
  lemma WorkerMove(s: State, i: nat, e: Event)
    requires Enabled(s, e) && e.Move? && e.t == Worker(i)
    ensures i < |s.workers| && CanStep(s.m, i, s.workers[i]) && |Next(s, e).workers| == |s.workers|
    ensures Next(s, e).m == WorkerStep(s.m, i, s.workers[i]).0
    ensures Next(s, e).workers[i] == WorkerStep(s.m, i, s.workers[i]).1
  {
    hide WorkerStep;
  }

  /** Every run of the worker by itself follows its walk. */
  lemma {:induction false} WalkIsFollowed(s: State, i: nat, states: seq<State>, events: seq<Event>, m': Mem, pc': WPc)
    requires AloneRun(s, Worker(i), states, events) && i < |s.workers|
    requires WorkerWalk(s.m, i, s.workers[i], |events|, m', pc')
    ensures var last := states[|events|]; |last.workers| == |s.workers| && last.m == m' && last.workers[i] == pc'
    decreases |events|
  {
    hide Enabled, Next, WorkerStep;
    if events != [] {
      AloneRest(s, Worker(i), states, events);
      WorkerMove(s, i, events[0]);
      WalkIsFollowed(Next(s, events[0]), i, states[1..], events[1..], m', pc');
      assert states[1..][|events[1..]|] == states[|events|];
    }
  }

  /** A worker that can step can move, waking a sleeper if it signals and there is one. */
  lemma WorkerCanMove(s: State, i: nat) returns (e: Event)
    requires i < |s.workers| && CanStep(s.m, i, s.workers[i])
    ensures Enabled(s, e) && e.Move? && e.t == Worker(i)
  {
    if u :| SignalsPool(s, Worker(i)) && SleepsOnPool(s, u) {
      e := Move(Worker(i), Some(u));
    } else {
      e := Move(Worker(i), None);
    }
  }

  /** ... and there is such a run. */
  lemma {:induction false} WalkCanBeFollowed(s: State, i: nat, n: nat, m': Mem, pc': WPc)
    returns (states: seq<State>, events: seq<Event>)
    requires i < |s.workers| && WorkerWalk(s.m, i, s.workers[i], n, m', pc')
    ensures AloneRun(s, Worker(i), states, events) && |events| == n
    decreases n
  {
    hide Enabled, Next, WorkerStep;
    if n == 0 {
      states, events := [s], [];
    } else {
      var e := WorkerCanMove(s, i);
      WorkerMove(s, i, e);
      var states1, events1 := WalkCanBeFollowed(Next(s, e), i, n - 1, m', pc');
      states, events := [s] + states1, [e] + events1;
      AloneFrom(s, Worker(i), e, states1, events1);
    }
  }

  lemma AloneFrom(s: State, t: Tid, e: Event, states: seq<State>, events: seq<Event>)
    requires Enabled(s, e) && e.Move? && e.t == t && AloneRun(Next(s, e), t, states, events)
    ensures AloneRun(s, t, [s] + states, [e] + events)
  {
    hide Enabled, Next;
    var ss, es := [s] + states, [e] + events;
    forall k | 0 <= k < |es|
      ensures es[k].Move? && es[k].t == t && Enabled(ss[k], es[k]) && ss[k + 1] == Next(ss[k], es[k])
    {
      if k > 0 { assert ss[k] == states[k - 1] && ss[k + 1] == states[k] && es[k] == events[k - 1]; }
    }
  }

  /* ---- Workers hold no buffer outside their jobs ---- */

  ghost predicate IdleOutside(s: State) {
    |s.m.buffers.phases| == |s.workers|
    && forall i :: 0 <= i < |s.workers| && !s.workers[i].WHandling? ==> s.m.buffers.phases[i].Idle?
  }

  lemma IdleOutsideStep(s: State, e: Event)
    requires IdleOutside(s) && Enabled(s, e)
    ensures IdleOutside(Next(s, e))
  {
    hide Moved, IdleOutside;
    match e
    case Move(t, None) => IdleOutsideMove(s, t);
    case Move(t, Some(u)) =>
      IdleOutsideWake(s, u);
      IdleOutsideMove(Wake(s, u), t);
    case Spurious(t) => IdleOutsideWake(s, t);
    case Call(j) => SamePhases(s, Next(s, e));
  }

  lemma SamePhases(s: State, s': State)
    requires IdleOutside(s) && s'.workers == s.workers && s'.m.buffers == s.m.buffers
    ensures IdleOutside(s')
  {
  }

  lemma IdleOutsideWake(s: State, t: Tid)
    requires IdleOutside(s) && (SleepsOnPool(s, t) || SleepsOnQueue(s, t))
    ensures IdleOutside(Wake(s, t))
  {
  }

  lemma IdleOutsideMove(s: State, t: Tid)
    requires IdleOutside(s) && CanMove(s, t)
    ensures IdleOutside(Moved(s, t))
  {
    match t
    case Worker(i) => WorkerPhase(s.m, i, s.workers[i]);
    case Adder(j) => AdderLocks(s.m, |s.workers|, j, s.adders[j]);
    case Destroyer => DestroyerLocks(s);
  }

  lemma WorkerPhase(m: Mem, i: nat, pc: WPc)
    requires CanStep(m, i, pc) && (!pc.WHandling? ==> m.buffers.phases[i].Idle?)
    ensures var (m', pc') := WorkerStep(m, i, pc);
            && |m'.buffers.phases| == |m.buffers.phases|
            && (!pc'.WHandling? ==> m'.buffers.phases[i].Idle?)
            && forall k :: 0 <= k < |m.buffers.phases| && k != i ==> m'.buffers.phases[k] == m.buffers.phases[k]
  {
    if pc.WDequeue? { DequeueLocks(m, Worker(i), pc.d); }
  }

  lemma {:induction false} IdleOutsideAlways(max: nat, states: seq<State>, events: seq<Event>, k: nat)
    requires Behavior(max, states, events) && k < |states|
    ensures IdleOutside(states[k])
    decreases k
  {
    hide Inv, Enabled, Next;
    if k > 0 {
      IdleOutsideAlways(max, states, events, k - 1);
      BehaviorInv(max, states, events, k - 1);
      assert states[k] == Next(states[k - 1], events[k - 1]);
      IdleOutsideStep(states[k - 1], events[k - 1]);
    }
  }

  /* ---- A worker that finds a job runs it ---- */

  /** Both locks are free and the pool is not stopping. */
  predicate Quiet(s: State) {
    s.m.poolLock == None && s.m.queueLock == None && !s.m.stop
  }

  predicate AtTop(s: State, i: nat) {
    i < |s.workers| && (s.workers[i].WLock? || s.workers[i].WWoken?)
  }

  /** At any moment of any run: if the locks are free, the pool is not stopping and a job is in
      the queue, a worker at the top of its loop, or woken, that moves by itself takes exactly the first
      job, runs it, gives its buffer back and is at the top again after some number of
      steps, whomever its signal wakes; and it can move so far. */
  lemma WorkerTakesNextJob(max: nat, bs: seq<State>, es: seq<Event>, k: nat, i: nat, j: Job) returns (n: nat)
    requires Behavior(max, bs, es) && k < |bs| && Quiet(bs[k]) && AtTop(bs[k], i) && bs[k].m.queue.front == Some(j)
    ensures j in bs[k].m.queue.next && i < max
    ensures exists states, events :: AloneRun(bs[k], Worker(i), states, events) && |events| == n
    ensures forall states: seq<State>, events: seq<Event> ::
              AloneRun(bs[k], Worker(i), states, events) && |events| == n ==>
              states[n].m == AfterJob(bs[k].m, i, j) && |states[n].workers| == max && states[n].workers[i] == WLock
  {
    var s := bs[k];
    BehaviorInv(max, bs, es, k);
    IdleOutsideAlways(max, bs, es, k);
    n := RunsFrom(s, i, j);
    hide Inv, AloneRun, WorkerWalk;
    var m' := AfterJob(s.m, i, j);
    var states, events := WalkCanBeFollowed(s, i, n, m', WLock);
    forall states: seq<State>, events: seq<Event> | AloneRun(s, Worker(i), states, events) && |events| == n
      ensures states[n].m == m' && |states[n].workers| == |s.workers| && states[n].workers[i] == WLock
    {
      WalkIsFollowed(s, i, states, events, m', WLock);
    }
    SameWorkers(max, bs, es, k);
  }

  lemma {:induction false} SameWorkers(max: nat, states: seq<State>, events: seq<Event>, k: nat)
    requires Behavior(max, states, events) && k < |states|
    ensures |states[k].workers| == max
    decreases k
  {
    if k > 0 {
      SameWorkers(max, states, events, k - 1);
      assert states[k] == Next(states[k - 1], events[k - 1]);
    }
  }

  lemma FrontIsNode(s: State, j: Job)
    requires Inv(s) && s.m.queue.front == Some(j)
    ensures j in s.m.queue.next
  {
    var c := s.m.enqueued[|s.m.taken|..];
    assert c != [] && c[0] == j;
  }

  lemma RunsFrom(s: State, i: nat, j: Job) returns (n: nat)
    requires Inv(s) && IdleOutside(s) && Quiet(s) && AtTop(s, i) && s.m.queue.front == Some(j)
    ensures j in s.m.queue.next && WorkerWalk(s.m, i, s.workers[i], n, AfterJob(s.m, i, j), WLock)
  {
    FrontIsNode(s, j);
    n := WorkerRunsNextJob(s.m, i, s.workers[i], j);
  }

  /* ---- Steps of one add ---- */

  /** `n` steps of the add of job `j` by itself. */
  ghost predicate AddWalk(m: Mem, max: nat, j: Job, pc: APc, n: nat, m': Mem, pc': APc)
    decreases n
  {
    if n == 0 then m' == m && pc' == pc
    else ACanMove(m, pc) && var (m1, pc1) := AdderStep(m, max, j, pc); AddWalk(m1, max, j, pc1, n - 1, m', pc')
  }

  lemma {:induction false} OneMoreAdd(m: Mem, max: nat, j: Job, pc: APc, n: nat, m1: Mem, pc1: APc)
    requires AddWalk(m, max, j, pc, n, m1, pc1) && ACanMove(m1, pc1)
    ensures AddWalk(m, max, j, pc, n + 1, AdderStep(m1, max, j, pc1).0, AdderStep(m1, max, j, pc1).1)
    decreases n
  {
    hide AdderStep;
    if n > 0 {
      OneMoreAdd(AdderStep(m, max, j, pc).0, max, j, AdderStep(m, max, j, pc).1, n - 1, m1, pc1);
    }
  }

  lemma NoAdds(m: Mem, max: nat, j: Job, pc: APc)
    ensures AddWalk(m, max, j, pc, 0, m, pc)
  {
  }

  /** The memory after the add: the job is the last of the list. */
  function Appended(m: Mem, j: Job): Mem {
    var q := m.queue;
    m.(enqueued := m.enqueued + [j],
       queue := match q.rear
                case None => Queue(Some(j), Some(j), q.next, q.count + 1)
                case Some(last) => Queue(q.front, Some(j), q.next[last := Some(j)], q.count + 1))
  }

  /** An add that does not look at a full pool links its job in and comes to its signal; one that
      does goes to sleep and changes nothing. */
  lemma AddLinks(m: Mem, max: nat, j: Job, pc: APc)
    requires m.poolLock == None && m.queueLock == None && (pc.ALock? || pc.AWoken?)
    ensures !LooksFull(m, max) ==> AddWalk(m, max, j, pc, 10, Appended(m, j), ASignalPool)
    ensures LooksFull(m, max) ==> AddWalk(m, max, j, pc, 3, m, AAsleep)
  {
    hide AddWalk;
    var me := Some(Adder(j));
    var m1 := m.(poolLock := me);
    assert m1.(poolLock := None) == m;
    NoAdds(m, max, j, pc);
    OneMoreAdd(m, max, j, pc, 0, m, pc);
    OneMoreAdd(m, max, j, pc, 1, m1, ATest);
    if LooksFull(m, max) {
      OneMoreAdd(m, max, j, pc, 2, m1, ASleep);
    } else {
      OneMoreAdd(m, max, j, pc, 2, m1, AUnlock);
      LinksAlone(m, max, j, pc);
    }
  }

  /** The memory with the job linked in, but neither `rear` nor `job_count` written. */
  function HalfLinked(m: Mem, j: Job): Mem {
    var q := m.queue;
    m.(queueLock := Some(Adder(j)), enqueued := m.enqueued + [j],
       queue := if q.rear == None then q.(front := Some(j)) else q.(next := q.next[q.rear.value := Some(j)]))
  }

  lemma ToHalfLinked(m: Mem, max: nat, j: Job, pc: APc)
    requires AddWalk(m, max, j, pc, 3, m, ALockQueue) && m.queueLock == None
    ensures AddWalk(m, max, j, pc, 6, HalfLinked(m, j), ASetRear)
  {
    hide AddWalk;
    var m2 := m.(queueLock := Some(Adder(j)));
    OneMoreAdd(m, max, j, pc, 3, m, ALockQueue);
    OneMoreAdd(m, max, j, pc, 4, m2, ATestRear);
    OneMoreAdd(m, max, j, pc, 5, m2, if m.queue.rear == None then ASetFront else ALinkNext);
  }

  lemma LinksAlone(m: Mem, max: nat, j: Job, pc: APc)
    requires AddWalk(m, max, j, pc, 3, m, ALockQueue) && m.queueLock == None
    ensures AddWalk(m, max, j, pc, 10, Appended(m, j), ASignalPool)
  {
    hide AddWalk;
    ToHalfLinked(m, max, j, pc);
    var m3 := HalfLinked(m, j);
    FromHalfLinked(m, m3, max, j, pc);
    assert m3.(queue := m3.queue.(rear := Some(j), count := m3.queue.count + 1), queueLock := None) == Appended(m, j);
  }

  lemma FromHalfLinked(m: Mem, m3: Mem, max: nat, j: Job, pc: APc)
    requires AddWalk(m, max, j, pc, 6, m3, ASetRear)
    ensures AddWalk(m, max, j, pc, 10,
              m3.(queue := m3.queue.(rear := Some(j), count := m3.queue.count + 1), queueLock := None), ASignalPool)
  {
    hide AddWalk;
    var m4 := m3.(queue := m3.queue.(rear := Some(j)));
    OneMoreAdd(m, max, j, pc, 6, m3, ASetRear);
    OneMoreAdd(m, max, j, pc, 7, m4, ACount);
    var m5 := m4.(queue := m4.queue.(count := m4.queue.count + 1));
    OneMoreAdd(m, max, j, pc, 8, m5, ASignalQueue);
    OneMoreAdd(m, max, j, pc, 9, m5, AUnlockQueue);
  }

  /* ---- The whole pool, one add moving ---- */

  lemma AddMove(s: State, j: Job, e: Event)
    requires Enabled(s, e) && e.Move? && e.t == Adder(j) && forall u :: !SleepsOnQueue(s, u)
    ensures j in s.adders && ACanMove(s.m, s.adders[j])
    ensures var (m', pc') := AdderStep(s.m, |s.workers|, j, s.adders[j]);
            && Next(s, e).m == m'
            && (s.adders[j] != ASignalPool ==> Next(s, e) == s.(m := m', adders := s.adders[j := pc']))
  {
    hide AdderStep;
  }

  /** Up to its signal an add by itself follows its walk and moves nobody else. */
  lemma {:induction false} AddIsFollowed(s: State, j: Job, states: seq<State>, events: seq<Event>, m': Mem, pc': APc)
    requires AloneRun(s, Adder(j), states, events) && j in s.adders && (forall u :: !SleepsOnQueue(s, u))
    requires AddWalk(s.m, |s.workers|, j, s.adders[j], |events|, m', pc') && pc' != ADone
    ensures states[|events|] == s.(m := m', adders := s.adders[j := pc'])
    decreases |events|
  {
    hide Enabled, Next, AdderStep;
    if events == [] {
      assert s.adders[j := pc'] == s.adders;
    } else {
      AloneRest(s, Adder(j), states, events);
      AddMove(s, j, events[0]);
      var s1 := Next(s, events[0]);
      NotSignalled(s.m, |s.workers|, j, s.adders[j], |events|, m', pc');
      assert forall u :: SleepsOnQueue(s1, u) <==> SleepsOnQueue(s, u);
      AddIsFollowed(s1, j, states[1..], events[1..], m', pc');
      assert states[1..][|events[1..]|] == states[|events|];
      assert s1.adders[j := pc'] == s.adders[j := pc'];
    }
  }

  /** A walk that does not end in the return has not come past the signal. */
  lemma NotSignalled(m: Mem, max: nat, j: Job, pc: APc, n: nat, m': Mem, pc': APc)
    requires AddWalk(m, max, j, pc, n, m', pc') && n > 0 && pc' != ADone
    ensures pc != ASignalPool
  {
  }

  predicate AtStart(s: State, j: Job) {
    j in s.adders && (s.adders[j].ALock? || s.adders[j].AWoken?)
  }

  /** A thread that sleeps on the pool's condition is the one that `wake` names, if there is any. */
  predicate WakesOne(s: State, wake: Option<Tid>, s': State) {
    match wake
    case None => s'.workers == s.workers
    case Some(u) => SleepsOnPool(s, u) && s'.workers == Wake(s, u).workers
  }

  /** An add by itself, at any moment of any run at which the locks are free and the pool does not
      look full: after eleven steps the job is the last of the list, nothing else has changed
      in memory, and if anyone slept on the pool's condition, one sleeper has been woken. */
  lemma AddWakesSleeper(max: nat, bs: seq<State>, es: seq<Event>, k: nat, j: Job, states: seq<State>,
                        events: seq<Event>)
    requires Behavior(max, bs, es) && k < |bs|
    requires bs[k].m.poolLock == None && bs[k].m.queueLock == None && AtStart(bs[k], j) && !LooksFull(bs[k].m, max)
    requires AloneRun(bs[k], Adder(j), states, events) && |events| == 11
    ensures var s, last := bs[k], states[11];
            && last.m == Appended(s.m, j) && j in last.adders && last.adders[j] == ADone
            && WakesOne(s, events[10].wake, last)
            && (events[10].wake == None ==> forall u :: !SleepsOnPool(s, u))
  {
    BehaviorInv(max, bs, es, k);
    SameWorkers(max, bs, es, k);
    InvFrontOk(bs[k]);
    NobodyOnQueue(bs[k]);
    hide Inv, FrontOk;
    AddFrom(bs[k], j, states, events);
  }

  lemma NobodyOnQueue(s: State)
    requires FrontOk(s)
    ensures forall u :: !SleepsOnQueue(s, u)
  {
    forall i | 0 <= i < |s.workers| ensures WOk(s.m, s.workers[i]) {}
  }

  lemma InvFrontOk(s: State)
    requires Inv(s)
    ensures FrontOk(s)
  {
  }

  lemma AddFrom(s: State, j: Job, states: seq<State>, events: seq<Event>)
    requires s.m.poolLock == None && s.m.queueLock == None && AtStart(s, j) && !LooksFull(s.m, |s.workers|)
    requires AloneRun(s, Adder(j), states, events) && |events| == 11 && forall u :: !SleepsOnQueue(s, u)
    ensures var last := states[11];
            && last.m == Appended(s.m, j) && j in last.adders && last.adders[j] == ADone
            && WakesOne(s, events[10].wake, last)
            && (events[10].wake == None ==> forall u :: !SleepsOnPool(s, u))
  {
    hide Enabled, Next, AddWalk;
    AddLinks(s.m, |s.workers|, j, s.adders[j]);
    AloneFront(s, Adder(j), states, events, 10);
    assert states[..11][|events[..10]|] == states[10];
    AddIsFollowed(s, j, states[..11], events[..10], Appended(s.m, j), ASignalPool);
    var s1 := states[10];
    assert s1 == s.(m := Appended(s.m, j), adders := s.adders[j := ASignalPool]);
    assert Enabled(s1, events[10]) && states[11] == Next(s1, events[10]);
    SignalMove(s, s1, j, events[10]);
  }

  lemma AloneFront(s: State, t: Tid, states: seq<State>, events: seq<Event>, n: nat)
    requires AloneRun(s, t, states, events) && n <= |events|
    ensures AloneRun(s, t, states[..n + 1], events[..n])
  {
    hide Enabled, Next;
  }

  lemma SignalMove(s: State, s1: State, j: Job, e: Event)
    requires j in s.adders && !s.adders[j].AAsleep? && s1 == s.(m := s1.m, adders := s.adders[j := ASignalPool])
    requires Enabled(s1, e) && e.Move? && e.t == Adder(j)
    ensures var last := Next(s1, e);
            && last.m == s1.m && j in last.adders && last.adders[j] == ADone && WakesOne(s, e.wake, last)
            && (e.wake == None ==> forall u :: !SleepsOnPool(s, u))
  {
    assert forall u :: SleepsOnPool(s1, u) <==> SleepsOnPool(s, u);
  }

  /* ---- An added job is run ---- */

  lemma AloneKeeps(s: State, t: Tid, states: seq<State>, events: seq<Event>, k: nat)
    requires AloneRun(s, t, states, events) && Inv(s) && IdleOutside(s) && k < |states|
    ensures Inv(states[k]) && IdleOutside(states[k])
    decreases k
  {
    hide Inv, IdleOutside, Enabled, Next;
    if k > 0 {
      AloneKeeps(s, t, states, events, k - 1);
      assert states[k] == Next(states[k - 1], events[k - 1]);
      StepInv(states[k - 1], events[k - 1]);
      IdleOutsideStep(states[k - 1], events[k - 1]);
    }
  }

  /** Worker `w`, moving by itself from `s`, runs job `j` next. */
  ghost predicate WillRun(s: State, w: nat, j: Job) {
    && w < |s.workers| && j in s.m.queue.next
    && exists n: nat :: WorkerWalk(s.m, w, s.workers[w], n, AfterJob(s.m, w, j), WLock)
  }

  /** A job added to an idle pool is run: when the queue is empty, a worker sleeps and no other add
      does, the add's signal wakes one sleeping worker, and that one takes and runs exactly this job. */
  lemma AddedJobIsRun(max: nat, bs: seq<State>, es: seq<Event>, k: nat, j: Job, states: seq<State>, events: seq<Event>)
    requires Behavior(max, bs, es) && k < |bs| && Quiet(bs[k]) && AtStart(bs[k], j) && !LooksFull(bs[k].m, max)
    requires bs[k].m.queue.front == None && (exists i :: SleepsOnPool(bs[k], Worker(i)))
    requires forall l :: !SleepsOnPool(bs[k], Adder(l))
    requires AloneRun(bs[k], Adder(j), states, events) && |events| == 11
    ensures exists w: nat :: SleepsOnPool(bs[k], Worker(w)) && WillRun(states[11], w, j)
  {
    var s, last := bs[k], states[11];
    hide Inv, IdleOutside, AloneRun, WorkerWalk, Behavior, AfterJob;
    AddWakesSleeper(max, bs, es, k, j, states, events);
    assert Inv(s) by { BehaviorInv(max, bs, es, k); }
    assert IdleOutside(s) by { IdleOutsideAlways(max, bs, es, k); }
    EmptyHasNoRear(s);
    AloneKeeps(s, Adder(j), states, events, 11);
    var i :| SleepsOnPool(s, Worker(i));
    WokenRuns(s, last, events[10].wake, j);
  }

  lemma WokenRuns(s: State, last: State, wake: Option<Tid>, j: Job)
    requires Quiet(s) && s.m.queue.front == None && s.m.queue.rear == None && (forall l :: !SleepsOnPool(s, Adder(l)))
    requires last.m == Appended(s.m, j) && wake.Some? && WakesOne(s, wake, last) && Inv(last) && IdleOutside(last)
    ensures exists w: nat :: SleepsOnPool(s, Worker(w)) && WillRun(last, w, j)
  {
    hide Inv, IdleOutside, WorkerWalk, AfterJob;
    var u := wake.value;
    assert u.Worker? && last.workers[u.i] == WWoken;
    var n := RunsFrom(last, u.i, j);
    assert WillRun(last, u.i, j);
  }

  lemma EmptyHasNoRear(s: State)
    requires Inv(s) && s.m.queueLock == None && s.m.queue.front == None
    ensures s.m.queue.rear == None
  {
  }

  /* ---- Waking ---- */

  /** With the flag standing for one thread at most, only a pool of one thread looks full, while the
      flag is set; and a pool without threads while it is not. */
  lemma LooksFullExactlyWhen(m: Mem, max: nat)
    ensures LooksFull(m, max) <==> (max == 1 && m.active) || (max == 0 && !m.active)
  {
  }

  /** A finished worker by itself clears the flag, wakes one sleeper if there is any, be it a worker or an
      add, and is at the top of its loop. */
  lemma FinishedWorkerWakesSleeper(s: State, i: nat, states: seq<State>, events: seq<Event>)
    requires s.m.poolLock == None && Slots.WellFormed(s.m.buffers) && i < |s.m.buffers.phases| == |s.workers|
    requires s.workers[i] == WRelock && AloneRun(s, Worker(i), states, events) && |events| == 4
    ensures var last := states[4];
            && |last.workers| == |s.workers| && last.workers[i] == WLock && last.m == s.m.(active := !s.m.active)
            && match events[2].wake
               case None => forall u :: !SleepsOnPool(s, u)
               case Some(u) => SleepsOnPool(s, u) && !SleepsOnPool(last, u)
  {
    hide Enabled, Next, AloneRun;
    FromHandling(s.m, i);
    WalkIsFollowed(s, i, states, events, s.m.(active := !s.m.active), WLock);
    FinishSteps(s, i, states, events);
  }

  lemma FinishSteps(s: State, i: nat, states: seq<State>, events: seq<Event>)
    requires i < |s.workers| && s.workers[i] == WRelock && AloneRun(s, Worker(i), states, events) && |events| == 4
    ensures match events[2].wake
            case None => forall u :: !SleepsOnPool(s, u)
            case Some(u) => SleepsOnPool(s, u) && !SleepsOnPool(states[4], u)
  {
    hide Enabled, Next;
    var s1, s2, s3, s4 := states[1], states[2], states[3], states[4];
    assert Enabled(s, events[0]) && s1 == Next(s, events[0]);
    assert Enabled(s1, events[1]) && s2 == Next(s1, events[1]);
    assert Enabled(s2, events[2]) && s3 == Next(s2, events[2]);
    assert Enabled(s3, events[3]) && s4 == Next(s3, events[3]);
    SilentStep(s, i, events[0]);
    SilentStep(s1, i, events[1]);
    SignalStep(s2, i, events[2]);
    SilentStep(s3, i, events[3]);
  }

  /** A step that signals nobody moves nobody else. */
  lemma SilentStep(s: State, i: nat, e: Event)
    requires Enabled(s, e) && e.Move? && e.t == Worker(i) && i < |s.workers|
    requires s.workers[i] == WRelock || s.workers[i] == WCountDown || s.workers[i] == WUnlock
    ensures var s' := Next(s, e);
            && |s'.workers| == |s.workers| && s'.workers[i] == WorkerStep(s.m, i, s.workers[i]).1
            && (s.workers[i] == WRelock ==> s'.workers[i] == WCountDown)
            && (s.workers[i] == WCountDown ==> s'.workers[i] == WSignal)
            && (s.workers[i] == WUnlock ==> s'.workers[i] == WLock)
            && forall u :: SleepsOnPool(s', u) <==> SleepsOnPool(s, u)
  {
    assert e.wake == None;
  }

  lemma SignalStep(s: State, i: nat, e: Event)
    requires Enabled(s, e) && e.Move? && e.t == Worker(i) && i < |s.workers| && s.workers[i] == WSignal
    ensures var s' := Next(s, e);
            && |s'.workers| == |s.workers| && s'.workers[i] == WUnlock
            && match e.wake
               case None => forall u :: !SleepsOnPool(s, u)
               case Some(u) => SleepsOnPool(s, u) && !SleepsOnPool(s', u)
  {
  }

  /** After the broadcast nobody at all sleeps on the pool's condition. */
  lemma BroadcastWakesAll(s: State)
    requires s.destroyer.TBroadcast?
    ensures forall u :: !SleepsOnPool(Moved(s, Destroyer), u)
  {
  }
}
