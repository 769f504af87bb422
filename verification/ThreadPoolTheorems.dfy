/** What holds over whole runs of the thread pool. */
module ThreadPoolTheorems {
  import opened Wrappers
  import Slots
  import opened ThreadPool
  import opened ThreadPoolInvariants

  /* ---- Buffers ---- */

  /** No request handler of any run ends its scan without a buffer, and no two handlers hold
      the same one. */
  lemma HandlersAlwaysGetABuffer(max: nat, states: seq<State>, events: seq<Event>, k: nat)
    requires Behavior(max, states, events) && k < |states|
    ensures var phases := states[k].m.buffers.phases;
            && Slots.Exhausted !in phases
            && forall i, l :: 0 <= i < l < |phases| && phases[i].Holding? ==> phases[i] != phases[l]
  {
    BehaviorInv(max, states, events, k);
    Slots.CrowdingMeansFound(states[k].m.buffers);
  }

  /* ---- Waiting ---- */

  predicate AwaitsPool(s: State, t: Tid) {
    match t
    case Worker(i) => i < |s.workers| && (s.workers[i].WLock? || s.workers[i].WWoken? || s.workers[i].WRelock?)
    case Adder(j) => j in s.adders && (s.adders[j].ALock? || s.adders[j].AWoken?)
    case Destroyer => s.destroyer.TLock?
  }

  predicate DAwaits(d: DPc) { d.DLock? || d.DWoken? }

  predicate AwaitsQueue(s: State, t: Tid) {
    match t
    case Worker(i) => i < |s.workers| && s.workers[i].WDequeue? && DAwaits(s.workers[i].d)
    case Adder(j) => j in s.adders && s.adders[j].ALockQueue?
    case Destroyer => s.destroyer.TDequeue? && DAwaits(s.destroyer.d)
  }

  /** Thread `t` waits for a lock that thread `u` owns. */
  predicate WaitsFor(s: State, t: Tid, u: Tid) {
    || (AwaitsPool(s, t) && s.m.poolLock == Some(u))
    || (AwaitsQueue(s, t) && s.m.queueLock == Some(u))
  }

  /** The threads inside job_dequeue are not where `front` is NULL. */
  ghost predicate DequeuesFind(s: State) {
    && (forall t :: !SleepsOnQueue(s, t))
    && (forall i :: 0 <= i < |s.workers| && s.workers[i].WDequeue? ==>
        !s.workers[i].d.DSleep? && !s.workers[i].d.DFault?)
    && (s.destroyer.TDequeue? ==> !s.destroyer.d.DSleep? && !s.destroyer.d.DFault?)
    && (forall j :: j in s.adders ==> s.adders[j] != AFault)
  }

  lemma InvDequeuesFind(s: State)
    requires FrontOk(s) && NodesOk(s)
    ensures DequeuesFind(s)
  {
    forall i | 0 <= i < |s.workers| ensures WOk(s.m, s.workers[i]) {}
  }

  /** In job_dequeue a thread always finds a job, although `front` was read without the queue
      lock: nobody ever sleeps, or is about to sleep, on `queue->cond`, and no null node
      is dereferenced. */
  lemma DequeueNeverWaits(max: nat, states: seq<State>, events: seq<Event>, k: nat)
    requires Behavior(max, states, events) && k < |states|
    ensures DequeuesFind(states[k])
  {
    BehaviorInv(max, states, events, k);
    InvDequeuesFind(states[k]);
  }

  lemma {:induction false} WorkersConstant(max: nat, states: seq<State>, events: seq<Event>, k: nat)
    requires Behavior(max, states, events) && k < |states|
    ensures |states[k].workers| == max
    decreases k
  {
    if k > 0 {
      WorkersConstant(max, states, events, k - 1);
      assert states[k] == Next(states[k - 1], events[k - 1]);
    }
  }

  /** The owner of the queue lock waits for no lock. */
  lemma QueueOwnerWaitsForNothing(s: State, u: Tid)
    requires Inv(s) && s.m.queueLock == Some(u)
    ensures !AwaitsPool(s, u) && !AwaitsQueue(s, u)
  {
    assert HoldsQueue(s, u) <==> s.m.queueLock == Some(u);
  }

  lemma PoolOwnerAwaitsQueueOnly(s: State, u: Tid)
    requires Inv(s) && s.m.poolLock == Some(u)
    ensures !AwaitsPool(s, u)
  {
    assert HoldsPool(s, u) <==> s.m.poolLock == Some(u);
  }

  /** Each thread of the cycle waits for a lock that the next one owns. */
  predicate WaitCycle(s: State, cycle: seq<Tid>) {
    cycle != [] && forall i :: 0 <= i < |cycle| ==> WaitsFor(s, cycle[i], cycle[After(i, |cycle|)])
  }

  function After(i: nat, n: nat): (k: nat)
    requires i < n
    ensures k < n
  {
    if i + 1 < n then i + 1 else 0
  }

  /** No cycle of threads waiting for each other's locks is reachable. */
  lemma NoWaitCycle(max: nat, states: seq<State>, events: seq<Event>, k: nat, cycle: seq<Tid>)
    requires Behavior(max, states, events) && k < |states|
    ensures !WaitCycle(states[k], cycle)
  {
    var s, n := states[k], |cycle|;
    BehaviorInv(max, states, events, k);
    if WaitCycle(s, cycle) {
      var b := After(0, n);
      var c := After(b, n);
      assert WaitsFor(s, cycle[0], cycle[b]) && WaitsFor(s, cycle[b], cycle[c])
          && WaitsFor(s, cycle[c], cycle[After(c, n)]);
      if s.m.queueLock == Some(cycle[b]) {
        QueueOwnerWaitsForNothing(s, cycle[b]);
      } else {
        PoolOwnerAwaitsQueueOnly(s, cycle[b]);
        QueueOwnerWaitsForNothing(s, cycle[c]);
      }
      assert false;
    }
  }

  /* ---- Jobs ---- */

  /** Follow `next` pointers: the nodes visited in `steps` hops, and where that ends. */
  function Follow(next: map<Job, Option<Job>>, at: Option<Job>, steps: nat): (seq<Job>, Option<Job>)
    decreases steps
  {
    if steps == 0 then ([], at)
    else
      match at
      case None => ([], None)
      case Some(j) =>
        var (rest, end) := Follow(next, if j in next then next[j] else None, steps - 1);
        ([j] + rest, end)
  }

  lemma {:induction false} FollowChain(next: map<Job, Option<Job>>, c: seq<Job>)
    requires Chained(next, c)
    ensures Follow(next, First(c), |c|) == (c, None)
    decreases |c|
  {
    if c != [] {
      ChainedTail(next, c);
      FollowChain(next, c[1..]);
      assert c[0] in next;
      assert [c[0]] + c[1..] == c;
    }
  }

  /** The nodes reached from `front` in `n` hops, when that reaches the end, are `list`. */
  ghost predicate Reaches(q: Queue, n: nat, list: seq<Job>) {
    Follow(q.next, q.front, n) == (list, None)
  }

  /** The jobs ever linked in, in order, are the jobs taken out, in order, followed by the
      linked list. */
  ghost predicate Conserved(m: Mem) {
    exists n: nat, list :: Reaches(m.queue, n, list) && m.enqueued == m.taken + list
  }

  /** Walking `job_count` nodes from `front` visits the whole list and ends at `rear`. */
  ghost predicate FieldsAgree(m: Mem) {
    && m.queue.count >= 0
    && var list := Follow(m.queue.next, m.queue.front, m.queue.count).0;
    && Reaches(m.queue, m.queue.count, list)
    && m.enqueued == m.taken + list
    && m.queue.rear == Last(list)
  }

  lemma ListConserved(m: Mem, line: Line)
    requires ListOk(m, line)
    ensures Conserved(m) && (line == Steady ==> FieldsAgree(m))
  {
    hide Chained, Distinct, Follow;
    var c := m.enqueued[|m.taken|..];
    FollowChain(m.queue.next, c);
    assert m.enqueued == m.taken + c;
    assert Reaches(m.queue, |c|, c);
  }

  /** Conservation and first-in-first-out at every moment; and whenever the queue lock is free,
      `rear` is the last node reachable from `front` and `job_count` the number of nodes. */
  lemma QueueIsFifo(max: nat, states: seq<State>, events: seq<Event>, k: nat)
    requires Behavior(max, states, events) && k < |states|
    ensures Conserved(states[k].m)
    ensures states[k].m.queueLock == None ==> FieldsAgree(states[k].m)
  {
    BehaviorInv(max, states, events, k);
    ListConserved(states[k].m, LineOf(states[k]));
  }

  /** A job is run at most once and never both run and freed unrun; a job taken from the
      queue and not yet run or freed is in the hands of exactly one thread. */
  lemma RunAtMostOnce(max: nat, states: seq<State>, events: seq<Event>, k: nat)
    requires Behavior(max, states, events) && k < |states|
    ensures var s := states[k];
            && (forall a, b :: 0 <= a < b < |s.m.runs| ==> s.m.runs[a].job != s.m.runs[b].job)
            && (forall a :: 0 <= a < |s.m.runs| ==>
                  s.m.runs[a].worker < max && s.m.runs[a].job in s.m.taken && s.m.runs[a].job !in s.m.discarded)
            && (forall j :: j in s.m.taken && !WasRun(s.m, j) && j !in s.m.discarded ==>
                  exists t :: CarriedBy(s, t) == Some(j) && forall u :: CarriedBy(s, u) == Some(j) ==> u == t)
  {
    BehaviorInv(max, states, events, k);
    WorkersConstant(max, states, events, k);
    var s := states[k];
    PlacedFromOk(s);
    forall j | j in s.m.taken && !WasRun(s.m, j) && j !in s.m.discarded
      ensures exists t :: CarriedBy(s, t) == Some(j) && forall u :: CarriedBy(s, u) == Some(j) ==> u == t
    {
      var t :| CarriedBy(s, t) == Some(j);
      assert forall u :: CarriedBy(s, u) == Some(j) ==> u == t;
    }
  }

  /* ---- Shutdown ---- */

  /** Once `stop` is set no worker takes another job: only the final drain does. */
  lemma NoJobTakenAfterStop(max: nat, states: seq<State>, events: seq<Event>, k: nat)
    requires Behavior(max, states, events) && k < |events| && states[k].m.stop
    ensures states[k + 1].m.stop
    ensures states[k + 1].m.taken != states[k].m.taken ==> events[k] == Move(Destroyer, None)
  {
    BehaviorInv(max, states, events, k);
    assert states[k + 1] == Next(states[k], events[k]);
    StoppedStep(states[k], events[k]);
  }

  lemma StoppedWorker(m: Mem, i: nat, pc: WPc)
    requires WCanMove(m, pc) && Slots.WellFormed(m.buffers) && i < |m.buffers.phases| && m.stop && !Committed(pc)
    ensures var m' := WorkerStep(m, i, pc).0; m'.stop && m'.taken == m.taken
  {
  }

  lemma StoppedMove(s: State, t: Tid)
    requires CanMove(s, t) && s.m.stop
    requires t.Worker? && t.i < |s.workers| ==> !Committed(s.workers[t.i])
    ensures Moved(s, t).m.stop
    ensures !t.Destroyer? ==> Moved(s, t).m.taken == s.m.taken
  {
    hide WorkerStep;
    if t.Worker? {
      StoppedWorker(s.m, t.i, s.workers[t.i]);
    } else if t.Destroyer? && s.destroyer.TDequeue? {
      DequeueLocks(s.m, Destroyer, s.destroyer.d);
    }
  }

  lemma StoppedStep(s: State, e: Event)
    requires StopOk(s) && Enabled(s, e) && s.m.stop
    ensures Next(s, e).m.stop
    ensures Next(s, e).m.taken != s.m.taken ==> e == Move(Destroyer, None)
  {
    hide Moved;
    if e.Move? {
      var s0 := if e.wake.Some? then Wake(s, e.wake.value) else s;
      assert CanMove(s0, e.t) && s0.m == s.m;
      StoppedMove(s0, e.t);
    }
  }

  /** The destroyer has sent its broadcast. */
  predicate Winding(s: State) {
    !s.destroyer.TIdle? && !s.destroyer.TLock? && !s.destroyer.TStop? && !s.destroyer.TBroadcast?
  }

  /** After the broadcast no worker is, or becomes, asleep. */
  lemma NobodySleepsAfterBroadcast(max: nat, states: seq<State>, events: seq<Event>, k: nat, i: nat)
    requires Behavior(max, states, events) && k < |states| && Winding(states[k])
    ensures !SleepsOnPool(states[k], Worker(i)) && !SleepsOnQueue(states[k], Worker(i))
    ensures i < |states[k].workers| ==> states[k].workers[i] != WSleep
  {
    BehaviorInv(max, states, events, k);
    assert i < |states[k].workers| ==> WOk(states[k].m, states[k].workers[i]) && !Committed(states[k].workers[i]);
  }

  /** No `threadpool_add_job` call is under way once `threadpool_destroy` has begun. */
  ghost predicate Orderly(s: State) {
    s.destroyer.TIdle? || forall j :: j in s.adders ==> s.adders[j].ADone?
  }

  predicate AllWorkersDone(s: State) {
    forall i :: 0 <= i < |s.workers| ==> s.workers[i].WDone?
  }

  lemma DrainedStep(s: State, e: Event)
    requires Enabled(s, e) && Orderly(s) && Orderly(Next(s, e))
    requires s.destroyer.TDone? ==> s.m.queue.front == None && AllWorkersDone(s)
    ensures Next(s, e).destroyer.TDone? ==> Next(s, e).m.queue.front == None
  {
    var s' := Next(s, e);
    if e.Call? {
      assert e.job in s'.adders;
    }
  }

  lemma DoneMeansAllDone(s: State)
    requires FrontOk(s) && s.destroyer.TDone?
    ensures AllWorkersDone(s)
  {
  }

  /** A run in which every state is orderly. */
  ghost predicate OrderlyRun(max: nat, states: seq<State>, events: seq<Event>) {
    Behavior(max, states, events) && forall n :: 0 <= n < |states| ==> Orderly(states[n])
  }

  lemma OrderlyStep(max: nat, states: seq<State>, events: seq<Event>, k: nat)
    requires OrderlyRun(max, states, events) && k < |events|
    ensures Inv(states[k]) && Orderly(states[k])
    ensures Enabled(states[k], events[k]) && states[k + 1] == Next(states[k], events[k]) && Orderly(states[k + 1])
  {
    BehaviorInv(max, states, events, k);
  }

  lemma {:induction false} Drained(max: nat, states: seq<State>, events: seq<Event>, k: nat)
    requires OrderlyRun(max, states, events) && k < |states|
    ensures states[k].destroyer.TDone? ==> states[k].m.queue.front == None
    decreases k
  {
    hide Inv, Enabled, Next, Orderly, AllWorkersDone, FrontOk;
    if k > 0 {
      Drained(max, states, events, k - 1);
      OrderlyStep(max, states, events, k - 1);
      var s := states[k - 1];
      if s.destroyer.TDone? {
        assert FrontOk(s) by { InvFront(s); }
        DoneMeansAllDone(s);
      }
      DrainedStep(s, events[k - 1]);
    }
  }

  lemma InvFront(s: State)
    requires Inv(s)
    ensures FrontOk(s)
  {
  }

  /** When threadpool_destroy returns, provided no add ran beside it, every worker has exited
      and every job ever added was either run, once, or freed unrun, once. */
  lemma ShutdownAccountsForEveryJob(max: nat, states: seq<State>, events: seq<Event>, k: nat)
    requires OrderlyRun(max, states, events) && k < |states| && states[k].destroyer.TDone?
    ensures var s := states[k];
            && |s.workers| == max && (forall i :: 0 <= i < max ==> s.workers[i] == WDone)
            && s.m.taken == s.m.enqueued
            && (forall j :: j in s.adders ==> j in s.m.enqueued)
            && (forall j :: j in s.m.enqueued ==> (WasRun(s.m, j) <==> j !in s.m.discarded))
            && (forall a, b :: 0 <= a < b < |s.m.runs| ==> s.m.runs[a].job != s.m.runs[b].job)
            && Distinct(s.m.discarded)
  {
    BehaviorInv(max, states, events, k);
    WorkersConstant(max, states, events, k);
    Drained(max, states, events, k);
    var s := states[k];
    assert s.m.enqueued[|s.m.taken|..] == [];
    assert Orderly(s);
    forall j | j in s.m.taken
      ensures WasRun(s.m, j) <==> j !in s.m.discarded
    {
      assert !IsCarried(s, j);
      if WasRun(s.m, j) {
        var a :| 0 <= a < |s.m.runs| && s.m.runs[a].job == j;
        assert s.m.runs[a].job !in s.m.discarded;
      }
    }
  }

  /* ---- Shutdown completes ---- */

  /** An upper bound on the steps a worker can still make once `stop` is set. */
  function WorkerRank(pc: WPc, phase: Slots.Phase, slots: nat): int {
    match pc
    case WCall(_) => slots + 15
    case WHandling(_) =>
      (match phase
       case Idle => slots + 14
       case Scanning(i) => slots - i + 13
       case Holding(_) => 11
       case Exhausted => 11)
    case WRelock => 9
    case WCountDown => 8
    case WSignal => 7
    case WUnlock => 6
    case WLock => 5
    case WWoken => 5
    case WReadFront => 4
    case WReadStop => 3
    case WCheckStop => 2
    case WLeave => 1
    case _ => 0
  }

  /** The same for the destroyer, `left` jobs being in the queue. */
  function DestroyerRank(pc: TPc, workers: nat, left: int): int {
    match pc
    case TUnlock => 10 * left + workers + 3
    case TJoin(k) => 10 * left + workers - k + 2
    case TDrain => 10 * left + 1
    case TDequeue(d) =>
      (match d
       case DLock => 10 * left
       case DTest => 10 * left - 1
       case DTake => 10 * left - 2
       case DAdvance(_) => 10 * left - 3
       case DTestEmpty(_) => 10 * left + 6
       case DClearRear(_) => 10 * left + 5
       case DCount(_) => 10 * left + 4
       case DUnlock(_) => 10 * left + 3
       case _ => 0)
    case TDiscard(_) => 10 * left + 2
    case _ => 0
  }

  function WorkerRanks(workers: seq<WPc>, phases: seq<Slots.Phase>, slots: nat): int
    requires |workers| == |phases|
  {
    if workers == [] then 0
    else WorkerRank(workers[0], phases[0], slots) + WorkerRanks(workers[1..], phases[1..], slots)
  }

  function Rank(s: State): int
    requires |s.workers| == |s.m.buffers.phases|
  {
    WorkerRanks(s.workers, s.m.buffers.phases, |s.m.buffers.used|)
    + DestroyerRank(s.destroyer, |s.workers|, |s.m.enqueued| - |s.m.taken|)
  }

  lemma {:induction false} RanksUpdate(workers: seq<WPc>, phases: seq<Slots.Phase>, slots: nat,
                                       i: nat, pc: WPc, phase: Slots.Phase)
    requires |workers| == |phases| && i < |workers|
    ensures WorkerRanks(workers[i := pc], phases[i := phase], slots)
         == WorkerRanks(workers, phases, slots)
            - WorkerRank(workers[i], phases[i], slots) + WorkerRank(pc, phase, slots)
  {
    if i == 0 {
      assert workers[i := pc][1..] == workers[1..] && phases[i := phase][1..] == phases[1..];
    } else {
      assert workers[i := pc][1..] == workers[1..][i - 1 := pc]
          && phases[i := phase][1..] == phases[1..][i - 1 := phase];
      RanksUpdate(workers[1..], phases[1..], slots, i - 1, pc, phase);
    }
  }

  lemma {:induction false} RanksNonNegative(workers: seq<WPc>, phases: seq<Slots.Phase>, slots: nat)
    requires |workers| == |phases|
    requires forall i :: 0 <= i < |phases| && phases[i].Scanning? ==> phases[i].at < slots
    ensures WorkerRanks(workers, phases, slots) >= 0
  {
    if workers != [] { RanksNonNegative(workers[1..], phases[1..], slots); }
  }

  lemma RankNonNegative(s: State)
    requires Locks(s) && ListOk(s.m, LineOf(s)) && FrontOk(s)
    ensures Rank(s) >= 0
  {
    RanksNonNegative(s.workers, s.m.buffers.phases, |s.m.buffers.used|);
    assert s.m.queue.front.Some? ==> |s.m.enqueued| > |s.m.taken|;
  }

  lemma WorkerRankFalls(m: Mem, i: nat, pc: WPc)
    requires WCanMove(m, pc) && Slots.WellFormed(m.buffers) && i < |m.buffers.phases| && m.stop && !Committed(pc)
    ensures var (m', pc') := WorkerStep(m, i, pc);
            && WorkerRank(pc', m'.buffers.phases[i], |m.buffers.used|)
               < WorkerRank(pc, m.buffers.phases[i], |m.buffers.used|)
            && m'.buffers.phases == m.buffers.phases[i := m'.buffers.phases[i]] && |m'.buffers.used| == |m.buffers.used|
            && m'.taken == m.taken && m'.enqueued == m.enqueued
  {
    assert m.buffers.phases == m.buffers.phases[i := m.buffers.phases[i]];
  }

  lemma DrainRankFalls(m: Mem, d: DPc, workers: nat)
    requires ListOk(m, DLine(d)) && DCanMove(m, d) && DOk(m.queue.front, d)
    ensures var (m', d') := DequeueStep(m, Destroyer, d);
            var pc := if d'.DReturn? then TDiscard(d'.job) else TDequeue(d');
            DestroyerRank(pc, workers, |m'.enqueued| - |m'.taken|)
            < DestroyerRank(TDequeue(d), workers, |m.enqueued| - |m.taken|)
  {
    DequeueLocks(m, Destroyer, d);
    DequeueJobs(m, Destroyer, d);
  }

  lemma FrontMeansLinked(m: Mem, line: Line)
    requires ListOk(m, line)
    ensures |m.enqueued| >= |m.taken| && (m.queue.front.Some? <==> |m.enqueued| > |m.taken|)
  {
  }

  /** Nothing but the destroyer's part of the rank has changed. */
  lemma RankBy(s: State, s': State)
    requires |s.workers| == |s.m.buffers.phases| && s'.workers == s.workers && s'.m.buffers == s.m.buffers
    requires DestroyerRank(s'.destroyer, |s.workers|, |s'.m.enqueued| - |s'.m.taken|)
             < DestroyerRank(s.destroyer, |s.workers|, |s.m.enqueued| - |s.m.taken|)
    ensures Rank(s') < Rank(s)
  {
    hide DestroyerRank, WorkerRanks;
  }

  lemma DestroyerDrains(s: State)
    requires |s.workers| == |s.m.buffers.phases| && ListOk(s.m, LineOf(s)) && CanMove(s, Destroyer)
    requires s.destroyer.TDequeue? && DOk(s.m.queue.front, s.destroyer.d) && LineOf(s) == DLine(s.destroyer.d)
    ensures Rank(Moved(s, Destroyer)) < Rank(s)
  {
    hide ListOk, LineOf, DequeueStep, Rank, DestroyerRank;
    DequeueLocks(s.m, Destroyer, s.destroyer.d);
    DrainRankFalls(s.m, s.destroyer.d, |s.workers|);
    RankBy(s, Moved(s, Destroyer));
  }

  lemma DestroyerRankFalls(s: State)
    requires Locks(s) && ListOk(s.m, LineOf(s)) && FrontOk(s) && Winding(s) && CanMove(s, Destroyer)
    ensures Rank(Moved(s, Destroyer)) < Rank(s)
  {
    hide ListOk, LineOf;
    if s.destroyer.TDequeue? {
      DestroyerLine(s);
      DestroyerDrains(s);
    } else {
      FrontMeansLinked(s.m, LineOf(s));
    }
  }

  lemma NobodySleeps(s: State, u: Tid)
    requires StopOk(s) && FrontOk(s) && Winding(s) && Orderly(s)
    ensures !SleepsOnPool(s, u) && !SleepsOnQueue(s, u)
  {
    if u.Worker? && u.i < |s.workers| {
      assert !Committed(s.workers[u.i]) && !s.workers[u.i].WAsleep?;
    }
  }

  lemma WorkerStepFalls(s: State, i: nat)
    requires Locks(s) && StopOk(s) && Winding(s) && CanMove(s, Worker(i))
    ensures var s' := Moved(s, Worker(i)); |s'.workers| == |s'.m.buffers.phases| && Rank(s') < Rank(s)
  {
    var s' := Moved(s, Worker(i));
    assert !Committed(s.workers[i]);
    WorkerRankFalls(s.m, i, s.workers[i]);
    RanksUpdate(s.workers, s.m.buffers.phases, |s.m.buffers.used|, i, s'.workers[i], s'.m.buffers.phases[i]);
  }

  lemma CallIsDisorderly(s: State, j: Job)
    requires Winding(s) && Enabled(s, Call(j))
    ensures !Orderly(Next(s, Call(j)))
  {
    assert Next(s, Call(j)).adders[j] == ALock;
  }

  /** In an orderly shutdown only workers and the destroyer move. */
  lemma ShutdownMoves(s: State, e: Event)
    requires StopOk(s) && FrontOk(s) && Winding(s) && Orderly(s) && Enabled(s, e) && Orderly(Next(s, e))
    ensures e.Move? && e.wake == None && !e.t.Adder?
  {
    if e.Spurious? {
      NobodySleeps(s, e.sleeper);
    } else if e.Move? && e.wake.Some? {
      NobodySleeps(s, e.wake.value);
    } else if e.Call? {
      CallIsDisorderly(s, e.job);
    }
  }

  /** During an orderly shutdown every step of the whole system brings its end closer. */
  lemma {:induction false} ShutdownStepFalls(s: State, e: Event)
    requires Inv(s) && Winding(s) && Orderly(s) && Enabled(s, e) && Orderly(Next(s, e))
    ensures Winding(Next(s, e)) && |Next(s, e).workers| == |Next(s, e).m.buffers.phases|
    ensures Rank(Next(s, e)) < Rank(s)
  {
    ShutdownMoves(s, e);
    if e.t.Worker? { WorkerStepFalls(s, e.t.i); } else { LocksDestroyer(s); DestroyerRankFalls(s); }
  }

  /** During an orderly shutdown that is not finished, some thread can move. */
  lemma ShutdownCanStep(s: State) returns (t: Tid)
    requires Inv(s) && Winding(s) && Orderly(s) && !s.destroyer.TDone?
    ensures Enabled(s, Move(t, None)) && Orderly(Next(s, Move(t, None)))
  {
    hide ListOk, NodesOk, JobsOk;
    forall i | 0 <= i < |s.workers|
      ensures !Committed(s.workers[i]) && !s.workers[i].WAsleep?
    {
    }
    assert forall u :: !SleepsOnPool(s, u);
    if s.m.poolLock.Some? {
      t := s.m.poolLock.value;
      assert HoldsPool(s, t) <==> s.m.poolLock == Some(t);
    } else if s.destroyer.TJoin? && s.destroyer.joined < |s.workers| && !s.workers[s.destroyer.joined].WDone? {
      t := Worker(s.destroyer.joined);
    } else {
      t := Destroyer;
      if s.m.queueLock.Some? {
        var u := s.m.queueLock.value;
        assert HoldsQueue(s, u) <==> s.m.queueLock == Some(u);
      }
    }
  }

  /** Shutdown completes under every scheduler: after the broadcast an orderly run can make
      only boundedly many more steps, and it can stop only when threadpool_destroy has returned. */
  lemma {:induction false} ShutdownCompletes(max: nat, states: seq<State>, events: seq<Event>, k: nat)
    requires OrderlyRun(max, states, events) && k < |states| && Winding(states[k])
    ensures |states[k].workers| == |states[k].m.buffers.phases| && |events| - k <= Rank(states[k])
    ensures var last := states[|states| - 1];
            last.destroyer.TDone? || exists t :: Enabled(last, Move(t, None)) && Orderly(Next(last, Move(t, None)))
    decreases |states| - k
  {
    if k == |events| {
      BehaviorInv(max, states, events, k);
      RankNonNegative(states[k]);
      assert Orderly(states[k]);
      if !states[k].destroyer.TDone? {
        var t := ShutdownCanStep(states[k]);
      }
    } else {
      OrderlyStep(max, states, events, k);
      ShutdownStepFalls(states[k], events[k]);
      ShutdownCompletes(max, states, events, k + 1);
    }
  }
}
