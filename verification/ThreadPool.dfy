/** The thread pool as a small-step transition system.

    Worker threads, any number of concurrent `threadpool_add_job` calls and one
    `threadpool_destroy` call share two locks, two condition variables and a linked
    queue of jobs.  A step is one lock, unlock, wait, wake-up, shared read, shared write
    or compare-and-swap.  Jobs are HTTP requests, so running one means claiming and
    releasing a buffer slot, one step of `Slots` at a time. */
module ThreadPool {
  import opened Wrappers
  import Slots

  /** A job node, named by the call that allocated it. */
  type Job = nat

  datatype Tid = Worker(i: nat) | Adder(job: Job) | Destroyer

  /* ---- Program counters: what a thread does next ---- */

  /** job_dequeue; DReturn is its caller's resumption, DFault a null pointer dereference. */
  datatype DPc =
    | DLock | DTest | DSleep | DAsleep | DWoken | DTake | DAdvance(job: Job)
    | DTestEmpty(job: Job) | DClearRear(job: Job) | DCount(job: Job) | DUnlock(job: Job)
    | DReturn(job: Job) | DFault

  /** worker_thread */
  datatype WPc =
    | WLock | WReadFront | WReadStop | WSleep | WAsleep | WWoken | WCheckStop | WLeave | WDone
    | WDequeue(d: DPc) | WCountUp(job: Job) | WRelease(job: Job) | WCall(job: Job) | WHandling(job: Job)
    | WRelock | WCountDown | WSignal | WUnlock

  /** threadpool_add_job, with job_enqueue inside */
  datatype APc =
    | ALock | ATest | ASleep | AAsleep | AWoken | AUnlock
    | ALockQueue | ATestRear | ASetFront | ALinkNext | ASetRear | ACount | ASignalQueue | AUnlockQueue
    | ASignalPool | ADone | AFault

  /** threadpool_destroy */
  datatype TPc =
    | TIdle | TLock | TStop | TBroadcast | TUnlock | TJoin(joined: nat) | TDrain | TDequeue(d: DPc)
    | TDiscard(job: Job) | TDone

  /* ---- State ---- */

  /** `struct job_queue`; `next` holds the `next` pointers of the allocated nodes. */
  datatype Queue = Queue(front: Option<Job>, rear: Option<Job>, next: map<Job, Option<Job>>, count: int)

  datatype Run = Run(worker: nat, job: Job)

  /** What the threads share, and what happened so far: jobs linked into the queue, jobs
      unlinked from it, calls of `job->function`, and jobs freed unrun. */
  datatype Mem = Mem(
    poolLock: Option<Tid>,
    queueLock: Option<Tid>,
    stop: bool,
    active: bool,
    queue: Queue,
    buffers: Slots.State,
    enqueued: seq<Job>,
    taken: seq<Job>,
    runs: seq<Run>,
    discarded: seq<Job>)

  datatype State = State(m: Mem, workers: seq<WPc>, adders: map<Job, APc>, destroyer: TPc)

  function Init(max: nat): State {
    State(Mem(None, None, false, false, Queue(None, None, map[], 0), Slots.Init(max, max), [], [], [], []),
          seq(max, _ => WLock), map[], TIdle)
  }

  /** One step: a thread moves (naming the thread its signal wakes, if any), a sleeper wakes
      up spuriously, or `threadpool_add_job` is called. */
  datatype Event = Move(t: Tid, wake: Option<Tid>) | Spurious(sleeper: Tid) | Call(job: Job)

  /* ---- Sleeping and waking ---- */

  predicate SleepsOnPool(s: State, t: Tid) {
    match t
    case Worker(i) => i < |s.workers| && s.workers[i] == WAsleep
    case Adder(j) => j in s.adders && s.adders[j] == AAsleep
    case Destroyer => false
  }

  predicate SleepsOnQueue(s: State, t: Tid) {
    match t
    case Worker(i) => i < |s.workers| && s.workers[i] == WDequeue(DAsleep)
    case Adder(_) => false
    case Destroyer => s.destroyer == TDequeue(DAsleep)
  }

  /** A sleeper leaves the condition variable; it still has to take the lock again. */
  function Wake(s: State, t: Tid): State
    requires SleepsOnPool(s, t) || SleepsOnQueue(s, t)
  {
    match t
    case Worker(i) => s.(workers := s.workers[i := if s.workers[i] == WAsleep then WWoken else WDequeue(DWoken)])
    case Adder(j) => s.(adders := s.adders[j := AWoken])
    case Destroyer => s.(destroyer := TDequeue(DWoken))
  }

  function WakeAllOnPool(s: State): State {
    s.(workers := seq(|s.workers|, i requires 0 <= i < |s.workers| =>
                        if s.workers[i] == WAsleep then WWoken else s.workers[i]),
       adders := map j | j in s.adders :: if s.adders[j] == AAsleep then AWoken else s.adders[j])
  }

  /* ---- Which threads can move ---- */

  predicate DCanMove(m: Mem, d: DPc) {
    match d
    case DLock => m.queueLock == None
    case DWoken => m.queueLock == None
    case DAsleep => false
    case DReturn(_) => false
    case DFault => false
    case _ => true
  }

  predicate WCanMove(m: Mem, pc: WPc) {
    match pc
    case WLock => m.poolLock == None
    case WWoken => m.poolLock == None
    case WRelock => m.poolLock == None
    case WAsleep => false
    case WDone => false
    case WDequeue(d) => DCanMove(m, d)
    case _ => true
  }

  predicate ACanMove(m: Mem, pc: APc) {
    match pc
    case ALock => m.poolLock == None
    case AWoken => m.poolLock == None
    case ALockQueue => m.queueLock == None
    case AAsleep => false
    case ADone => false
    case AFault => false
    case _ => true
  }

  predicate TCanMove(s: State) {
    match s.destroyer
    case TLock => s.m.poolLock == None
    case TJoin(k) => k < |s.workers| ==> s.workers[k] == WDone
    case TDequeue(d) => DCanMove(s.m, d)
    case TDone => false
    case _ => true
  }

  predicate CanMove(s: State, t: Tid) {
    match t
    case Worker(i) =>
      && i < |s.workers| && WCanMove(s.m, s.workers[i])
      && Slots.WellFormed(s.m.buffers) && i < |s.m.buffers.phases|
    case Adder(j) => j in s.adders && ACanMove(s.m, s.adders[j])
    case Destroyer => TCanMove(s)
  }

  /** The step of a thread signals `pool->cond`, or `queue->cond`. */
  predicate SignalsPool(s: State, t: Tid) {
    || (t.Worker? && t.i < |s.workers| && s.workers[t.i] == WSignal)
    || (t.Adder? && t.job in s.adders && s.adders[t.job] == ASignalPool)
  }

  predicate SignalsQueue(s: State, t: Tid) {
    t.Adder? && t.job in s.adders && s.adders[t.job] == ASignalQueue
  }

  ghost predicate Enabled(s: State, e: Event) {
    match e
    case Move(t, None) =>
      && CanMove(s, t)
      && (SignalsPool(s, t) ==> forall u :: !SleepsOnPool(s, u))
      && (SignalsQueue(s, t) ==> forall u :: !SleepsOnQueue(s, u))
    case Move(t, Some(u)) =>
      && CanMove(s, t)
      && ((SignalsPool(s, t) && SleepsOnPool(s, u)) || (SignalsQueue(s, t) && SleepsOnQueue(s, u)))
    case Spurious(t) => SleepsOnPool(s, t) || SleepsOnQueue(s, t)
    case Call(j) => j !in s.adders
  }

  /* ---- Steps ---- */

  ghost function Next(s: State, e: Event): State
    requires Enabled(s, e)
  {
    match e
    case Move(t, None) => Moved(s, t)
    case Move(t, Some(u)) => Moved(Wake(s, u), t)
    case Spurious(t) => Wake(s, t)
    case Call(j) =>
      // a fresh job node with a NULL `next`
      s.(adders := s.adders[j := ALock], m := s.m.(queue := s.m.queue.(next := s.m.queue.next[j := None])))
  }

  function Moved(s: State, t: Tid): State
    requires CanMove(s, t)
  {
    match t
    case Worker(i) => var (m, pc) := WorkerStep(s.m, i, s.workers[i]); s.(m := m, workers := s.workers[i := pc])
    case Adder(j) => var (m, pc) := AdderStep(s.m, |s.workers|, j, s.adders[j]); s.(m := m, adders := s.adders[j := pc])
    case Destroyer => DestroyerStep(s)
  }

  function WorkerStep(m: Mem, i: nat, pc: WPc): (Mem, WPc)
    requires WCanMove(m, pc) && Slots.WellFormed(m.buffers) && i < |m.buffers.phases|
  {
    var me := Worker(i);
    match pc
    case WLock => (m.(poolLock := Some(me)), WReadFront)
    case WReadFront => (m, if m.queue.front == None then WReadStop else WCheckStop)
    case WReadStop => (m, if m.stop then WCheckStop else WSleep)
    case WSleep => (m.(poolLock := None), WAsleep)
    case WWoken => (m.(poolLock := Some(me)), WReadFront)
    case WCheckStop => (m, if m.stop then WLeave else WDequeue(DLock))
    case WLeave => (m.(poolLock := None), WDone)
    case WDequeue(d) =>
      var (m', d') := DequeueStep(m, me, d);
      (m', if d'.DReturn? then WCountUp(d'.job) else WDequeue(d'))
    case WCountUp(j) => (m.(active := true), WRelease(j))
    case WRelease(j) => (m.(poolLock := None), WCall(j))
    case WCall(j) => (m.(runs := m.runs + [Run(i, j)]), WHandling(j))
    case WHandling(j) =>
      var buffers := Slots.Step(m.buffers, i);
      (m.(buffers := buffers), if buffers.phases[i].Idle? then WRelock else WHandling(j))
    case WRelock => (m.(poolLock := Some(me)), WCountDown)
    case WCountDown => (m.(active := !m.active), WSignal) // decrement of a C bool: 0 - 1 is true again
    case WSignal => (m, WUnlock)
    case WUnlock => (m.(poolLock := None), WLock)
  }

  function DequeueStep(m: Mem, me: Tid, d: DPc): (Mem, DPc)
    requires DCanMove(m, d)
  {
    var q := m.queue;
    match d
    case DLock => (m.(queueLock := Some(me)), DTest)
    case DTest => (m, if q.front == None then DSleep else DTake)
    case DSleep => (m.(queueLock := None), DAsleep)
    case DWoken => (m.(queueLock := Some(me)), DTest)
    case DTake => (m, match q.front case None => DFault case Some(j) => DAdvance(j))
    case DAdvance(j) =>
      if j in q.next then (m.(queue := q.(front := q.next[j]), taken := m.taken + [j]), DTestEmpty(j)) else (m, DFault)
    case DTestEmpty(j) => (m, if q.front == None then DClearRear(j) else DCount(j))
    case DClearRear(j) => (m.(queue := q.(rear := None)), DCount(j))
    case DCount(j) => (m.(queue := q.(count := q.count - 1)), DUnlock(j))
    case DUnlock(j) => (m.(queueLock := None), DReturn(j))
  }

  /** `pool->active_threads == pool->max_threads`, the left side being an `atomic_bool`. */
  predicate LooksFull(m: Mem, max: nat) {
    (if m.active then 1 else 0) == max
  }

  function AdderStep(m: Mem, max: nat, j: Job, pc: APc): (Mem, APc)
    requires ACanMove(m, pc)
  {
    var me, q := Adder(j), m.queue;
    match pc
    case ALock => (m.(poolLock := Some(me)), ATest)
    case ATest => (m, if LooksFull(m, max) then ASleep else AUnlock)
    case ASleep => (m.(poolLock := None), AAsleep)
    case AWoken => (m.(poolLock := Some(me)), ATest)
    case AUnlock => (m.(poolLock := None), ALockQueue)
    case ALockQueue => (m.(queueLock := Some(me)), ATestRear)
    case ATestRear => (m, if q.rear == None then ASetFront else ALinkNext)
    case ASetFront => (m.(queue := q.(front := Some(j)), enqueued := m.enqueued + [j]), ASetRear)
    case ALinkNext =>
      if q.rear.Some? then
        (m.(queue := q.(next := q.next[q.rear.value := Some(j)]), enqueued := m.enqueued + [j]), ASetRear)
      else (m, AFault)
    case ASetRear => (m.(queue := q.(rear := Some(j))), ACount)
    case ACount => (m.(queue := q.(count := q.count + 1)), ASignalQueue)
    case ASignalQueue => (m, AUnlockQueue)
    case AUnlockQueue => (m.(queueLock := None), ASignalPool)
    case ASignalPool => (m, ADone)
  }

  function DestroyerStep(s: State): State
    requires TCanMove(s)
  {
    var me, m := Destroyer, s.m;
    match s.destroyer
    case TIdle => s.(destroyer := TLock)
    case TLock => s.(destroyer := TStop, m := m.(poolLock := Some(me)))
    case TStop => s.(destroyer := TBroadcast, m := m.(stop := true))
    case TBroadcast => WakeAllOnPool(s).(destroyer := TUnlock)
    case TUnlock => s.(destroyer := TJoin(0), m := m.(poolLock := None))
    case TJoin(k) => s.(destroyer := if k < |s.workers| then TJoin(k + 1) else TDrain)
    case TDrain => s.(destroyer := if m.queue.front == None then TDone else TDequeue(DLock))
    case TDequeue(d) =>
      var (m', d') := DequeueStep(m, me, d);
      s.(m := m', destroyer := if d'.DReturn? then TDiscard(d'.job) else TDequeue(d'))
    case TDiscard(j) => s.(destroyer := TDrain, m := m.(discarded := m.discarded + [j]))
  }

  /** A run of a pool of `max` workers from its creation, under any scheduler. */
  ghost predicate Behavior(max: nat, states: seq<State>, events: seq<Event>) {
    && |states| == |events| + 1
    && states[0] == Init(max)
    && forall k :: 0 <= k < |events| ==> Enabled(states[k], events[k]) && states[k + 1] == Next(states[k], events[k])
  }
}
