/** What every step of the thread pool keeps. */
module ThreadPoolInvariants {
  import opened Wrappers
  import Slots
  import opened ThreadPool

  /* ---- Locks ---- */

  predicate DHoldsQueue(d: DPc) {
    d.DTest? || d.DSleep? || d.DTake? || d.DAdvance? || d.DTestEmpty? || d.DClearRear? || d.DCount?
        || d.DUnlock? || d.DFault?
  }

  /** Workers call job_dequeue while holding `pool->lock`. */
  predicate WHoldsPool(pc: WPc) {
    || pc.WReadFront? || pc.WReadStop? || pc.WSleep? || pc.WCheckStop? || pc.WLeave? || pc.WDequeue?
    || pc.WCountUp? || pc.WRelease? || pc.WCountDown? || pc.WSignal? || pc.WUnlock?
  }

  predicate WHoldsQueue(pc: WPc) { pc.WDequeue? && DHoldsQueue(pc.d) }

  predicate AHoldsPool(pc: APc) { pc.ATest? || pc.ASleep? || pc.AUnlock? }

  predicate AHoldsQueue(pc: APc) {
    || pc.ATestRear? || pc.ASetFront? || pc.ALinkNext? || pc.ASetRear? || pc.ACount? || pc.ASignalQueue?
        || pc.AUnlockQueue?
    || pc.AFault?
  }

  predicate THoldsPool(pc: TPc) { pc.TStop? || pc.TBroadcast? || pc.TUnlock? }

  predicate THoldsQueue(pc: TPc) { pc.TDequeue? && DHoldsQueue(pc.d) }

  ghost predicate HoldsPool(s: State, t: Tid) {
    match t
    case Worker(i) => i < |s.workers| && WHoldsPool(s.workers[i])
    case Adder(j) => j in s.adders && AHoldsPool(s.adders[j])
    case Destroyer => THoldsPool(s.destroyer)
  }

  ghost predicate HoldsQueue(s: State, t: Tid) {
    match t
    case Worker(i) => i < |s.workers| && WHoldsQueue(s.workers[i])
    case Adder(j) => j in s.adders && AHoldsQueue(s.adders[j])
    case Destroyer => THoldsQueue(s.destroyer)
  }

  /** The lock fields name exactly the threads inside the locked regions. */
  ghost predicate Locks(s: State) {
    && (forall t :: HoldsPool(s, t) <==> s.m.poolLock == Some(t))
    && (forall t :: HoldsQueue(s, t) <==> s.m.queueLock == Some(t))
    && Slots.WellFormed(s.m.buffers) && |s.m.buffers.phases| == |s.m.buffers.used| == |s.workers|
  }

  /* ---- The linked queue ---- */

  function Nth(c: seq<Job>, k: int): Option<Job> { if 0 <= k < |c| then Some(c[k]) else None }

  function First(c: seq<Job>): Option<Job> { Nth(c, 0) }

  function Last(c: seq<Job>): Option<Job> { Nth(c, |c| - 1) }

  ghost predicate Distinct(js: seq<Job>) {
    forall k, l :: 0 <= k < l < |js| ==> js[k] != js[l]
  }

  /** Following `next` from the first job visits exactly `c` and ends in NULL. */
  ghost predicate Chained(next: map<Job, Option<Job>>, c: seq<Job>) {
    forall k :: 0 <= k < |c| ==> c[k] in next && next[c[k]] == Nth(c, k + 1)
  }

  /** Where the holder of the queue lock stands between the writes of job_enqueue or
      job_dequeue; Steady when nobody holds it. */
  datatype Line =
    | Steady
    | SawEmpty | SawNonEmpty     // job_enqueue has tested `rear`
    | Appended(job: Job)         // linked behind the last node, `rear` not moved yet
    | Uncounted                  // `job_count` not incremented yet
    | Taking(job: Job)           // job_dequeue has read `front`
    | Removed(job: Job)          // `front` advanced
    | RearStale(job: Job)        // found the list empty, `rear` not cleared yet
    | Overcounted                // `job_count` not decremented yet

  function DLine(d: DPc): Line {
    match d
    case DAdvance(j) => Taking(j)
    case DTestEmpty(j) => Removed(j)
    case DClearRear(j) => RearStale(j)
    case DCount(_) => Overcounted
    case _ => Steady
  }

  function ALine(j: Job, pc: APc): Line {
    match pc
    case ASetFront => SawEmpty
    case ALinkNext => SawNonEmpty
    case ASetRear => Appended(j)
    case ACount => Uncounted
    case _ => Steady
  }

  function WLine(pc: WPc): Line { if pc.WDequeue? then DLine(pc.d) else Steady }

  function TLine(pc: TPc): Line { if pc.TDequeue? then DLine(pc.d) else Steady }

  function LineOf(s: State): Line {
    match s.m.queueLock
    case None => Steady
    case Some(Worker(i)) => if i < |s.workers| then WLine(s.workers[i]) else Steady
    case Some(Adder(j)) => if j in s.adders then ALine(j, s.adders[j]) else Steady
    case Some(Destroyer) => TLine(s.destroyer)
  }

  /** The queue fields represent the list `c`, up to what the lock holder has still to write. */
  ghost predicate Represents(q: Queue, c: seq<Job>, line: Line) {
    && q.front == First(c)
    && Chained(q.next, c)
    && match line
       case Steady => q.rear == Last(c) && q.count == |c|
       case SawEmpty => q.rear == None && c == [] && q.count == 0
       case SawNonEmpty => c != [] && q.rear == Last(c) && q.count == |c|
       case Appended(j) => c != [] && c[|c| - 1] == j && q.rear == Last(c[..|c| - 1]) && q.count == |c| - 1
       case Uncounted => q.rear == Last(c) && q.count == |c| - 1
       case Taking(j) => c != [] && c[0] == j && q.rear == Last(c) && q.count == |c|
       case Removed(j) => q.rear == (if c == [] then Some(j) else Last(c)) && q.count == |c| + 1
       case RearStale(j) => c == [] && q.rear == Some(j) && q.count == 1
       case Overcounted => q.rear == Last(c) && q.count == |c| + 1
  }

  /** Jobs leave in the order they were linked in: `taken` is a prefix of `enqueued`, and the
      linked list is the rest. */
  ghost predicate ListOk(m: Mem, line: Line) {
    && m.taken <= m.enqueued
    && Distinct(m.enqueued)
    && Represents(m.queue, m.enqueued[|m.taken|..], line)
  }

  /** The adder's job is already in the list. */
  predicate Linked(pc: APc) {
    pc.ASetRear? || pc.ACount? || pc.ASignalQueue? || pc.AUnlockQueue? || pc.ASignalPool? || pc.ADone?
  }

  ghost predicate NodesOk(s: State) {
    && (forall j :: j in s.m.enqueued ==> j in s.adders && Linked(s.adders[j]))
    && (forall j :: j in s.adders ==> j in s.m.queue.next && !s.adders[j].AFault?)
    && (forall j :: j in s.adders && Linked(s.adders[j]) ==> j in s.m.enqueued)
    && (forall j :: j in s.adders && !Linked(s.adders[j]) ==> s.m.queue.next[j] == None)
  }

  /* ---- The unlocked reads of `front` ---- */

  /** In job_dequeue `front` must not be NULL before the removal, so the wait and the null
      dereference are out of reach. */
  predicate DOk(front: Option<Job>, d: DPc) {
    match d
    case DLock => front.Some?
    case DTest => front.Some?
    case DTake => front.Some?
    case DAdvance(_) => front.Some?
    case DTestEmpty(_) => true
    case DClearRear(_) => true
    case DCount(_) => true
    case DUnlock(_) => true
    case _ => false
  }

  predicate WOk(m: Mem, pc: WPc) {
    match pc
    case WDequeue(d) => DOk(m.queue.front, d)
    case WCheckStop => m.queue.front.Some? || m.stop
    case _ => true
  }

  predicate AfterJoin(pc: TPc) { pc.TDrain? || pc.TDequeue? || pc.TDiscard? || pc.TDone? }

  ghost predicate FrontOk(s: State) {
    && (forall i :: 0 <= i < |s.workers| ==> WOk(s.m, s.workers[i]))
    && (s.destroyer.TDequeue? ==> DOk(s.m.queue.front, s.destroyer.d))
    && (s.destroyer.TJoin? ==> s.destroyer.joined <= |s.workers|)
    && (s.destroyer.TJoin? ==> forall i :: 0 <= i < s.destroyer.joined ==> s.workers[i].WDone?)
    && (AfterJoin(s.destroyer) ==> forall i :: 0 <= i < |s.workers| ==> s.workers[i].WDone?)
  }

  /* ---- What becomes of a job ---- */

  function DCarried(d: DPc): Option<Job> {
    match d
    case DTestEmpty(j) => Some(j)
    case DClearRear(j) => Some(j)
    case DCount(j) => Some(j)
    case DUnlock(j) => Some(j)
    case _ => None
  }

  /** The job a thread has taken out of the queue and neither run nor freed yet. */
  function WCarried(pc: WPc): Option<Job> {
    match pc
    case WDequeue(d) => DCarried(d)
    case WCountUp(j) => Some(j)
    case WRelease(j) => Some(j)
    case WCall(j) => Some(j)
    case _ => None
  }

  function TCarried(pc: TPc): Option<Job> {
    match pc
    case TDequeue(d) => DCarried(d)
    case TDiscard(j) => Some(j)
    case _ => None
  }

  ghost predicate WasRun(m: Mem, j: Job) {
    exists k :: 0 <= k < |m.runs| && m.runs[k].job == j
  }

  ghost predicate IsCarried(s: State, j: Job) {
    || TCarried(s.destroyer) == Some(j)
    || exists i :: 0 <= i < |s.workers| && WCarried(s.workers[i]) == Some(j)
  }

  /** Each taken job is in exactly one place: run, freed unrun, or in one thread's hands. */
  ghost predicate JobsOk(s: State) {
    && (forall j :: j in s.m.taken ==> WasRun(s.m, j) || j in s.m.discarded || IsCarried(s, j))
    && (forall j :: IsCarried(s, j) ==> j in s.m.taken && !WasRun(s.m, j) && j !in s.m.discarded)
    && (forall i, k :: 0 <= i < k < |s.workers| && WCarried(s.workers[i]).Some? ==>
        WCarried(s.workers[i]) != WCarried(s.workers[k]))
    && (forall i :: 0 <= i < |s.workers| && WCarried(s.workers[i]).Some? ==>
        WCarried(s.workers[i]) != TCarried(s.destroyer))
    && (forall k :: 0 <= k < |s.m.runs| ==>
          s.m.runs[k].job in s.m.taken && s.m.runs[k].job !in s.m.discarded && s.m.runs[k].worker < |s.workers|)
    && (forall k, l :: 0 <= k < l < |s.m.runs| ==> s.m.runs[k].job != s.m.runs[l].job)
    && (forall j :: j in s.m.discarded ==> j in s.m.taken)
    && Distinct(s.m.discarded)
  }

  /* ---- Stopping ---- */

  /** A worker that has decided, under `pool->lock`, to take a job or to sleep. */
  predicate Committed(pc: WPc) { pc.WDequeue? || pc.WCountUp? || pc.WRelease? || pc.WSleep? }

  predicate BeforeStop(pc: TPc) { pc.TIdle? || pc.TLock? || pc.TStop? }

  ghost predicate StopOk(s: State) {
    && (s.m.stop <==> !BeforeStop(s.destroyer))
    && (s.m.stop ==> forall i :: 0 <= i < |s.workers| ==> !Committed(s.workers[i]))
    && (s.m.stop && !s.destroyer.TBroadcast? ==> forall i :: 0 <= i < |s.workers| ==> !s.workers[i].WAsleep?)
  }

  ghost predicate Inv(s: State) {
    && Locks(s) && ListOk(s.m, LineOf(s)) && NodesOk(s) && FrontOk(s) && JobsOk(s) && StopOk(s)
    && Slots.Owned(s.m.buffers) && Slots.Crowding(s.m.buffers)
  }

  /* ---- Locks: every step ---- */

  /** What thread `t` may do to a lock in one step: nothing, take it when free, or give it back. */
  predicate LockMove(t: Tid, before: Option<Tid>, held: bool, after: Option<Tid>, holds: bool) {
    || (after == before && holds == held)
    || (before == None && after == Some(t) && holds)
    || (held && after == None && !holds)
  }

  lemma LocksFrame(s: State, s': State, t: Tid)
    requires Locks(s)
    requires Slots.WellFormed(s'.m.buffers) && |s'.m.buffers.phases| == |s'.m.buffers.used| == |s'.workers|
    requires forall u :: u != t ==> (HoldsPool(s', u) <==> HoldsPool(s, u)) && (HoldsQueue(s', u) <==> HoldsQueue(s, u))
    requires LockMove(t, s.m.poolLock, HoldsPool(s, t), s'.m.poolLock, HoldsPool(s', t))
    requires LockMove(t, s.m.queueLock, HoldsQueue(s, t), s'.m.queueLock, HoldsQueue(s', t))
    ensures Locks(s')
  {
    forall u
      ensures HoldsPool(s', u) <==> s'.m.poolLock == Some(u)
      ensures HoldsQueue(s', u) <==> s'.m.queueLock == Some(u)
    {
      assert HoldsPool(s, u) <==> s.m.poolLock == Some(u);
      assert HoldsQueue(s, u) <==> s.m.queueLock == Some(u);
      assert HoldsPool(s, t) <==> s.m.poolLock == Some(t);
      assert HoldsQueue(s, t) <==> s.m.queueLock == Some(t);
    }
  }

  lemma DequeueLocks(m: Mem, me: Tid, d: DPc)
    requires DCanMove(m, d)
    ensures var (m', d') := DequeueStep(m, me, d);
            && m' == m.(queueLock := m'.queueLock, queue := m'.queue, taken := m'.taken)
            && m'.queue.next == m.queue.next
            && LockMove(me, m.queueLock, DHoldsQueue(d), m'.queueLock, DHoldsQueue(d'))
  {
  }

  lemma WorkerLocks(m: Mem, i: nat, pc: WPc)
    requires WCanMove(m, pc) && Slots.WellFormed(m.buffers) && i < |m.buffers.phases|
    ensures var (m', pc') := WorkerStep(m, i, pc);
            && LockMove(Worker(i), m.poolLock, WHoldsPool(pc), m'.poolLock, WHoldsPool(pc'))
            && LockMove(Worker(i), m.queueLock, WHoldsQueue(pc), m'.queueLock, WHoldsQueue(pc'))
            && Slots.WellFormed(m'.buffers) && |m'.buffers.phases| == |m.buffers.phases|
            && |m'.buffers.used| == |m.buffers.used|
  {
    if pc.WDequeue? { DequeueLocks(m, Worker(i), pc.d); }
    if pc.WHandling? { Slots.StepWellFormed(m.buffers, i); }
  }

  lemma LocksWorker(s: State, i: nat)
    requires Locks(s) && CanMove(s, Worker(i))
    ensures Locks(Moved(s, Worker(i)))
  {
    WorkerLocks(s.m, i, s.workers[i]);
    LocksFrame(s, Moved(s, Worker(i)), Worker(i));
  }

  lemma AdderLocks(m: Mem, max: nat, j: Job, pc: APc)
    requires ACanMove(m, pc)
    ensures var (m', pc') := AdderStep(m, max, j, pc);
            && LockMove(Adder(j), m.poolLock, AHoldsPool(pc), m'.poolLock, AHoldsPool(pc'))
            && LockMove(Adder(j), m.queueLock, AHoldsQueue(pc), m'.queueLock, AHoldsQueue(pc'))
            && m'.buffers == m.buffers
  {
  }

  lemma LocksAdder(s: State, j: Job)
    requires Locks(s) && CanMove(s, Adder(j))
    ensures Locks(Moved(s, Adder(j)))
  {
    hide AdderStep;
    AdderLocks(s.m, |s.workers|, j, s.adders[j]);
    LocksFrame(s, Moved(s, Adder(j)), Adder(j));
  }

  lemma DestroyerLocks(s: State)
    requires TCanMove(s)
    ensures var s' := DestroyerStep(s);
            && LockMove(Destroyer, s.m.poolLock, THoldsPool(s.destroyer), s'.m.poolLock, THoldsPool(s'.destroyer))
            && LockMove(Destroyer, s.m.queueLock, THoldsQueue(s.destroyer), s'.m.queueLock, THoldsQueue(s'.destroyer))
            && s'.m.buffers == s.m.buffers && s'.adders.Keys == s.adders.Keys && |s'.workers| == |s.workers|
  {
    if s.destroyer.TDequeue? { DequeueLocks(s.m, Destroyer, s.destroyer.d); }
  }

  /** What the destroyer does to the others, a broadcast at most, moves no lock. */
  lemma DestroyerHolds(s: State, u: Tid)
    requires TCanMove(s) && u != Destroyer
    ensures HoldsPool(DestroyerStep(s), u) <==> HoldsPool(s, u)
    ensures HoldsQueue(DestroyerStep(s), u) <==> HoldsQueue(s, u)
  {
    hide DequeueStep;
  }

  lemma LocksDestroyer(s: State)
    requires Locks(s) && CanMove(s, Destroyer)
    ensures Locks(Moved(s, Destroyer))
  {
    hide DestroyerStep;
    DestroyerLocks(s);
    var s' := Moved(s, Destroyer);
    forall u | u != Destroyer
      ensures HoldsPool(s', u) <==> HoldsPool(s, u)
      ensures HoldsQueue(s', u) <==> HoldsQueue(s, u)
    {
      DestroyerHolds(s, u);
    }
    LocksFrame(s, s', Destroyer);
  }

  /** A sleeper, asleep or woken, owns no lock. */
  lemma WakeHolds(s: State, t: Tid, u: Tid)
    requires SleepsOnPool(s, t) || SleepsOnQueue(s, t)
    ensures (HoldsPool(Wake(s, t), u) <==> HoldsPool(s, u)) && (HoldsQueue(Wake(s, t), u) <==> HoldsQueue(s, u))
  {
  }

  lemma LocksWake(s: State, t: Tid)
    requires Locks(s) && (SleepsOnPool(s, t) || SleepsOnQueue(s, t))
    ensures Locks(Wake(s, t))
  {
    hide HoldsPool, HoldsQueue;
    forall u
      ensures HoldsPool(Wake(s, t), u) <==> HoldsPool(s, u)
      ensures HoldsQueue(Wake(s, t), u) <==> HoldsQueue(s, u)
    {
      WakeHolds(s, t, u);
    }
    LocksFrame(s, Wake(s, t), t);
  }

  lemma LocksCall(s: State, j: Job)
    requires Locks(s) && Enabled(s, Call(j))
    ensures Locks(Next(s, Call(j)))
  {
    LocksFrame(s, Next(s, Call(j)), Adder(j));
  }

  /* ---- The list: every step ---- */

  lemma ChainedTail(next: map<Job, Option<Job>>, c: seq<Job>)
    requires Chained(next, c) && c != []
    ensures Chained(next, c[1..]) && next[c[0]] == First(c[1..])
  {
    forall k | 0 <= k < |c[1..]|
      ensures c[1..][k] in next && next[c[1..][k]] == Nth(c[1..], k + 1)
    {
      assert c[1..][k] == c[k + 1];
    }
  }

  lemma ChainedAppend(next: map<Job, Option<Job>>, c: seq<Job>, j: Job)
    requires Chained(next, c) && c != [] && Distinct(c) && j !in c && j in next && next[j] == None
    ensures Chained(next[c[|c| - 1] := Some(j)], c + [j])
  {
    forall k | 0 <= k < |c|
      ensures k + 1 < |c| ==> c[k] != c[|c| - 1]
      ensures c[k] != j
    {
    }
  }

  lemma TakeFirst(m: Mem)
    requires m.taken <= m.enqueued && m.enqueued[|m.taken|..] != []
    ensures var c := m.enqueued[|m.taken|..];
            m.taken + [c[0]] <= m.enqueued && m.enqueued[|m.taken + [c[0]]|..] == c[1..]
  {
  }

  lemma AddLast(m: Mem, j: Job)
    requires m.taken <= m.enqueued && Distinct(m.enqueued) && j !in m.enqueued
    ensures var c := m.enqueued[|m.taken|..];
            && m.taken <= m.enqueued + [j] && (m.enqueued + [j])[|m.taken|..] == c + [j]
            && Distinct(m.enqueued + [j]) && Distinct(c) && j !in c
  {
    var c := m.enqueued[|m.taken|..];
    forall k | 0 <= k < |c| ensures c[k] == m.enqueued[|m.taken| + k] {}
  }

  lemma DequeuedOne(m: Mem)
    requires m.taken <= m.enqueued && m.enqueued[|m.taken|..] != [] && Chained(m.queue.next, m.enqueued[|m.taken|..])
    ensures var c := m.enqueued[|m.taken|..];
            && m.taken + [c[0]] <= m.enqueued && m.enqueued[|m.taken + [c[0]]|..] == c[1..]
            && Chained(m.queue.next, c[1..]) && c[0] in m.queue.next && m.queue.next[c[0]] == First(c[1..])
  {
    TakeFirst(m);
    ChainedTail(m.queue.next, m.enqueued[|m.taken|..]);
  }

  lemma ListDequeue(m: Mem, me: Tid, d: DPc)
    requires ListOk(m, DLine(d)) && DCanMove(m, d) && DOk(m.queue.front, d)
    ensures ListOk(DequeueStep(m, me, d).0, DLine(DequeueStep(m, me, d).1))
  {
    hide Distinct, Chained;
    if d.DAdvance? {
      DequeuedOne(m);
    }
  }

  lemma RepresentsFirst(q: Queue, j: Job)
    requires Represents(q, [], SawEmpty) && j in q.next && q.next[j] == None
    ensures Represents(q.(front := Some(j)), [j], Appended(j))
  {
    assert [j][..0] == [];
  }

  lemma RepresentsNext(q: Queue, c: seq<Job>, j: Job)
    requires Represents(q, c, SawNonEmpty) && Distinct(c) && j !in c && j in q.next && q.next[j] == None
    ensures q.rear == Some(c[|c| - 1])
    ensures Represents(q.(next := q.next[c[|c| - 1] := Some(j)]), c + [j], Appended(j))
  {
    hide Chained, Distinct;
    assert c != [] by { SawNonEmptyMeans(q, c); }
    ChainedAppend(q.next, c, j);
    assert (c + [j])[..|c|] == c && First(c + [j]) == First(c);
  }

  lemma SawNonEmptyMeans(q: Queue, c: seq<Job>)
    requires Represents(q, c, SawNonEmpty)
    ensures c != []
  {
  }

  lemma ListLink(m: Mem, max: nat, j: Job, pc: APc)
    requires ListOk(m, ALine(j, pc)) && (pc.ASetFront? || pc.ALinkNext?)
    requires j !in m.enqueued && j in m.queue.next && m.queue.next[j] == None
    ensures ListOk(AdderStep(m, max, j, pc).0, ALine(j, AdderStep(m, max, j, pc).1))
  {
    hide Distinct, Represents;
    var c := m.enqueued[|m.taken|..];
    AddLast(m, j);
    if pc.ALinkNext? {
      RepresentsNext(m.queue, c, j);
    } else {
      assert c == [] by { SawEmptyMeans(m.queue, c); }
      assert [] + [j] == [j];
      RepresentsFirst(m.queue, j);
    }
  }

  lemma SawEmptyMeans(q: Queue, c: seq<Job>)
    requires Represents(q, c, SawEmpty)
    ensures c == []
  {
  }

  /** The steps on a list that is linked already, or not yet. */
  lemma RepresentsTested(q: Queue, c: seq<Job>)
    requires Represents(q, c, Steady)
    ensures Represents(q, c, if q.rear == None then SawEmpty else SawNonEmpty)
  {
    hide Chained;
  }

  lemma RepresentsRear(q: Queue, c: seq<Job>, j: Job)
    requires Represents(q, c, Appended(j))
    ensures Represents(q.(rear := Some(j)), c, Uncounted)
  {
    hide Chained;
  }

  lemma RepresentsCounted(q: Queue, c: seq<Job>)
    requires Represents(q, c, Uncounted)
    ensures Represents(q.(count := q.count + 1), c, Steady)
  {
    hide Chained;
  }

  lemma ListEnqueue(m: Mem, max: nat, j: Job, pc: APc)
    requires ListOk(m, ALine(j, pc)) && ACanMove(m, pc)
    requires !Linked(pc) ==> j !in m.enqueued && j in m.queue.next && m.queue.next[j] == None
    ensures ListOk(AdderStep(m, max, j, pc).0, ALine(j, AdderStep(m, max, j, pc).1))
  {
    hide Distinct, Represents;
    var c := m.enqueued[|m.taken|..];
    match pc
    case ASetFront => ListLink(m, max, j, pc);
    case ALinkNext => ListLink(m, max, j, pc);
    case ATestRear => RepresentsTested(m.queue, c);
    case ASetRear => RepresentsRear(m.queue, c, j);
    case ACount => RepresentsCounted(m.queue, c);
    case _ =>
  }

  lemma ListSame(m: Mem, m': Mem, line: Line)
    requires ListOk(m, line) && m'.queue == m.queue && m'.enqueued == m.enqueued && m'.taken == m.taken
    ensures ListOk(m', line)
  {
  }

  /** A worker that owns the queue lock, or is about to take it, is what the line is about. */
  lemma WorkerLine(s: State, i: nat)
    requires Locks(s) && CanMove(s, Worker(i))
    ensures s.workers[i].WDequeue? ==> LineOf(s) == DLine(s.workers[i].d)
    ensures !s.workers[i].WDequeue? ==> s.m.queueLock != Some(Worker(i))
  {
    assert HoldsQueue(s, Worker(i)) <==> s.m.queueLock == Some(Worker(i));
  }

  lemma WorkerLineAfter(s: State, i: nat)
    requires Locks(s) && CanMove(s, Worker(i)) && s.workers[i].WDequeue? && Locks(Moved(s, Worker(i)))
    ensures LineOf(Moved(s, Worker(i))) == DLine(DequeueStep(s.m, Worker(i), s.workers[i].d).1)
  {
    hide Locks;
    var s' := Moved(s, Worker(i));
    assert HoldsQueue(s, Worker(i)) <==> s.m.queueLock == Some(Worker(i)) by { LocksMeans(s, Worker(i)); }
    assert HoldsQueue(s', Worker(i)) <==> s'.m.queueLock == Some(Worker(i)) by { LocksMeans(s', Worker(i)); }
  }

  lemma LocksMeans(s: State, t: Tid)
    requires Locks(s)
    ensures HoldsQueue(s, t) <==> s.m.queueLock == Some(t)
  {
  }

  /** Steps outside the queue's locked regions leave the list, and the line, alone. */
  lemma ListWorker(s: State, i: nat)
    requires Locks(s) && ListOk(s.m, LineOf(s)) && CanMove(s, Worker(i)) && WOk(s.m, s.workers[i])
    ensures var s' := Moved(s, Worker(i)); ListOk(s'.m, LineOf(s'))
  {
    hide ListOk;
    var pc, s' := s.workers[i], Moved(s, Worker(i));
    WorkerLine(s, i);
    if pc.WDequeue? {
      LocksWorker(s, i);
      WorkerLineAfter(s, i);
      ListDequeue(s.m, Worker(i), pc.d);
    } else {
      assert s'.m.queueLock == s.m.queueLock;
      ListSame(s.m, s'.m, LineOf(s));
    }
  }

  lemma ListAdder(s: State, j: Job)
    requires Locks(s) && ListOk(s.m, LineOf(s)) && NodesOk(s) && CanMove(s, Adder(j))
    ensures var s' := Moved(s, Adder(j)); ListOk(s'.m, LineOf(s'))
  {
    hide ListOk;
    var pc, s' := s.adders[j], Moved(s, Adder(j));
    assert HoldsQueue(s, Adder(j)) <==> s.m.queueLock == Some(Adder(j));
    if AHoldsQueue(pc) {
      ListEnqueue(s.m, |s.workers|, j, pc);
      AdderKeepsLine(s, j);
    } else {
      ListSame(s.m, s'.m, LineOf(s));
    }
  }

  /** While the adder holds the queue lock, the line is its own. */
  lemma AdderKeepsLine(s: State, j: Job)
    requires Locks(s) && CanMove(s, Adder(j)) && AHoldsQueue(s.adders[j])
    ensures LineOf(s) == ALine(j, s.adders[j])
    ensures LineOf(Moved(s, Adder(j))) == ALine(j, Moved(s, Adder(j)).adders[j])
  {
    assert HoldsQueue(s, Adder(j)) <==> s.m.queueLock == Some(Adder(j));
  }

  lemma DestroyerLine(s: State)
    requires Locks(s) && s.destroyer.TDequeue? && CanMove(s, Destroyer)
    ensures LineOf(s) == DLine(s.destroyer.d)
  {
    assert HoldsQueue(s, Destroyer) <==> s.m.queueLock == Some(Destroyer);
  }

  lemma DestroyerLineAfter(s: State)
    requires Locks(s) && CanMove(s, Destroyer) && s.destroyer.TDequeue? && Locks(Moved(s, Destroyer))
    ensures LineOf(Moved(s, Destroyer)) == DLine(DequeueStep(s.m, Destroyer, s.destroyer.d).1)
  {
    hide Locks;
    var s' := Moved(s, Destroyer);
    assert HoldsQueue(s, Destroyer) <==> s.m.queueLock == Some(Destroyer) by { LocksMeans(s, Destroyer); }
    assert HoldsQueue(s', Destroyer) <==> s'.m.queueLock == Some(Destroyer) by { LocksMeans(s', Destroyer); }
  }

  /** Elsewhere the destroyer moves no worker that owns the queue lock. */
  lemma DestroyerElsewhere(s: State)
    requires Locks(s) && CanMove(s, Destroyer) && !s.destroyer.TDequeue?
    ensures var s' := Moved(s, Destroyer);
            && s'.m.queue == s.m.queue && s'.m.enqueued == s.m.enqueued && s'.m.taken == s.m.taken
            && LineOf(s') == LineOf(s)
  {
    assert HoldsQueue(s, Destroyer) <==> s.m.queueLock == Some(Destroyer);
  }

  lemma ListDestroyer(s: State)
    requires Locks(s) && ListOk(s.m, LineOf(s)) && CanMove(s, Destroyer)
    requires s.destroyer.TDequeue? ==> DOk(s.m.queue.front, s.destroyer.d)
    ensures var s' := Moved(s, Destroyer); ListOk(s'.m, LineOf(s'))
  {
    hide ListOk, LineOf, Locks;
    if s.destroyer.TDequeue? {
      LocksDestroyer(s);
      DestroyerLine(s);
      DestroyerLineAfter(s);
      ListDequeue(s.m, Destroyer, s.destroyer.d);
    } else {
      DestroyerElsewhere(s);
      ListSame(s.m, Moved(s, Destroyer).m, LineOf(s));
    }
  }

  lemma ListWake(s: State, t: Tid)
    requires Locks(s) && ListOk(s.m, LineOf(s)) && (SleepsOnPool(s, t) || SleepsOnQueue(s, t))
    ensures var s' := Wake(s, t); ListOk(s'.m, LineOf(s'))
  {
    assert HoldsQueue(s, t) <==> s.m.queueLock == Some(t);
  }

  lemma ListCall(s: State, j: Job)
    requires ListOk(s.m, LineOf(s)) && NodesOk(s) && Enabled(s, Call(j))
    ensures var s' := Next(s, Call(j)); ListOk(s'.m, LineOf(s'))
  {
    hide Chained;
    assert j !in s.m.enqueued by { NotEnqueued(s, j); }
    ChainedFresh(s.m.queue.next, s.m.enqueued[|s.m.taken|..], j);
    assert LineOf(Next(s, Call(j))) == LineOf(s);
  }

  lemma NotEnqueued(s: State, j: Job)
    requires NodesOk(s) && j !in s.adders
    ensures j !in s.m.enqueued
  {
  }

  lemma ChainedFresh(next: map<Job, Option<Job>>, c: seq<Job>, j: Job)
    requires Chained(next, c) && j !in c
    ensures Chained(next[j := None], c)
  {
  }

  /* ---- The nodes: every step ---- */

  lemma NodesAdder(s: State, j: Job)
    requires Locks(s) && ListOk(s.m, LineOf(s)) && NodesOk(s) && CanMove(s, Adder(j))
    ensures NodesOk(Moved(s, Adder(j)))
  {
    if s.adders[j].ALinkNext? {
      NodesLinkNext(s, j);
    } else if s.adders[j].ASetFront? {
      var s' := Moved(s, Adder(j));
      assert forall k :: k in s'.m.enqueued <==> k in s.m.enqueued || k == j;
      assert s'.m.queue.next == s.m.queue.next;
    } else {
      AdderKeepsNodes(s, j);
    }
  }

  lemma AdderKeepsNodes(s: State, j: Job)
    requires NodesOk(s) && CanMove(s, Adder(j)) && !s.adders[j].ALinkNext? && !s.adders[j].ASetFront?
    ensures NodesOk(Moved(s, Adder(j)))
  {
    hide NodesOk;
    var s' := Moved(s, Adder(j));
    NodesMoved(s, s', j);
  }

  /** One adder has moved, on the same side of the linking. */
  lemma NodesMoved(s: State, s': State, j: Job)
    requires NodesOk(s) && j in s.adders && j in s'.adders && s'.adders == s.adders[j := s'.adders[j]]
    requires s'.m.enqueued == s.m.enqueued && s'.m.queue.next == s.m.queue.next
    requires Linked(s'.adders[j]) == Linked(s.adders[j]) && !s'.adders[j].AFault?
    ensures NodesOk(s')
  {
    hide Linked;
  }

  lemma NodesLinkNext(s: State, j: Job)
    requires Locks(s) && ListOk(s.m, LineOf(s)) && NodesOk(s) && CanMove(s, Adder(j)) && s.adders[j].ALinkNext?
    ensures NodesOk(Moved(s, Adder(j)))
  {
    AdderKeepsLine(s, j);
    var c, s' := s.m.enqueued[|s.m.taken|..], Moved(s, Adder(j));
    var last := c[|c| - 1];
    assert last in s.m.enqueued && s.m.queue.rear == Some(last);
    assert s'.m.queue.next == s.m.queue.next[last := Some(j)];
    assert forall k :: k in s'.m.enqueued <==> k in s.m.enqueued || k == j;
  }

  lemma NodesKept(s: State, s': State)
    requires NodesOk(s) && s'.adders == s.adders && s'.m.enqueued == s.m.enqueued && s'.m.queue.next == s.m.queue.next
    ensures NodesOk(s')
  {
  }

  lemma NodesWorker(s: State, i: nat)
    requires NodesOk(s) && CanMove(s, Worker(i))
    ensures NodesOk(Moved(s, Worker(i)))
  {
    if s.workers[i].WDequeue? { DequeueLocks(s.m, Worker(i), s.workers[i].d); }
    NodesKept(s, Moved(s, Worker(i)));
  }

  lemma NodesDestroyer(s: State)
    requires NodesOk(s) && CanMove(s, Destroyer) && !s.destroyer.TBroadcast?
    ensures NodesOk(Moved(s, Destroyer))
  {
    if s.destroyer.TDequeue? { DequeueLocks(s.m, Destroyer, s.destroyer.d); }
    NodesKept(s, Moved(s, Destroyer));
  }

  lemma NodesBroadcast(s: State)
    requires NodesOk(s) && s.destroyer.TBroadcast?
    ensures NodesOk(Moved(s, Destroyer))
  {
  }

  lemma NodesWake(s: State, t: Tid)
    requires NodesOk(s) && (SleepsOnPool(s, t) || SleepsOnQueue(s, t))
    ensures NodesOk(Wake(s, t))
  {
  }

  lemma NodesCall(s: State, j: Job)
    requires NodesOk(s) && Enabled(s, Call(j))
    ensures NodesOk(Next(s, Call(j)))
  {
  }

  /* ---- The unlocked reads: every step ---- */

  lemma FrontDequeue(m: Mem, me: Tid, d: DPc)
    requires ListOk(m, DLine(d)) && DCanMove(m, d) && DOk(m.queue.front, d)
    ensures var (m', d') := DequeueStep(m, me, d);
            && (d'.DReturn? || DOk(m'.queue.front, d'))
            && (!d.DAdvance? ==> m'.queue.front == m.queue.front)
  {
  }

  lemma FrontWorker(s: State, i: nat)
    requires Locks(s) && ListOk(s.m, LineOf(s)) && FrontOk(s) && CanMove(s, Worker(i))
    ensures FrontOk(Moved(s, Worker(i)))
  {
    var pc, s' := s.workers[i], Moved(s, Worker(i));
    assert HoldsQueue(s, Worker(i)) <==> s.m.queueLock == Some(Worker(i));
    if pc.WDequeue? {
      FrontDequeue(s.m, Worker(i), pc.d);
    }
    forall k | 0 <= k < |s.workers|
      ensures WOk(s'.m, s'.workers[k])
    {
      assert HoldsPool(s, Worker(k)) <==> s.m.poolLock == Some(Worker(k));
      assert HoldsPool(s, Worker(i)) <==> s.m.poolLock == Some(Worker(i));
      assert WOk(s.m, s.workers[k]);
    }
  }

  lemma FrontAdder(s: State, j: Job)
    requires FrontOk(s) && CanMove(s, Adder(j))
    ensures FrontOk(Moved(s, Adder(j)))
  {
    assert s.m.queue.front.Some? ==> Moved(s, Adder(j)).m.queue.front.Some?;
  }

  lemma FrontDestroyer(s: State)
    requires Locks(s) && ListOk(s.m, LineOf(s)) && FrontOk(s) && CanMove(s, Destroyer)
    ensures FrontOk(Moved(s, Destroyer))
  {
    if s.destroyer.TDequeue? {
      assert HoldsQueue(s, Destroyer) <==> s.m.queueLock == Some(Destroyer);
      FrontDequeue(s.m, Destroyer, s.destroyer.d);
      DequeueLocks(s.m, Destroyer, s.destroyer.d);
    } else {
      FrontDestroyerAlone(s);
    }
  }

  lemma FrontDestroyerAlone(s: State)
    requires FrontOk(s) && CanMove(s, Destroyer) && !s.destroyer.TDequeue?
    ensures FrontOk(Moved(s, Destroyer))
  {
    var s' := Moved(s, Destroyer);
    assert s'.m.queue == s.m.queue && (s.m.stop ==> s'.m.stop);
    forall i | 0 <= i < |s.workers|
      ensures WOk(s'.m, s'.workers[i]) && (s.workers[i].WDone? ==> s'.workers[i].WDone?)
    {
      assert WOk(s.m, s.workers[i]);
    }
  }

  lemma FrontWake(s: State, t: Tid)
    requires FrontOk(s) && (SleepsOnPool(s, t) || SleepsOnQueue(s, t))
    ensures FrontOk(Wake(s, t))
  {
  }

  /* ---- The jobs: every step ---- */

  ghost function CarriedBy(s: State, t: Tid): Option<Job> {
    match t
    case Worker(i) => if i < |s.workers| then WCarried(s.workers[i]) else None
    case Adder(_) => None
    case Destroyer => TCarried(s.destroyer)
  }

  /** Only thread `t` passes a job on. */
  ghost predicate OthersCarry(s: State, s': State, t: Tid) {
    |s'.workers| == |s.workers| && forall u :: u != t ==> CarriedBy(s', u) == CarriedBy(s, u)
  }

  /** JobsOk with the carriers named uniformly. */
  ghost predicate JobsPlaced(s: State) {
    && (forall j :: j in s.m.taken ==> WasRun(s.m, j) || j in s.m.discarded || exists t :: CarriedBy(s, t) == Some(j))
    && (forall t :: CarriedBy(s, t).Some? ==>
          CarriedBy(s, t).value in s.m.taken && !WasRun(s.m, CarriedBy(s, t).value)
              && CarriedBy(s, t).value !in s.m.discarded)
    && (forall t, u :: t != u && CarriedBy(s, t).Some? ==> CarriedBy(s, t) != CarriedBy(s, u))
  }

  lemma PlacedFromOk(s: State)
    requires JobsOk(s)
    ensures JobsPlaced(s)
  {
    forall j | j in s.m.taken
      ensures WasRun(s.m, j) || j in s.m.discarded || exists t :: CarriedBy(s, t) == Some(j)
    {
      if IsCarried(s, j) {
        if TCarried(s.destroyer) == Some(j) {
          assert CarriedBy(s, Destroyer) == Some(j);
        } else {
          var i :| 0 <= i < |s.workers| && WCarried(s.workers[i]) == Some(j);
          assert CarriedBy(s, Worker(i)) == Some(j);
        }
      }
    }
    forall t | CarriedBy(s, t).Some?
      ensures IsCarried(s, CarriedBy(s, t).value)
    {
    }
  }

  lemma OkFromPlaced(s: State)
    requires JobsPlaced(s)
    requires forall k :: 0 <= k < |s.m.runs| ==>
               s.m.runs[k].job in s.m.taken && s.m.runs[k].job !in s.m.discarded && s.m.runs[k].worker < |s.workers|
    requires forall k, l :: 0 <= k < l < |s.m.runs| ==> s.m.runs[k].job != s.m.runs[l].job
    requires forall j :: j in s.m.discarded ==> j in s.m.taken
    requires Distinct(s.m.discarded)
    ensures JobsOk(s)
  {
    forall j: Job
      ensures IsCarried(s, j) <==> exists t :: CarriedBy(s, t) == Some(j)
    {
      if IsCarried(s, j) && TCarried(s.destroyer) != Some(j) {
        var i :| 0 <= i < |s.workers| && WCarried(s.workers[i]) == Some(j);
        assert CarriedBy(s, Worker(i)) == Some(j);
      } else if TCarried(s.destroyer) == Some(j) {
        assert CarriedBy(s, Destroyer) == Some(j);
      }
    }
    forall i, k | 0 <= i < k < |s.workers| && WCarried(s.workers[i]).Some?
      ensures WCarried(s.workers[i]) != WCarried(s.workers[k])
    {
      assert CarriedBy(s, Worker(i)) != CarriedBy(s, Worker(k));
    }
    forall i | 0 <= i < |s.workers| && WCarried(s.workers[i]).Some?
      ensures WCarried(s.workers[i]) != TCarried(s.destroyer)
    {
      assert CarriedBy(s, Worker(i)) != CarriedBy(s, Destroyer);
    }
  }

  lemma JobsSame(s: State, s': State, t: Tid)
    requires JobsOk(s) && OthersCarry(s, s', t) && CarriedBy(s', t) == CarriedBy(s, t)
    requires s'.m.taken == s.m.taken && s'.m.runs == s.m.runs && s'.m.discarded == s.m.discarded
    ensures JobsOk(s')
  {
    PlacedFromOk(s);
    assert forall u :: CarriedBy(s', u) == CarriedBy(s, u);
    OkFromPlaced(s');
  }

  lemma JobsTaken(s: State, s': State, t: Tid, j: Job)
    requires JobsOk(s) && OthersCarry(s, s', t) && CarriedBy(s, t) == None && CarriedBy(s', t) == Some(j)
    requires j !in s.m.taken && s'.m.taken == s.m.taken + [j]
    requires s'.m.runs == s.m.runs && s'.m.discarded == s.m.discarded
    ensures JobsOk(s')
  {
    PlacedFromOk(s);
    forall k | k in s'.m.taken
      ensures WasRun(s'.m, k) || k in s'.m.discarded || exists u :: CarriedBy(s', u) == Some(k)
    {
      if k != j && !WasRun(s.m, k) && k !in s.m.discarded {
        var u :| CarriedBy(s, u) == Some(k);
        assert CarriedBy(s', u) == Some(k);
      }
    }
    OkFromPlaced(s');
  }

  /** One more job is called, or freed. */
  ghost predicate OneMore(m: Mem, m': Mem, j: Job) {
    || (m'.discarded == m.discarded && |m'.runs| == |m.runs| + 1 && m'.runs[..|m.runs|] == m.runs
        && m'.runs[|m.runs|].job == j)
    || (m'.runs == m.runs && m'.discarded == m.discarded + [j])
  }

  lemma OneMoreGone(m: Mem, m': Mem, j: Job)
    requires OneMore(m, m', j)
    ensures forall k :: WasRun(m', k) || k in m'.discarded <==> WasRun(m, k) || k in m.discarded || k == j
  {
    forall k
      ensures WasRun(m', k) || k in m'.discarded <==> WasRun(m, k) || k in m.discarded || k == j
    {
      if WasRun(m, k) {
        var l :| 0 <= l < |m.runs| && m.runs[l].job == k;
        assert m'.runs[l] == m'.runs[..|m.runs|][l];
      }
      if WasRun(m', k) {
        var l :| 0 <= l < |m'.runs| && m'.runs[l].job == k;
        if l < |m.runs| { assert m.runs[l] == m'.runs[l]; }
      }
    }
  }

  /** The carrier passes its job on: it is called, or freed. */
  lemma JobsPassedOn(s: State, s': State, t: Tid, j: Job)
    requires JobsOk(s) && OthersCarry(s, s', t) && CarriedBy(s, t) == Some(j) && CarriedBy(s', t) == None
    requires s'.m.taken == s.m.taken
    requires || (t.Worker? && t.i < |s.workers| && s'.m.runs == s.m.runs + [Run(t.i, j)]
            && s'.m.discarded == s.m.discarded)
             || (s'.m.runs == s.m.runs && s'.m.discarded == s.m.discarded + [j])
    ensures JobsOk(s')
  {
    PlacedFromOk(s);
    OneMoreGone(s.m, s'.m, j);
    PassedOnPlaced(s, s', t, j);
    OkFromPlaced(s');
  }

  lemma PassedOnPlaced(s: State, s': State, t: Tid, j: Job)
    requires JobsPlaced(s) && OthersCarry(s, s', t) && CarriedBy(s, t) == Some(j) && CarriedBy(s', t) == None
    requires s'.m.taken == s.m.taken
    requires forall k :: WasRun(s'.m, k) || k in s'.m.discarded <==> WasRun(s.m, k) || k in s.m.discarded || k == j
    ensures JobsPlaced(s')
  {
    hide WasRun;
    forall k | k in s'.m.taken
      ensures WasRun(s'.m, k) || k in s'.m.discarded || exists u :: CarriedBy(s', u) == Some(k)
    {
      if k != j && !WasRun(s.m, k) && k !in s.m.discarded {
        var u :| CarriedBy(s, u) == Some(k);
        assert CarriedBy(s', u) == Some(k);
      }
    }
  }

  lemma DequeueJobs(m: Mem, me: Tid, d: DPc)
    requires ListOk(m, DLine(d)) && DCanMove(m, d) && DOk(m.queue.front, d)
    ensures var (m', d') := DequeueStep(m, me, d);
            && m'.runs == m.runs && m'.discarded == m.discarded
            && if d.DAdvance? then
                 d'.DTestEmpty? && d'.job == d.job && d.job !in m.taken && m'.taken == m.taken + [d.job]
               else
                 m'.taken == m.taken
                     && (DCarried(d') == DCarried(d) || (d' == DReturn(d'.job) && DCarried(d) == Some(d'.job)))
  {
    if d.DAdvance? {
      var c := m.enqueued[|m.taken|..];
      assert d.job == m.enqueued[|m.taken|];
    }
  }

  lemma JobsWorker(s: State, i: nat)
    requires Locks(s) && ListOk(s.m, LineOf(s)) && FrontOk(s) && JobsOk(s) && CanMove(s, Worker(i))
    ensures JobsOk(Moved(s, Worker(i)))
  {
    hide ListOk, JobsOk;
    var t, pc, s' := Worker(i), s.workers[i], Moved(s, Worker(i));
    assert OthersCarry(s, s', t);
    match pc
    case WDequeue(d) =>
      assert HoldsQueue(s, t) <==> s.m.queueLock == Some(t);
      assert WOk(s.m, pc);
      DequeueJobs(s.m, t, d);
      if d.DAdvance? { JobsTaken(s, s', t, d.job); } else { JobsSame(s, s', t); }
    case WCall(j) => JobsPassedOn(s, s', t, j);
    case _ => JobsSame(s, s', t);
  }

  lemma JobsDestroyer(s: State)
    requires Locks(s) && ListOk(s.m, LineOf(s)) && FrontOk(s) && JobsOk(s) && CanMove(s, Destroyer)
    ensures JobsOk(Moved(s, Destroyer))
  {
    hide ListOk, JobsOk;
    var t, s' := Destroyer, Moved(s, Destroyer);
    assert OthersCarry(s, s', t);
    match s.destroyer
    case TDequeue(d) =>
      assert HoldsQueue(s, t) <==> s.m.queueLock == Some(t);
      DequeueJobs(s.m, t, d);
      if d.DAdvance? { JobsTaken(s, s', t, d.job); } else { JobsSame(s, s', t); }
    case TDiscard(j) => JobsPassedOn(s, s', t, j);
    case _ => JobsSame(s, s', t);
  }

  lemma JobsAdder(s: State, j: Job)
    requires JobsOk(s) && CanMove(s, Adder(j))
    ensures JobsOk(Moved(s, Adder(j)))
  {
    JobsSame(s, Moved(s, Adder(j)), Adder(j));
  }

  lemma JobsWake(s: State, t: Tid)
    requires JobsOk(s) && (SleepsOnPool(s, t) || SleepsOnQueue(s, t))
    ensures JobsOk(Wake(s, t))
  {
    JobsSame(s, Wake(s, t), t);
  }

  /* ---- Stopping: every step ---- */

  lemma StopKept(s: State, s': State)
    requires StopOk(s) && s'.m.stop == s.m.stop && |s'.workers| == |s.workers|
    requires BeforeStop(s'.destroyer) == BeforeStop(s.destroyer)
            && (s.destroyer.TBroadcast? <==> s'.destroyer.TBroadcast?)
    requires forall k :: 0 <= k < |s.workers| && s.m.stop ==>
               (Committed(s'.workers[k]) ==> Committed(s.workers[k]))
                   && (s'.workers[k].WAsleep? ==> s.workers[k].WAsleep?)
    ensures StopOk(s')
  {
  }

  lemma StopWorker(s: State, i: nat)
    requires StopOk(s) && CanMove(s, Worker(i))
    ensures StopOk(Moved(s, Worker(i)))
  {
    if s.workers[i].WDequeue? { DequeueLocks(s.m, Worker(i), s.workers[i].d); }
    StopKept(s, Moved(s, Worker(i)));
  }

  lemma StopDestroyer(s: State)
    requires Locks(s) && StopOk(s) && CanMove(s, Destroyer)
    ensures StopOk(Moved(s, Destroyer))
  {
    assert HoldsPool(s, Destroyer) <==> s.m.poolLock == Some(Destroyer);
    if s.destroyer.TStop? {
      forall k | 0 <= k < |s.workers|
        ensures !Committed(s.workers[k])
      {
        assert HoldsPool(s, Worker(k)) <==> s.m.poolLock == Some(Worker(k));
      }
    } else if !s.destroyer.TBroadcast? {
      if s.destroyer.TDequeue? { DequeueLocks(s.m, Destroyer, s.destroyer.d); }
      StopKept(s, Moved(s, Destroyer));
    }
  }

  lemma StopAdder(s: State, j: Job)
    requires StopOk(s) && CanMove(s, Adder(j))
    ensures StopOk(Moved(s, Adder(j)))
  {
    StopKept(s, Moved(s, Adder(j)));
  }

  lemma StopWake(s: State, t: Tid)
    requires StopOk(s) && (SleepsOnPool(s, t) || SleepsOnQueue(s, t))
    ensures StopOk(Wake(s, t))
  {
    StopKept(s, Wake(s, t));
  }

  /* ---- The buffers: every step ---- */

  lemma BuffersMoved(s: State, t: Tid)
    requires Locks(s) && Slots.Owned(s.m.buffers) && Slots.Crowding(s.m.buffers) && CanMove(s, t)
    ensures Slots.Owned(Moved(s, t).m.buffers) && Slots.Crowding(Moved(s, t).m.buffers)
  {
    hide Slots.Owned, Slots.Crowding, Slots.Step;
    match t
    case Worker(i) =>
      if s.workers[i].WHandling? {
        Slots.OwnedStep(s.m.buffers, i);
        Slots.CrowdingStep(s.m.buffers, i);
      } else if s.workers[i].WDequeue? {
        DequeueLocks(s.m, t, s.workers[i].d);
      }
    case Adder(_) =>
    case Destroyer => if s.destroyer.TDequeue? { DequeueLocks(s.m, t, s.destroyer.d); }
  }

  /* ---- Together ---- */

  lemma InitInv(max: nat)
    ensures Inv(Init(max))
  {
    var s := Init(max);
    Slots.OwnedAlways(max, max, []);
    Slots.CrowdingAlways(max, max, []);
    forall t
      ensures !HoldsPool(s, t) && !HoldsQueue(s, t)
    {
    }
    assert forall t :: CarriedBy(s, t) == None;
    OkFromPlaced(s);
  }

  lemma MovedInv(s: State, t: Tid)
    requires Inv(s) && CanMove(s, t)
    ensures Inv(Moved(s, t))
  {
    BuffersMoved(s, t);
    match t
    case Worker(i) =>
      LocksWorker(s, i); ListWorker(s, i); NodesWorker(s, i); FrontWorker(s, i); JobsWorker(s, i); StopWorker(s, i);
    case Adder(j) =>
      LocksAdder(s, j); ListAdder(s, j); NodesAdder(s, j); FrontAdder(s, j); JobsAdder(s, j); StopAdder(s, j);
    case Destroyer =>
      LocksDestroyer(s); ListDestroyer(s); FrontDestroyer(s); JobsDestroyer(s); StopDestroyer(s);
      if s.destroyer.TBroadcast? { NodesBroadcast(s); } else { NodesDestroyer(s); }
  }

  lemma WakeInv(s: State, t: Tid)
    requires Inv(s) && (SleepsOnPool(s, t) || SleepsOnQueue(s, t))
    ensures Inv(Wake(s, t))
  {
    LocksWake(s, t); ListWake(s, t); NodesWake(s, t); FrontWake(s, t); JobsWake(s, t); StopWake(s, t);
  }

  lemma FrontCall(s: State, j: Job)
    requires FrontOk(s) && Enabled(s, Call(j))
    ensures FrontOk(Next(s, Call(j)))
  {
  }

  lemma CallInv(s: State, j: Job)
    requires Inv(s) && Enabled(s, Call(j))
    ensures Inv(Next(s, Call(j)))
  {
    hide Locks, ListOk, NodesOk, FrontOk, JobsOk, StopOk;
    var s' := Next(s, Call(j));
    LocksCall(s, j); ListCall(s, j); NodesCall(s, j); FrontCall(s, j);
    JobsSame(s, s', Adder(j));
    StopKept(s, s');
  }

  lemma StepInv(s: State, e: Event)
    requires Inv(s) && Enabled(s, e)
    ensures Inv(Next(s, e))
  {
    hide Inv;
    match e
    case Move(t, None) => MovedInv(s, t);
    case Move(t, Some(u)) => WakeInv(s, u); MovedInv(Wake(s, u), t);
    case Spurious(t) => WakeInv(s, t);
    case Call(j) => CallInv(s, j);
  }

  /** Every state of every run satisfies the invariant. */
  lemma {:induction false} BehaviorInv(max: nat, states: seq<State>, events: seq<Event>, k: nat)
    requires Behavior(max, states, events) && k < |states|
    ensures Inv(states[k])
    decreases k
  {
    if k == 0 {
      InitInv(max);
    } else {
      BehaviorInv(max, states, events, k - 1);
      StepInv(states[k - 1], events[k - 1]);
    }
  }
}
