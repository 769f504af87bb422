/** The linked job queue as the lock holder sees it: nodes, `front`, `rear` and `job_count`
    updated in place. */
module JobQueue {

  class Job {
    const arg: int
    var next: Job?

    constructor (arg: int)
      ensures this.arg == arg && next == null
    {
      this.arg := arg;
      next := null;
    }
  }

  function Nth(nodes: seq<Job>, k: int): Job? {
    if 0 <= k < |nodes| then nodes[k] else null
  }

  class Queue {
    var front: Job?
    var rear: Job?
    var jobCount: int
    /** The jobs linked from `front` on, in order. */
    ghost var nodes: seq<Job>

    ghost predicate Valid()
      reads this, nodes
    {
      && (forall k, l :: 0 <= k < l < |nodes| ==> nodes[k] != nodes[l])
      && (forall k :: 0 <= k < |nodes| ==> nodes[k].next == Nth(nodes, k + 1))
      && front == Nth(nodes, 0)
      && rear == Nth(nodes, |nodes| - 1)
      && jobCount == |nodes|
    }

    constructor ()
      ensures Valid() && nodes == []
    {
      front, rear, jobCount, nodes := null, null, 0, [];
    }

    method Enqueue(job: Job)
      requires Valid() && job !in nodes && job.next == null
      modifies this, rear
      ensures Valid() && nodes == old(nodes) + [job]
    {
      if rear == null {
        front := job;
        rear := job;
      } else {
        rear.next := job;
        rear := job;
      }
      jobCount := jobCount + 1;
      nodes := nodes + [job];
    }

    /** The first job, or null where the code would wait for one. */
    method Dequeue() returns (job: Job?)
      requires Valid()
      modifies this
      ensures Valid()
      ensures old(front) == null <==> old(nodes) == []
      ensures old(front) == null ==> job == null && nodes == []
      ensures old(front) != null ==> job != null && old(nodes) == [job] + nodes
    {
      if front == null {
        return null;
      }
      job := front;
      front := job.next;
      if front == null {
        rear := null;
      }
      jobCount := jobCount - 1;
      nodes := nodes[1..];
    }

    lemma Ends()
      requires Valid()
      ensures front == null <==> nodes == []
      ensures front == null ==> rear == null && jobCount == 0
    {
    }

    /** The final drain of threadpool_destroy; each job is freed once. */
    method Drain() returns (freed: seq<Job>)
      requires Valid()
      modifies this
      ensures Valid() && nodes == [] && front == null && rear == null && jobCount == 0
      ensures freed == old(nodes)
    {
      hide Valid;
      freed := [];
      Ends();
      while front != null
        invariant Valid() && freed + nodes == old(nodes) && (front == null <==> nodes == [])
        decreases |nodes|
      {
        ghost var before := nodes;
        var job := Dequeue();
        assert freed + before == freed + [job] + nodes;
        freed := freed + [job];
        Ends();
      }
      Ends();
    }
  }
}
