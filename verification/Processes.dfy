/** The process table: requests claim entries, look indices up and reap, all at once.

    Every request is served by its own thread.  A build claims the first entry whose
    `is_running` it can exchange from false to true, clears the entry (storing true once more)
    and at last has its process id and streams.  A stop or output request
    checks an index that its client chose, kills or reads what the entry then names, and may go
    on to clean up: an assertion that the entry is running, the wait for the process the entry
    then names, and the store of false. */
module Processes {
  import opened Wrappers

  const MAX_PROCESS: nat := 4096

  datatype Request =
    | Free
    | Trying(at: nat)                 // the next entry to claim; MAX_PROCESS for none left
    | Claimed(at: nat, build: nat)    // the entry still as the last build left it
    | Launching(at: nat, build: nat)  // the entry cleared, without process id and streams
    | Checked(at: nat)                // index accepted; to kill or to read
    | Asserting(at: nat)              // to clean up; the assertion is next
    | Waiting(at: nat)                // to wait for the entry's process
    | Storing(at: nat, build: nat)    // has waited for that build's process; to store false

  /** What is left of the server: nothing when the assertion failed, nothing known when
      an entry without a process id was used: kill(0) and waitpid(0) are about the server's
      own group, and the streams are NULL.  An entry has both from the one step Launch on. */
  datatype Fate = Serving | Aborted | Unknown

  /** Beside the table: the entries of the builds whose processes nobody has waited for, and
      how many builds claimed an entry and were waited for.  Builds are numbered in the order of
      their claims and stand for their process ids. */
  datatype Snapshot = Snapshot(running: seq<bool>, pids: seq<Option<nat>>, requests: seq<Request>,
                               unreaped: map<nat, nat>, claims: nat, reaps: nat, fate: Fate)

  datatype Event =
    | Build(t: nat)
    | Try(t: nat)
    | Fill(t: nat)
    | Launch(t: nat)
    | Check(t: nat, pidx: int)
    | Use(t: nat, ended: bool)  // kill has succeeded, or the output has ended
    | Assert(t: nat)
    | Wait(t: nat)
    | Store(t: nat)

  function Init(requests: nat): Snapshot {
    Snapshot(seq(MAX_PROCESS, _ => false), seq(MAX_PROCESS, _ => None), seq(requests, _ => Free), map[], 0, 0, Serving)
  }

  predicate CheckPidx(running: seq<bool>, pidx: int)
    requires |running| == MAX_PROCESS
  {
    !(pidx < 0 || pidx >= MAX_PROCESS || !running[pidx])
  }

  predicate WellFormed(s: Snapshot) {
    && |s.running| == |s.pids| == MAX_PROCESS
    && forall t :: 0 <= t < |s.requests| && !s.requests[t].Free? ==>
         if s.requests[t].Trying? then s.requests[t].at <= MAX_PROCESS else s.requests[t].at < MAX_PROCESS
  }

  predicate Enabled(s: Snapshot, e: Event) {
    && s.fate.Serving? && e.t < |s.requests|
    && var r := s.requests[e.t];
       match e
       case Build(_) => r.Free?
       case Try(_) => r.Trying?
       case Fill(_) => r.Claimed?
       case Launch(_) => r.Launching?
       case Check(_, _) => r.Free?
       case Use(_, _) => r.Checked?
       case Assert(_) => r.Asserting?
       case Wait(_) => r.Waiting?
       case Store(_) => r.Storing?
  }

  /** The state with request `t` in another place. */
  function Moved(s: Snapshot, t: nat, r: Request): Snapshot
    requires t < |s.requests|
  {
    s.(requests := s.requests[t := r])
  }

  function Next(s: Snapshot, e: Event): Snapshot
    requires WellFormed(s) && Enabled(s, e)
  {
    var r := s.requests[e.t];
    match e
    case Build(t) => Moved(s, t, Trying(0))
    case Try(t) =>
      if r.at == MAX_PROCESS then Moved(s, t, Free)
      else if s.running[r.at] then Moved(s, t, Trying(r.at + 1))
      else
        Moved(s, t, Claimed(r.at, s.claims)).(running := s.running[r.at := true],
          unreaped := s.unreaped[s.claims := r.at], claims := s.claims + 1)
    case Fill(t) =>
      Moved(s, t, Launching(r.at, r.build)).(running := s.running[r.at := true], pids := s.pids[r.at := None])
    case Launch(t) => Moved(s, t, Free).(pids := s.pids[r.at := Some(r.build)])
    case Check(t, pidx) => if CheckPidx(s.running, pidx) then Moved(s, t, Checked(pidx)) else s
    case Use(t, ended) =>
      if s.pids[r.at] == None then s.(fate := Unknown)
      else Moved(s, t, if ended then Asserting(r.at) else Free)
    case Assert(t) => if s.running[r.at] then Moved(s, t, Waiting(r.at)) else s.(fate := Aborted)
    case Store(t) => Moved(s, t, Free).(running := s.running[r.at := false])
    case Wait(t) =>
      match s.pids[r.at]
      case None => s.(fate := Unknown)
      case Some(b) => // a process that was waited for before is not waited for again
        Moved(s, t, Storing(r.at, b)).(
          unreaped := s.unreaped - {b}, reaps := s.reaps + if b in s.unreaped then 1 else 0)
  }

  ghost predicate Behavior(requests: nat, states: seq<Snapshot>, events: seq<Event>) {
    && |states| == |events| + 1
    && states[0] == Init(requests)
    && forall k :: 0 <= k < |events| ==>
         WellFormed(states[k]) && Enabled(states[k], events[k]) && states[k + 1] == Next(states[k], events[k])
  }

  lemma NextWellFormed(s: Snapshot, e: Event)
    requires WellFormed(s) && Enabled(s, e)
    ensures WellFormed(Next(s, e)) && |Next(s, e).requests| == |s.requests|
  {
  }
}
