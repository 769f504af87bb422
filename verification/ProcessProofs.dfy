/** What keeps the process table in order, and what does not. */
module ProcessProofs {
  import opened Wrappers
  import Slots
  import opened Processes

  /* ---- What ought to hold ---- */

  /** A build whose process nobody has waited for has entry `i`. */
  ghost predicate Held(unreaped: map<nat, nat>, i: nat) {
    exists b :: b in unreaped && unreaped[b] == i
  }

  /** No two such builds share an entry. */
  ghost predicate Unshared(unreaped: map<nat, nat>) {
    forall a, b :: a in unreaped && b in unreaped && a != b ==> unreaped[a] != unreaped[b]
  }

  ghost predicate BeingStored(requests: seq<Request>, i: nat) {
    exists t :: 0 <= t < |requests| && requests[t].Storing? && requests[t].at == i
  }

  /** The entries of such builds are running, and the other running ones are about to be
      freed by the request that has waited. */
  ghost predicate Matching(s: Snapshot)
    requires WellFormed(s)
  {
    && (forall b :: b in s.unreaped ==> s.unreaped[b] < MAX_PROCESS && s.running[s.unreaped[b]])
    && (forall i: nat :: i < MAX_PROCESS && s.running[i] ==> Held(s.unreaped, i) || BeingStored(s.requests, i))
  }

  /** Which entries these builds have. */
  ghost function Holdings(unreaped: map<nat, nat>): (r: seq<bool>)
    ensures |r| == MAX_PROCESS && forall i :: 0 <= i < MAX_PROCESS ==> (r[i] <==> Held(unreaped, i))
  {
    seq(MAX_PROCESS, i requires 0 <= i => Held(unreaped, i))
  }

  /** All of this; the entries held number claims minus reaps; and no entry was used that had no
      process id. */
  ghost predicate Tidy(s: Snapshot) {
    && WellFormed(s) && !s.fate.Unknown? && Matching(s) && Unshared(s.unreaped)
    && Slots.Marked(Holdings(s.unreaped)) + s.reaps == s.claims
  }

  predicate Starts(r: Request, i: nat, b: nat) {
    r == Claimed(i, b) || r == Launching(i, b)
  }

  ghost predicate Starting(requests: seq<Request>, i: nat, b: nat) {
    exists t :: 0 <= t < |requests| && Starts(requests[t], i, b)
  }

  /** An id in the table belongs to a build of this entry; an unreaped build is still starting or
      has its id in its entry. */
  ghost predicate Named(s: Snapshot)
    requires WellFormed(s)
  {
    && (forall b :: b in s.unreaped ==> b < s.claims && s.unreaped[b] < MAX_PROCESS)
    && (forall i, b :: 0 <= i < MAX_PROCESS && s.pids[i] == Some(b) ==>
          b < s.claims && (b in s.unreaped ==> s.unreaped[b] == i))
    && (forall b :: b in s.unreaped ==> s.pids[s.unreaped[b]] == Some(b) || Starting(s.requests, s.unreaped[b], b))
  }

  /** A starting build is unreaped, has no id in the table yet, and is started by one request. */
  ghost predicate Started(s: Snapshot)
    requires WellFormed(s)
  {
    forall t, i: nat, b: nat :: 0 <= t < |s.requests| && Starts(s.requests[t], i, b) ==>
      && b in s.unreaped && s.unreaped[b] == i
      && Some(b) !in s.pids
      && forall u, k: nat :: 0 <= u < |s.requests| && Starts(s.requests[u], k, b) ==> u == t
  }

  ghost predicate Linked(s: Snapshot)
    requires WellFormed(s)
  {
    Named(s) && Started(s)
  }

  /** An entry is used and waited on only with a process id in it, and it is freed only when no
      build has it whose process nobody has waited for. */
  ghost predicate Proper(s: Snapshot, e: Event)
    requires WellFormed(s) && Enabled(s, e)
  {
    match e
    case Use(t, _) => s.pids[s.requests[t].at].Some?
    case Wait(t) => s.pids[s.requests[t].at].Some?
    case Store(t) => !Held(s.unreaped, s.requests[t].at)
    case _ => true
  }

  /* ---- Single steps ---- */

  lemma HoldingsClaim(unreaped: map<nat, nat>, b: nat, i: nat)
    requires b !in unreaped && !Held(unreaped, i) && i < MAX_PROCESS
    ensures Slots.Marked(Holdings(unreaped[b := i])) == Slots.Marked(Holdings(unreaped)) + 1
  {
    var m := unreaped[b := i];
    forall k: nat | k < MAX_PROCESS ensures Holdings(m)[k] == Holdings(unreaped)[i := true][k] {
      if c :| c in unreaped && unreaped[c] == k { assert m[c] == k; }
      assert m[b] == i;
    }
    assert Holdings(m) == Holdings(unreaped)[i := true];
    Slots.MarkedUpdate(Holdings(unreaped), i, true);
  }

  lemma HoldingsReap(unreaped: map<nat, nat>, b: nat)
    requires b in unreaped && Unshared(unreaped) && unreaped[b] < MAX_PROCESS
    ensures Slots.Marked(Holdings(unreaped - {b})) + 1 == Slots.Marked(Holdings(unreaped))
  {
    var m, i := unreaped - {b}, unreaped[b];
    forall k: nat | k < MAX_PROCESS ensures Holdings(m)[k] == Holdings(unreaped)[i := false][k] {
      if k != i && Held(unreaped, k) {
        var c :| c in unreaped && unreaped[c] == k;
        assert c in m && m[c] == k;
      }
    }
    assert Holdings(m) == Holdings(unreaped)[i := false];
    assert Held(unreaped, i);
    Slots.MarkedUpdate(Holdings(unreaped), i, false);
  }

  /** A request that neither starts nor ends a store has moved, and the table is the same. */
  lemma MovedKeeps(s: Snapshot, t: nat, r: Request)
    requires Tidy(s) && Linked(s) && t < |s.requests| && WellFormed(Moved(s, t, r))
    requires !s.requests[t].Storing? && !s.requests[t].Claimed? && !s.requests[t].Launching?
    requires !r.Claimed? && !r.Launching?
    ensures Tidy(Moved(s, t, r)) && Linked(Moved(s, t, r))
  {
    StoringKept(s.requests, t, r);
    StartingKept(s.requests, t, r);
  }

  lemma StoringKept(requests: seq<Request>, t: nat, r: Request)
    requires t < |requests| && !requests[t].Storing?
    ensures forall i :: BeingStored(requests, i) ==> BeingStored(requests[t := r], i)
  {
    forall i | BeingStored(requests, i) ensures BeingStored(requests[t := r], i) {
      var u :| 0 <= u < |requests| && requests[u].Storing? && requests[u].at == i;
      assert requests[t := r][u] == requests[u];
    }
  }

  lemma StartingKept(requests: seq<Request>, t: nat, r: Request)
    requires t < |requests| && !requests[t].Claimed? && !requests[t].Launching?
    ensures forall i, b :: Starting(requests, i, b) ==> Starting(requests[t := r], i, b)
  {
    forall i, b | Starting(requests, i, b) ensures Starting(requests[t := r], i, b) {
      var u :| 0 <= u < |requests| && Starts(requests[u], i, b);
      assert requests[t := r][u] == requests[u];
    }
  }

  lemma ClaimKeeps(s: Snapshot, t: nat)
    requires Tidy(s) && Linked(s) && Enabled(s, Try(t))
    requires s.requests[t].at < MAX_PROCESS && !s.running[s.requests[t].at]
    ensures Tidy(Next(s, Try(t))) && Linked(Next(s, Try(t)))
  {
    var i, b, s' := s.requests[t].at, s.claims, Next(s, Try(t));
    assert !Held(s.unreaped, i);
    HoldingsClaim(s.unreaped, b, i);
    StoringKept(s.requests, t, Claimed(i, b));
    ClaimMatching(s, s', i, b);
    ClaimLinked(s, t);
  }

  lemma ClaimMatching(s: Snapshot, s': Snapshot, i: nat, b: nat)
    requires WellFormed(s) && WellFormed(s') && Matching(s) && i < MAX_PROCESS && !s.running[i] && b !in s.unreaped
    requires s'.running == s.running[i := true] && s'.unreaped == s.unreaped[b := i]
    requires forall k :: BeingStored(s.requests, k) ==> BeingStored(s'.requests, k)
    ensures Matching(s')
  {
    hide BeingStored;
    forall k: nat | k < MAX_PROCESS && s'.running[k] ensures Held(s'.unreaped, k) || BeingStored(s'.requests, k) {
      if k == i {
        assert s'.unreaped[b] == i;
      } else if c :| c in s.unreaped && s.unreaped[c] == k {
        assert c in s'.unreaped && s'.unreaped[c] == k;
      }
    }
  }

  lemma LinkedNamed(s: Snapshot)
    requires WellFormed(s) && Linked(s)
    ensures Named(s)
  {
  }

  lemma ClaimLinked(s: Snapshot, t: nat)
    requires WellFormed(s) && Linked(s) && Enabled(s, Try(t))
    requires s.requests[t].at < MAX_PROCESS && !s.running[s.requests[t].at]
    ensures Linked(Next(s, Try(t)))
  {
    hide Named, Started;
    NextWellFormed(s, Try(t));
    ClaimNamed(s, t);
    ClaimStarted(s, t);
  }

  lemma ClaimNamed(s: Snapshot, t: nat)
    requires WellFormed(s) && Named(s) && Enabled(s, Try(t)) && WellFormed(Next(s, Try(t)))
    requires s.requests[t].at < MAX_PROCESS && !s.running[s.requests[t].at]
    ensures Named(Next(s, Try(t)))
  {
    var i, b, s' := s.requests[t].at, s.claims, Next(s, Try(t));
    StartingKept(s.requests, t, Claimed(i, b));
    assert Starts(s'.requests[t], i, b);
  }

  lemma ClaimStarted(s: Snapshot, t: nat)
    requires WellFormed(s) && Named(s) && Started(s) && Enabled(s, Try(t)) && WellFormed(Next(s, Try(t)))
    requires s.requests[t].at < MAX_PROCESS && !s.running[s.requests[t].at]
    ensures Started(Next(s, Try(t)))
  {
    assert s.claims !in s.unreaped;
    forall i | 0 <= i < MAX_PROCESS ensures s.pids[i] != Some(s.claims) {}
  }

  /** A starting build has its entry to itself. */
  lemma StartingAlone(s: Snapshot, t: nat, i: nat, b: nat)
    requires Tidy(s) && Linked(s) && t < |s.requests| && Starts(s.requests[t], i, b)
    ensures b in s.unreaped && s.unreaped[b] == i && i < MAX_PROCESS && s.running[i]
    ensures forall c :: c in s.unreaped && s.unreaped[c] == i ==> c == b
    ensures forall u, k, c :: 0 <= u < |s.requests| && u != t && Starts(s.requests[u], k, c) && k == i ==> c == b
  {
  }

  /** The same table, and nobody has stopped storing. */
  lemma SameMatching(s: Snapshot, s': Snapshot)
    requires WellFormed(s) && WellFormed(s') && Matching(s) && s'.running == s.running && s'.unreaped == s.unreaped
    requires forall k :: BeingStored(s.requests, k) ==> BeingStored(s'.requests, k)
    ensures Matching(s')
  {
    hide Held, BeingStored;
  }

  lemma FillNamed(s: Snapshot, t: nat)
    requires WellFormed(s) && Named(s) && Unshared(s.unreaped) && Started(s) && Enabled(s, Fill(t))
    ensures Named(Next(s, Fill(t)))
  {
    var i, b, s' := s.requests[t].at, s.requests[t].build, Next(s, Fill(t));
    assert Starts(s.requests[t], i, b) && Starts(s'.requests[t], i, b);
    forall k, c | Starting(s.requests, k, c) ensures Starting(s'.requests, k, c) {
      var u :| 0 <= u < |s.requests| && Starts(s.requests[u], k, c);
      assert Starts(s'.requests[u], k, c);
    }
    FillNamedTable(s, s', i, b);
  }

  /** The id of the entry's build, which is starting, is cleared. */
  lemma FillNamedTable(s: Snapshot, s': Snapshot, i: nat, b: nat)
    requires WellFormed(s) && WellFormed(s') && Named(s) && Unshared(s.unreaped) && i < MAX_PROCESS
    requires s'.pids == s.pids[i := None] && s'.unreaped == s.unreaped && s'.claims == s.claims
    requires b in s.unreaped && s.unreaped[b] == i && Starting(s'.requests, i, b)
    requires forall k, c :: Starting(s.requests, k, c) ==> Starting(s'.requests, k, c)
    ensures Named(s')
  {
    hide Starting;
  }

  lemma FillStarted(s: Snapshot, t: nat)
    requires WellFormed(s) && Started(s) && Enabled(s, Fill(t))
    ensures Started(Next(s, Fill(t)))
  {
    var i, b, s' := s.requests[t].at, s.requests[t].build, Next(s, Fill(t));
    forall u, k: nat, c: nat | 0 <= u < |s.requests| && Starts(s'.requests[u], k, c)
      ensures Starts(s.requests[u], k, c)
    {
    }
    forall c: nat | Some(c) in s'.pids ensures Some(c) in s.pids {}
    StartedFrom(s, s');
  }

  /** Requests that start a build did so before, and no id is new. */
  lemma StartedFrom(s: Snapshot, s': Snapshot)
    requires WellFormed(s) && WellFormed(s') && Started(s) && |s'.requests| == |s.requests| && s'.unreaped == s.unreaped
    requires forall u, k: nat, c: nat :: 0 <= u < |s.requests| && Starts(s'.requests[u], k, c) ==>
            Starts(s.requests[u], k, c)
    requires forall c: nat :: Some(c) in s'.pids ==> Some(c) in s.pids
    ensures Started(s')
  {
    hide Starts;
  }

  lemma FillKeeps(s: Snapshot, t: nat)
    requires Tidy(s) && Linked(s) && Enabled(s, Fill(t))
    ensures Tidy(Next(s, Fill(t))) && Linked(Next(s, Fill(t)))
    ensures Next(s, Fill(t)).running == s.running
  {
    hide Named, Started, Matching, Held, BeingStored;
    var i, b := s.requests[t].at, s.requests[t].build;
    assert s.running[i] by { StartingAlone(s, t, i, b); }
    StoringKept(s.requests, t, Launching(i, b));
    NextWellFormed(s, Fill(t));
    SameMatching(s, Next(s, Fill(t)));
    FillNamed(s, t);
    FillStarted(s, t);
  }

  lemma LaunchNamed(s: Snapshot, t: nat)
    requires WellFormed(s) && Named(s) && Unshared(s.unreaped) && Started(s) && Enabled(s, Launch(t))
    ensures Named(Next(s, Launch(t)))
  {
    var i, b, s' := s.requests[t].at, s.requests[t].build, Next(s, Launch(t));
    assert Starts(s.requests[t], i, b);
    forall k, c | c != b && Starting(s.requests, k, c) ensures Starting(s'.requests, k, c) {
      var u :| 0 <= u < |s.requests| && Starts(s.requests[u], k, c);
      assert Starts(s'.requests[u], k, c);
    }
    LaunchNamedTable(s, s', i, b);
  }

  /** The id of the entry's build is entered. */
  lemma LaunchNamedTable(s: Snapshot, s': Snapshot, i: nat, b: nat)
    requires WellFormed(s) && WellFormed(s') && Named(s) && Unshared(s.unreaped) && i < MAX_PROCESS
    requires s'.pids == s.pids[i := Some(b)] && s'.unreaped == s.unreaped && s'.claims == s.claims
    requires b in s.unreaped && s.unreaped[b] == i
    requires forall k, c :: c != b && Starting(s.requests, k, c) ==> Starting(s'.requests, k, c)
    ensures Named(s')
  {
    hide Starting;
  }

  lemma LaunchStarted(s: Snapshot, t: nat)
    requires WellFormed(s) && Started(s) && Enabled(s, Launch(t))
    ensures Started(Next(s, Launch(t)))
  {
    var i, b, s' := s.requests[t].at, s.requests[t].build, Next(s, Launch(t));
    assert Starts(s.requests[t], i, b);
    forall u, k: nat, c: nat | 0 <= u < |s.requests| && Starts(s'.requests[u], k, c)
      ensures Starts(s.requests[u], k, c) && c != b
    {
    }
    forall c: nat | Some(c) in s'.pids ensures c == b || Some(c) in s.pids {}
    StartedBut(s, s', b);
  }

  lemma StartedBut(s: Snapshot, s': Snapshot, b: nat)
    requires WellFormed(s) && WellFormed(s') && Started(s) && |s'.requests| == |s.requests| && s'.unreaped == s.unreaped
    requires forall u, k: nat, c: nat :: 0 <= u < |s.requests| && Starts(s'.requests[u], k, c) ==>
               Starts(s.requests[u], k, c) && c != b
    requires forall c: nat :: Some(c) in s'.pids ==> c == b || Some(c) in s.pids
    ensures Started(s')
  {
    hide Starts;
  }

  lemma LaunchKeeps(s: Snapshot, t: nat)
    requires Tidy(s) && Linked(s) && Enabled(s, Launch(t))
    ensures Tidy(Next(s, Launch(t))) && Linked(Next(s, Launch(t)))
  {
    hide Named, Started, Matching, Held, BeingStored;
    StoringKept(s.requests, t, Free);
    NextWellFormed(s, Launch(t));
    SameMatching(s, Next(s, Launch(t)));
    LaunchNamed(s, t);
    LaunchStarted(s, t);
  }

  lemma WaitKeeps(s: Snapshot, t: nat)
    requires Tidy(s) && Linked(s) && Enabled(s, Wait(t)) && s.pids[s.requests[t].at].Some?
    ensures Tidy(Next(s, Wait(t))) && Linked(Next(s, Wait(t)))
  {
    var i, s' := s.requests[t].at, Next(s, Wait(t));
    var b := s.pids[i].value;
    StoringKept(s.requests, t, Storing(i, b));
    StartingKept(s.requests, t, Storing(i, b));
    assert s'.requests[t].Storing? && BeingStored(s'.requests, i);
    if b in s.unreaped {
      HoldingsReap(s.unreaped, b);
    } else {
      assert s'.unreaped == s.unreaped;
    }
    WaitMatching(s, s', i, b);
    WaitLinked(s, t, i, b);
  }

  lemma WaitMatching(s: Snapshot, s': Snapshot, i: nat, b: nat)
    requires WellFormed(s) && WellFormed(s') && Matching(s) && (b in s.unreaped ==> s.unreaped[b] == i)
    requires s'.running == s.running && s'.unreaped == s.unreaped - {b} && BeingStored(s'.requests, i)
    requires forall k :: BeingStored(s.requests, k) ==> BeingStored(s'.requests, k)
    ensures Matching(s')
  {
    hide BeingStored;
    forall k: nat | k < MAX_PROCESS && s'.running[k] ensures Held(s'.unreaped, k) || BeingStored(s'.requests, k) {
      if k != i && Held(s.unreaped, k) {
        var c :| c in s.unreaped && s.unreaped[c] == k;
        assert c in s'.unreaped && s'.unreaped[c] == k;
      }
    }
  }

  lemma WaitLinked(s: Snapshot, t: nat, i: nat, b: nat)
    requires WellFormed(s) && Linked(s) && Enabled(s, Wait(t)) && i == s.requests[t].at && s.pids[i] == Some(b)
    requires forall k, c :: Starting(s.requests, k, c) ==> Starting(Next(s, Wait(t)).requests, k, c)
    ensures Linked(Next(s, Wait(t)))
  {
    NamedReaped(s, Next(s, Wait(t)), b);
    StartedReaped(s, t, i, b);
  }

  lemma NamedReaped(s: Snapshot, s': Snapshot, b: nat)
    requires WellFormed(s) && WellFormed(s') && Named(s)
    requires s'.pids == s.pids && s'.claims == s.claims && s'.unreaped == s.unreaped - {b}
    requires forall k, c :: Starting(s.requests, k, c) ==> Starting(s'.requests, k, c)
    ensures Named(s')
  {
    hide Starting;
  }

  /** No starting build is waited for: its id is not in the table yet. */
  lemma StartedReaped(s: Snapshot, t: nat, i: nat, b: nat)
    requires WellFormed(s) && Started(s) && Enabled(s, Wait(t)) && i == s.requests[t].at && s.pids[i] == Some(b)
    ensures Started(Next(s, Wait(t)))
  {
    assert Some(b) in s.pids;
  }

  lemma StoreIsProperExactlyWhen(s: Snapshot, t: nat)
    requires Tidy(s) && Linked(s) && Enabled(s, Store(t))
    ensures Tidy(Next(s, Store(t))) <==> Proper(s, Store(t))
    ensures Linked(Next(s, Store(t)))
  {
    hide Named, Started;
    NextWellFormed(s, Store(t));
    StoreMatchingExactlyWhen(s, t);
    StartingKept(s.requests, t, Free);
    NamedKept(s, Next(s, Store(t)));
    StartedKept(s, t);
  }

  lemma StoreMatchingExactlyWhen(s: Snapshot, t: nat)
    requires WellFormed(s) && Matching(s) && Enabled(s, Store(t))
    ensures var s' := Next(s, Store(t)); WellFormed(s') && (Matching(s') <==> !Held(s.unreaped, s.requests[t].at))
  {
    var i, s' := s.requests[t].at, Next(s, Store(t));
    NextWellFormed(s, Store(t));
    forall k: nat | k != i && BeingStored(s.requests, k) ensures BeingStored(s'.requests, k) {
      var u :| 0 <= u < |s.requests| && s.requests[u].Storing? && s.requests[u].at == k;
      assert s'.requests[u] == s.requests[u];
    }
  }

  lemma NamedKept(s: Snapshot, s': Snapshot)
    requires WellFormed(s) && WellFormed(s') && Named(s)
    requires s'.pids == s.pids && s'.claims == s.claims && s'.unreaped == s.unreaped
    requires forall k, c :: Starting(s.requests, k, c) ==> Starting(s'.requests, k, c)
    ensures Named(s')
  {
    hide Starting;
  }

  lemma StartedKept(s: Snapshot, t: nat)
    requires WellFormed(s) && Started(s) && Enabled(s, Store(t))
    ensures WellFormed(Next(s, Store(t))) && Started(Next(s, Store(t)))
  {
    NextWellFormed(s, Store(t));
  }

  lemma StepIsProperExactlyWhen(s: Snapshot, e: Event)
    requires Tidy(s) && Linked(s) && Enabled(s, e)
    ensures WellFormed(Next(s, e)) && (Tidy(Next(s, e)) <==> Proper(s, e))
    ensures Proper(s, e) ==> Linked(Next(s, e))
  {
    hide Tidy, Linked;
    assert WellFormed(s) by { TidyWellFormed(s); }
    NextWellFormed(s, e);
    var r := s.requests[e.t];
    match e
    case Build(t) => MovedKeeps(s, t, Trying(0));
    case Try(t) =>
      if r.at == MAX_PROCESS {
        MovedKeeps(s, t, Free);
      } else if s.running[r.at] {
        MovedKeeps(s, t, Trying(r.at + 1));
      } else {
        ClaimKeeps(s, t);
      }
    case Fill(t) => FillKeeps(s, t);
    case Launch(t) => LaunchKeeps(s, t);
    case Check(t, pidx) => if CheckPidx(s.running, pidx) { MovedKeeps(s, t, Checked(pidx)); }
    case Use(t, ended) =>
      if s.pids[r.at] == None {
        FateMatters(s, Unknown);
      } else {
        MovedKeeps(s, t, if ended then Asserting(r.at) else Free);
      }
    case Assert(t) => if s.running[r.at] { MovedKeeps(s, t, Waiting(r.at)); } else { FateMatters(s, Aborted); }
    case Wait(t) => if s.pids[r.at] == None { FateMatters(s, Unknown); } else { WaitKeeps(s, t); }
    case Store(t) => StoreIsProperExactlyWhen(s, t);
  }

  lemma TidyWellFormed(s: Snapshot)
    requires Tidy(s)
    ensures WellFormed(s)
  {
  }

  lemma FateMatters(s: Snapshot, fate: Fate)
    requires Tidy(s) && Linked(s)
    ensures WellFormed(s.(fate := fate)) && (Tidy(s.(fate := fate)) <==> !fate.Unknown?) && Linked(s.(fate := fate))
  {
  }

  /* ---- Runs ---- */

  ghost predicate AlwaysTidy(states: seq<Snapshot>, n: nat)
    requires n < |states|
  {
    forall k :: 0 <= k <= n ==> Tidy(states[k])
  }

  ghost predicate AlwaysProper(requests: nat, states: seq<Snapshot>, events: seq<Event>, n: nat)
    requires Behavior(requests, states, events) && n <= |events|
  {
    forall k :: 0 <= k < n ==> Proper(states[k], events[k])
  }

  /** In every interleaving of any number of requests the table stays tidy for the first n steps
      if and only if these steps are proper. */
  lemma {:induction false} TidyExactlyWhen(requests: nat, states: seq<Snapshot>, events: seq<Event>, n: nat)
    requires Behavior(requests, states, events) && n <= |events|
    ensures WellFormed(states[n])
    ensures AlwaysTidy(states, n) <==> AlwaysProper(requests, states, events, n)
    ensures AlwaysTidy(states, n) ==> Linked(states[n])
    decreases n
  {
    hide Tidy, Linked, Proper, Next;
    if n == 0 {
      InitTidy(requests);
    } else {
      TidyExactlyWhen(requests, states, events, n - 1);
      assert states[n] == Next(states[n - 1], events[n - 1]);
      NextWellFormed(states[n - 1], events[n - 1]);
      if AlwaysTidy(states, n - 1) {
        StepIsProperExactlyWhen(states[n - 1], events[n - 1]);
      }
    }
  }

  lemma InitTidy(requests: nat)
    ensures Tidy(Init(requests)) && Linked(Init(requests))
  {
    assert Holdings(map[]) == seq(MAX_PROCESS, _ => false);
    Slots.MarkedNone(MAX_PROCESS);
  }

  /** In a tidy table an index is accepted exactly when an unreaped build has it or a
      request that has waited is about to free it; and when no request is, the running entries number
      claims minus reaps. */
  lemma {:induction false} AcceptedExactlyWhen(s: Snapshot, pidx: int)
    requires Tidy(s)
    ensures pidx >= 0 && Held(s.unreaped, pidx) ==> CheckPidx(s.running, pidx)
    ensures CheckPidx(s.running, pidx) ==> Held(s.unreaped, pidx) || BeingStored(s.requests, pidx)
    ensures (forall t :: 0 <= t < |s.requests| ==> !s.requests[t].Storing?) ==>
            Slots.Marked(s.running) + s.reaps == s.claims
  {
    if forall t :: 0 <= t < |s.requests| ==> !s.requests[t].Storing? {
      assert s.running == Holdings(s.unreaped);
    }
  }

  /* ---- A condition that callers can check ---- */

  predicate PastCheck(r: Request) {
    r.Checked? || r.Asserting? || r.Waiting? || r.Storing?
  }

  /** A request that starts a build in this entry, or has had its index accepted. */
  predicate Occupies(r: Request, i: int) {
    (PastCheck(r) || r.Claimed? || r.Launching?) && r.at == i
  }

  /** An index is used by one request at a time, and not before its build has returned. */
  predicate Careful(s: Snapshot, e: Event) {
    e.Check? ==> forall u :: 0 <= u < |s.requests| ==> !Occupies(s.requests[u], e.pidx)
  }

  /** The entry of a request that is past its check is its own, running, with the process that
      will be waited for until the request has waited for it. */
  ghost predicate Private(s: Snapshot, t: nat)
    requires WellFormed(s) && t < |s.requests| && PastCheck(s.requests[t])
  {
    var i := s.requests[t].at;
    && s.running[i] && s.pids[i].Some?
    && (s.pids[i].value in s.unreaped <==> !s.requests[t].Storing?)
    && forall u :: 0 <= u < |s.requests| && u != t ==> !Occupies(s.requests[u], i)
  }

  ghost predicate AllPrivate(s: Snapshot)
    requires WellFormed(s)
  {
    forall t :: 0 <= t < |s.requests| && PastCheck(s.requests[t]) ==> Private(s, t)
  }

  lemma PrivateIsProper(s: Snapshot, e: Event)
    requires Tidy(s) && Linked(s) && AllPrivate(s) && Enabled(s, e)
    ensures Proper(s, e) && Next(s, e).fate.Serving?
  {
    hide Tidy, Named, Started, Held;
    assert WellFormed(s) by { TidyWellFormed(s); }
    if PastCheck(s.requests[e.t]) {
      assert Private(s, e.t);
      if s.requests[e.t].Storing? { PrivateNotHeld(s, e.t); }
    }
  }

  /** The request that has waited is alone with its entry: no unreaped build has it. */
  lemma PrivateNotHeld(s: Snapshot, t: nat)
    requires WellFormed(s) && Named(s) && t < |s.requests| && s.requests[t].Storing? && Private(s, t)
    ensures !Held(s.unreaped, s.requests[t].at)
  {
    var i := s.requests[t].at;
    forall b | b in s.unreaped ensures s.unreaped[b] != i {
      forall u | 0 <= u < |s.requests| ensures !Starts(s.requests[u], i, b) {
        assert u != t ==> !Occupies(s.requests[u], i);
      }
    }
  }

  /** An index accepted while nobody occupies it is an unreaped build's. */
  lemma CheckedIsPrivate(s: Snapshot, t: nat, pidx: int)
    requires Tidy(s) && Linked(s) && Enabled(s, Check(t, pidx))
    requires Careful(s, Check(t, pidx)) && CheckPidx(s.running, pidx)
    ensures WellFormed(Next(s, Check(t, pidx))) && Private(Next(s, Check(t, pidx)), t)
  {
    NextWellFormed(s, Check(t, pidx));
    if BeingStored(s.requests, pidx) {
      var u :| 0 <= u < |s.requests| && s.requests[u].Storing? && s.requests[u].at == pidx;
      assert Occupies(s.requests[u], pidx);
    }
    var b :| b in s.unreaped && s.unreaped[b] == pidx;
    assert s.pids[pidx] == Some(b);
  }

  lemma OthersStayPrivate(s: Snapshot, e: Event, u: nat)
    requires WellFormed(s) && Named(s) && AllPrivate(s) && Enabled(s, e) && Careful(s, e)
    requires WellFormed(Next(s, e)) && u < |s.requests| && u != e.t && PastCheck(s.requests[u])
    ensures Private(Next(s, e), u)
  {
    var i := s.requests[u].at;
    assert Private(s, u);
    assert !Occupies(s.requests[e.t], i);
    NamedElsewhere(s, e, i);
    StaysPrivate(s, Next(s, e), e.t, u);
  }

  /** A step leaves an entry alone that is running and not occupied by the one who steps. */
  lemma NamedElsewhere(s: Snapshot, e: Event, i: nat)
    requires WellFormed(s) && Named(s) && Enabled(s, e) && i < MAX_PROCESS && s.running[i] && s.pids[i].Some?
    requires Careful(s, e) && exists u :: 0 <= u < |s.requests| && Occupies(s.requests[u], i)
    requires !Occupies(s.requests[e.t], i)
    requires WellFormed(Next(s, e))
    ensures var s' := Next(s, e);
            && s'.running[i] && s'.pids[i] == s.pids[i]
            && (s.pids[i].value in s'.unreaped <==> s.pids[i].value in s.unreaped)
            && s'.requests == s.requests[e.t := s'.requests[e.t]] && !Occupies(s'.requests[e.t], i)
  {
    hide Named;
    match e
    case Check(t, pidx) =>
    case Try(t) => TryElsewhere(s, t, i);
    case Wait(t) => WaitElsewhere(s, t, i);
    case _ =>
  }

  lemma TryElsewhere(s: Snapshot, t: nat, i: nat)
    requires WellFormed(s) && Named(s) && Enabled(s, Try(t)) && i < MAX_PROCESS && s.running[i] && s.pids[i].Some?
    ensures var s' := Next(s, Try(t));
            s'.running[i] && (s.pids[i].value in s'.unreaped <==> s.pids[i].value in s.unreaped)
    ensures !Occupies(s.requests[t], i) && !Occupies(Next(s, Try(t)).requests[t], i)
  {
  }

  lemma WaitElsewhere(s: Snapshot, t: nat, i: nat)
    requires WellFormed(s) && Named(s) && Enabled(s, Wait(t))
    requires i < MAX_PROCESS && s.pids[i].Some? && s.requests[t].at != i
    ensures s.pids[i].value in Next(s, Wait(t)).unreaped <==> s.pids[i].value in s.unreaped
  {
  }

  lemma StaysPrivate(s: Snapshot, s': Snapshot, t: nat, u: nat)
    requires WellFormed(s) && WellFormed(s') && t < |s.requests| == |s'.requests| && u < |s.requests| && u != t
    requires PastCheck(s.requests[u]) && Private(s, u) && s'.requests == s.requests[t := s'.requests[t]]
    requires var i := s.requests[u].at;
             && s'.running[i] && s'.pids[i] == s.pids[i]
             && (s.pids[i].value in s'.unreaped <==> s.pids[i].value in s.unreaped)
             && !Occupies(s'.requests[t], i)
    ensures Private(s', u)
  {
  }

  lemma MoverStaysPrivate(s: Snapshot, e: Event)
    requires Tidy(s) && Linked(s) && AllPrivate(s) && Enabled(s, e) && Careful(s, e) && Proper(s, e)
    requires WellFormed(Next(s, e)) && PastCheck(Next(s, e).requests[e.t])
    ensures Private(Next(s, e), e.t)
  {
    if e.Check? {
      if CheckPidx(s.running, e.pidx) { CheckedIsPrivate(s, e.t, e.pidx); }
    } else {
      assert Private(s, e.t);
    }
  }

  lemma CarefulStep(s: Snapshot, e: Event)
    requires Tidy(s) && Linked(s) && AllPrivate(s) && Enabled(s, e) && Careful(s, e)
    ensures Proper(s, e) && Next(s, e).fate.Serving?
    ensures WellFormed(Next(s, e)) && AllPrivate(Next(s, e))
  {
    hide Tidy, Linked, Private, Proper, Named;
    assert WellFormed(s) by { TidyWellFormed(s); }
    assert Named(s) by { LinkedNamed(s); }
    NextWellFormed(s, e);
    PrivateIsProper(s, e);
    var s' := Next(s, e);
    forall u | 0 <= u < |s'.requests| && PastCheck(s'.requests[u]) ensures Private(s', u) {
      if u == e.t {
        MoverStaysPrivate(s, e);
      } else {
        OthersStayPrivate(s, e, u);
      }
    }
  }

  ghost predicate AlwaysCareful(states: seq<Snapshot>, events: seq<Event>, n: nat)
    requires n <= |events| < |states|
  {
    forall k :: 0 <= k < n ==> Careful(states[k], events[k])
  }

  /** As long as an index is used by one request at a time, and only after its build has
      returned, every step is proper and the table tidy; no assertion fails; and each request that
      cleans up waits for the process of a build nobody has waited for. */
  lemma {:induction false} CarefulIsProper(requests: nat, states: seq<Snapshot>, events: seq<Event>, n: nat)
    requires Behavior(requests, states, events) && n <= |events| && AlwaysCareful(states, events, n)
    ensures AlwaysProper(requests, states, events, n) && AlwaysTidy(states, n)
    ensures states[n].fate.Serving? && WellFormed(states[n]) && AllPrivate(states[n])
    decreases n
  {
    hide Tidy, Linked, Proper, Next, AllPrivate, Careful;
    if n == 0 {
      assert AllPrivate(states[0]) by { InitPrivate(requests); }
    } else {
      CarefulIsProper(requests, states, events, n - 1);
      TidyExactlyWhen(requests, states, events, n - 1);
      assert states[n] == Next(states[n - 1], events[n - 1]);
      CarefulStep(states[n - 1], events[n - 1]);
    }
    TidyExactlyWhen(requests, states, events, n);
  }

  lemma InitPrivate(requests: nat)
    ensures WellFormed(Init(requests)) && AllPrivate(Init(requests))
  {
  }

  /* ---- No build is turned away ---- */

  /** Requests that are about to try entry k or a later one. */
  ghost function TryingFrom(rs: seq<Request>, k: nat): nat {
    if rs == [] then 0 else TryingFrom(rs[1..], k) + (if rs[0].Trying? && rs[0].at >= k then 1 else 0)
  }

  ghost function CountFrom(s: Snapshot, k: nat): nat
    requires |s.running| == MAX_PROCESS && k <= MAX_PROCESS
  {
    Slots.Marked(s.running[k..]) + TryingFrom(s.requests, k)
  }

  /** From entry k on there is room for everyone who runs or tries there. */
  ghost predicate Roomy(s: Snapshot)
    requires |s.running| == MAX_PROCESS
  {
    forall k: nat :: k <= MAX_PROCESS ==> CountFrom(s, k) <= MAX_PROCESS - k
  }

  lemma {:induction false} TryingUpdate(rs: seq<Request>, t: nat, r: Request, k: nat)
    requires t < |rs|
    ensures TryingFrom(rs[t := r], k) + (if rs[t].Trying? && rs[t].at >= k then 1 else 0)
         == TryingFrom(rs, k) + (if r.Trying? && r.at >= k then 1 else 0)
  {
    if t == 0 {
      assert rs[t := r][1..] == rs[1..];
    } else {
      assert rs[t := r][1..] == rs[1..][t - 1 := r];
      TryingUpdate(rs[1..], t - 1, r, k);
    }
  }

  lemma MarkedFromUpdate(running: seq<bool>, k: nat, i: nat, b: bool)
    requires k <= |running| && i < |running|
    ensures Slots.Marked(running[i := b][k..]) + (if k <= i && running[i] then 1 else 0)
         == Slots.Marked(running[k..]) + (if k <= i && b then 1 else 0)
  {
    if k <= i {
      assert running[i := b][k..] == running[k..][i - k := b];
      Slots.MarkedUpdate(running[k..], i - k, b);
    } else {
      assert running[i := b][k..] == running[k..];
    }
  }

  lemma {:induction false} TryingMonotone(rs: seq<Request>, k: nat)
    ensures TryingFrom(rs, k + 1) <= TryingFrom(rs, k)
  {
    if rs != [] { TryingMonotone(rs[1..], k); }
  }

  /** Someone about to try an entry that is running: both count there, neither behind it. */
  lemma TwoAtEntry(s: Snapshot, t: nat)
    requires |s.running| == MAX_PROCESS && t < |s.requests| && s.requests[t].Trying?
    requires s.requests[t].at < MAX_PROCESS && s.running[s.requests[t].at]
    ensures CountFrom(s, s.requests[t].at + 1) + 2 <= CountFrom(s, s.requests[t].at)
  {
    var i := s.requests[t].at;
    assert s.running[i..][1..] == s.running[i + 1..];
    TryingUpdate(s.requests, t, Free, i);
    TryingUpdate(s.requests, t, Free, i + 1);
    TryingMonotone(s.requests[t := Free], i);
  }

  lemma TryKeepsRoom(s: Snapshot, t: nat, k: nat)
    requires WellFormed(s) && Roomy(s) && Enabled(s, Try(t)) && k <= MAX_PROCESS
    ensures CountFrom(Next(s, Try(t)), k) <= MAX_PROCESS - k
  {
    var i, s' := s.requests[t].at, Next(s, Try(t));
    TryingUpdate(s.requests, t, s'.requests[t], k);
    assert s'.requests == s.requests[t := s'.requests[t]];
    assert CountFrom(s, k) <= MAX_PROCESS - k;
    if i < MAX_PROCESS {
      if s.running[i] {
        if k == i + 1 {
          TwoAtEntry(s, t);
          assert CountFrom(s, i) <= MAX_PROCESS - i;
        }
      } else {
        MarkedFromUpdate(s.running, k, i, true);
      }
    }
  }

  lemma StepKeepsRoom(s: Snapshot, e: Event)
    requires Tidy(s) && Linked(s) && Roomy(s) && Enabled(s, e)
    requires WellFormed(Next(s, e)) && CountFrom(Next(s, e), 0) <= MAX_PROCESS
    ensures Roomy(Next(s, e))
  {
    forall k: nat | k <= MAX_PROCESS ensures CountFrom(Next(s, e), k) <= MAX_PROCESS - k {
      if e.Fill? { FillKeeps(s, e.t); }
      StepKeepsRoomAt(s, e, k);
    }
  }

  lemma StepKeepsRoomAt(s: Snapshot, e: Event, k: nat)
    requires WellFormed(s) && Roomy(s) && Enabled(s, e) && k <= MAX_PROCESS
    requires e.Fill? ==> Next(s, e).running == s.running
    requires WellFormed(Next(s, e)) && CountFrom(Next(s, e), 0) <= MAX_PROCESS
    ensures CountFrom(Next(s, e), k) <= MAX_PROCESS - k
  {
    assert CountFrom(s, k) <= MAX_PROCESS - k;
    match e
    case Try(t) => TryKeepsRoom(s, t, k);
    case Store(t) =>
      TryingUpdate(s.requests, t, Free, k);
      MarkedFromUpdate(s.running, k, s.requests[t].at, false);
    case _ =>
      TryingUpdate(s.requests, e.t, Next(s, e).requests[e.t], k);
      assert Next(s, e).requests == s.requests[e.t := Next(s, e).requests[e.t]];
  }

  lemma {:induction false} NobodyTrying(n: nat, k: nat)
    ensures TryingFrom(seq(n, _ => Free), k) == 0
  {
    if n > 0 {
      assert seq(n, _ => Free)[1..] == seq(n - 1, _ => Free);
      NobodyTrying(n - 1, k);
    }
  }

  lemma InitRoomy(requests: nat)
    ensures Roomy(Init(requests))
  {
    forall k: nat | k <= MAX_PROCESS ensures CountFrom(Init(requests), k) == 0 {
      assert Init(requests).running[k..] == seq(MAX_PROCESS - k, _ => false);
      Slots.MarkedNone(MAX_PROCESS - k);
      NobodyTrying(requests, k);
    }
  }

  /** Never more than MAX_PROCESS builds running or trying. */
  ghost predicate NeverCrowded(states: seq<Snapshot>) {
    forall k :: 0 <= k < |states| ==> |states[k].running| == MAX_PROCESS && CountFrom(states[k], 0) <= MAX_PROCESS
  }

  /** Though entries are freed and claimed again behind it, no build runs out of entries to try
      as long as at most MAX_PROCESS builds run or try at a time. */
  lemma {:induction false} NoBuildTurnedAway(requests: nat, states: seq<Snapshot>, events: seq<Event>, n: nat)
    requires Behavior(requests, states, events) && n <= |events| && AlwaysProper(requests, states, events, n)
    requires NeverCrowded(states)
    ensures |states[n].running| == MAX_PROCESS && Roomy(states[n])
    ensures Trying(MAX_PROCESS) !in states[n].requests
    decreases n
  {
    hide Roomy, Next, Proper, CountFrom, Linked;
    if n == 0 {
      InitRoomy(requests);
    } else {
      NoBuildTurnedAway(requests, states, events, n - 1);
      assert states[n] == Next(states[n - 1], events[n - 1]);
      TidyExactlyWhen(requests, states, events, n - 1);
      NextWellFormed(states[n - 1], events[n - 1]);
      StepKeepsRoom(states[n - 1], events[n - 1]);
    }
    RoomyMeansNobodyAtTheEnd(states[n]);
  }

  lemma RoomyMeansNobodyAtTheEnd(s: Snapshot)
    requires |s.running| == MAX_PROCESS && Roomy(s)
    ensures Trying(MAX_PROCESS) !in s.requests
  {
    assert CountFrom(s, MAX_PROCESS) == 0;
    if t :| 0 <= t < |s.requests| && s.requests[t] == Trying(MAX_PROCESS) {
      TryingUpdate(s.requests, t, Free, MAX_PROCESS);
      assert false;
    }
  }

  /* ---- One request, undisturbed ---- */

  /** stop_process, given whether kill succeeds. */
  method StopProcess(running: array<bool>, pidx: int, killed: bool) returns (ok: bool)
    requires running.Length == MAX_PROCESS
    modifies running
    ensures ok <==> CheckPidx(old(running[..]), pidx) && killed
    ensures running[..] == if ok then old(running[..])[pidx := false] else old(running[..])
  {
    if !CheckPidx(running[..], pidx) || !killed {
      return false;
    }
    running[pidx] := false;
    ok := true;
  }

  /** The steps of one build, without other requests in between, up to the end of its loop. */
  function ScanAlone(s: Snapshot, t: nat): (r: Snapshot)
    requires WellFormed(s) && Enabled(s, Try(t))
    ensures |r.requests| == |s.requests|
    decreases MAX_PROCESS - s.requests[t].at
  {
    var s' := Next(s, Try(t));
    NextWellFormed(s, Try(t));
    if s'.requests[t].Trying? then ScanAlone(s', t) else s'
  }

  /** They do what the claiming loop `ClaimFirstFree` does. */
  lemma {:induction false} ScanAloneClaims(s: Snapshot, t: nat)
    requires WellFormed(s) && Enabled(s, Try(t))
    ensures var i, s' := Slots.FirstFree(s.running, s.requests[t].at), ScanAlone(s, t);
            if i < MAX_PROCESS then
              s'.running == s.running[i := true] && s'.requests[t] == Claimed(i, s.claims)
              && s'.unreaped == s.unreaped[s.claims := i]
            else s'.running == s.running && s'.requests[t] == Free
    decreases MAX_PROCESS - s.requests[t].at
  {
    var s' := Next(s, Try(t));
    NextWellFormed(s, Try(t));
    if s'.requests[t].Trying? { ScanAloneClaims(s', t); }
  }

  /** What an improper store leads to: it frees the entry of a build that claimed it after the
      request had waited, and the next build shares the entry with that one. */
  lemma StaleStoreLeadsToSharing(s: Snapshot, t: nat, u: nat)
    requires Tidy(s) && Linked(s) && Enabled(s, Store(t)) && !Proper(s, Store(t)) && Enabled(s, Build(u))
    requires forall k :: 0 <= k <= s.requests[t].at ==> s.running[k]
    ensures WellFormed(Next(s, Store(t))) && Enabled(Next(s, Store(t)), Build(u))
    ensures var s' := Next(Next(s, Store(t)), Build(u));
            WellFormed(s') && Enabled(s', Try(u)) && !Unshared(ScanAlone(s', u).unreaped)
  {
    hide ScanAlone;
    var i, s1 := s.requests[t].at, Next(s, Store(t));
    NextWellFormed(s, Store(t));
    NextWellFormed(s1, Build(u));
    var s' := Next(s1, Build(u));
    ScanAloneClaims(s', u);
    assert s'.running == s.running[i := false] && !s'.running[i];
    forall k | 0 <= k < i ensures s'.running[k] { assert s.running[k]; }
    assert Slots.FirstFree(s'.running, 0) == i;
    var mine :| mine in s.unreaped && s.unreaped[mine] == i;
    var theirs, r := s.claims, ScanAlone(s', u).unreaped;
    assert mine in r && theirs in r && mine != theirs && r[mine] == r[theirs];
  }

  /* ---- Such a store does happen ---- */

  /** The state after some run whose steps were all proper. */
  ghost predicate Reachable(requests: nat, s: Snapshot) {
    exists states, events :: ProperRun(requests, states, events, s)
  }

  ghost predicate ProperRun(requests: nat, states: seq<Snapshot>, events: seq<Event>, s: Snapshot) {
    && Behavior(requests, states, events) && AlwaysProper(requests, states, events, |events|)
    && states[|events|] == s && WellFormed(s)
  }

  lemma ReachStep(requests: nat, s: Snapshot, e: Event)
    requires Reachable(requests, s) && WellFormed(s) && Enabled(s, e) && Proper(s, e)
    ensures WellFormed(Next(s, e)) && Reachable(requests, Next(s, e))
  {
    hide Next, Proper, Enabled;
    var states, events :| ProperRun(requests, states, events, s);
    NextWellFormed(s, e);
    assert ProperRun(requests, states + [Next(s, e)], events + [e], Next(s, e));
  }

  /** A build, undisturbed, while entry 0 is free. */
  lemma BuildsFirst(requests: nat, s: Snapshot, t: nat) returns (s': Snapshot)
    requires Reachable(requests, s) && WellFormed(s) && Enabled(s, Build(t)) && !s.running[0]
    ensures Reachable(requests, s') && WellFormed(s') && s'.fate.Serving? && s'.requests == s.requests
    ensures s'.running == s.running[0 := true] && s'.pids == s.pids[0 := Some(s.claims)]
    ensures s'.unreaped == s.unreaped[s.claims := 0] && s'.claims == s.claims + 1
  {
    hide Reachable;
    ReachStep(requests, s, Build(t));
    s' := Next(s, Build(t));
    ReachStep(requests, s', Try(t));
    s' := Next(s', Try(t));
    ReachStep(requests, s', Fill(t));
    s' := Next(s', Fill(t));
    ReachStep(requests, s', Launch(t));
    s' := Next(s', Launch(t));
    assert s'.requests == s.requests;
  }

  /** A clean-up of entry 0 up to its wait. */
  lemma WaitsFirst(requests: nat, s: Snapshot, t: nat, b: nat) returns (s': Snapshot)
    requires Reachable(requests, s) && WellFormed(s) && Enabled(s, Check(t, 0)) && s.running[0] && s.pids[0] == Some(b)
    ensures Reachable(requests, s') && WellFormed(s') && s'.fate.Serving?
    ensures s'.requests == s.requests[t := Storing(0, b)]
    ensures s'.running == s.running && s'.pids == s.pids && s'.unreaped == s.unreaped - {b} && s'.claims == s.claims
  {
    hide Reachable;
    ReachStep(requests, s, Check(t, 0));
    s' := Next(s, Check(t, 0));
    ReachStep(requests, s', Use(t, true));
    s' := Next(s', Use(t, true));
    ReachStep(requests, s', Assert(t));
    s' := Next(s', Assert(t));
    ReachStep(requests, s', Wait(t));
    s' := Next(s', Wait(t));
    assert s'.requests == s.requests[t := Storing(0, b)];
  }

  /** Three requests suffice: two wait for the same build, one of them frees its entry, the
      third builds again, and now the other would free the entry of the new build. */
  lemma ImproperStoreIsReachable() returns (s: Snapshot)
    ensures Reachable(3, s) && WellFormed(s) && Enabled(s, Store(1)) && !Proper(s, Store(1))
    ensures s.requests[1].at == 0 && s.running[0] && Enabled(s, Build(2))
  {
    hide Reachable;
    s := Init(3);
    StartReachable();
    s := BuildsFirst(3, s, 2);
    s := WaitsFirst(3, s, 0, 0);
    s := WaitsFirst(3, s, 1, 0);
    ReachStep(3, s, Store(0));
    s := Next(s, Store(0));
    s := BuildsFirst(3, s, 2);
    assert s.unreaped[1] == 0;
  }

  lemma StartReachable()
    ensures Reachable(3, Init(3))
  {
    assert ProperRun(3, [Init(3)], [], Init(3));
  }

  lemma Extended(requests: nat, states: seq<Snapshot>, events: seq<Event>, e: Event)
    requires Behavior(requests, states, events) && WellFormed(states[|events|]) && Enabled(states[|events|], e)
    ensures Behavior(requests, states + [Next(states[|events|], e)], events + [e])
  {
  }

  /** Two builds that nobody has waited for do come to share an entry. */
  lemma SharingHappens() returns (states: seq<Snapshot>, events: seq<Event>)
    ensures Behavior(3, states, events) && !Unshared(states[|events|].unreaped)
  {
    hide Behavior, Tidy, Linked;
    var s := ImproperStoreIsReachable();
    states, events :| ProperRun(3, states, events, s);
    TidyExactlyWhen(3, states, events, |events|);
    assert Tidy(s) && Linked(s);
    ImproperThenShared(s);
    states, events := Then(3, states, events, Store(1));
    states, events := Then(3, states, events, Build(2));
    states, events := Then(3, states, events, Try(2));
  }

  lemma Then(requests: nat, states: seq<Snapshot>, events: seq<Event>, e: Event)
    returns (more: seq<Snapshot>, events': seq<Event>)
    requires Behavior(requests, states, events) && WellFormed(states[|events|]) && Enabled(states[|events|], e)
    ensures Behavior(requests, more, events') && |more| == |events'| + 1
    ensures more[|events'|] == Next(states[|events|], e) && WellFormed(more[|events'|])
  {
    Extended(requests, states, events, e);
    NextWellFormed(states[|events|], e);
    more, events' := states + [Next(states[|events|], e)], events + [e];
  }

  /** The improper store, a build's start and its first try. */
  lemma ImproperThenShared(s: Snapshot)
    requires Tidy(s) && Linked(s) && Enabled(s, Store(1)) && !Proper(s, Store(1))
    requires s.requests[1].at == 0 && Enabled(s, Build(2))
    ensures var s1 := Next(s, Store(1));
            WellFormed(s1) && Enabled(s1, Build(2))
            && var s2 := Next(s1, Build(2));
               WellFormed(s2) && Enabled(s2, Try(2)) && !Unshared(Next(s2, Try(2)).unreaped)
  {
    var s1 := Next(s, Store(1));
    NextWellFormed(s, Store(1));
    NextWellFormed(s1, Build(2));
    var b :| b in s.unreaped && s.unreaped[b] == 0;
    var r := Next(Next(s1, Build(2)), Try(2)).unreaped;
    assert r == s.unreaped[s.claims := 0];
    assert b in r && s.claims in r && b != s.claims && r[b] == r[s.claims];
  }
}
