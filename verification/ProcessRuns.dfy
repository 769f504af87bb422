/** What requests do to running builds: nothing, until a kill has succeeded or the output has
    ended; and then a clean-up. */
module ProcessRuns {
  import opened Wrappers
  import Slots
  import opened Processes
  import opened ProcessProofs

  /* ---- Every clean-up has its cause ---- */

  predicate CleansUp(r: Request) {
    r.Asserting? || r.Waiting? || r.Storing?
  }

  /** The request has cleaned up this entry from state `k + 1` to state `n`. */
  ghost predicate CleaningSince(states: seq<Snapshot>, t: nat, i: nat, k: nat, n: nat) {
    forall m :: k < m <= n < |states| ==>
      t < |states[m].requests| && CleansUp(states[m].requests[t]) && states[m].requests[t].at == i
  }

  lemma CleanUpStep(s: Snapshot, e: Event, t: nat)
    requires WellFormed(s) && Enabled(s, e) && t < |s.requests| && CleansUp(Next(s, e).requests[t])
    ensures var r, r' := s.requests[t], Next(s, e).requests[t];
            || (CleansUp(r) && r.at == r'.at)
            || (e == Use(t, true) && r == Checked(r'.at))
  {
  }

  /** A request that cleans up an entry has, since it checked the index, killed the process or seen
      the end of its output. */
  lemma {:induction false} CleanUpHasCause(requests: nat, states: seq<Snapshot>, events: seq<Event>, n: nat, t: nat)
    requires Behavior(requests, states, events) && n <= |events| && t < requests
    ensures |states[n].requests| == requests
    ensures CleansUp(states[n].requests[t]) ==>
              exists k :: 0 <= k < n && events[k] == Use(t, true) && t < |states[k].requests|
                && states[k].requests[t] == Checked(states[n].requests[t].at)
                && CleaningSince(states, t, states[n].requests[t].at, k, n)
    decreases n
  {
    hide Enabled, Next;
    if n > 0 {
      CleanUpHasCause(requests, states, events, n - 1, t);
      assert states[n] == Next(states[n - 1], events[n - 1]);
      NextWellFormed(states[n - 1], events[n - 1]);
      if CleansUp(states[n].requests[t]) {
        CleanUpStep(states[n - 1], events[n - 1], t);
        var i := states[n].requests[t].at;
        if CleansUp(states[n - 1].requests[t]) {
          var k :| 0 <= k < n - 1 && events[k] == Use(t, true) && t < |states[k].requests|
            && states[k].requests[t] == Checked(i) && CleaningSince(states, t, i, k, n - 1);
          assert CleaningSince(states, t, i, k, n);
        } else {
          assert CleaningSince(states, t, i, n - 1, n);
        }
      }
    }
  }

  /* ---- A build stays until there is such a cause ---- */

  /** The build runs in this entry, and nobody is cleaning the entry up. */
  ghost predicate Undisturbed(s: Snapshot, b: nat, i: nat) {
    && |s.running| == |s.pids| == MAX_PROCESS && i < MAX_PROCESS
    && b in s.unreaped && s.unreaped[b] == i && s.running[i] && s.pids[i] == Some(b)
    && forall t :: 0 <= t < |s.requests| && CleansUp(s.requests[t]) ==> s.requests[t].at != i
  }

  /** A successful kill, or an end of output, of this entry. */
  predicate Ends(s: Snapshot, e: Event, i: nat) {
    e.Use? && e.ended && e.t < |s.requests| && s.requests[e.t].Checked? && s.requests[e.t].at == i
  }

  lemma NobodyStarts(s: Snapshot, b: nat, i: nat)
    requires Tidy(s) && Linked(s) && Undisturbed(s, b, i)
    ensures forall t :: 0 <= t < |s.requests| && (s.requests[t].Claimed? || s.requests[t].Launching?) ==>
            s.requests[t].at != i
  {
    assert s.pids[i] in s.pids;
    forall t | 0 <= t < |s.requests| && (s.requests[t].Claimed? || s.requests[t].Launching?)
      ensures s.requests[t].at != i
    {
      assert Starts(s.requests[t], s.requests[t].at, s.requests[t].build);
    }
  }

  /** Steps on other entries, and uses that end nothing, leave the build alone. */
  lemma UndisturbedStep(s: Snapshot, e: Event, b: nat, i: nat)
    requires Tidy(s) && Linked(s) && Undisturbed(s, b, i) && Enabled(s, e) && !Ends(s, e, i)
    ensures Undisturbed(Next(s, e), b, i)
  {
    hide Tidy, Linked, Started, Named;
    assert WellFormed(s) && Named(s) && b < s.claims by { TidyWellFormed(s); LinkedNamed(s); NamedBuild(s, b); }
    NextWellFormed(s, e);
    NobodyStarts(s, b, i);
    if e.Wait? {
      WaitsForAnother(s, e.t, b, i);
    }
    forall t | 0 <= t < |s.requests| && CleansUp(Next(s, e).requests[t]) ensures Next(s, e).requests[t].at != i {
      CleanUpStep(s, e, t);
    }
  }

  lemma NamedBuild(s: Snapshot, b: nat)
    requires WellFormed(s) && Named(s) && b in s.unreaped
    ensures b < s.claims
  {
  }

  lemma WaitsForAnother(s: Snapshot, t: nat, b: nat, i: nat)
    requires WellFormed(s) && Named(s) && Enabled(s, Wait(t)) && Undisturbed(s, b, i)
    ensures b in Next(s, Wait(t)).unreaped && Next(s, Wait(t)).unreaped[b] == i
  {
  }

  /** In every run of proper steps, whatever else is built, stopped and read beside it: from when
      a build has returned until a kill of its entry succeeds or its output ends, its process is
      waited for by nobody, and its index is accepted. */
  lemma {:induction false} BuildStays(requests: nat, states: seq<Snapshot>, events: seq<Event>,
                                      a: nat, n: nat, b: nat, i: nat)
    requires Behavior(requests, states, events) && a <= n <= |events| && AlwaysProper(requests, states, events, n)
    requires Undisturbed(states[a], b, i)
    requires forall k :: a <= k < n ==> !Ends(states[k], events[k], i)
    ensures Undisturbed(states[n], b, i) && CheckPidx(states[n].running, i)
    decreases n
  {
    hide Tidy, Linked, Proper, Enabled, Next, Undisturbed, Ends;
    if a < n {
      BuildStays(requests, states, events, a, n - 1, b, i);
      TidyExactlyWhen(requests, states, events, n - 1);
      assert states[n] == Next(states[n - 1], events[n - 1]);
      UndisturbedStep(states[n - 1], events[n - 1], b, i);
    }
    UndisturbedMeans(states[n], b, i);
  }

  lemma UndisturbedMeans(s: Snapshot, b: nat, i: nat)
    requires Undisturbed(s, b, i)
    ensures |s.running| == MAX_PROCESS && CheckPidx(s.running, i)
  {
  }

  /** A build that returns is undisturbed from then on. */
  lemma ReturnedIsUndisturbed(s: Snapshot, t: nat)
    requires Tidy(s) && Linked(s) && AllPrivate(s) && Enabled(s, Launch(t))
    ensures Undisturbed(Next(s, Launch(t)), s.requests[t].build, s.requests[t].at)
  {
    var i, b, s' := s.requests[t].at, s.requests[t].build, Next(s, Launch(t));
    assert Starts(s.requests[t], i, b);
    StartingAlone(s, t, i, b);
    forall u | 0 <= u < |s'.requests| && CleansUp(s'.requests[u]) ensures s'.requests[u].at != i {
      assert s'.requests[u] == s.requests[u] && Private(s, u);
      assert Occupies(s.requests[t], i);
    }
  }

  /** When an index is used by one request at a time, and only after its build has returned: a
      returned build stays in its entry until a kill of it succeeds or its output ends. */
  lemma ReturnedBuildStays(requests: nat, states: seq<Snapshot>, events: seq<Event>, a: nat, n: nat, t: nat)
    requires Behavior(requests, states, events) && a < n <= |events| && AlwaysCareful(states, events, n)
    requires events[a] == Launch(t)
    ensures t < |states[a].requests| && states[a].requests[t].Launching?
    ensures var i, b := states[a].requests[t].at, states[a].requests[t].build;
            (forall k :: a < k < n ==> !Ends(states[k], events[k], i)) ==>
              Undisturbed(states[n], b, i) && CheckPidx(states[n].running, i)
  {
    hide Tidy, Linked, Proper, Next, AllPrivate, Careful, Undisturbed, Ends;
    assert Enabled(states[a], events[a]) && states[a + 1] == Next(states[a], events[a]);
    CarefulIsProper(requests, states, events, a);
    CarefulIsProper(requests, states, events, n);
    TidyExactlyWhen(requests, states, events, a);
    ReturnedIsUndisturbed(states[a], t);
    var i, b := states[a].requests[t].at, states[a].requests[t].build;
    if forall k :: a < k < n ==> !Ends(states[k], events[k], i) {
      BuildStays(requests, states, events, a + 1, n, b, i);
    }
  }

  /* ---- One request by itself ---- */

  /** An output request that reads something, or nothing yet, and a stop request whose kill fails,
      change nothing. */
  lemma UseWithoutEnd(s: Snapshot, t: nat, pidx: int)
    requires WellFormed(s) && Enabled(s, Check(t, pidx)) && CheckPidx(s.running, pidx) && s.pids[pidx].Some?
    ensures var s1 := Next(s, Check(t, pidx));
            WellFormed(s1) && Enabled(s1, Use(t, false)) && Next(s1, Use(t, false)) == s
  {
    var s1 := Next(s, Check(t, pidx));
    NextWellFormed(s, Check(t, pidx));
    assert s1.requests[t := Free] == s.requests;
  }

  /** One whose index is refused changes nothing either. */
  lemma RefusedChangesNothing(s: Snapshot, t: nat, pidx: int)
    requires WellFormed(s) && Enabled(s, Check(t, pidx)) && !CheckPidx(s.running, pidx)
    ensures Next(s, Check(t, pidx)) == s
  {
  }

  /** The five steps of a clean-up. */
  function CleanedUp(s: Snapshot, t: nat, pidx: nat): (r: Snapshot)
    requires WellFormed(s) && Enabled(s, Check(t, pidx)) && CheckPidx(s.running, pidx) && s.pids[pidx].Some?
  {
    var s1 := Next(s, Check(t, pidx));
    NextWellFormed(s, Check(t, pidx));
    var s2 := Next(s1, Use(t, true));
    NextWellFormed(s1, Use(t, true));
    var s3 := Next(s2, Assert(t));
    NextWellFormed(s2, Assert(t));
    var s4 := Next(s3, Wait(t));
    NextWellFormed(s3, Wait(t));
    Next(s4, Store(t))
  }

  /** A successful kill, or the end of the output: the entry's process is waited for and the
      entry is free; nothing else changes. */
  lemma CleanUpFreesEntry(s: Snapshot, t: nat, pidx: nat, b: nat)
    requires WellFormed(s) && Enabled(s, Check(t, pidx)) && CheckPidx(s.running, pidx) && s.pids[pidx] == Some(b)
    requires b in s.unreaped
    ensures CleanedUp(s, t, pidx)
         == s.(running := s.running[pidx := false], unreaped := s.unreaped - {b}, reaps := s.reaps + 1)
    ensures !CheckPidx(CleanedUp(s, t, pidx).running, pidx)
  {
    var s1 := Next(s, Check(t, pidx));
    NextWellFormed(s, Check(t, pidx));
    var s2 := Next(s1, Use(t, true));
    NextWellFormed(s1, Use(t, true));
    var s3 := Next(s2, Assert(t));
    NextWellFormed(s2, Assert(t));
    var s4 := Next(s3, Wait(t));
    assert s4 == s.(requests := s.requests[t := Storing(pidx, b)], unreaped := s.unreaped - {b}, reaps := s.reaps + 1);
    assert s.requests[t := Storing(pidx, b)][t := Free] == s.requests;
  }

  /** The steps of a build from its claim on. */
  function Launched(s: Snapshot, t: nat): (r: Snapshot)
    requires WellFormed(s) && Enabled(s, Fill(t))
    ensures WellFormed(r)
  {
    NextWellFormed(s, Fill(t));
    NextWellFormed(Next(s, Fill(t)), Launch(t));
    Next(Next(s, Fill(t)), Launch(t))
  }

  /** After a build by itself its entry, the first free one, is running and names its process. */
  lemma BuildTakesFirstFree(s: Snapshot, t: nat)
    requires WellFormed(s) && Enabled(s, Build(t)) && Slots.FirstFree(s.running, 0) < MAX_PROCESS
    ensures var i, s1 := Slots.FirstFree(s.running, 0), Next(s, Build(t));
            && WellFormed(s1) && Enabled(s1, Try(t))
            && WellFormed(ScanAlone(s1, t)) && Enabled(ScanAlone(s1, t), Fill(t))
            && Launched(ScanAlone(s1, t), t)
               == s.(running := s.running[i := true], pids := s.pids[i := Some(s.claims)],
                     unreaped := s.unreaped[s.claims := i], claims := s.claims + 1)
  {
    hide ScanAlone;
    var i, s1 := Slots.FirstFree(s.running, 0), Next(s, Build(t));
    NextWellFormed(s, Build(t));
    ScanAloneClaims(s1, t);
    ScanAloneState(s1, t);
    var s2 := ScanAlone(s1, t);
    assert s2 == s.(running := s.running[i := true], requests := s.requests[t := Claimed(i, s.claims)],
                    unreaped := s.unreaped[s.claims := i], claims := s.claims + 1);
    LaunchedIs(s2, t, i, s.claims);
    assert s2.requests[t := Free] == s.requests;
  }

  lemma LaunchedIs(s: Snapshot, t: nat, i: nat, b: nat)
    requires WellFormed(s) && Enabled(s, Fill(t)) && s.requests[t] == Claimed(i, b)
    ensures Launched(s, t)
            == s.(running := s.running[i := true], pids := s.pids[i := Some(b)], requests := s.requests[t := Free])
  {
    assert s.pids[i := None][i := Some(b)] == s.pids[i := Some(b)];
    assert s.requests[t := Launching(i, b)][t := Free] == s.requests[t := Free];
  }

  /** The steps of the scan change nothing but what the claim says. */
  lemma {:induction false} ScanAloneState(s: Snapshot, t: nat)
    requires WellFormed(s) && Enabled(s, Try(t)) && Slots.FirstFree(s.running, s.requests[t].at) < MAX_PROCESS
    ensures var r, i := ScanAlone(s, t), Slots.FirstFree(s.running, s.requests[t].at);
            r == s.(running := s.running[i := true], requests := s.requests[t := Claimed(i, s.claims)],
                    unreaped := s.unreaped[s.claims := i], claims := s.claims + 1)
    ensures WellFormed(ScanAlone(s, t))
    decreases MAX_PROCESS - s.requests[t].at
  {
    var s' := Next(s, Try(t));
    NextWellFormed(s, Try(t));
    if s'.requests[t].Trying? {
      ScanAloneState(s', t);
      var i := Slots.FirstFree(s.running, s.requests[t].at);
      assert s'.requests[t := Claimed(i, s.claims)] == s.requests[t := Claimed(i, s.claims)];
    }
  }

  /** The assertion ends the server exactly when the entry is not running; otherwise the wait is next. */
  lemma AssertionFailsExactlyWhen(s: Snapshot, t: nat)
    requires WellFormed(s) && Enabled(s, Assert(t))
    ensures var i, s' := s.requests[t].at, Next(s, Assert(t));
            if s.running[i] then s' == s.(requests := s.requests[t := Waiting(i)]) else s' == s.(fate := Aborted)
  {
  }
}
