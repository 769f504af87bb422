/** First-fit claiming of slots by single compare-and-swap attempts.

    `handle_http_request` claims one of `max_threads` buffers, and `build_and_run` one
    of 4096 process entries, by trying slot 0, 1, 2, ... with one atomic exchange each.
    The scan as a whole is not atomic: slots it has passed may be freed, and slots
    ahead of it taken, by other claimants.  Each claimant's next step is fixed by
    its phase, so an interleaving is just a sequence of claimant numbers. */
module Slots {

  datatype Phase =
    | Idle                 // not inside the claiming code
    | Scanning(at: nat)    // about to try slot `at`
    | Holding(at: nat)     // owns slot `at`
    | Exhausted            // the scan ended without a slot

  /** `claims` and `releases` count the successful exchanges and the stores of false. */
  datatype State = State(used: seq<bool>, phases: seq<Phase>, claims: nat, releases: nat)

  function Init(slots: nat, claimants: nat): State {
    State(seq(slots, _ => false), seq(claimants, _ => Idle), 0, 0)
  }

  predicate WellFormed(s: State) {
    && (forall t :: 0 <= t < |s.phases| && s.phases[t].Scanning? ==> s.phases[t].at < |s.used|)
    && (forall t :: 0 <= t < |s.phases| && s.phases[t].Holding? ==> s.phases[t].at < |s.used|)
  }

  /** Where a scan stands when slot `i` is the next to try. */
  function ScanFrom(slots: nat, i: nat): Phase {
    if i < slots then Scanning(i) else Exhausted
  }

  /** One step of claimant `t`: enter the loop, one compare-and-swap, the release, or
      leaving after a scan that found nothing. */
  function Step(s: State, t: nat): State
    requires WellFormed(s) && t < |s.phases|
  {
    match s.phases[t]
    case Idle => s.(phases := s.phases[t := ScanFrom(|s.used|, 0)])
    case Scanning(i) =>
      if s.used[i] then
        s.(phases := s.phases[t := ScanFrom(|s.used|, i + 1)])
      else
        s.(used := s.used[i := true], phases := s.phases[t := Holding(i)], claims := s.claims + 1)
    case Holding(i) =>
      s.(used := s.used[i := false], phases := s.phases[t := Idle], releases := s.releases + 1)
    case Exhausted => s.(phases := s.phases[t := Idle])
  }

  predicate Schedule(sched: seq<nat>, claimants: nat) {
    forall k :: 0 <= k < |sched| ==> sched[k] < claimants
  }

  /** The state after an interleaving. */
  ghost function Run(s: State, sched: seq<nat>): (r: State)
    requires WellFormed(s) && Schedule(sched, |s.phases|)
    ensures WellFormed(r) && |r.phases| == |s.phases| && |r.used| == |s.used|
    decreases |sched|
  {
    if sched == [] then s
    else
      var s' := Run(s, sched[..|sched| - 1]);
      StepWellFormed(s', sched[|sched| - 1]);
      Step(s', sched[|sched| - 1])
  }

  lemma StepWellFormed(s: State, t: nat)
    requires WellFormed(s) && t < |s.phases|
    ensures WellFormed(Step(s, t))
    ensures |Step(s, t).phases| == |s.phases| && |Step(s, t).used| == |s.used|
  {
  }

  /* ---- Ownership: any number of claimants ---- */

  /** A slot is marked exactly when someone holds it, and by one claimant only. */
  ghost predicate Owned(s: State) {
    && WellFormed(s)
    && (forall i :: 0 <= i < |s.used| ==> (s.used[i] <==> Holding(i) in s.phases))
    && (forall t, u :: 0 <= t < u < |s.phases| && s.phases[t].Holding? ==> s.phases[t] != s.phases[u])
    && Marked(s.used) + s.releases == s.claims
  }

  /** The number of marked slots. */
  ghost function Marked(used: seq<bool>): nat {
    if used == [] then 0 else Marked(used[1..]) + (if used[0] then 1 else 0)
  }

  lemma {:induction false} MarkedUpdate(used: seq<bool>, i: nat, b: bool)
    requires i < |used|
    ensures Marked(used[i := b]) + (if used[i] then 1 else 0) == Marked(used) + (if b then 1 else 0)
  {
    if i == 0 {
      assert used[i := b][1..] == used[1..];
    } else {
      assert used[i := b][1..] == used[1..][i - 1 := b];
      MarkedUpdate(used[1..], i - 1, b);
    }
  }

  lemma {:induction false} MarkedNone(n: nat)
    ensures Marked(seq(n, _ => false)) == 0
  {
    if n > 0 {
      assert seq(n, _ => false)[1..] == seq(n - 1, _ => false);
      MarkedNone(n - 1);
    }
  }

  lemma OwnedStep(s: State, t: nat)
    requires Owned(s) && t < |s.phases|
    ensures Owned(Step(s, t))
  {
    var p, s' := s.phases[t], Step(s, t);
    var q := s'.phases[t];
    forall i | 0 <= i < |s.used|
      ensures s'.used[i] <==> Holding(i) in s'.phases
    {
      assert Holding(i) in s'.phases
          <==> Holding(i) == q || exists u :: 0 <= u < |s.phases| && u != t && s.phases[u] == Holding(i) by {
        if u :| 0 <= u < |s.phases| && u != t && s.phases[u] == Holding(i) { assert s'.phases[u] == Holding(i); }
        assert s'.phases[t] == q;
      }
      if p == Holding(i) {
        assert !exists u :: 0 <= u < |s.phases| && u != t && s.phases[u] == Holding(i);
      }
    }
    if p.Holding? {
      assert p in s.phases;
      MarkedUpdate(s.used, p.at, false);
    } else if p.Scanning? {
      MarkedUpdate(s.used, p.at, true);
    }
  }

  /** In every interleaving of any number of claimants, a slot is marked exactly when it is
      held, no two claimants hold the same slot, and the marked slots number claims minus
      releases. */
  lemma {:induction false} OwnedAlways(slots: nat, claimants: nat, sched: seq<nat>)
    requires Schedule(sched, claimants)
    ensures Owned(Run(Init(slots, claimants), sched))
    decreases |sched|
  {
    if sched == [] {
      MarkedNone(slots);
    } else {
      OwnedAlways(slots, claimants, sched[..|sched| - 1]);
      OwnedStep(Run(Init(slots, claimants), sched[..|sched| - 1]), sched[|sched| - 1]);
    }
  }

  /* ---- Counting: no more claimants than slots ---- */

  /** A claimant whose scan position or held slot is `k` or beyond.  A scan that found
      nothing stands beyond every slot. */
  predicate Beyond(p: Phase, k: nat) {
    match p
    case Idle => false
    case Scanning(i) => i >= k
    case Holding(i) => i >= k
    case Exhausted => true
  }

  ghost function CountBeyond(ps: seq<Phase>, k: nat): (c: nat)
    ensures c <= |ps|
  {
    if ps == [] then 0 else CountBeyond(ps[1..], k) + (if Beyond(ps[0], k) then 1 else 0)
  }

  /** For every k, at most `slots - k` claimants stand at slot k or beyond. */
  ghost predicate Crowding(s: State) {
    forall k: nat :: k <= |s.used| ==> CountBeyond(s.phases, k) <= |s.used| - k
  }

  lemma {:induction false} CountUpdate(ps: seq<Phase>, t: nat, p: Phase, k: nat)
    requires t < |ps|
    ensures CountBeyond(ps[t := p], k) + (if Beyond(ps[t], k) then 1 else 0)
         == CountBeyond(ps, k) + (if Beyond(p, k) then 1 else 0)
  {
    if t == 0 {
      assert ps[t := p][1..] == ps[1..];
    } else {
      assert ps[t := p][1..] == ps[1..][t - 1 := p];
      CountUpdate(ps[1..], t - 1, p, k);
    }
  }

  lemma {:induction false} CountMonotone(ps: seq<Phase>, k: nat)
    ensures CountBeyond(ps, k + 1) <= CountBeyond(ps, k)
  {
    if ps != [] { CountMonotone(ps[1..], k); }
  }

  /** Two claimants standing exactly at slot k are both counted at k and not at k + 1. */
  lemma TwoAtSlot(ps: seq<Phase>, t: nat, u: nat, k: nat)
    requires t < |ps| && u < |ps| && t != u
    requires ps[t] == Scanning(k) && ps[u] == Holding(k)
    ensures CountBeyond(ps, k + 1) + 2 <= CountBeyond(ps, k)
  {
    var qs := ps[t := Idle][u := Idle];
    CountUpdate(ps, t, Idle, k);
    CountUpdate(ps, t, Idle, k + 1);
    CountUpdate(ps[t := Idle], u, Idle, k);
    CountUpdate(ps[t := Idle], u, Idle, k + 1);
    CountMonotone(qs, k);
  }

  lemma CrowdingStep(s: State, t: nat)
    requires Owned(s) && Crowding(s) && |s.phases| <= |s.used| && t < |s.phases|
    ensures Crowding(Step(s, t))
  {
    var p, s' := s.phases[t], Step(s, t);
    var q := s'.phases[t];
    forall k: nat | k <= |s.used|
      ensures CountBeyond(s'.phases, k) <= |s.used| - k
    {
      CountUpdate(s.phases, t, q, k);
      if p.Scanning? && s.used[p.at] && k == p.at + 1 {
        var u :| 0 <= u < |s.phases| && s.phases[u] == Holding(p.at);
        TwoAtSlot(s.phases, t, u, p.at);
      }
    }
  }

  lemma {:induction false} CrowdingInit(n: nat, k: nat)
    ensures CountBeyond(seq(n, _ => Idle), k) == 0
  {
    if n > 0 {
      assert seq(n, _ => Idle)[1..] == seq(n - 1, _ => Idle);
      CrowdingInit(n - 1, k);
    }
  }

  lemma {:induction false} CrowdingAlways(slots: nat, claimants: nat, sched: seq<nat>)
    requires claimants <= slots && Schedule(sched, claimants)
    ensures Crowding(Run(Init(slots, claimants), sched))
    decreases |sched|
  {
    if sched == [] {
      forall k: nat
        ensures CountBeyond(Init(slots, claimants).phases, k) == 0
      {
        CrowdingInit(claimants, k);
      }
    } else {
      var before := sched[..|sched| - 1];
      CrowdingAlways(slots, claimants, before);
      OwnedAlways(slots, claimants, before);
      CrowdingStep(Run(Init(slots, claimants), before), sched[|sched| - 1]);
    }
  }

  lemma {:induction false} ExhaustedIsCounted(ps: seq<Phase>, t: nat, k: nat)
    requires t < |ps| && ps[t] == Exhausted
    ensures CountBeyond(ps, k) >= 1
  {
    if t > 0 { ExhaustedIsCounted(ps[1..], t - 1, k); }
  }

  /** What the counting gives: nobody's scan has come up empty. */
  lemma {:induction false} CrowdingMeansFound(s: State)
    requires Crowding(s)
    ensures Exhausted !in s.phases
  {
    if t :| 0 <= t < |s.phases| && s.phases[t] == Exhausted {
      ExhaustedIsCounted(s.phases, t, |s.used|);
      assert false;
    }
  }

  /* ---- Exactly when every scan succeeds ---- */

  /** Claimants 0, 1, ..., n - 1 in turn claim slots 0, 1, ..., n - 1. */
  ghost function Fill(n: nat): (sched: seq<nat>) {
    if n == 0 then [] else Fill(n - 1) + Walk(n - 1, n + 1)
  }

  /** `steps` consecutive steps of one claimant. */
  ghost function Walk(t: nat, steps: nat): (sched: seq<nat>)
    ensures |sched| == steps && forall k :: 0 <= k < steps ==> sched[k] == t
  {
    seq(steps, _ => t)
  }

  lemma {:induction false} RunAppend(s: State, a: seq<nat>, b: seq<nat>)
    requires WellFormed(s) && Schedule(a, |s.phases|) && Schedule(b, |s.phases|)
    ensures Schedule(a + b, |s.phases|)
    ensures Run(s, a + b) == Run(Run(s, a), b)
    decreases |b|
  {
    if b == [] {
      assert a + b == a;
    } else {
      assert (a + b)[..|a + b| - 1] == a + b[..|b| - 1];
      RunAppend(s, a, b[..|b| - 1]);
    }
  }

  /** While the first j slots are taken, entering the loop and trying j slots leaves an idle
      claimant standing at slot j. */
  lemma {:induction false} WalkPast(s: State, t: nat, j: nat)
    requires WellFormed(s) && t < |s.phases| && s.phases[t] == Idle && j <= |s.used|
    requires forall i :: 0 <= i < j ==> s.used[i]
    ensures Run(s, Walk(t, j + 1)) == s.(phases := s.phases[t := ScanFrom(|s.used|, j)])
    decreases j
  {
    var w := Walk(t, j + 1);
    assert w[..j] == Walk(t, j);
    if j == 0 {
      assert Run(s, Walk(t, 0)) == s;
    } else {
      WalkPast(s, t, j - 1);
    }
  }

  lemma {:induction false} FillTakesAll(slots: nat, claimants: nat, n: nat)
    requires n <= slots && n <= claimants
    ensures Schedule(Fill(n), claimants)
    ensures forall i :: 0 <= i < n ==> Run(Init(slots, claimants), Fill(n)).used[i]
    ensures forall i :: n <= i < slots ==> !Run(Init(slots, claimants), Fill(n)).used[i]
    ensures forall t :: n <= t < claimants ==> Run(Init(slots, claimants), Fill(n)).phases[t] == Idle
    decreases n
  {
    hide Run, Step;
    if n == 0 {
      assert Run(Init(slots, claimants), []) == Init(slots, claimants) by { RunNothing(Init(slots, claimants)); }
    } else {
      FillTakesAll(slots, claimants, n - 1);
      var s0 := Init(slots, claimants);
      var s := Run(s0, Fill(n - 1));
      RunAppend(s0, Fill(n - 1), Walk(n - 1, n + 1));
      assert !s.used[n - 1];
      assert FirstFree(s.used, 0) == n - 1;
      WalkClaimsFirstFree(s, n - 1);
    }
  }

  lemma RunNothing(s: State)
    requires WellFormed(s)
    ensures Run(s, []) == s
  {
  }

  /** Every scan of every interleaving finds a slot if and only if there are at least as many
      slots as claimants. */
  lemma {:induction false} ScansSucceedExactlyWhen(slots: nat, claimants: nat)
    ensures (forall sched: seq<nat> :: Schedule(sched, claimants) ==>
              Exhausted !in Run(Init(slots, claimants), sched).phases)
       <==> claimants <= slots
  {
    if claimants <= slots {
      forall sched: seq<nat> | Schedule(sched, claimants)
        ensures Exhausted !in Run(Init(slots, claimants), sched).phases
      {
        CrowdingAlways(slots, claimants, sched);
        CrowdingMeansFound(Run(Init(slots, claimants), sched));
      }
    } else {
      FillTakesAll(slots, claimants, slots);
      var s := Run(Init(slots, claimants), Fill(slots));
      var sched := Fill(slots) + Walk(slots, slots + 1);
      RunAppend(Init(slots, claimants), Fill(slots), Walk(slots, slots + 1));
      WalkPast(s, slots, slots);
      assert Run(Init(slots, claimants), sched).phases[slots] == Exhausted;
    }
  }

  /* ---- The loop of one claimant, undisturbed ---- */

  function FirstFree(used: seq<bool>, from: nat): (i: nat)
    requires from <= |used|
    ensures from <= i <= |used| && (i < |used| ==> !used[i]) && forall k :: from <= k < i ==> used[k]
    decreases |used| - from
  {
    if from < |used| && used[from] then FirstFree(used, from + 1) else from
  }

  method ClaimFirstFree(used: array<bool>) returns (i: nat)
    modifies used
    ensures i == FirstFree(old(used[..]), 0)
    ensures used[..] == if i < used.Length then old(used[..])[i := true] else old(used[..])
  {
    i := 0;
    while i < used.Length
      invariant i <= used.Length && used[..] == old(used[..])
      invariant FirstFree(used[..], 0) == FirstFree(used[..], i)
    {
      if !used[i] {
        used[i] := true;
        break;
      }
      i := i + 1;
    }
  }

  /** Without steps of others in between, the machine does what the loop does. */
  lemma {:induction false} WalkClaimsFirstFree(s: State, t: nat)
    requires WellFormed(s) && t < |s.phases| && s.phases[t] == Idle
    ensures var i := FirstFree(s.used, 0);
            if i < |s.used| then
              Run(s, Walk(t, i + 2))
                  == s.(used := s.used[i := true], phases := s.phases[t := Holding(i)], claims := s.claims + 1)
            else
              Run(s, Walk(t, i + 1)) == s.(phases := s.phases[t := Exhausted])
  {
    var i := FirstFree(s.used, 0);
    WalkPast(s, t, i);
    if i < |s.used| {
      assert Walk(t, i + 2)[..i + 1] == Walk(t, i + 1);
      assert s.phases[t := Scanning(i)][t := Holding(i)] == s.phases[t := Holding(i)];
    }
  }

  /** Two steps more, and the slot is free again; after a scan without a slot the claimant is idle. */
  lemma WalkGivesBack(s: State, t: nat)
    requires WellFormed(s) && t < |s.phases| && s.phases[t] == Idle
    ensures var i := FirstFree(s.used, 0);
            if i < |s.used| then Run(s, Walk(t, i + 3)) == s.(claims := s.claims + 1, releases := s.releases + 1)
            else Run(s, Walk(t, i + 2)) == s
  {
    hide Run, Step;
    var i := FirstFree(s.used, 0);
    WalkClaimsFirstFree(s, t);
    if i < |s.used| {
      WalkOneMore(s, t, i + 2);
      GivenBack(s, t, i);
    } else {
      WalkOneMore(s, t, i + 1);
      Left(s, t);
    }
  }

  lemma WalkOneMore(s: State, t: nat, n: nat)
    requires WellFormed(s) && t < |s.phases|
    ensures Run(s, Walk(t, n + 1)) == Step(Run(s, Walk(t, n)), t)
  {
    assert Walk(t, n + 1)[..n] == Walk(t, n);
  }

  lemma GivenBack(s: State, t: nat, i: nat)
    requires WellFormed(s) && t < |s.phases| && s.phases[t] == Idle && i < |s.used| && !s.used[i]
    ensures var s' := s.(used := s.used[i := true], phases := s.phases[t := Holding(i)], claims := s.claims + 1);
            WellFormed(s') && Step(s', t) == s.(claims := s.claims + 1, releases := s.releases + 1)
  {
    assert s.used[i := true][i := false] == s.used && s.phases[t := Holding(i)][t := Idle] == s.phases;
  }

  lemma Left(s: State, t: nat)
    requires WellFormed(s) && t < |s.phases| && s.phases[t] == Idle
    ensures var s' := s.(phases := s.phases[t := Exhausted]); WellFormed(s') && Step(s', t) == s
  {
    assert s.phases[t := Exhausted][t := Idle] == s.phases;
  }
}
