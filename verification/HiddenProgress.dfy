/**
 Progress of a start held back by old volumes: every run that sweeps, collects
 what the sweep marked and then completes a pass has hidden members on.
 */
module HiddenProgress {
  import opened Text
  import opened HiddenVolumes
  import opened HiddenProtocol
  import opened HiddenDeletions
  import opened HiddenPasses
  import opened HiddenStarts

  ghost predicate OffThroughout(states: seq<State>, a: nat, b: nat) {
    b < |states| && forall j :: a <= j <= b ==> states[j].live.Off?
  }

  // ------------------------------------------------------------------
  // A pass that finds nothing starts the members
  // ------------------------------------------------------------------

  /** A planning sweep plans a start exactly when it finds no volume at all. */
  lemma StartsIffNothingIsLeft(sts: string, s: State, step: Step)
    requires Base(sts, s) && Enabled(sts, s, step)
    requires (s.pc.Listing? || s.pc.Sweeping?) && s.pc.phase.Plan?
    requires After(sts, s, step).pc.Planned?
    ensures After(sts, s, step).pc.target.On? <==> FindsNothing(s, step)
  {
  }

  function StartOf(want: Want): Hidden {
    On(want.replicas, want.storageClass)
  }

  lemma EmptyListing(sts: string, volumes: map<nat, Volume>, ordinals: seq<nat>, claims: seq<Claim>)
    requires Lists(sts, volumes, ordinals, claims)
    ensures claims == [] <==> volumes == map[]
  {
    if claims != [] {
      assert ordinals[0] in volumes;
    }
  }

  lemma {:induction false} PlanIsKept(sts: string, states: seq<State>, steps: seq<Step>, a: nat, m: nat)
    requires Linked(sts, states, steps) && a < m && Uninterrupted(steps, a, m)
    requires FindsNothing(states[a], steps[a])
    ensures states[m].pc == Planned(states[a].pc.want, StartOf(states[a].pc.want))
  {
    assert Leads(sts, states[m - 1], steps[m - 1], states[m]);
    if m > a + 1 {
      PlanIsKept(sts, states, steps, a, m - 1);
    } else {
      EmptyListing(sts, states[a].volumes, steps[a].ordinals, steps[a].claims);
    }
  }

  /** In every run, after a listing that finds no volume the apply of that pass switches on what it was asked for. */
  lemma EmptyListingStarts(sts: string, states: seq<State>, steps: seq<Step>, a: nat, m: nat)
    requires Run(sts, states, steps) && a < m && Uninterrupted(steps, a, m)
    requires FindsNothing(states[a], steps[a])
    requires m < |steps| && steps[m].Apply?
    ensures states[m + 1].live == StartOf(states[a].pc.want)
    ensures !StartPending(states[m + 1].want, states[m + 1].live)
  {
    PlanIsKept(sts, states, steps, a, m);
    assert Leads(sts, states[m], steps[m], states[m + 1]);
  }

  // ------------------------------------------------------------------
  // Old volumes drain
  // ------------------------------------------------------------------

  /** While hidden members are off, old volumes and pods only go away, and collection shrinks their number. */
  lemma OldVolumesOnlyShrink(sts: string, s: State, step: Step)
    requires Enabled(sts, s, step)
    requires s.live.Off? && s.statefulSet.Off? && After(sts, s, step).live.Off?
    ensures var t := After(sts, s, step);
            && t.volumes.Keys <= s.volumes.Keys
            && t.pods <= s.pods && t.statefulSet.Off?
            && (forall i :: i in t.volumes && s.volumes[i].terminating ==> t.volumes[i].terminating)
            && |t.volumes| == |s.volumes| - if step.Collect? then 1 else 0
  {
  }

  /** Members are off, their pods and StatefulSet gone. */
  ghost predicate Quiet(s: State) {
    s.live.Off? && s.statefulSet.Off? && s.pods == {} && (s.pc.Sweeping? ==> s.pc.running == {})
  }

  /** And every volume left is on its way out. */
  ghost predicate Draining(s: State) {
    Quiet(s) && forall i :: i in s.volumes ==> s.volumes[i].terminating
  }

  lemma StepKeepsQuiet(sts: string, s: State, step: Step)
    requires Enabled(sts, s, step) && Quiet(s) && After(sts, s, step).live.Off?
    ensures Quiet(After(sts, s, step))
    ensures Draining(s) ==> Draining(After(sts, s, step))
  {
    OldVolumesOnlyShrink(sts, s, step);
  }

  lemma {:induction false} StaysQuiet(sts: string, states: seq<State>, steps: seq<Step>, a: nat, b: nat)
    requires Linked(sts, states, steps) && a <= b && OffThroughout(states, a, b) && Quiet(states[a])
    ensures Quiet(states[b]) && states[b].volumes.Keys <= states[a].volumes.Keys
    ensures Draining(states[a]) ==> Draining(states[b])
  {
    if a < b {
      StaysQuiet(sts, states, steps, a, b - 1);
      assert Leads(sts, states[b - 1], steps[b - 1], states[b]);
      StepKeepsQuiet(sts, states[b - 1], steps[b - 1]);
      OldVolumesOnlyShrink(sts, states[b - 1], steps[b - 1]);
    }
  }

  /** The resource stays as it is while a sweep is under way. */
  lemma {:induction false} SweepLeavesLive(sts: string, states: seq<State>, steps: seq<Step>, a: nat, b: nat)
    requires Linked(sts, states, steps) && OneSweep(states, steps, a, b)
    ensures states[b].live == states[a].live
  {
    assert Leads(sts, states[b - 1], steps[b - 1], states[b]);
    if b > a + 1 {
      SweepLeavesLive(sts, states, steps, a, b - 1);
    }
  }

  /** A planning sweep that has visited every claim, listed once StatefulSet and pods were gone. */
  ghost predicate FinalSweep(states: seq<State>, steps: seq<Step>, a: nat, b: nat) {
    && OneSweep(states, steps, a, b) && Finished(states[b])
    && states[a].pc.phase.Plan? && states[a].statefulSet.Off? && states[a].pods == {}
  }

  /** Once the old pods are gone, one planning sweep leaves every old volume deleted or terminating. */
  lemma SweepMarksEveryOldVolume(sts: string, states: seq<State>, steps: seq<Step>, a: nat, b: nat)
    requires Linked(sts, states, steps) && FinalSweep(states, steps, a, b) && Base(sts, states[a])
    ensures Draining(states[b])
  {
    forall j | a <= j <= b ensures states[j].live.Off? {
      if a < j {
        SweepLeavesLive(sts, states, steps, a, j);
      }
    }
    StaysQuiet(sts, states, steps, a, b);
    SweepHolds(sts, states, steps, a, b);
    SweepKeepsInv(sts, states, steps, a, b);
    FinishedIsThorough(states[b]);
  }

  /** Nothing holds back the collection of a draining volume, whatever happens while members are off. */
  lemma DrainingCanBeCollected(sts: string, states: seq<State>, steps: seq<Step>, b: nat, c: nat, i: nat)
    requires Linked(sts, states, steps) && b <= c && OffThroughout(states, b, c) && Draining(states[b])
    requires i in states[c].volumes
    ensures i in states[b].volumes && Enabled(sts, states[c], Collect(i))
  {
    StaysQuiet(sts, states, steps, b, c);
  }

  ghost predicate CollectedWithin(steps: seq<Step>, b: nat, c: nat, i: nat) {
    c <= |steps| && exists q :: b <= q < c && steps[q] == Collect(i)
  }

  /** A volume collected while members are off does not come back. */
  lemma CollectedIsGone(sts: string, states: seq<State>, steps: seq<Step>, b: nat, c: nat, i: nat)
    requires Linked(sts, states, steps) && b <= c && OffThroughout(states, b, c) && Quiet(states[b])
    requires CollectedWithin(steps, b, c, i)
    ensures i !in states[c].volumes
  {
    var q :| b <= q < c && steps[q] == Collect(i);
    assert Leads(sts, states[q], steps[q], states[q + 1]);
    StaysQuiet(sts, states, steps, b, q);
    StepKeepsQuiet(sts, states[q], steps[q]);
    StaysQuiet(sts, states, steps, q + 1, c);
  }

  // ------------------------------------------------------------------
  // A held-back start finishes
  // ------------------------------------------------------------------

  /** On its way to a start, with nothing in the way. */
  ghost predicate Starting(s: State, want: Want) {
    NothingOld(s) && (s.pc == Started(want) || s.pc == Listing(want, Plan) || s.pc == Planned(want, StartOf(want)))
  }

  lemma StepKeepsStarting(sts: string, s: State, step: Step, want: Want)
    requires Enabled(sts, s, step) && Starting(s, want) && want.replicas > 0 && !step.Crash? && !step.Apply?
    ensures Starting(After(sts, s, step), want)
  {
    NothingOldStays(sts, s, step);
    if step.ListVolumes? {
      EmptyListing(sts, s.volumes, step.ordinals, step.claims);
    }
  }

  lemma {:induction false} PassStarts(sts: string, states: seq<State>, steps: seq<Step>, c: nat, m: nat)
    requires Linked(sts, states, steps) && c < m <= |steps| && steps[c].Start? && Uninterrupted(steps, c, m)
    requires NothingOld(states[c]) && states[c].want.replicas > 0
    ensures Starting(states[m], states[c].want)
  {
    assert Leads(sts, states[m - 1], steps[m - 1], states[m]);
    if m > c + 1 {
      PassStarts(sts, states, steps, c, m - 1);
      StepKeepsStarting(sts, states[m - 1], steps[m - 1], states[c].want);
    }
  }

  /**
   In every run: a planning sweep with the old StatefulSet and pods gone, the
   collection of every volume it left, and then any one complete pass end with
   hidden members on, as that pass was asked for, and nothing pending.
   */
  lemma HeldStartFinishes(sts: string, states: seq<State>, steps: seq<Step>, a: nat, b: nat, c: nat, m: nat)
    requires Run(sts, states, steps)
    requires FinalSweep(states, steps, a, b)
    requires b <= c && OffThroughout(states, b, c)
    requires forall i :: i in states[b].volumes ==> CollectedWithin(steps, b, c, i)
    requires OnePass(steps, c, m) && states[c].want.replicas > 0
    ensures states[m + 1].live == StartOf(states[c].want) && states[m + 1].volumes == map[]
    ensures !StartPending(states[m + 1].want, states[m + 1].live)
  {
    RunKeepsBase(sts, states, steps, a);
    SweepMarksEveryOldVolume(sts, states, steps, a, b);
    StaysQuiet(sts, states, steps, b, c);
    forall i | i in states[c].volumes ensures false {
      CollectedIsGone(sts, states, steps, b, c, i);
    }
    PassStarts(sts, states, steps, c, m);
    assert Leads(sts, states[m], steps[m], states[m + 1]);
  }

  // ------------------------------------------------------------------
  // A held-back start is never stuck
  // ------------------------------------------------------------------

  lemma {:induction false} ReachesAlong(sts: string, s: State, states: seq<State>, steps: seq<Step>, k: nat)
    requires Linked(sts, states, steps) && k < |states| && Reaches(sts, s, states[0])
    ensures Reaches(sts, s, states[k])
  {
    if k > 0 {
      ReachesAlong(sts, s, states, steps, k - 1);
      assert Leads(sts, states[k - 1], steps[k - 1], states[k]);
      var _ := Reached(sts, s, states[k - 1], steps[k - 1]);
    }
  }

  lemma {:induction false} CanCollect(sts: string, s: State, t: State)
    requires Reaches(sts, s, t) && Draining(t)
    ensures Reaches(sts, s, t.(volumes := map[]))
    decreases |t.volumes|
  {
    if t.volumes == map[] {
      assert t.(volumes := map[]) == t;
    } else {
      var i :| i in t.volumes;
      var u := Reached(sts, s, t, Collect(i));
      OldVolumesOnlyShrink(sts, t, Collect(i));
      CanCollect(sts, s, u);
    }
  }

  lemma CanStartFrom(sts: string, s: State, t: State) returns (u: State)
    requires Reaches(sts, s, t)
    requires t.pc.Idle? && t.live.Off? && t.want.replicas > 0 && t.volumes == map[]
    ensures Reaches(sts, s, u) && u == t.(live := StartOf(t.want), pc := u.pc)
  {
    var t1 := Reached(sts, s, t, Start);
    var t2 := Reached(sts, s, t1, ReadLive);
    var t3 := Reached(sts, s, t2, ListVolumes([], []));
    u := Reached(sts, s, t3, Apply);
  }

  /** From a planning listing with the pods and the StatefulSet gone, the pass can end without volumes left. */
  lemma CanDrain(sts: string, s: State, t: State) returns (u: State)
    requires Reaches(sts, s, t) && Base(sts, t)
    requires t.pc.Listing? && t.pc.phase.Plan? && t.statefulSet.Off? && t.pods == {} && t.volumes != map[]
    ensures Reaches(sts, s, u) && u == t.(volumes := map[], pc := Idle)
  {
    var states, steps := CanFinishWithout(sts, t, 0);
    var t1 := states[|steps|];
    ReachesAlong(sts, s, states, steps, |steps|);
    SweepMarksEveryOldVolume(sts, states, steps, 0, |steps|);
    SweepHolds(sts, states, steps, 0, |steps|);
    CanCollect(sts, s, t1);
    var t2 := Reached(sts, s, t1.(volumes := map[]), FinishSweep);
    var t3 := Reached(sts, s, t2, Apply);
    u := Reached(sts, s, t3, ListVolumes([], []));
  }

  /**
   From every idle held-back state whose old pods are gone, some way leads to
   hidden members on, as asked for, with nothing pending.
   */
  lemma HeldStartIsNeverStuck(sts: string, s: State) returns (u: State)
    requires Base(sts, s) && s.pc.Idle? && s.pods == {} && StartPending(s.want, s.live)
    ensures Reaches(sts, s, u)
    ensures u.live == StartOf(s.want) && !StartPending(s.want, u.live)
  {
    ReachesItself(sts, s);
    var t := Reached(sts, s, s, Reconcile);
    if t.volumes != map[] {
      var t1 := Reached(sts, s, t, Start);
      var t2 := Reached(sts, s, t1, ReadLive);
      assert Base(sts, t2);
      t := CanDrain(sts, s, t2);
    }
    u := CanStartFrom(sts, s, t);
  }
}
