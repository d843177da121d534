/**
 What the volume loop may delete, and what it leaves, in every run of the
 hidden-member protocol, however far the operator lags behind the resource.
 */
module HiddenDeletions {
  import opened Text
  import opened HiddenVolumes
  import opened HiddenProtocol

  // ------------------------------------------------------------------
  // Only unlisted, unwanted volumes are deleted
  // ------------------------------------------------------------------

  /** Volume i is alive in s, and deleted or gone in t. */
  ghost predicate LosesVolume(s: State, t: State, i: nat) {
    Alive(s, i) && !Alive(t, i)
  }

  lemma OnlyTheLoopDeletes(sts: string, s: State, step: Step, i: nat)
    requires Enabled(sts, s, step) && LosesVolume(s, After(sts, s, step), i)
    ensures step.VisitNext? && s.pc.ordinals[s.pc.next] == i && VerdictOf(s.pc).Delete?
  {
  }

  /** The loop deletes claim k: alive when listed, from keepBelow up, its pod not among those listed. */
  predicate Doomed(pc: Pc, running: set<nat>, k: nat)
    requires pc.Listed? || pc.Sweeping?
  {
    && k < |pc.claims| == |pc.ordinals|
    && !pc.claims[k].terminating && KeepBelow(pc) <= pc.ordinals[k] && pc.ordinals[k] !in running
  }

  /** Claim k is one the loop deletes, and its volume has a pod, or may get one from the StatefulSet as it stands. */
  predicate ExposedAt(s: State, running: set<nat>, k: nat)
    requires s.pc.Listed? || s.pc.Sweeping?
  {
    && Doomed(s.pc, running, k)
    && (s.pc.ordinals[k] in s.pods || Wanted(s.statefulSet, s.pc.ordinals[k]))
  }

  /** What the loop deletes is from keepBelow up and was not in the list of pods. */
  lemma LoopDeletesUnlisted(sts: string, s: State, step: Step, i: nat)
    requires Base(sts, s) && Enabled(sts, s, step) && LosesVolume(s, After(sts, s, step), i)
    ensures step.VisitNext? && s.pc.ordinals[s.pc.next] == i && Doomed(s.pc, s.pc.running, s.pc.next)
    ensures i in s.pods ==> ExposedAt(s, s.pc.running, s.pc.next)
  {
    OnlyTheLoopDeletes(sts, s, step, i);
    VerdictIs(sts, s);
  }

  /**
   In every run a volume is lost only to Sync's own loop, never if its pod was
   in the list Sync read, and never for an ordinal the live resource still runs.
   */
  lemma DeletionIsSafe(sts: string, states: seq<State>, steps: seq<Step>, k: nat, i: nat)
    requires Run(sts, states, steps) && k < |steps|
    requires LosesVolume(states[k], states[k + 1], i)
    ensures steps[k].VisitNext?
    ensures i !in states[k].pc.running
    ensures !Wanted(states[k].live, i)
  {
    RunKeepsBase(sts, states, steps, k);
    assert Leads(sts, states[k], steps[k], states[k + 1]);
    LoopDeletesUnlisted(sts, states[k], steps[k], i);
  }

  // ------------------------------------------------------------------
  // When a volume in use can be deleted
  // ------------------------------------------------------------------

  ghost predicate Exposed(s: State, running: set<nat>)
    requires s.pc.Listed? || s.pc.Sweeping?
  {
    exists k: nat :: ExposedAt(s, running, k)
  }

  /** What is exposed in the loop was exposed a step earlier, back to when the pods were listed. */
  lemma ExposureGoesBack(sts: string, s: State, step: Step, k: nat)
    requires Base(sts, s) && Enabled(sts, s, step) && After(sts, s, step).pc.Sweeping?
    requires ExposedAt(After(sts, s, step), After(sts, s, step).pc.running, k)
    ensures s.pc.Listed? ==> ExposedAt(s, s.pods, k)
    ensures s.pc.Sweeping? ==> ExposedAt(s, s.pc.running, k)
  {
    var t := After(sts, s, step);
    if step.VisitNext? {
      assert t.pc == s.pc.(next := t.pc.next, remaining := t.pc.remaining);
    }
  }

  lemma {:induction false} UnexposedAtStart(sts: string, states: seq<State>, steps: seq<Step>, a: nat, b: nat)
    requires Linked(sts, states, steps) && OneLoop(states, steps, a, b)
    requires Base(sts, states[a]) && !Exposed(states[a], states[a].pods)
    ensures Base(sts, states[b]) && !Exposed(states[b], states[b].pc.running)
  {
    if b > a + 1 {
      UnexposedAtStart(sts, states, steps, a, b - 1);
    }
    assert Leads(sts, states[b - 1], steps[b - 1], states[b]);
    StepKeepsBase(sts, states[b - 1], steps[b - 1]);
    forall k: nat | ExposedAt(states[b], states[b].pc.running, k) ensures false {
      ExposureGoesBack(sts, states[b - 1], steps[b - 1], k);
    }
  }

  lemma {:induction false} LoopStart(sts: string, states: seq<State>, steps: seq<Step>, b: nat) returns (a: nat)
    requires Run(sts, states, steps) && b < |states| && states[b].pc.Sweeping?
    ensures OneLoop(states, steps, a, b)
  {
    assert Leads(sts, states[b - 1], steps[b - 1], states[b]);
    if states[b - 1].pc.Sweeping? {
      a := LoopStart(sts, states, steps, b - 1);
    } else {
      a := b - 1;
    }
  }

  /**
   In every run, a volume some pod uses is lost only in a loop whose list of pods
   was read while the StatefulSet still ran an ordinal the loop was to delete.
   */
  lemma NoVolumeInUseIsDeleted(sts: string, states: seq<State>, steps: seq<Step>, k: nat, i: nat) returns (a: nat)
    requires Run(sts, states, steps) && k < |steps|
    requires LosesVolume(states[k], states[k + 1], i)
    ensures OneLoop(states, steps, a, k)
    ensures !Exposed(states[a], states[a].pods) ==> i !in states[k].pods
  {
    RunKeepsBase(sts, states, steps, k);
    assert Leads(sts, states[k], steps[k], states[k + 1]);
    LoopDeletesUnlisted(sts, states[k], steps[k], i);
    a := LoopStart(sts, states, steps, k);
    if !Exposed(states[a], states[a].pods) {
      RunKeepsBase(sts, states, steps, a);
      UnexposedAtStart(sts, states, steps, a, k);
    }
  }

  /** Once the operator runs nothing from keepBelow up, nothing is exposed. */
  lemma CaughtUpIsUnexposed(s: State)
    requires s.pc.Listed? && RunsNoneFrom(s, KeepBelow(s.pc))
    ensures !Exposed(s, s.pods)
  {
  }

  ghost predicate LosesVolumeInUse(s: State, t: State) {
    exists i :: i in s.pods && LosesVolume(s, t, i)
  }

  /** The loop started by the first step deletes, in the last, a volume some pod uses. */
  ghost predicate DeletesInUse(sts: string, states: seq<State>, steps: seq<Step>) {
    && Linked(sts, states, steps) && |steps| > 1 && OneLoop(states, steps, 0, |steps| - 1)
    && LosesVolumeInUse(states[|steps| - 1], states[|steps|])
  }

  /** Exactly when a volume in use can be deleted: something is exposed as the pods are listed. */
  lemma DeletesInUseIffExposed(sts: string, s: State)
    requires Base(sts, s) && s.pc.Listed?
    ensures (exists states, steps :: DeletesInUse(sts, states, steps) && states[0] == s) <==> Exposed(s, s.pods)
  {
    if Exposed(s, s.pods) {
      var states, steps := ExposedCanBeDeleted(sts, s);
      assert DeletesInUse(sts, states, steps) && states[0] == s;
    }
    forall states, steps | DeletesInUse(sts, states, steps) && states[0] == s ensures Exposed(s, s.pods) {
      DeletesInUseWasExposed(sts, states, steps);
    }
  }

  lemma DeletesInUseWasExposed(sts: string, states: seq<State>, steps: seq<Step>)
    requires DeletesInUse(sts, states, steps) && Base(sts, states[0])
    ensures Exposed(states[0], states[0].pods)
  {
    var n := |steps| - 1;
    var i :| i in states[n].pods && LosesVolume(states[n], states[n + 1], i);
    if !Exposed(states[0], states[0].pods) {
      UnexposedAtStart(sts, states, steps, 0, n);
      assert Leads(sts, states[n], steps[n], states[n + 1]);
      LoopDeletesUnlisted(sts, states[n], steps[n], i);
    }
  }

  /** The loop reaches claim k, still to be deleted, with a pod on its volume. */
  ghost predicate Approaches(sts: string, states: seq<State>, steps: seq<Step>, k: nat) {
    && Linked(sts, states, steps) && |steps| > 0 && OneLoop(states, steps, 0, |steps|)
    && Base(sts, states[|steps|])
    && var t := states[|steps|];
       t.pc.next <= k && Doomed(t.pc, t.pc.running, k) && t.pc.ordinals[k] in t.pods
  }

  lemma {:induction false} ApproachClaim(sts: string, states: seq<State>, steps: seq<Step>, k: nat)
    returns (states': seq<State>, steps': seq<Step>)
    requires Approaches(sts, states, steps, k)
    ensures Approaches(sts, states', steps', k) && states'[0] == states[0] && states'[|steps'|].pc.next == k
    decreases k - states[|steps|].pc.next
  {
    var t := states[|steps|];
    if t.pc.next == k {
      states', steps' := states, steps;
    } else {
      LinkedSnoc(sts, states, steps, VisitNext);
      StepKeepsBase(sts, t, VisitNext);
      states', steps' := ApproachClaim(sts, states + [After(sts, t, VisitNext)], steps + [VisitNext], k);
    }
  }

  lemma ExposedCanBeDeleted(sts: string, s: State) returns (states: seq<State>, steps: seq<Step>)
    requires Base(sts, s) && s.pc.Listed? && Exposed(s, s.pods)
    ensures DeletesInUse(sts, states, steps) && states[0] == s
  {
    var k: nat :| ExposedAt(s, s.pods, k);
    states, steps := PodReturns(sts, s, k);
    states, steps := ApproachClaim(sts, states, steps, k);
    var t := states[|steps|];
    VisitLosesVolume(sts, t);
    LinkedSnoc(sts, states, steps, VisitNext);
    states, steps := states + [After(sts, t, VisitNext)], steps + [VisitNext];
    assert t == states[|steps| - 1];
  }

  lemma VisitLosesVolume(sts: string, s: State)
    requires Base(sts, s) && s.pc.Sweeping? && Doomed(s.pc, s.pc.running, s.pc.next)
    requires s.pc.ordinals[s.pc.next] in s.pods
    ensures Enabled(sts, s, VisitNext) && LosesVolumeInUse(s, After(sts, s, VisitNext))
  {
    VerdictIs(sts, s);
    assert LosesVolume(s, After(sts, s, VisitNext), s.pc.ordinals[s.pc.next]);
  }

  /** The pods are listed, and then the pod of claim k comes back. */
  lemma PodReturns(sts: string, s: State, k: nat) returns (states: seq<State>, steps: seq<Step>)
    requires Base(sts, s) && s.pc.Listed? && ExposedAt(s, s.pods, k)
    ensures Approaches(sts, states, steps, k) && states[0] == s
  {
    var names := SomePodNames(sts, s.pods);
    StepKeepsBase(sts, s, ListPods(names));
    var t := After(sts, s, ListPods(names));
    assert Alive(t, s.pc.ordinals[k]);
    var create := CreatePod(s.pc.ordinals[k]);
    StepKeepsBase(sts, t, create);
    var none: seq<Step> := [];
    assert Linked(sts, [s], none);
    LinkedSnoc(sts, [s], none, ListPods(names));
    LinkedSnoc(sts, [s] + [t], none + [ListPods(names)], create);
    states, steps := [s] + [t] + [After(sts, t, create)], none + [ListPods(names)] + [create];
  }

  // ------------------------------------------------------------------
  // What a finished sweep leaves
  // ------------------------------------------------------------------

  /** Volume i is being deleted or gone. */
  predicate Dying(s: State, i: nat) {
    i in s.volumes ==> s.volumes[i].terminating
  }

  /** What a sweep has settled, if the operator runs none of the ordinals it may delete. */
  ghost predicate SweepInv(s: State) {
    && (s.pc.Listed? || s.pc.Sweeping?)
    && RunsNoneFrom(s, KeepBelow(s.pc))
    && |s.pc.ordinals| == |s.pc.claims|
    && (forall i :: i in s.volumes && KeepBelow(s.pc) <= i ==> i in s.pc.ordinals)
    && forall k :: 0 <= k < |s.pc.claims| && Settled(s.pc, k) ==> Dying(s, s.pc.ordinals[k])
  }

  /** Claim k is from keepBelow up, and was listed as terminating or has been visited and deleted. */
  predicate Settled(pc: Pc, k: nat)
    requires (pc.Listed? || pc.Sweeping?) && k < |pc.claims| == |pc.ordinals|
  {
    && KeepBelow(pc) <= pc.ordinals[k]
    && (pc.claims[k].terminating || (pc.Sweeping? && k < pc.next && pc.ordinals[k] !in pc.running))
  }

  lemma VisitedKeepsSweepInv(s: State, verdict: Verdict)
    requires SweepInv(s) && s.pc.Sweeping? && s.pc.next < |s.pc.claims|
    requires verdict == VisitOrdinal(s.pc.ordinals[s.pc.next], s.pc.claims[s.pc.next].terminating,
                                     s.pc.running, KeepBelow(s.pc))
    ensures SweepInv(Visited(s, verdict))
  {
    var t := Visited(s, verdict);
    assert forall i :: i in t.volumes <==> i in s.volumes;
    assert forall i :: Dying(s, i) ==> Dying(t, i);
    forall k | 0 <= k < |t.pc.claims| && Settled(t.pc, k) ensures Dying(t, t.pc.ordinals[k]) {
      assert Settled(s.pc, k) || (k == s.pc.next && verdict.Delete?);
    }
  }

  lemma OthersKeepSweepInv(sts: string, s: State, step: Step)
    requires Base(sts, s) && SweepInv(s) && Enabled(sts, s, step) && !step.VisitNext?
    requires var t := After(sts, s, step); t.pc.Listed? || t.pc.Sweeping?
    ensures SweepInv(After(sts, s, step))
  {
    var t := After(sts, s, step);
    assert KeepBelow(t.pc) == KeepBelow(s.pc) && t.live == s.live;
    assert forall i :: Dying(s, i) && KeepBelow(s.pc) <= i ==> Dying(t, i);
  }

  lemma StepKeepsSweepInv(sts: string, s: State, step: Step)
    requires Base(sts, s) && SweepInv(s) && Enabled(sts, s, step)
    requires var t := After(sts, s, step); t.pc.Listed? || t.pc.Sweeping?
    ensures SweepInv(After(sts, s, step))
  {
    if step.VisitNext? {
      VerdictIs(sts, s);
      VisitedKeepsSweepInv(s, VerdictOf(s.pc));
    } else {
      OthersKeepSweepInv(sts, s, step);
    }
  }

  /** Until it ends, a sweep holds on to what it listed and what it is for. */
  lemma {:induction false} SweepHolds(sts: string, states: seq<State>, steps: seq<Step>, a: nat, b: nat)
    requires Linked(sts, states, steps) && OneSweep(states, steps, a, b) && Base(sts, states[a])
    ensures Base(sts, states[b]) && KeepBelow(states[b].pc) == KeepBelow(states[a].pc)
    ensures states[b].pc.phase == states[a].pc.phase
    ensures states[b].pc.ordinals == steps[a].ordinals && states[b].pc.claims == steps[a].claims
  {
    if b > a + 1 {
      SweepHolds(sts, states, steps, a, b - 1);
    }
    assert Leads(sts, states[b - 1], steps[b - 1], states[b]);
    StepKeepsBase(sts, states[b - 1], steps[b - 1]);
  }

  /** The invariant of a sweep holds from the listing on. */
  lemma {:induction false} SweepKeepsInv(sts: string, states: seq<State>, steps: seq<Step>, a: nat, b: nat)
    requires Linked(sts, states, steps) && OneSweep(states, steps, a, b) && Base(sts, states[a])
    requires RunsNoneFrom(states[a], KeepBelow(states[a].pc))
    ensures SweepInv(states[b])
  {
    assert Leads(sts, states[b - 1], steps[b - 1], states[b]);
    if b > a + 1 {
      SweepHolds(sts, states, steps, a, b - 1);
      SweepKeepsInv(sts, states, steps, a, b - 1);
      StepKeepsSweepInv(sts, states[b - 1], steps[b - 1]);
    }
  }

  lemma FinishedIsThorough(s: State)
    requires SweepInv(s) && Finished(s)
    ensures forall i :: i in s.volumes && KeepBelow(s.pc) <= i && i !in s.pc.running ==> s.volumes[i].terminating
  {
    forall i | i in s.volumes && KeepBelow(s.pc) <= i && i !in s.pc.running ensures s.volumes[i].terminating {
      var k :| 0 <= k < |s.pc.ordinals| && s.pc.ordinals[k] == i;
      assert Settled(s.pc, k);
    }
  }

  /**
   In every run, a sweep whose volumes were listed once the operator ran nothing
   from keepBelow up ends with every volume from there up deleted or
   terminating, but those whose pod was listed.
   */
  lemma SweepIsThorough(sts: string, states: seq<State>, steps: seq<Step>, a: nat, b: nat)
    requires Run(sts, states, steps) && OneSweep(states, steps, a, b) && Finished(states[b])
    requires RunsNoneFrom(states[a], KeepBelow(states[a].pc))
    ensures forall i :: i in states[b].volumes && KeepBelow(states[a].pc) <= i && i !in states[b].pc.running ==>
      states[b].volumes[i].terminating
  {
    RunKeepsBase(sts, states, steps, a);
    SweepHolds(sts, states, steps, a, b);
    SweepKeepsInv(sts, states, steps, a, b);
    FinishedIsThorough(states[b]);
  }

  /** The loop gets past claim k by visiting it, and leaves its volume dying if it is to be deleted. */
  lemma PassingClaim(sts: string, s: State, step: Step, k: nat)
    requires Base(sts, s) && Enabled(sts, s, step)
    requires var t := After(sts, s, step);
             t.pc.Sweeping? && k < t.pc.next && Doomed(t.pc, t.pc.running, k)
    ensures (s.pc.Sweeping? && k < s.pc.next && s.pc.running == After(sts, s, step).pc.running)
            || Dying(After(sts, s, step), After(sts, s, step).pc.ordinals[k])
  {
    if step.VisitNext? && s.pc.next == k {
      VerdictIs(sts, s);
    }
  }

  /**
   In every run, with no condition on the operator, a sweep finds each volume it
   listed from keepBelow up, but those whose pod was listed, deleted or
   terminating at some moment.
   */
  lemma {:induction false} SweepReachesEveryListedVolume(
    sts: string, states: seq<State>, steps: seq<Step>, a: nat, b: nat, k: nat) returns (j: nat)
    requires Run(sts, states, steps) && OneSweep(states, steps, a, b) && states[b].pc.Sweeping?
    requires k < states[b].pc.next <= |states[b].pc.ordinals|
    requires KeepBelow(states[b].pc) <= states[b].pc.ordinals[k] && states[b].pc.ordinals[k] !in states[b].pc.running
    ensures a < j <= b && Dying(states[j], states[b].pc.ordinals[k])
  {
    RunKeepsBase(sts, states, steps, a);
    SweepHolds(sts, states, steps, a, b);
    assert Leads(sts, states[a], steps[a], states[a + 1]);
    if steps[a].claims[k].terminating {
      j := a + 1;
    } else if Dying(states[b], states[b].pc.ordinals[k]) {
      j := b;
    } else {
      RunKeepsBase(sts, states, steps, b - 1);
      assert Leads(sts, states[b - 1], steps[b - 1], states[b]);
      PassingClaim(sts, states[b - 1], steps[b - 1], k);
      SweepHolds(sts, states, steps, a, b - 1);
      j := SweepReachesEveryListedVolume(sts, states, steps, a, b - 1, k);
    }
  }

  // ------------------------------------------------------------------
  // When a sweep can leave a volume behind
  // ------------------------------------------------------------------

  /** The sweep has visited every claim, and a volume it is for is alive without a listed pod. */
  ghost predicate LeavesVolume(s: State) {
    Finished(s) && exists i :: Alive(s, i) && KeepBelow(s.pc) <= i && i !in s.pc.running
  }

  /** A sweep that starts with the first step and is under way in the last state. */
  ghost predicate Sweep(sts: string, states: seq<State>, steps: seq<Step>) {
    && Linked(sts, states, steps) && |steps| > 0 && OneSweep(states, steps, 0, |steps|)
    && Base(sts, states[0])
  }

  lemma SweepSnoc(sts: string, states: seq<State>, steps: seq<Step>, step: Step)
    returns (states': seq<State>, steps': seq<Step>)
    requires Sweep(sts, states, steps) && Enabled(sts, states[|steps|], step)
    requires var t := After(sts, states[|steps|], step); t.pc.Listed? || t.pc.Sweeping?
    ensures Sweep(sts, states', steps') && states'[0] == states[0]
    ensures states'[|steps'|] == After(sts, states[|steps|], step)
  {
    LinkedSnoc(sts, states, steps, step);
    states', steps' := states + [After(sts, states[|steps|], step)], steps + [step];
  }

  lemma {:induction false} SweepFinishes(sts: string, states: seq<State>, steps: seq<Step>)
    returns (states': seq<State>, steps': seq<Step>)
    requires Sweep(sts, states, steps) && states[|steps|].pc.Sweeping?
    ensures Sweep(sts, states', steps') && states'[0] == states[0] && Finished(states'[|steps'|])
    ensures states'[|steps'|].pc.running == states[|steps|].pc.running
    ensures states'[|steps'|] == states[|steps|].(volumes := states'[|steps'|].volumes, pc := states'[|steps'|].pc)
    decreases |states[|steps|].pc.claims| - states[|steps|].pc.next
  {
    SweepHolds(sts, states, steps, 0, |steps|);
    if Finished(states[|steps|]) {
      states', steps' := states, steps;
    } else {
      states', steps' := SweepSnoc(sts, states, steps, VisitNext);
      states', steps' := SweepFinishes(sts, states', steps');
    }
  }

  /** Exactly when a sweep can leave an unused volume: the operator still runs an ordinal the sweep is for. */
  lemma LeavesVolumeIffStillRun(sts: string, s: State)
    requires Base(sts, s) && s.pc.Listing? && s.volumes != map[]
    ensures (exists states, steps :: Sweep(sts, states, steps) && states[0] == s && LeavesVolume(states[|steps|]))
            <==> !RunsNoneFrom(s, KeepBelow(s.pc))
  {
    if !RunsNoneFrom(s, KeepBelow(s.pc)) {
      var states, steps := CanLeaveVolume(sts, s);
      assert Sweep(sts, states, steps) && states[0] == s && LeavesVolume(states[|steps|]);
    }
    forall states, steps | Sweep(sts, states, steps) && states[0] == s && LeavesVolume(states[|steps|])
      ensures !RunsNoneFrom(s, KeepBelow(s.pc))
    {
      if RunsNoneFrom(s, KeepBelow(s.pc)) {
        SweepKeepsInv(sts, states, steps, 0, |steps|);
        FinishedIsThorough(states[|steps|]);
      }
    }
  }

  lemma CanLeaveVolume(sts: string, s: State) returns (states: seq<State>, steps: seq<Step>)
    requires Base(sts, s) && s.pc.Listing? && s.volumes != map[] && !RunsNoneFrom(s, KeepBelow(s.pc))
    ensures Sweep(sts, states, steps) && states[0] == s && LeavesVolume(states[|steps|])
  {
    var i := s.statefulSet.size - 1;
    states, steps := CanFinishWithout(sts, s, i);
    var t := states[|steps|];
    if !Alive(t, i) {
      if i in t.volumes {
        states, steps := SweepSnoc(sts, states, steps, Collect(i));
      }
      states, steps := SweepSnoc(sts, states, steps, CreateVolume(i));
    }
    SweepHolds(sts, states, steps, 0, |steps|);
    assert Alive(states[|steps|], i);
  }

  /** Pod i stops before the pods are listed, and the loop runs to its end. */
  lemma CanFinishWithout(sts: string, s: State, i: nat) returns (states: seq<State>, steps: seq<Step>)
    requires Base(sts, s) && s.pc.Listing? && s.volumes != map[]
    ensures Sweep(sts, states, steps) && states[0] == s && Finished(states[|steps|])
    ensures states[|steps|].pc.running == s.pods - {i}
    ensures states[|steps|] == s.(volumes := states[|steps|].volumes, pods := s.pods - {i}, pc := states[|steps|].pc)
  {
    states, steps := CanList(sts, s);
    states, steps := SweepSnoc(sts, states, steps, StopPod(i));
    var names := SomePodNames(sts, states[|steps|].pods);
    states, steps := SweepSnoc(sts, states, steps, ListPods(names));
    states, steps := SweepFinishes(sts, states, steps);
  }

  lemma CanList(sts: string, s: State) returns (states: seq<State>, steps: seq<Step>)
    requires Base(sts, s) && s.pc.Listing? && s.volumes != map[]
    ensures Sweep(sts, states, steps) && states[0] == s && states[|steps|] == s.(pc := states[|steps|].pc)
    ensures states[|steps|].pc.Listed?
  {
    var ordinals, claims := SomeListing(sts, s.volumes, s.volumes.Keys);
    var i :| i in s.volumes;
    assert i in ordinals;
    var none: seq<Step> := [];
    assert Linked(sts, [s], none);
    LinkedSnoc(sts, [s], none, ListVolumes(ordinals, claims));
    states, steps := [s] + [After(sts, s, ListVolumes(ordinals, claims))], none + [ListVolumes(ordinals, claims)];
  }
}
