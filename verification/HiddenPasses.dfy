/**
 What a complete pass does to the hidden members in the resource, in every run
 of the protocol: running members are resized and stay on, members no longer
 asked for go off, and members to be turned on wait for an empty listing.
 */
module HiddenPasses {
  import opened Text
  import opened HiddenVolumes
  import opened HiddenProtocol
  import opened HiddenDeletions

  /** No pass ends between steps a and m. */
  ghost predicate Uninterrupted(steps: seq<Step>, a: nat, m: nat) {
    m <= |steps| && forall j :: a < j < m ==> !steps[j].Apply? && !steps[j].Crash?
  }

  /** A pass from its start to its apply. */
  ghost predicate OnePass(steps: seq<Step>, c: nat, m: nat) {
    c < m < |steps| && steps[c].Start? && steps[m].Apply? && Uninterrupted(steps, c, m)
  }

  /** Before the resource is applied, asked for want. */
  predicate Before(pc: Pc, want: Want) {
    match pc
    case Idle => false
    case Started(w) => w == want
    case Listing(w, phase) => w == want && phase.Plan?
    case Listed(w, phase, _, _) => w == want && phase.Plan?
    case Sweeping(w, phase, _, _, _, _, _, _) => w == want && phase.Plan?
    case Planned(w, _) => w == want
  }

  lemma {:induction false} PassSoFar(sts: string, states: seq<State>, steps: seq<Step>, c: nat, m: nat)
    requires Run(sts, states, steps) && c < m <= |steps| && steps[c].Start? && Uninterrupted(steps, c, m)
    ensures Before(states[m].pc, states[c].want) && states[m].live == states[c].live
  {
    assert Leads(sts, states[m - 1], steps[m - 1], states[m]);
    if m > c + 1 {
      PassSoFar(sts, states, steps, c, m - 1);
      RunKeepsBase(sts, states, steps, m - 1);
      StepStaysBefore(sts, states[m - 1], steps[m - 1], states[c].want);
    }
  }

  lemma StepStaysBefore(sts: string, s: State, step: Step, want: Want)
    requires Base(sts, s) && Enabled(sts, s, step) && Before(s.pc, want) && !step.Apply? && !step.Crash?
    ensures Before(After(sts, s, step).pc, want) && After(sts, s, step).live == s.live
  {
  }

  lemma {:induction false} PassStartedAt(sts: string, states: seq<State>, steps: seq<Step>, m: nat, want: Want)
    returns (c: nat)
    requires Run(sts, states, steps) && m < |states| && Before(states[m].pc, want)
    ensures c < m && steps[c].Start? && Uninterrupted(steps, c, m) && states[c].want == want
  {
    RunKeepsBase(sts, states, steps, m - 1);
    assert Leads(sts, states[m - 1], steps[m - 1], states[m]);
    if steps[m - 1].Start? {
      c := m - 1;
    } else {
      StepWasBefore(sts, states[m - 1], steps[m - 1], want);
      c := PassStartedAt(sts, states, steps, m - 1, want);
    }
  }

  lemma StepWasBefore(sts: string, s: State, step: Step, want: Want)
    requires Base(sts, s) && Enabled(sts, s, step) && Before(After(sts, s, step).pc, want) && !step.Start?
    ensures Before(s.pc, want) && !step.Apply? && !step.Crash?
  {
  }

  /** Every apply ends a pass, which began with some start, and applies as asked for then. */
  lemma ApplyEndsPass(sts: string, states: seq<State>, steps: seq<Step>, m: nat) returns (c: nat)
    requires Run(sts, states, steps) && m < |steps| && steps[m].Apply?
    ensures OnePass(steps, c, m)
  {
    assert Leads(sts, states[m], steps[m], states[m + 1]);
    c := PassStartedAt(sts, states, steps, m, states[m].pc.want);
  }

  /** In every run, running members are turned off only by the apply of a pass that asks for none. */
  lemma TurnedOffOnlyIfUnwanted(sts: string, states: seq<State>, steps: seq<Step>, k: nat) returns (c: nat)
    requires Run(sts, states, steps) && k < |steps| && states[k].live.On? && states[k + 1].live.Off?
    ensures OnePass(steps, c, k) && states[c].want.replicas <= 0
  {
    assert Leads(sts, states[k], steps[k], states[k + 1]);
    c := ApplyEndsPass(sts, states, steps, k);
    PassSoFar(sts, states, steps, c, k);
    RunKeepsBase(sts, states, steps, k);
  }

  /**
   In every run, a pass over running members resizes them and keeps their class,
   or turns them off if none is asked for.
   */
  lemma RunningMembersPass(sts: string, states: seq<State>, steps: seq<Step>, c: nat, m: nat)
    requires Run(sts, states, steps) && OnePass(steps, c, m) && states[c].live.On?
    ensures states[m + 1].live ==
      if states[c].want.replicas > 0 then On(states[c].want.replicas, states[c].live.storageClass) else Off
  {
    PassSoFar(sts, states, steps, c, m);
    RunKeepsBase(sts, states, steps, m);
    assert Leads(sts, states[m], steps[m], states[m + 1]);
  }

  // ------------------------------------------------------------------
  // Members to be turned on
  // ------------------------------------------------------------------

  /** A plan for members that are off and asked for is based on the listing at step a of this pass. */
  ghost predicate BasedOn(states: seq<State>, steps: seq<Step>, c: nat, a: nat, m: nat) {
    && c < a < m < |states| == |steps| + 1
    && steps[a].ListVolumes? && states[a].pc == Listing(states[c].want, Plan)
  }

  /** What follows a listing for a start: the members asked for if it found nothing, no members otherwise. */
  ghost predicate Follows(pc: Pc, want: Want, nothing: bool) {
    if nothing then pc == Planned(want, On(want.replicas, want.storageClass))
    else pc.Listed? || pc.Sweeping? || pc == Planned(want, Off)
  }

  lemma ListingIsFollowed(sts: string, s: State, step: Step, want: Want)
    requires Enabled(sts, s, step) && step.ListVolumes? && s.pc == Listing(want, Plan)
    ensures Follows(After(sts, s, step).pc, want, s.volumes == map[])
  {
    if step.claims != [] {
      assert step.ordinals[0] in s.volumes;
    }
  }

  lemma StepStillFollows(sts: string, s: State, step: Step, want: Want, nothing: bool)
    requires Base(sts, s) && Enabled(sts, s, step) && Follows(s.pc, want, nothing) && Before(s.pc, want)
    requires !step.Apply? && !step.Crash?
    ensures Follows(After(sts, s, step).pc, want, nothing)
  {
  }

  lemma {:induction false} ListedInPass(sts: string, states: seq<State>, steps: seq<Step>, c: nat, m: nat)
    returns (a: nat)
    requires Run(sts, states, steps) && c < m <= |steps| && steps[c].Start? && Uninterrupted(steps, c, m)
    requires states[c].live.Off? && states[c].want.replicas > 0
    requires !states[m].pc.Started? && !states[m].pc.Listing?
    ensures BasedOn(states, steps, c, a, m) && Follows(states[m].pc, states[c].want, states[a].volumes == map[])
  {
    var want := states[c].want;
    assert Leads(sts, states[c], steps[c], states[c + 1]);
    assert Leads(sts, states[m - 1], steps[m - 1], states[m]);
    RunKeepsBase(sts, states, steps, m - 1);
    PassSoFar(sts, states, steps, c, m - 1);
    if states[m - 1].pc.Started? || states[m - 1].pc.Listing? {
      a := m - 1;
      ListingIsFollowed(sts, states[a], steps[a], want);
    } else {
      a := ListedInPass(sts, states, steps, c, m - 1);
      StepStillFollows(sts, states[m - 1], steps[m - 1], want, states[a].volumes == map[]);
    }
  }

  /**
   In every run, a pass asked for members that are off switches on what it was
   asked for exactly if the volumes it listed were none, and otherwise leaves
   the start pending.
   */
  lemma StartingMembersPass(sts: string, states: seq<State>, steps: seq<Step>, c: nat, m: nat) returns (a: nat)
    requires Run(sts, states, steps) && OnePass(steps, c, m) && states[c].live.Off? && states[c].want.replicas > 0
    ensures BasedOn(states, steps, c, a, m)
    ensures states[m + 1].live ==
      if states[a].volumes == map[] then On(states[c].want.replicas, states[c].want.storageClass) else Off
    ensures StartPending(states[c].want, states[m + 1].live) <==> states[a].volumes != map[]
  {
    assert Leads(sts, states[m], steps[m], states[m + 1]);
    a := ListedInPass(sts, states, steps, c, m);
  }

  /** In every run, a pass asked for no members over members that are off leaves them off, with nothing pending. */
  lemma UnwantedMembersPass(sts: string, states: seq<State>, steps: seq<Step>, c: nat, m: nat)
    requires Run(sts, states, steps) && OnePass(steps, c, m) && states[c].want.replicas <= 0
    ensures states[m + 1].live == Off && !StartPending(states[c].want, states[m + 1].live)
  {
    PassSoFar(sts, states, steps, c, m);
    RunKeepsBase(sts, states, steps, m);
    assert Leads(sts, states[m], steps[m], states[m + 1]);
  }

  // ------------------------------------------------------------------
  // Cleaning
  // ------------------------------------------------------------------

  /** Step a is the provider's first after the apply at m. */
  ghost predicate NextAfterApply(steps: seq<Step>, m: nat, a: nat) {
    && m < a < |steps| && steps[m].Apply? && !FromOutside(steps[a])
    && forall j :: m < j < a ==> FromOutside(steps[j])
  }

  lemma {:induction false} CleansNext(sts: string, states: seq<State>, steps: seq<Step>, m: nat, a: nat)
    requires Linked(sts, states, steps) && m < a <= |steps| && steps[m].Apply? && states[m].pc.Planned?
    requires forall j :: m < j < a ==> FromOutside(steps[j])
    ensures states[a].pc == Listing(states[m].pc.want, Clean)
  {
    assert Leads(sts, states[a - 1], steps[a - 1], states[a]);
    if a > m + 1 {
      CleansNext(sts, states, steps, m, a - 1);
    }
  }

  /** In every run, the provider's next step after an apply, unless the pass dies there, lists volumes to clean up. */
  lemma CleaningFollowsApply(sts: string, states: seq<State>, steps: seq<Step>, c: nat, m: nat, a: nat)
    requires Run(sts, states, steps) && OnePass(steps, c, m) && NextAfterApply(steps, m, a) && !steps[a].Crash?
    ensures steps[a].ListVolumes? && states[a].pc == Listing(states[c].want, Clean)
  {
    PassSoFar(sts, states, steps, c, m);
    assert Leads(sts, states[m], steps[m], states[m + 1]);
    assert Leads(sts, states[a], steps[a], states[a + 1]);
    CleansNext(sts, states, steps, m, a);
  }

  /**
   In every run, the sweep after an apply, once finished, has removed every
   volume from the number of members asked for up, but those whose pod was
   listed, if the operator ran nothing from there up as volumes were listed.
   */
  lemma CleaningRemovesUnusedVolumes(sts: string, states: seq<State>, steps: seq<Step>,
                                     c: nat, m: nat, a: nat, b: nat)
    requires Run(sts, states, steps) && OnePass(steps, c, m) && NextAfterApply(steps, m, a)
    requires OneSweep(states, steps, a, b) && Finished(states[b])
    requires RunsNoneFrom(states[a], states[c].want.replicas)
    ensures forall i :: i in states[b].volumes && states[c].want.replicas <= i && i !in states[b].pc.running ==>
      states[b].volumes[i].terminating
  {
    CleaningFollowsApply(sts, states, steps, c, m, a);
    SweepIsThorough(sts, states, steps, a, b);
  }
}
