/**
 Hidden members switched on start from nothing: in every run of the protocol,
 exactly as long as the listing that finds no old volume is read after the
 operator has removed the old StatefulSet.
 */
module HiddenStarts {
  import opened Text
  import opened HiddenProtocol

  ghost predicate SwitchedOnAt(states: seq<State>, m: nat) {
    0 < m < |states| && states[m - 1].live.Off? && states[m].live.On?
  }

  ghost predicate OnThroughout(states: seq<State>, m: nat, k: nat) {
    k < |states| && forall j :: m <= j <= k ==> states[j].live.On?
  }

  /** The listing before a start, in a state without volumes. */
  predicate FindsNothing(s: State, step: Step) {
    step.ListVolumes? && s.pc.Listing? && s.pc.phase.Plan? && s.volumes == map[]
  }

  /** Step a is a listing that finds nothing, and a start is planned from then on up to state m. */
  ghost predicate PlannedSince(states: seq<State>, steps: seq<Step>, a: nat, m: nat) {
    && a < m < |states| == |steps| + 1
    && FindsNothing(states[a], steps[a])
    && forall j :: a < j <= m ==> states[j].pc.Planned? && states[j].live.Off?
  }

  // ------------------------------------------------------------------
  // A switch, and the listing it goes back to
  // ------------------------------------------------------------------

  lemma {:induction false} LatestSwitch(sts: string, states: seq<State>, steps: seq<Step>, k: nat) returns (m: nat)
    requires Run(sts, states, steps) && k < |states| && states[k].live.On?
    ensures SwitchedOnAt(states, m) && m <= k && OnThroughout(states, m, k)
  {
    if states[k - 1].live.Off? {
      m := k;
    } else {
      m := LatestSwitch(sts, states, steps, k - 1);
    }
  }

  lemma StartIsPlannedByListing(sts: string, s: State, step: Step)
    requires Base(sts, s) && Enabled(sts, s, step)
    requires var t := After(sts, s, step); t.live.Off? && t.pc.Planned? && t.pc.target.On?
    ensures FindsNothing(s, step) || (s.live.Off? && s.pc == After(sts, s, step).pc)
  {
  }

  lemma {:induction false} PlanGoesBack(sts: string, states: seq<State>, steps: seq<Step>, k: nat) returns (a: nat)
    requires Run(sts, states, steps) && k < |states|
    requires states[k].live.Off? && states[k].pc.Planned? && states[k].pc.target.On?
    ensures PlannedSince(states, steps, a, k)
  {
    RunKeepsBase(sts, states, steps, k - 1);
    assert Leads(sts, states[k - 1], steps[k - 1], states[k]);
    StartIsPlannedByListing(sts, states[k - 1], steps[k - 1]);
    if FindsNothing(states[k - 1], steps[k - 1]) {
      a := k - 1;
    } else {
      a := PlanGoesBack(sts, states, steps, k - 1);
    }
  }

  /** Every switch from off to on goes back to a listing, in the same pass, that found no volume. */
  lemma SwitchIsPlanned(sts: string, states: seq<State>, steps: seq<Step>, m: nat) returns (a: nat)
    requires Run(sts, states, steps) && SwitchedOnAt(states, m)
    ensures PlannedSince(states, steps, a, m - 1) && steps[m - 1].Apply?
  {
    assert Leads(sts, states[m - 1], steps[m - 1], states[m]);
    a := PlanGoesBack(sts, states, steps, m - 1);
  }

  // ------------------------------------------------------------------
  // Fresh volumes
  // ------------------------------------------------------------------

  /** Members are off, and neither a StatefulSet nor a volume of theirs is left. */
  ghost predicate NothingOld(s: State) {
    s.live.Off? && s.statefulSet.Off? && s.volumes == map[]
  }

  lemma NothingOldStays(sts: string, s: State, step: Step)
    requires Enabled(sts, s, step) && NothingOld(s)
    ensures After(sts, s, step).volumes == map[] && After(sts, s, step).statefulSet.Off?
  {
  }

  lemma {:induction false} NothingOldThroughout(sts: string, states: seq<State>, steps: seq<Step>, a: nat, b: nat)
    requires Linked(sts, states, steps) && a <= b < |states| && NothingOld(states[a])
    requires forall j :: a <= j < b ==> states[j].live.Off?
    ensures states[b].volumes == map[] && states[b].statefulSet.Off?
  {
    if a < b {
      NothingOldThroughout(sts, states, steps, a, b - 1);
      assert Leads(sts, states[b - 1], steps[b - 1], states[b]);
      NothingOldStays(sts, states[b - 1], steps[b - 1]);
    }
  }

  /** In every run, a switch whose listing was read with the StatefulSet gone finds no earlier volume. */
  lemma SwitchFindsNoVolume(sts: string, states: seq<State>, steps: seq<Step>, a: nat, m: nat)
    requires Run(sts, states, steps) && SwitchedOnAt(states, m) && PlannedSince(states, steps, a, m - 1)
    requires states[a].statefulSet.Off?
    ensures states[m].volumes == map[] && states[m].statefulSet.Off?
  {
    RunKeepsBase(sts, states, steps, a);
    NothingOldThroughout(sts, states, steps, a, m);
  }

  lemma {:induction false} LatestArrival(states: seq<State>, m: nat, k: nat, i: nat) returns (c: nat)
    requires m <= k < |states| && i !in states[m].volumes && i in states[k].volumes
    ensures m < c <= k && i !in states[c - 1].volumes
    ensures forall j :: c <= j <= k ==> i in states[j].volumes
  {
    if i !in states[k - 1].volumes {
      c := k;
    } else {
      c := LatestArrival(states, m, k - 1, i);
    }
  }

  /** Volume i was created between states m and k, and has not been replaced since. */
  ghost predicate CreatedWithin(states: seq<State>, steps: seq<Step>, m: nat, k: nat, i: nat) {
    && m <= k < |states| == |steps| + 1
    && exists c :: m <= c < k && steps[c] == CreateVolume(i) && forall j :: c < j <= k ==> i in states[j].volumes
  }

  /**
   In every run, a volume present while hidden members are on was created after
   the latest switch from off to on, if the StatefulSet was gone when the listing
   before that switch was read.
   */
  lemma VolumesAreFresh(sts: string, states: seq<State>, steps: seq<Step>, k: nat, i: nat) returns (a: nat, m: nat)
    requires Run(sts, states, steps) && k < |states|
    requires states[k].live.On? && (i in states[k].pods || i in states[k].volumes)
    ensures SwitchedOnAt(states, m) && m <= k && OnThroughout(states, m, k)
    ensures PlannedSince(states, steps, a, m - 1)
    ensures states[a].statefulSet.Off? ==> CreatedWithin(states, steps, m, k, i)
  {
    RunKeepsBase(sts, states, steps, k);
    m := LatestSwitch(sts, states, steps, k);
    a := SwitchIsPlanned(sts, states, steps, m);
    if states[a].statefulSet.Off? {
      SwitchFindsNoVolume(sts, states, steps, a, m);
      var c := LatestArrival(states, m, k, i);
      assert Leads(sts, states[c - 1], steps[c - 1], states[c]);
      assert steps[c - 1] == CreateVolume(i);
    }
  }

  // ------------------------------------------------------------------
  // One storage class
  // ------------------------------------------------------------------

  /** Every volume, and the StatefulSet that makes them, has the resource's storage class. */
  ghost predicate OneClass(s: State) {
    && s.live.On?
    && (forall i :: i in s.volumes ==> s.volumes[i].storageClass == s.live.storageClass)
    && (s.statefulSet.On? ==> s.statefulSet.storageClass == s.live.storageClass)
  }

  lemma StepKeepsClass(sts: string, s: State, step: Step)
    requires Base(sts, s) && Enabled(sts, s, step) && s.live.On? && After(sts, s, step).live.On?
    ensures After(sts, s, step).live.storageClass == s.live.storageClass
    ensures OneClass(s) ==> OneClass(After(sts, s, step))
  {
  }

  lemma {:induction false} ClassThroughout(sts: string, states: seq<State>, steps: seq<Step>, m: nat, k: nat)
    requires Run(sts, states, steps) && m <= k && OnThroughout(states, m, k)
    ensures states[k].live.storageClass == states[m].live.storageClass
    ensures OneClass(states[m]) ==> OneClass(states[k])
  {
    if m < k {
      ClassThroughout(sts, states, steps, m, k - 1);
      RunKeepsBase(sts, states, steps, k - 1);
      assert Leads(sts, states[k - 1], steps[k - 1], states[k]);
      StepKeepsClass(sts, states[k - 1], steps[k - 1]);
    }
  }

  /**
   In every run the storage class in the resource is constant while members are
   on, and every volume has it if the switch was planned with the StatefulSet gone.
   */
  lemma ClassIsConstant(sts: string, states: seq<State>, steps: seq<Step>, m: nat, k: nat) returns (a: nat)
    requires Run(sts, states, steps) && SwitchedOnAt(states, m) && m <= k && OnThroughout(states, m, k)
    ensures PlannedSince(states, steps, a, m - 1)
    ensures states[k].live.storageClass == states[m].live.storageClass
    ensures states[a].statefulSet.Off? ==>
      forall i :: i in states[k].volumes ==> states[k].volumes[i].storageClass == states[m].live.storageClass
  {
    a := SwitchIsPlanned(sts, states, steps, m);
    ClassThroughout(sts, states, steps, m, k);
    if states[a].statefulSet.Off? {
      SwitchFindsNoVolume(sts, states, steps, a, m);
    }
  }

  // ------------------------------------------------------------------
  // When a start can find an old volume
  // ------------------------------------------------------------------

  /** The rest of one pass, up to the apply that switches members on. */
  ghost predicate SwitchingPass(sts: string, states: seq<State>, steps: seq<Step>) {
    && Linked(sts, states, steps)
    && (forall k :: 0 <= k < |steps| ==> !steps[k].Start? && states[k].live.Off?)
    && states[|steps|].live.On?
  }

  /** Exactly when the pass can switch on over a volume: the StatefulSet is still there as volumes are listed. */
  lemma StaleStartIffStillRun(sts: string, s: State)
    requires Base(sts, s) && s.pc.Listing? && s.pc.phase.Plan? && s.volumes == map[]
    ensures (exists states: seq<State>, steps: seq<Step> ::
               SwitchingPass(sts, states, steps) && states[0] == s && states[|steps|].volumes != map[])
            <==> s.statefulSet.On?
  {
    if s.statefulSet.On? {
      var states, steps := CanStartStale(sts, s);
      assert SwitchingPass(sts, states, steps) && states[0] == s && states[|steps|].volumes != map[];
    }
    forall states: seq<State>, steps: seq<Step>
      | SwitchingPass(sts, states, steps) && states[0] == s && states[|steps|].volumes != map[]
      ensures s.statefulSet.On?
    {
      if s.statefulSet.Off? {
        NothingOldThroughout(sts, states, steps, 0, |steps|);
      }
    }
  }

  lemma CanStartStale(sts: string, s: State) returns (states: seq<State>, steps: seq<Step>)
    requires Base(sts, s) && s.pc.Listing? && s.pc.phase.Plan? && s.volumes == map[] && s.statefulSet.On?
    ensures SwitchingPass(sts, states, steps) && states[0] == s && states[|steps|].volumes != map[]
  {
    var s1 := After(sts, s, ListVolumes([], []));
    var s2 := After(sts, s1, CreateVolume(0));
    var s3 := After(sts, s2, Apply);
    assert 0 in s3.volumes;
    states, steps := [s, s1, s2, s3], [ListVolumes([], []), CreateVolume(0), Apply];
    assert Leads(sts, states[0], steps[0], states[1]);
    assert Leads(sts, states[1], steps[1], states[2]);
    assert Leads(sts, states[2], steps[2], states[3]);
  }
}
