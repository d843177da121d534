/**
 What a lagging operator can do: reachable states in which the conditions of the
 freshness and deletion results fail, and the results with them.
 */
module HiddenLag {
  import opened Text
  import opened HiddenVolumes
  import opened HiddenProtocol
  import opened HiddenDeletions
  import opened HiddenStarts
  import opened HiddenProgress

  /** Turned on, seen by the operator, and turned off again before the operator noticed. */
  lemma CanLag(sts: string, s: State) returns (t: State)
    requires Init(s)
    ensures Reaches(sts, s, t)
    ensures t == State(Want(0, None), Off, On(2, None), map[], {}, Listing(Want(0, None), Clean))
  {
    ReachesItself(sts, s);
    var t1 := Reached(sts, s, s, Edit(Want(2, None)));
    var t2 := CanStartFrom(sts, s, t1);
    var t3 := Reached(sts, s, t2, Reconcile);
    var t4 := Reached(sts, s, t3, Crash);
    var t5 := Reached(sts, s, t4, Edit(Want(0, None)));
    var t6 := Reached(sts, s, t5, Start);
    var t7 := Reached(sts, s, t6, ReadLive);
    t := Reached(sts, s, t7, Apply);
  }

  /**
   A StatefulSet not removed yet can create a volume between the listing that
   finds none and the switch, which then finds an old volume.
   */
  lemma LaggingOperatorBreaksFreshness(sts: string, s: State) returns (t: State)
    requires Init(s)
    ensures Reaches(sts, s, t) && t.live.Off? && 0 in t.volumes
    ensures Enabled(sts, t, Apply) && After(sts, t, Apply).live.On? && 0 in After(sts, t, Apply).volumes
  {
    var t0 := CanLag(sts, s);
    var t1 := Reached(sts, s, t0, ListVolumes([], []));
    var t2 := Reached(sts, s, t1, Edit(Want(2, None)));
    var t3 := Reached(sts, s, t2, Start);
    var t4 := Reached(sts, s, t3, ReadLive);
    var t5 := Reached(sts, s, t4, ListVolumes([], []));
    t := Reached(sts, s, t5, CreateVolume(0));
  }

  /**
   Members are turned off, their StatefulSet is still there, and pod 0 is
   restarting as the pods are listed: its volume is deleted under the new pod.
   */
  lemma LaggingOperatorDeletesVolumeInUse(sts: string, s: State)
    returns (t: State, states: seq<State>, steps: seq<Step>)
    requires Init(s)
    ensures Reaches(sts, s, t) && t.pc.Listed? && Exposed(t, t.pods)
    ensures DeletesInUse(sts, states, steps) && states[0] == t
  {
    var t0 := CanLag(sts, s);
    var t1 := Reached(sts, s, t0, CreateVolume(0));
    var claims := [Claim(VolumeName(TEMPLATE, sts, 0), false)];
    assert Lists(sts, t1.volumes, [0], claims);
    t := Reached(sts, s, t1, ListVolumes([0], claims));
    assert ExposedAt(t, t.pods, 0);
    states, steps := ExposedCanBeDeleted(sts, t);
  }
}
