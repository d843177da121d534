/**
 The hidden-member protocol: Sync split into its reads and writes
 (internal/provider/hidden.go, internal/provider/provider.go), interleaved with
 user edits, crashes, the operator's pods and volumes, and the collection of
 deleted volumes. Replica set topology, one StatefulSet of hidden members.

 The operator brings the StatefulSet in line with the live resource at some
 later time; pods and volumes are created for the StatefulSet as it stands. A
 deleted volume stays while a pod uses it.
 */
module HiddenProtocol {
  import opened Text
  import opened HiddenVolumes

  const TEMPLATE := "mongod-data"

  /** What the Instance asks for: replicas (0 when unset) and the storage class after falling back to the engine's. */
  datatype Want = Want(replicas: Int32, storageClass: Option<string>)

  /** The hidden section of the live engine resource. */
  datatype Hidden = Off | On(size: Int32, storageClass: Option<string>)

  datatype Volume = Volume(storageClass: Option<string>, terminating: bool)

  /** Volumes are swept twice: before a start, and after the resource is applied. */
  datatype Phase = Plan | Clean

  /** Where a Sync pass stands, with what it has read so far. */
  datatype Pc =
    | Idle
    | Started(want: Want)
    | Listing(want: Want, phase: Phase)
    | Listed(want: Want, phase: Phase, ordinals: seq<nat>, claims: seq<Claim>)
    | Sweeping(want: Want, phase: Phase, ordinals: seq<nat>, claims: seq<Claim>,
               pods: seq<string>, running: set<nat>, next: nat, remaining: nat)
    | Planned(want: Want, target: Hidden)

  /** live is the engine resource, statefulSet what the operator last made of it. */
  datatype State =
    State(want: Want, live: Hidden, statefulSet: Hidden, volumes: map<nat, Volume>, pods: set<nat>, pc: Pc)

  datatype Step =
    // the provider
    | Start
    | ReadLive
    | ListVolumes(ordinals: seq<nat>, claims: seq<Claim>)
    | ListPods(names: seq<string>)
    | VisitNext
    | FinishSweep
    | Apply
    | Crash
    // everyone else
    | Edit(want: Want)
    | Reconcile
    | CreateVolume(ordinal: nat)
    | CreatePod(ordinal: nat)
    | StopPod(ordinal: nat)
    | Collect(ordinal: nat)

  /** Not a step of the provider. */
  predicate FromOutside(step: Step) {
    step.Edit? || step.Reconcile? || step.CreateVolume? || step.CreatePod? || step.StopPod? || step.Collect?
  }

  // ------------------------------------------------------------------
  // Steps
  // ------------------------------------------------------------------

  /** The lowest ordinal the sweep under way may delete. */
  function KeepBelow(pc: Pc): int
    requires pc.Listing? || pc.Listed? || pc.Sweeping?
  {
    if pc.phase.Plan? then 0 else pc.want.replicas
  }

  /** configureHidden up to its first side effect. */
  function AfterRead(want: Want, live: Hidden): Pc {
    if want.replicas <= 0 then Planned(want, Off)
    else match live
      case On(_, storageClass) => Planned(want, On(want.replicas, storageClass))
      case Off => Listing(want, Plan)
  }

  /** configureHidden after the sweep, or the end of the pass. */
  function AfterSweep(want: Want, phase: Phase, remaining: nat): Pc {
    match phase
    case Plan => Planned(want, if remaining > 0 then Off else On(want.replicas, want.storageClass))
    case Clean => Idle
  }

  /** hiddenStartPending: members asked for, none in the resource. */
  predicate StartPending(want: Want, live: Hidden) {
    want.replicas > 0 && live.Off?
  }

  function VerdictOf(pc: Pc): Verdict
    requires pc.Sweeping? && pc.next < |pc.claims|
  {
    Visit(pc.claims[pc.next], pc.pods, KeepBelow(pc))
  }

  predicate Wanted(live: Hidden, i: nat) {
    live.On? && i < live.size
  }

  /** A listing of the volumes: each once, in any order. */
  ghost predicate Lists(sts: string, volumes: map<nat, Volume>, ordinals: seq<nat>, claims: seq<Claim>) {
    && ClaimsOf(claims, TEMPLATE, sts, ordinals)
    && (forall i :: i in volumes <==> i in ordinals)
    && (forall k :: 0 <= k < |ordinals| ==> claims[k].terminating == volumes[ordinals[k]].terminating)
  }

  ghost predicate Enabled(sts: string, s: State, step: Step) {
    match step
    case Start => s.pc.Idle?
    case ReadLive => s.pc.Started?
    case ListVolumes(ordinals, claims) => s.pc.Listing? && Lists(sts, s.volumes, ordinals, claims)
    case ListPods(names) => s.pc.Listed? && PodsOf(names, sts, s.pods)
    case VisitNext => s.pc.Sweeping? && s.pc.next < |s.pc.claims| == |s.pc.ordinals|
    case FinishSweep => s.pc.Sweeping? && s.pc.next == |s.pc.claims|
    case Apply => s.pc.Planned?
    case Crash => true
    case Edit(_) => true
    case Reconcile => true
    case CreateVolume(i) => Wanted(s.statefulSet, i) && i !in s.volumes
    case CreatePod(i) => Wanted(s.statefulSet, i) && i in s.volumes && !s.volumes[i].terminating
    case StopPod(_) => true
    case Collect(i) => i in s.volumes && s.volumes[i].terminating && i !in s.pods
  }

  ghost function After(sts: string, s: State, step: Step): State
    requires Enabled(sts, s, step)
  {
    match step
    case Start => s.(pc := Started(s.want))
    case ReadLive => s.(pc := AfterRead(s.pc.want, s.live))
    case ListVolumes(ordinals, claims) =>
      s.(pc := if claims == [] then AfterSweep(s.pc.want, s.pc.phase, 0)
               else Listed(s.pc.want, s.pc.phase, ordinals, claims))
    case ListPods(names) =>
      s.(pc := Sweeping(s.pc.want, s.pc.phase, s.pc.ordinals, s.pc.claims, names, s.pods, 0, 0))
    case VisitNext => Visited(s, VerdictOf(s.pc))
    case FinishSweep => s.(pc := AfterSweep(s.pc.want, s.pc.phase, s.pc.remaining))
    case Apply => s.(live := s.pc.target, pc := Listing(s.pc.want, Clean))
    case Crash => s.(pc := Idle)
    case Edit(want) => s.(want := want)
    case Reconcile => s.(statefulSet := s.live)
    case CreateVolume(i) => s.(volumes := s.volumes[i := Volume(s.statefulSet.storageClass, false)])
    case CreatePod(i) => s.(pods := s.pods + {i})
    case StopPod(i) => s.(pods := s.pods - {i})
    case Collect(i) => s.(volumes := s.volumes - {i})
  }

  /** One turn of the volume loop. */
  function Visited(s: State, verdict: Verdict): State
    requires s.pc.Sweeping? && s.pc.next < |s.pc.ordinals|
  {
    s.(volumes := if verdict.Delete? then MarkDeleted(s.volumes, s.pc.ordinals[s.pc.next]) else s.volumes,
       pc := s.pc.(next := s.pc.next + 1, remaining := s.pc.remaining + if verdict.Skip? then 0 else 1))
  }

  function MarkDeleted(volumes: map<nat, Volume>, i: nat): map<nat, Volume> {
    if i in volumes then volumes[i := volumes[i].(terminating := true)] else volumes
  }

  ghost predicate Init(s: State) {
    s.live.Off? && s.statefulSet.Off? && s.volumes == map[] && s.pods == {} && s.pc.Idle?
  }

  ghost predicate Leads(sts: string, s: State, step: Step, t: State) {
    Enabled(sts, s, step) && t == After(sts, s, step)
  }

  /** Consecutive states, each reached by an enabled step. */
  ghost predicate Linked(sts: string, states: seq<State>, steps: seq<Step>) {
    && |states| == |steps| + 1
    && forall k :: 0 <= k < |steps| ==> Leads(sts, states[k], steps[k], states[k + 1])
  }

  ghost predicate Run(sts: string, states: seq<State>, steps: seq<Step>) {
    Linked(sts, states, steps) && Init(states[0])
  }

  // ------------------------------------------------------------------
  // What every run keeps
  // ------------------------------------------------------------------

  ghost predicate Base(sts: string, s: State) {
    && s.pods <= s.volumes.Keys
    && (forall i :: i in s.volumes ==> i <= MAX_INT)
    && (s.live.On? ==> s.live.size > 0)
    && (s.statefulSet.On? ==> s.statefulSet.size > 0)
    && match s.pc
       case Listing(want, phase) => PhaseInv(s, want, phase)
       case Listed(want, phase, ordinals, claims) =>
         && PhaseInv(s, want, phase)
         && claims != [] && ClaimsOf(claims, TEMPLATE, sts, ordinals)
         && Unvisited(s, ordinals, claims, 0)
       case Sweeping(want, phase, ordinals, claims, pods, running, next, remaining) =>
         && PhaseInv(s, want, phase)
         && claims != [] && ClaimsOf(claims, TEMPLATE, sts, ordinals)
         && PodsOf(pods, sts, running)
         && next <= |claims|
         && Unvisited(s, ordinals, claims, next)
         && (phase.Plan? ==> remaining == next)
       case Planned(want, target) =>
         && (target.On? ==> target.size == want.replicas > 0)
         && (s.live.On? && want.replicas > 0 ==> target == On(want.replicas, s.live.storageClass))
       case _ => true
  }

  /** A start is planned only against a resource without hidden members; cleaning follows what was applied. */
  ghost predicate PhaseInv(s: State, want: Want, phase: Phase) {
    match phase
    case Plan => s.live.Off? && want.replicas > 0
    case Clean => s.live.On? ==> s.live.size == want.replicas
  }

  /** Volume i is there and not being deleted. */
  predicate Alive(s: State, i: nat) {
    i in s.volumes && !s.volumes[i].terminating
  }

  /** Claims not visited yet are as they were listed, if they were alive then. */
  ghost predicate Unvisited(s: State, ordinals: seq<nat>, claims: seq<Claim>, next: nat) {
    |ordinals| == |claims| && forall k :: next <= k < |claims| && !claims[k].terminating ==> Alive(s, ordinals[k])
  }

  /** The name-level verdict is the ordinal-level one. */
  lemma VerdictIs(sts: string, s: State)
    requires Base(sts, s) && Enabled(sts, s, VisitNext)
    ensures VerdictOf(s.pc) == VisitOrdinal(s.pc.ordinals[s.pc.next], s.pc.claims[s.pc.next].terminating,
                                            s.pc.running, KeepBelow(s.pc))
  {
    var pc := s.pc;
    var claim, i := pc.claims[pc.next], pc.ordinals[pc.next];
    assert claim == Claim(VolumeName(TEMPLATE, sts, i), claim.terminating);
    VisitRefines(TEMPLATE, sts, i, claim.terminating, pc.pods, pc.running, KeepBelow(pc));
  }

  lemma VisitedKeepsBase(sts: string, s: State, verdict: Verdict)
    requires Base(sts, s) && s.pc.Sweeping? && s.pc.next < |s.pc.claims|
    requires verdict == VisitOrdinal(s.pc.ordinals[s.pc.next], s.pc.claims[s.pc.next].terminating,
                                     s.pc.running, KeepBelow(s.pc))
    ensures Base(sts, Visited(s, verdict))
  {
    assert Visited(s, verdict).volumes.Keys == s.volumes.Keys;
  }

  lemma OutsideKeepsBase(sts: string, s: State, step: Step)
    requires Base(sts, s) && Enabled(sts, s, step) && FromOutside(step)
    ensures Base(sts, After(sts, s, step))
  {
    var t := After(sts, s, step);
    assert t.pc == s.pc && t.live == s.live;
    assert forall i :: Alive(s, i) ==> Alive(t, i);
    assert t.pods <= t.volumes.Keys;
  }

  lemma ProviderKeepsBase(sts: string, s: State, step: Step)
    requires Base(sts, s) && Enabled(sts, s, step) && !FromOutside(step) && !step.VisitNext?
    ensures Base(sts, After(sts, s, step))
  {
  }

  lemma StepKeepsBase(sts: string, s: State, step: Step)
    requires Base(sts, s) && Enabled(sts, s, step)
    ensures Base(sts, After(sts, s, step))
  {
    if step.VisitNext? {
      VerdictIs(sts, s);
      VisitedKeepsBase(sts, s, VerdictOf(s.pc));
    } else if FromOutside(step) {
      OutsideKeepsBase(sts, s, step);
    } else {
      ProviderKeepsBase(sts, s, step);
    }
  }

  lemma {:induction false} RunKeepsBase(sts: string, states: seq<State>, steps: seq<Step>, k: nat)
    requires Run(sts, states, steps) && k < |states|
    ensures Base(sts, states[k])
  {
    if k > 0 {
      RunKeepsBase(sts, states, steps, k - 1);
      assert Leads(sts, states[k - 1], steps[k - 1], states[k]);
      StepKeepsBase(sts, states[k - 1], steps[k - 1]);
    }
  }

  // ------------------------------------------------------------------
  // Sweeps
  // ------------------------------------------------------------------

  /** The operator runs no hidden member from ordinal keepBelow up. */
  predicate RunsNoneFrom(s: State, keepBelow: int) {
    s.statefulSet.On? ==> s.statefulSet.size <= keepBelow
  }

  /** Step a lists the volumes, and up to state b the sweep it starts is under way. */
  ghost predicate OneSweep(states: seq<State>, steps: seq<Step>, a: nat, b: nat) {
    && a < b < |states| == |steps| + 1
    && steps[a].ListVolumes? && states[a].pc.Listing?
    && forall j :: a < j <= b ==> states[j].pc.Listed? || states[j].pc.Sweeping?
  }

  /** The sweep has visited every claim. */
  predicate Finished(s: State) {
    s.pc.Sweeping? && s.pc.next == |s.pc.claims|
  }

  /** Step a lists the pods, and up to state b the loop it starts is under way. */
  ghost predicate OneLoop(states: seq<State>, steps: seq<Step>, a: nat, b: nat) {
    && a < b < |states| == |steps| + 1
    && steps[a].ListPods? && states[a].pc.Listed?
    && forall j :: a < j <= b ==> states[j].pc.Sweeping?
  }

  // ------------------------------------------------------------------
  // Reachability
  // ------------------------------------------------------------------

  ghost predicate Reaches(sts: string, s: State, t: State) {
    exists states, steps :: Linked(sts, states, steps) && states[0] == s && states[|steps|] == t
  }

  lemma LinkedSnoc(sts: string, states: seq<State>, steps: seq<Step>, step: Step)
    requires Linked(sts, states, steps) && Enabled(sts, states[|steps|], step)
    ensures Linked(sts, states + [After(sts, states[|steps|], step)], steps + [step])
  {
    var states', steps' := states + [After(sts, states[|steps|], step)], steps + [step];
    forall k | 0 <= k < |steps'| ensures Leads(sts, states'[k], steps'[k], states'[k + 1]) {
      if k < |steps| {
        assert Leads(sts, states[k], steps[k], states[k + 1]);
      }
    }
  }

  lemma ReachesItself(sts: string, s: State)
    ensures Reaches(sts, s, s)
  {
    var none: seq<Step> := [];
    assert Linked(sts, [s], none) && [s][0] == s && [s][|none|] == s;
  }

  lemma Reached(sts: string, s: State, t: State, step: Step) returns (u: State)
    requires Reaches(sts, s, t) && Enabled(sts, t, step)
    ensures Reaches(sts, s, u) && u == After(sts, t, step)
  {
    var states, steps :| Linked(sts, states, steps) && states[0] == s && states[|steps|] == t;
    LinkedSnoc(sts, states, steps, step);
    u := After(sts, t, step);
    var states', steps' := states + [u], steps + [step];
    assert Linked(sts, states', steps') && states'[0] == s && states'[|steps'|] == u;
  }

  lemma {:induction false} SomeListing(sts: string, volumes: map<nat, Volume>, keys: set<nat>)
    returns (ordinals: seq<nat>, claims: seq<Claim>)
    requires keys <= volumes.Keys && forall i :: i in volumes ==> i <= MAX_INT
    ensures ClaimsOf(claims, TEMPLATE, sts, ordinals)
    ensures forall i :: i in keys <==> i in ordinals
    ensures forall k :: 0 <= k < |ordinals| ==> claims[k].terminating == volumes[ordinals[k]].terminating
    decreases keys
  {
    if keys == {} {
      ordinals, claims := [], [];
    } else {
      var i :| i in keys;
      ordinals, claims := SomeListing(sts, volumes, keys - {i});
      assert i !in ordinals;
      ordinals, claims := ordinals + [i], claims + [Claim(VolumeName(TEMPLATE, sts, i), volumes[i].terminating)];
    }
  }

  lemma {:induction false} SomePodNames(sts: string, running: set<nat>) returns (names: seq<string>)
    ensures PodsOf(names, sts, running)
  {
    if running == {} {
      names := [];
    } else {
      var i :| i in running;
      names := SomePodNames(sts, running - {i});
      names := names + [PodName(sts, i)];
    }
  }
}
