/**
 The engine compatibility versions of a fleet over time: Syncs read and later
 apply a version (internal/provider/provider.go), while the operator pins new
 clusters, users approve, create and delete, and the provider changes behind a
 preflight check (internal/provider/upgrade.go).
 */
module CrVersionRuns {
  import opened Text
  import opened CrVersion

  /** plan is what a Sync under way has decided to apply, empty to leave the version to the operator. */
  datatype Cluster = Cluster(crVersion: string, deleting: bool, plan: Option<string>)

  /** The running operator's version and the engine resources it manages. */
  datatype State = State(operator: string, clusters: map<string, Cluster>)

  datatype Step =
    // the provider, one Sync per cluster at a time
    | Create(name: string)
    | Read(name: string, discovery: Result<string>, providerSpecRead: bool, approved: bool)
    | Apply(name: string)
    | Crash(name: string)
    // everyone else
    | Pin(name: string)
    | Delete(name: string)
    | Remove(name: string)
    | ChangeProvider(target: string, unread: set<string>)

  // ------------------------------------------------------------------
  // Steps
  // ------------------------------------------------------------------

  /** What preflight reads of a cluster: the truth, or nothing. */
  function Seen(name: string, c: Cluster, unread: set<string>): Instance {
    Instance(name, c.deleting, if name in unread then Unreadable else Found(c.crVersion))
  }

  /** The preflight run for target, which could not read some clusters, blocks none. */
  ghost predicate PreflightPasses(parse: Parser, s: State, target: string, unread: set<string>) {
    && target != "" && parse(target).Some?
    && forall name :: name in s.clusters && !s.clusters[name].deleting ==>
         var issue := InstanceIssue(parse, parse(target).value, Seen(name, s.clusters[name], unread));
         issue.Some? ==> !issue.value.severity.Blocks?
  }

  /** A discovery that succeeds reports the running operator; no Sync of a deleted Instance begins. */
  ghost predicate Enabled(parse: Parser, s: State, step: Step) {
    match step
    case Create(name) => name !in s.clusters
    case Read(name, discovery, _, _) =>
      && name in s.clusters && !s.clusters[name].deleting && s.clusters[name].plan.None?
      && (discovery.Success? ==> discovery.value == s.operator)
    case Apply(name) => name in s.clusters && s.clusters[name].plan.Some?
    case Crash(name) => name in s.clusters
    case Pin(name) => name in s.clusters && s.clusters[name].crVersion == ""
    case Delete(name) => name in s.clusters
    case Remove(name) => name in s.clusters && s.clusters[name].deleting && s.clusters[name].plan.None?
    case ChangeProvider(target, unread) => PreflightPasses(parse, s, target, unread)
  }

  function AfterRead(parse: Parser, c: Cluster, discovery: Result<string>,
                     providerSpecRead: bool, approved: bool): Cluster
  {
    var r := ConvergedCRVersion(parse, Found(c.crVersion), discovery, providerSpecRead, approved);
    if r.Failure? then c else c.(plan := Some(r.value))
  }

  function AfterApply(c: Cluster): Cluster
    requires c.plan.Some?
  {
    c.(crVersion := if c.plan.value == "" then c.crVersion else c.plan.value, plan := None)
  }

  ghost function After(parse: Parser, s: State, step: Step): State
    requires Enabled(parse, s, step)
  {
    match step
    case Create(name) =>
      var unset := ConvergedCRVersion(parse, NotFound, Failure, false, false);
      s.(clusters := s.clusters[name := Cluster(if unset.Success? then unset.value else "", false, None)])
    case Read(name, discovery, providerSpecRead, approved) =>
      s.(clusters := s.clusters[name := AfterRead(parse, s.clusters[name], discovery, providerSpecRead, approved)])
    case Apply(name) => s.(clusters := s.clusters[name := AfterApply(s.clusters[name])])
    case Crash(name) => s.(clusters := s.clusters[name := s.clusters[name].(plan := None)])
    case Pin(name) => s.(clusters := s.clusters[name := s.clusters[name].(crVersion := s.operator)])
    case Delete(name) => s.(clusters := s.clusters[name := s.clusters[name].(deleting := true)])
    case Remove(name) => s.(clusters := s.clusters - {name})
    case ChangeProvider(target, _) => s.(operator := target)
  }

  ghost predicate Leads(parse: Parser, s: State, step: Step, t: State) {
    Enabled(parse, s, step) && t == After(parse, s, step)
  }

  ghost predicate Linked(parse: Parser, states: seq<State>, steps: seq<Step>) {
    && |states| == |steps| + 1
    && forall k :: 0 <= k < |steps| ==> Leads(parse, states[k], steps[k], states[k + 1])
  }

  ghost predicate Run(parse: Parser, states: seq<State>, steps: seq<Step>) {
    && Linked(parse, states, steps)
    && states[0].clusters == map[] && states[0].operator != "" && parse(states[0].operator).Some?
  }

  // ------------------------------------------------------------------
  // What every run keeps
  // ------------------------------------------------------------------

  /** A cluster that has a version and is not being deleted. */
  predicate Pinned(s: State, name: string) {
    name in s.clusters && s.clusters[name].crVersion != "" && !s.clusters[name].deleting
  }

  /** A Sync under way is going to set a version. */
  predicate Planning(c: Cluster) {
    c.plan.Some? && c.plan.value != ""
  }

  /** Versions parse, and a planned one is for a pinned cluster and not below its version. */
  predicate Sane(parse: Parser, c: Cluster) {
    && (c.crVersion != "" ==> parse(c.crVersion).Some?)
    && (Planning(c) ==>
          && c.crVersion != "" && parse(c.plan.value).Some?
          && !Less(parse(c.plan.value).value, parse(c.crVersion).value))
  }

  ghost predicate Base(parse: Parser, s: State) {
    && s.operator != "" && parse(s.operator).Some?
    && forall name :: name in s.clusters ==> Sane(parse, s.clusters[name])
  }

  lemma StepKeepsBase(parse: Parser, s: State, step: Step)
    requires Base(parse, s) && Enabled(parse, s, step)
    ensures Base(parse, After(parse, s, step))
  {
  }

  lemma {:induction false} RunKeepsBase(parse: Parser, states: seq<State>, steps: seq<Step>, k: nat)
    requires Run(parse, states, steps) && k < |states|
    ensures Base(parse, states[k])
  {
    if k > 0 {
      RunKeepsBase(parse, states, steps, k - 1);
      assert Leads(parse, states[k - 1], steps[k - 1], states[k]);
      StepKeepsBase(parse, states[k - 1], steps[k - 1]);
    }
  }

  /** The Sync under way is going to change the version. */
  predicate PlansMove(c: Cluster) {
    c.crVersion != "" && Planning(c) && c.plan.value != c.crVersion
  }

  /**
   A version moves only when the operator pins an unset one, to its own, or a
   Sync applies a plan that differs; and a Sync plans to move exactly if the
   move is approved, the cluster lags and the operator was found.
   */
  lemma MovesExactlyWithApproval(parse: Parser, s: State, step: Step, name: string)
    requires Base(parse, s) && Enabled(parse, s, step)
    requires name in s.clusters && name in After(parse, s, step).clusters
    ensures var before, after := s.clusters[name], After(parse, s, step).clusters[name];
            && (after.crVersion != before.crVersion <==>
                  step == Pin(name) || (step == Apply(name) && PlansMove(before)))
            && (step == Pin(name) ==> after.crVersion == s.operator)
            && (step == Apply(name) && PlansMove(before) ==> after.crVersion == before.plan.value)
            && (step.Read? && step.name == name ==>
                  (PlansMove(after) <==> step == Read(name, Success(s.operator), true, true)
                                         && before.crVersion != ""
                                         && Later(parse(before.crVersion).value, parse(s.operator).value)))
            && (step.Read? && step.name == name && PlansMove(after) ==> after.plan == Some(s.operator))
            && (PlansMove(after) && !(step.Read? && step.name == name) ==>
                  after.plan == before.plan && after.crVersion == before.crVersion)
  {
  }

  /** An approved Sync of a lagging cluster, uninterrupted, brings it to the operator's version, and no more. */
  lemma ApprovedSyncConverges(parse: Parser, s: State, name: string)
    requires Base(parse, s) && Pinned(s, name) && s.clusters[name].plan.None?
    requires Later(parse(s.clusters[name].crVersion).value, parse(s.operator).value)
    ensures var read := Read(name, Success(s.operator), true, true);
            && Enabled(parse, s, read)
            && var s1 := After(parse, s, read);
            && Enabled(parse, s1, Apply(name))
            && After(parse, s1, Apply(name)) == s.(clusters := s.clusters[name := Cluster(s.operator, false, None)])
  {
    assert Sane(parse, s.clusters[name]);
  }

  /** A deleted cluster is no longer pinned, and goes once no Sync of it is under way. */
  lemma DeletedClusterGoes(parse: Parser, s: State, name: string)
    requires name in s.clusters
    ensures var s1 := After(parse, s, Delete(name));
            && s1 == s.(clusters := s.clusters[name := s.clusters[name].(deleting := true)]) && !Pinned(s1, name)
            && var s2 := After(parse, s1, Crash(name));
            && s2.clusters[name] == s1.clusters[name].(plan := None)
            && Enabled(parse, s2, Remove(name)) && After(parse, s2, Remove(name)) == s.(clusters := s.clusters - {name})
  {
  }

  /** The version Sync is going to set for name was found, and approved, at step r, and name is as it was then. */
  ghost predicate PlannedAt(parse: Parser, states: seq<State>, steps: seq<Step>, name: string, r: nat, k: nat) {
    && r < k < |states| == |steps| + 1
    && steps[r] == Read(name, Success(states[r].operator), true, true)
    && name in states[r].clusters
    && parse(states[r].clusters[name].crVersion).Some? && parse(states[r].operator).Some?
    && Later(parse(states[r].clusters[name].crVersion).value, parse(states[r].operator).value)
    && forall j :: r < j <= k ==>
         && name in states[j].clusters && states[j].clusters[name].plan == Some(states[r].operator)
         && states[j].clusters[name].crVersion == states[r].clusters[name].crVersion
  }

  lemma {:induction false} PlanGoesBack(parse: Parser, states: seq<State>, steps: seq<Step>, name: string, k: nat)
    returns (r: nat)
    requires Run(parse, states, steps) && k < |states|
    requires name in states[k].clusters && PlansMove(states[k].clusters[name])
    ensures PlannedAt(parse, states, steps, name, r, k)
  {
    RunKeepsBase(parse, states, steps, k - 1);
    assert Leads(parse, states[k - 1], steps[k - 1], states[k]);
    MovesExactlyWithApproval(parse, states[k - 1], steps[k - 1], name);
    if steps[k - 1].Read? && steps[k - 1].name == name {
      r := k - 1;
    } else {
      r := PlanGoesBack(parse, states, steps, name, k - 1);
    }
  }

  /**
   In every run a pinned version changes only to that of an operator found by an
   earlier, approved read of the same Sync, above the version it had then and since.
   */
  lemma EveryMoveWasApproved(parse: Parser, states: seq<State>, steps: seq<Step>, name: string, k: nat)
    returns (r: nat)
    requires Run(parse, states, steps) && k < |steps|
    requires name in states[k].clusters && name in states[k + 1].clusters
    requires states[k].clusters[name].crVersion != ""
    requires states[k + 1].clusters[name].crVersion != states[k].clusters[name].crVersion
    ensures steps[k] == Apply(name) && PlannedAt(parse, states, steps, name, r, k)
    ensures states[k + 1].clusters[name].crVersion == states[r].operator
  {
    RunKeepsBase(parse, states, steps, k);
    assert Leads(parse, states[k], steps[k], states[k + 1]);
    MovesExactlyWithApproval(parse, states[k], steps[k], name);
    r := PlanGoesBack(parse, states, steps, name, k);
  }

  ghost predicate ExistsThroughout(states: seq<State>, name: string, i: nat, k: nat) {
    k < |states| && forall j :: i <= j <= k ==> name in states[j].clusters
  }

  /** Over every run a cluster's version, once pinned, never decreases. */
  lemma {:induction false} NeverDecreases(parse: Parser, states: seq<State>, steps: seq<Step>,
                                          name: string, i: nat, k: nat)
    requires Run(parse, states, steps) && i <= k && ExistsThroughout(states, name, i, k)
    requires states[i].clusters[name].crVersion != ""
    ensures states[k].clusters[name].crVersion != ""
    ensures parse(states[i].clusters[name].crVersion).Some? && parse(states[k].clusters[name].crVersion).Some?
    ensures var was, now := parse(states[i].clusters[name].crVersion).value,
                            parse(states[k].clusters[name].crVersion).value;
            && now.major >= was.major
            && (now.major == was.major ==> now.minor >= was.minor)
            && (now.major == was.major && now.minor == was.minor ==> now.patch >= was.patch)
            && (now.major == was.major && now.minor == was.minor && now.patch == was.patch ==> now.pre >= was.pre)
  {
    RunKeepsBase(parse, states, steps, i);
    RunKeepsBase(parse, states, steps, k);
    assert Sane(parse, states[i].clusters[name]) && Sane(parse, states[k].clusters[name]);
    if i < k {
      NeverDecreases(parse, states, steps, name, i, k - 1);
      RunKeepsBase(parse, states, steps, k - 1);
      assert Leads(parse, states[k - 1], steps[k - 1], states[k]);
      MovesExactlyWithApproval(parse, states[k - 1], steps[k - 1], name);
      assert Sane(parse, states[k - 1].clusters[name]);
    }
  }

  // ------------------------------------------------------------------
  // The skew window
  // ------------------------------------------------------------------

  /** An operator at target manages an engine resource at version. */
  predicate Inside(parse: Parser, target: string, version: string) {
    parse(target).Some? && parse(version).Some? && Manageable(parse(target).value, parse(version).value)
  }

  /** The operator manages every pinned cluster. */
  ghost predicate Window(parse: Parser, s: State) {
    Base(parse, s) && forall name :: Pinned(s, name) ==> Inside(parse, s.operator, s.clusters[name].crVersion)
  }

  /** An operator at target manages whatever Syncs under way are going to set. */
  ghost predicate PlansInside(parse: Parser, s: State, target: string) {
    forall name :: Pinned(s, name) && Planning(s.clusters[name]) ==> Inside(parse, target, s.clusters[name].plan.value)
  }

  ghost predicate Inv(parse: Parser, s: State) {
    Window(parse, s) && PlansInside(parse, s, s.operator)
  }

  /** What lies between a version the target manages and the target is managed too. */
  lemma InsideBetween(target: Version, low: Version, v: Version)
    requires Manageable(target, low) && !Less(v, low) && !Less(target, v)
    ensures Manageable(target, v)
  {
  }

  /** A switch finds inside the window what it could not read, and an apply what it sets. */
  ghost predicate Sound(parse: Parser, s: State, step: Step) {
    && (step.ChangeProvider? ==>
          forall name :: Pinned(s, name) && name in step.unread ==>
            Inside(parse, step.target, s.clusters[name].crVersion))
    && (step.Apply? && Pinned(s, step.name) && Planning(s.clusters[step.name]) ==>
          Inside(parse, s.operator, s.clusters[step.name].plan.value))
  }

  lemma SwitchKeepsWindowIff(parse: Parser, s: State, target: string, unread: set<string>)
    requires Base(parse, s) && PreflightPasses(parse, s, target, unread)
    ensures Window(parse, s.(operator := target)) <==> Sound(parse, s, ChangeProvider(target, unread))
  {
    var t := s.(operator := target);
    assert forall name :: Pinned(t, name) <==> Pinned(s, name);
    forall name | Pinned(s, name) && name !in unread ensures Inside(parse, target, s.clusters[name].crVersion) {
      assert Sane(parse, s.clusters[name]);
      assert InstanceIssue(parse, parse(target).value, Seen(name, s.clusters[name], unread)).None?;
    }
    if Window(parse, t) {
      assert forall name :: Pinned(s, name) ==> Inside(parse, t.operator, t.clusters[name].crVersion);
    }
  }

  /**
   A step keeps every pinned cluster manageable exactly when it is no switch past
   an unread cluster outside the new window, and no apply of a version the
   operator running by then does not manage.
   */
  lemma StepKeepsWindowIff(parse: Parser, s: State, step: Step)
    requires Window(parse, s) && Enabled(parse, s, step)
    ensures Window(parse, After(parse, s, step)) <==> Sound(parse, s, step)
  {
    StepKeepsBase(parse, s, step);
    if step.ChangeProvider? {
      SwitchKeepsWindowIff(parse, s, step.target, step.unread);
    } else {
      var t := After(parse, s, step);
      forall name | Pinned(t, name) && !(step == Apply(name) && Planning(s.clusters[name]))
        ensures Inside(parse, t.operator, t.clusters[name].crVersion)
      {
        MovesExactlyWithApproval(parse, s, step, name);
        assert t.clusters[name].crVersion == s.operator || Inside(parse, s.operator, s.clusters[name].crVersion);
      }
      if step.Apply? && Pinned(s, step.name) && Planning(s.clusters[step.name]) {
        assert Pinned(t, step.name) && t.clusters[step.name].crVersion == s.clusters[step.name].plan.value;
      }
    }
  }

  lemma {:induction false} WindowUpTo(parse: Parser, states: seq<State>, steps: seq<Step>, k: nat)
    requires Run(parse, states, steps) && k < |states|
    requires forall j :: 0 <= j < k ==> Sound(parse, states[j], steps[j])
    ensures Window(parse, states[k])
  {
    if k > 0 {
      WindowUpTo(parse, states, steps, k - 1);
      assert Leads(parse, states[k - 1], steps[k - 1], states[k]);
      StepKeepsWindowIff(parse, states[k - 1], steps[k - 1]);
    }
  }

  /** A run keeps every pinned cluster manageable exactly when each of its switches and applies is sound. */
  lemma RunKeepsWindowIff(parse: Parser, states: seq<State>, steps: seq<Step>)
    requires Run(parse, states, steps)
    ensures (forall k :: 0 <= k < |states| ==> Window(parse, states[k]))
            <==> (forall j :: 0 <= j < |steps| ==> Sound(parse, states[j], steps[j]))
  {
    if forall j :: 0 <= j < |steps| ==> Sound(parse, states[j], steps[j]) {
      forall k | 0 <= k < |states| ensures Window(parse, states[k]) {
        WindowUpTo(parse, states, steps, k);
      }
    }
    if forall k :: 0 <= k < |states| ==> Window(parse, states[k]) {
      forall j | 0 <= j < |steps| ensures Sound(parse, states[j], steps[j]) {
        assert Leads(parse, states[j], steps[j], states[j + 1]);
        StepKeepsWindowIff(parse, states[j], steps[j]);
      }
    }
  }

  // ------------------------------------------------------------------
  // Careful switches
  // ------------------------------------------------------------------

  /** A switch reads every pinned cluster, and does not go below a version a Sync under way is going to set. */
  ghost predicate Careful(parse: Parser, s: State, step: Step) {
    step.ChangeProvider? ==>
      forall name :: Pinned(s, name) ==> name !in step.unread && !DropsBelow(parse, step.target, s.clusters[name])
  }

  predicate DropsBelow(parse: Parser, target: string, c: Cluster) {
    Planning(c) && VersionLessThan(parse, target, c.plan.value)
  }

  lemma CarefulSwitchKeepsPlans(parse: Parser, s: State, step: Step)
    requires Inv(parse, s) && Enabled(parse, s, step) && step.ChangeProvider? && Careful(parse, s, step)
    ensures Inv(parse, After(parse, s, step))
  {
    var t := After(parse, s, step);
    StepKeepsWindowIff(parse, s, step);
    forall name | Pinned(t, name) && Planning(t.clusters[name])
      ensures Inside(parse, t.operator, t.clusters[name].plan.value)
    {
      var c := s.clusters[name];
      assert Pinned(s, name) && Sane(parse, c) && !DropsBelow(parse, step.target, c);
      assert Inside(parse, t.operator, c.crVersion);
      InsideBetween(parse(t.operator).value, parse(c.crVersion).value, parse(c.plan.value).value);
    }
  }

  lemma StepKeepsInv(parse: Parser, s: State, step: Step)
    requires Inv(parse, s) && Enabled(parse, s, step) && Careful(parse, s, step)
    ensures Inv(parse, After(parse, s, step))
  {
    if step.ChangeProvider? {
      CarefulSwitchKeepsPlans(parse, s, step);
    } else {
      StepKeepsWindowIff(parse, s, step);
      StepKeepsPlans(parse, s, step, s.operator);
    }
  }

  /** Outside of switches, plans stay manageable by any target that manages the operator and the pinned clusters. */
  lemma StepKeepsPlans(parse: Parser, s: State, step: Step, target: string)
    requires Base(parse, s) && Enabled(parse, s, step) && !step.ChangeProvider?
    requires PlansInside(parse, s, target) && Inside(parse, target, s.operator)
    requires forall name :: Pinned(s, name) ==> Inside(parse, target, s.clusters[name].crVersion)
    ensures PlansInside(parse, After(parse, s, step), target)
  {
    var t := After(parse, s, step);
    forall name | Pinned(t, name) && Planning(t.clusters[name])
      ensures Inside(parse, target, t.clusters[name].plan.value)
    {
      MovesExactlyWithApproval(parse, s, step, name);
      assert Pinned(s, name) || s.clusters[name].crVersion == "";
    }
  }

  lemma {:induction false} CarefulRunKeepsInv(parse: Parser, states: seq<State>, steps: seq<Step>, k: nat)
    requires Run(parse, states, steps) && k < |states|
    requires forall j :: 0 <= j < k ==> Careful(parse, states[j], steps[j])
    ensures Inv(parse, states[k])
  {
    if k > 0 {
      CarefulRunKeepsInv(parse, states, steps, k - 1);
      assert Leads(parse, states[k - 1], steps[k - 1], states[k]);
      StepKeepsInv(parse, states[k - 1], steps[k - 1]);
    }
  }

  /**
   Over every run with careful switches, each pinned cluster is at most at the
   running operator's version, shares its major and lags by at most two minors.
   */
  lemma AlwaysInsideSkewWindow(parse: Parser, states: seq<State>, steps: seq<Step>, k: nat, name: string)
    requires Run(parse, states, steps) && k < |states| && Pinned(states[k], name)
    requires forall j :: 0 <= j < k ==> Careful(parse, states[j], steps[j])
    ensures parse(states[k].operator).Some? && parse(states[k].clusters[name].crVersion).Some?
    ensures var op, cr := parse(states[k].operator).value, parse(states[k].clusters[name].crVersion).value;
            && cr.major == op.major && 0 <= op.minor - cr.minor <= 2
            && (cr.minor == op.minor ==> cr.patch <= op.patch)
            && (cr.minor == op.minor && cr.patch == op.patch ==> cr.pre <= op.pre)
  {
    CarefulRunKeepsInv(parse, states, steps, k);
    assert Inside(parse, states[k].operator, states[k].clusters[name].crVersion);
  }

  /** A switch upwards that reads every pinned cluster is careful, whatever Syncs are under way. */
  lemma UpgradeIsCareful(parse: Parser, s: State, target: string, unread: set<string>)
    requires Inv(parse, s) && parse(target).Some? && !VersionLessThan(parse, target, s.operator)
    requires forall name :: Pinned(s, name) ==> name !in unread
    ensures Careful(parse, s, ChangeProvider(target, unread))
  {
    forall name | Pinned(s, name) ensures !DropsBelow(parse, target, s.clusters[name]) {
      assert Planning(s.clusters[name]) ==> Inside(parse, s.operator, s.clusters[name].plan.value);
    }
  }

  /** A pinned cluster that could not be read is only warned about, and can end up outside the window. */
  lemma UnreadClusterFallsOutside(parse: Parser, running: string, target: string, name: string)
    returns (states: seq<State>, steps: seq<Step>)
    requires running != "" && target != "" && parse(running).Some? && parse(target).Some?
    requires OutsideSkewWindow(parse(target).value, parse(running).value)
    ensures Run(parse, states, steps) && Pinned(states[|steps|], name)
    ensures !Inside(parse, states[|steps|].operator, states[|steps|].clusters[name].crVersion)
  {
    states, steps := PinnedCluster(parse, running, name);
    states, steps := Extended(parse, states, steps, ChangeProvider(target, {name}));
  }

  /** A downgrade that passes preflight while an approved Sync is under way leaves the cluster above the operator. */
  lemma DowngradeDuringSync(parse: Parser, older: string, newer: string, name: string)
    returns (states: seq<State>, steps: seq<Step>)
    requires older != "" && newer != "" && Inside(parse, newer, older)
    requires Later(parse(older).value, parse(newer).value)
    ensures Run(parse, states, steps) && Pinned(states[|steps|], name)
    ensures states[|steps|].operator == older && states[|steps|].clusters[name].crVersion == newer
  {
    states, steps := PinnedCluster(parse, older, name);
    states, steps := Extended(parse, states, steps, ChangeProvider(newer, {}));
    states, steps := Extended(parse, states, steps, Read(name, Success(newer), true, true));
    states, steps := Extended(parse, states, steps, ChangeProvider(older, {}));
    states, steps := Extended(parse, states, steps, Apply(name));
  }

  lemma Extended(parse: Parser, states: seq<State>, steps: seq<Step>, step: Step)
    returns (states': seq<State>, steps': seq<Step>)
    requires Linked(parse, states, steps) && Enabled(parse, states[|steps|], step)
    ensures Linked(parse, states', steps') && steps' == steps + [step] && states'[0] == states[0]
    ensures states'[|steps'|] == After(parse, states[|steps|], step)
  {
    states', steps' := states + [After(parse, states[|steps|], step)], steps + [step];
    forall k | 0 <= k < |steps'| ensures Leads(parse, states'[k], steps'[k], states'[k + 1]) {
      assert k < |steps| ==> Leads(parse, states[k], steps[k], states[k + 1]);
    }
  }

  lemma PinnedCluster(parse: Parser, running: string, name: string) returns (states: seq<State>, steps: seq<Step>)
    requires running != "" && parse(running).Some?
    ensures Run(parse, states, steps)
    ensures states[|steps|] == State(running, map[name := Cluster(running, false, None)])
  {
    var none: seq<Step> := [];
    states, steps := [State(running, map[])], none;
    states, steps := Extended(parse, states, steps, Create(name));
    states, steps := Extended(parse, states, steps, Pin(name));
  }

  // ------------------------------------------------------------------
  // From preflight to switch
  // ------------------------------------------------------------------

  /** A preflight that reads everything passes exactly if the target would manage every pinned cluster now. */
  lemma PreflightIsExact(parse: Parser, s: State, target: string)
    requires Base(parse, s) && target != "" && parse(target).Some?
    ensures PreflightPasses(parse, s, target, {}) <==> Window(parse, s.(operator := target))
  {
    var t := s.(operator := target);
    if PreflightPasses(parse, s, target, {}) {
      SwitchKeepsWindowIff(parse, s, target, {});
    }
    if Window(parse, t) {
      forall name | name in s.clusters && !s.clusters[name].deleting
        ensures InstanceIssue(parse, parse(target).value, Seen(name, s.clusters[name], {})).None?
      {
        assert Pinned(t, name) ==> Inside(parse, target, t.clusters[name].crVersion);
      }
    }
  }

  /** Anything but a switch. */
  ghost predicate Gap(parse: Parser, states: seq<State>, steps: seq<Step>) {
    Linked(parse, states, steps) && forall k :: 0 <= k < |steps| ==> !steps[k].ChangeProvider?
  }

  /** However long the switch to target is put off from s, it leaves every cluster manageable, now and by its plan. */
  ghost predicate StaysPassed(parse: Parser, s: State, target: string) {
    forall states: seq<State>, steps: seq<Step> :: Gap(parse, states, steps) && states[0] == s ==>
      Inv(parse, states[|steps|].(operator := target))
  }

  lemma StepKeepsPassed(parse: Parser, s: State, step: Step, target: string)
    requires Base(parse, s) && Enabled(parse, s, step) && !step.ChangeProvider?
    requires Inside(parse, target, s.operator) && Inv(parse, s.(operator := target))
    ensures Inv(parse, After(parse, s, step).(operator := target))
  {
    var t := After(parse, s, step);
    StepKeepsBase(parse, s, step);
    var passed := s.(operator := target);
    assert forall name :: Pinned(s, name) ==> Pinned(passed, name);
    StepKeepsPlans(parse, s, step, target);
    forall name | Pinned(t, name) ensures Inside(parse, target, t.clusters[name].crVersion) {
      MovesExactlyWithApproval(parse, s, step, name);
      assert Pinned(s, name) ==> Inside(parse, target, passed.clusters[name].crVersion);
    }
  }

  lemma {:induction false} PassedThroughGap(parse: Parser, states: seq<State>, steps: seq<Step>, k: nat, target: string)
    requires Gap(parse, states, steps) && k < |states| && Base(parse, states[0])
    requires Inside(parse, target, states[0].operator) && Inv(parse, states[0].(operator := target))
    ensures Base(parse, states[k]) && states[k].operator == states[0].operator
    ensures Inv(parse, states[k].(operator := target))
  {
    if k > 0 {
      PassedThroughGap(parse, states, steps, k - 1, target);
      assert Leads(parse, states[k - 1], steps[k - 1], states[k]);
      StepKeepsBase(parse, states[k - 1], steps[k - 1]);
      StepKeepsPassed(parse, states[k - 1], steps[k - 1], target);
    }
  }

  lemma {:induction false} FreshName(names: set<string>) returns (name: string)
    ensures forall n :: n in names ==> |n| < |name|
  {
    if names == {} {
      name := "a";
    } else {
      var n :| n in names;
      name := FreshName(names - {n});
      name := name + n + "a";
    }
  }

  /** A cluster created in the gap is pinned by the old operator. */
  lemma NewClusterInGap(parse: Parser, s: State) returns (states: seq<State>, steps: seq<Step>, name: string)
    requires Base(parse, s)
    ensures Gap(parse, states, steps) && states[0] == s && Pinned(states[|steps|], name)
    ensures states[|steps|].clusters[name].crVersion == s.operator
  {
    name := FreshName(s.clusters.Keys);
    var none: seq<Step> := [];
    states, steps := [s], none;
    states, steps := Extended(parse, states, steps, Create(name));
    states, steps := Extended(parse, states, steps, Pin(name));
  }

  /**
   A passed preflight holds however long the switch is put off exactly if the
   target manages clusters at the running operator's version and at every
   version a Sync under way is going to set.
   */
  lemma PreflightHoldsIff(parse: Parser, s: State, target: string)
    requires Base(parse, s) && PreflightPasses(parse, s, target, {})
    ensures StaysPassed(parse, s, target) <==> Inside(parse, target, s.operator) && PlansInside(parse, s, target)
  {
    PreflightIsExact(parse, s, target);
    var passed := s.(operator := target);
    assert forall name :: Pinned(passed, name) <==> Pinned(s, name);
    if StaysPassed(parse, s, target) {
      var none: seq<Step> := [];
      assert Gap(parse, [s], none) && [s][|none|] == s;
      assert PlansInside(parse, passed, target);
      var states, steps, name := NewClusterInGap(parse, s);
      var t := states[|steps|].(operator := target);
      assert Inv(parse, t) && Pinned(t, name);
    }
    if Inside(parse, target, s.operator) && PlansInside(parse, s, target) {
      assert Inv(parse, passed);
      forall states: seq<State>, steps: seq<Step> | Gap(parse, states, steps) && states[0] == s
        ensures Inv(parse, states[|steps|].(operator := target))
      {
        PassedThroughGap(parse, states, steps, |steps|, target);
      }
    }
  }

  /** In a state reached by careful switches the versions under way need no check of their own. */
  lemma PreflightHoldsIffOperatorInside(parse: Parser, s: State, target: string)
    requires Inv(parse, s) && PreflightPasses(parse, s, target, {})
    ensures StaysPassed(parse, s, target) <==> Inside(parse, target, s.operator)
  {
    PreflightHoldsIff(parse, s, target);
    PreflightIsExact(parse, s, target);
    var passed := s.(operator := target);
    if Inside(parse, target, s.operator) {
      forall name | Pinned(s, name) && Planning(s.clusters[name])
        ensures Inside(parse, target, s.clusters[name].plan.value)
      {
        var c := s.clusters[name];
        assert Pinned(passed, name) && Sane(parse, c) && Inside(parse, s.operator, c.plan.value);
        assert Inside(parse, target, passed.clusters[name].crVersion);
        InsideBetween(parse(target).value, parse(c.crVersion).value, parse(c.plan.value).value);
      }
    }
  }

  /**
   The preflight result can go stale in two steps: a cluster created after the
   check, on the old operator, is outside the new window.
   */
  lemma PreflightCanGoStale(parse: Parser, running: string, target: string, name: string)
    requires running != "" && target != "" && parse(running).Some? && parse(target).Some?
    requires OutsideSkewWindow(parse(target).value, parse(running).value)
    ensures var s := State(running, map[]);
            && PreflightPasses(parse, s, target, {})
            && Enabled(parse, s, Create(name))
            && var t := After(parse, s, Create(name));
            && Enabled(parse, t, Pin(name))
            && !PreflightPasses(parse, After(parse, t, Pin(name)), target, {})
  {
  }
}
