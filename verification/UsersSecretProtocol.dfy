/**
 Sync's writes to the users secret and to the engine resource, call by call
 (internal/provider/provider.go, internal/provider/pmm.go): a crash or a failed
 call may end a pass anywhere, the operator fills in missing user keys once the
 resource exists, and the source of the credentials may change at any time.
 */
module UsersSecretProtocol {
  import opened Text
  import opened Requirements
  import opened UsersSecret

  /** Where an Instance's credentials come from. A data source may fail to resolve, anew in each pass. */
  datatype Mode = Unseeded | UserSecretRef | DataSource

  /** The engine resource, as far as it matters here. */
  datatype Live = NoResource | Resource(pmm: bool)

  datatype Pc =
    | Idle
    | NeedSource
    | HaveSource(data: map<string, string>)
    | Seeded
    | Rendering(bindings: seq<Binding>, plan: bool, livePmm: bool)
    | Removing
    | Ready(plan: bool)

  /** copied is the data the users secret was created from, once it was. */
  datatype State = State(users: Option<Secret>, copied: Option<map<string, string>>,
                         source: Option<map<string, string>>, live: Live, pc: Pc)

  datatype Step =
    | CheckTarget(unreadable: bool)
    | ReadSource
    | SkipUnresolved
    | CreateTarget
    | Decide(req: Requirement, bindings: seq<Binding>)
    | RenderNext
    | RenderDone
    | RemoveToken
    | ApplyResource
    | Crash
    | OperatorFills(key: string, value: string)
    | SourceChanges(source: Option<map<string, string>>)

  predicate LivePmm(live: Live) {
    live.Resource? && live.pmm
  }

  /** The switch of applyPMMBindings. */
  function Decided(req: Requirement, live: bool, bindings: seq<Binding>): Pc {
    if req.Required? then Rendering(bindings, false, live)
    else if Else(req, live) then Ready(live)
    else if req.NotRequired? && !live then Removing
    else Ready(false)
  }

  predicate Enabled(mode: Mode, s: State, step: Step) {
    match step
    case CheckTarget(unreadable) => s.pc.Idle? && (unreadable ==> mode.DataSource?)
    case ReadSource => s.pc.NeedSource? && s.source.Some?
    case SkipUnresolved => s.pc.NeedSource? && mode.DataSource?
    case CreateTarget => s.pc.HaveSource?
    case Decide(_, _) => s.pc.Seeded?
    case RenderNext => s.pc.Rendering? && s.pc.bindings != []
    case RenderDone => s.pc.Rendering? && s.pc.bindings == []
    case RemoveToken => s.pc.Removing?
    case ApplyResource => s.pc.Ready?
    case Crash => true
    case OperatorFills(key, _) => s.live.Resource? && key != TOKEN && key !in Entries(s.users)
    case SourceChanges(_) => true
  }

  function After(mode: Mode, s: State, step: Step): State
    requires Enabled(mode, s, step)
  {
    match step
    case CheckTarget(unreadable) =>
      s.(pc := if mode.Unseeded? || (s.users.Some? && !unreadable) then Seeded else NeedSource)
    case ReadSource => s.(pc := HaveSource(s.source.value))
    case SkipUnresolved => s.(pc := Seeded)
    case CreateTarget =>
      if s.users.Some? then s.(pc := Seeded)
      else s.(users := Some(Created(s.pc.data)), copied := Some(s.pc.data), pc := Seeded)
    case Decide(req, bindings) => s.(pc := Decided(req, LivePmm(s.live), bindings))
    case RenderNext =>
      var b := s.pc.bindings[0];
      s.(users := SecretAfter(s.users, b),
         pc := Rendering(s.pc.bindings[1..], PlanAfter(s.pc.plan, s.pc.livePmm, b), s.pc.livePmm))
    case RenderDone => s.(pc := Ready(s.pc.plan))
    case RemoveToken => s.(users := WithoutToken(s.users), pc := Ready(false))
    case ApplyResource => s.(live := Resource(s.pc.plan), pc := Idle)
    case Crash => s.(pc := Idle)
    case OperatorFills(key, value) => s.(users := Some(Entries(s.users)[key := Field(value, false, true)]))
    case SourceChanges(source) => s.(source := source)
  }

  ghost predicate Run(mode: Mode, states: seq<State>, steps: seq<Step>) {
    && |states| == |steps| + 1
    && states[0].users.None? && states[0].copied.None? && states[0].live.NoResource? && states[0].pc.Idle?
    && forall k :: 0 <= k < |steps| ==>
         Enabled(mode, states[k], steps[k]) && states[k + 1] == After(mode, states[k], steps[k])
  }

  // ------------------------------------------------------------------
  // The token
  // ------------------------------------------------------------------

  predicate HasToken(users: Option<Secret>) {
    users.Some? && TOKEN in users.value && users.value[TOKEN].value != ""
  }

  ghost predicate TokenInv(s: State) {
    && OnlyTokenOurs(Entries(s.users))
    && (LivePmm(s.live) ==> HasToken(s.users))
    && match s.pc
       case Rendering(_, plan, livePmm) => (plan ==> HasToken(s.users)) && livePmm == LivePmm(s.live)
       case Removing => !LivePmm(s.live)
       case Ready(plan) => plan ==> HasToken(s.users)
       case _ => true
  }

  lemma StepKeepsToken(mode: Mode, s: State, step: Step)
    requires TokenInv(s) && Enabled(mode, s, step)
    ensures TokenInv(After(mode, s, step))
  {
  }

  /** In every run, seeded or not, whenever the live resource has PMM enabled the secret holds a non-empty token. */
  lemma {:induction false} PmmAlwaysHasToken(mode: Mode, states: seq<State>, steps: seq<Step>, k: nat)
    requires Run(mode, states, steps) && k < |states|
    ensures TokenInv(states[k])
    ensures LivePmm(states[k].live) ==> HasToken(states[k].users)
  {
    if k > 0 {
      PmmAlwaysHasToken(mode, states, steps, k - 1);
      StepKeepsToken(mode, states[k - 1], steps[k - 1]);
    }
  }

  /** In every run, no PMM step changes any key but the token, and rendering a binding sets it to the binding's. */
  lemma PmmTouchesOnlyTheToken(mode: Mode, states: seq<State>, steps: seq<Step>, k: nat)
    requires Run(mode, states, steps) && k < |steps|
    requires steps[k].RenderNext? || steps[k].RemoveToken?
    ensures SameButToken(Entries(states[k + 1].users), Entries(states[k].users))
    ensures steps[k].RenderNext? && states[k].pc.bindings[0].Renderable? && states[k].pc.bindings[0].token != "" ==>
      var token := Token(states[k + 1].users);
      token.Some? && token.value.value == states[k].pc.bindings[0].token && token.value.ours
  {
    PmmAlwaysHasToken(mode, states, steps, k);
    var s := states[k];
    if steps[k].RemoveToken? {
      TokenApplyTouchesNothingElse(s.users, map[]);
    } else if Renders(s.pc.bindings[0]) {
      TokenApplyTouchesNothingElse(s.users, map[TOKEN := s.pc.bindings[0].token]);
    }
  }

  // ------------------------------------------------------------------
  // One pass, as a whole
  // ------------------------------------------------------------------

  /** From the decision on PMM at step c to applying the resource at step m, in one pass. */
  ghost predicate PmmPass(steps: seq<Step>, c: nat, m: nat) {
    && c < m < |steps| && steps[c].Decide? && steps[m].ApplyResource?
    && forall j :: c < j < m ==> !steps[j].ApplyResource? && !steps[j].Crash?
  }

  /** The calls so far have done the first bindings, from what the decision found. */
  ghost predicate Rendered(found: State, bindings: seq<Binding>, now: State) {
    && now.live == found.live
    && match now.pc
       case Rendering(rest, plan, livePmm) =>
         && |rest| <= |bindings| && rest == bindings[|bindings| - |rest|..] && livePmm == LivePmm(found.live)
         && var done := bindings[..|bindings| - |rest|];
         plan == PlanAfterAll(livePmm, done) && Token(now.users) == Token(SecretAfterAll(found.users, done))
       case Ready(plan) =>
         && plan == PlanAfterAll(LivePmm(found.live), bindings)
         && Token(now.users) == Token(SecretAfterAll(found.users, bindings))
       case _ => false
  }

  lemma RenderNextDoesOne(mode: Mode, found: State, bindings: seq<Binding>, s: State)
    requires Rendered(found, bindings, s) && Enabled(mode, s, RenderNext)
    ensures Rendered(found, bindings, After(mode, s, RenderNext))
  {
    var n := |bindings| - |s.pc.bindings|;
    var b := bindings[n];
    assert s.pc.bindings[0] == b && s.pc.bindings[1..] == bindings[n + 1..];
    assert bindings[..n + 1][..n] == bindings[..n];
    RenderSetsToken(s.users, b);
    RenderSetsToken(SecretAfterAll(found.users, bindings[..n]), b);
  }

  lemma StepKeepsRendered(mode: Mode, found: State, bindings: seq<Binding>, s: State, step: Step)
    requires Rendered(found, bindings, s) && Enabled(mode, s, step) && !step.ApplyResource? && !step.Crash?
    ensures Rendered(found, bindings, After(mode, s, step))
  {
    if step.RenderNext? {
      RenderNextDoesOne(mode, found, bindings, s);
    } else if step.RenderDone? {
      assert bindings[..|bindings|] == bindings;
    }
  }

  lemma {:induction false} RenderedSoFar(mode: Mode, states: seq<State>, steps: seq<Step>, c: nat, m: nat)
    requires Run(mode, states, steps) && c < m <= |steps| && steps[c].Decide? && steps[c].req.Required?
    requires forall j :: c < j < m ==> !steps[j].ApplyResource? && !steps[j].Crash?
    ensures Rendered(states[c], steps[c].bindings, states[m])
  {
    if m == c + 1 {
      assert steps[c].bindings[..0] == [];
    } else {
      RenderedSoFar(mode, states, steps, c, m - 1);
      StepKeepsRendered(mode, states[c], steps[c].bindings, states[m - 1], steps[m - 1]);
    }
  }

  /**
   In every run, a pass with PMM required leaves the token of the last binding
   that renders, or the one there was, whatever else happens to the secret, and
   applies PMM on if the last binding to apply renders, as it was if that one
   does not, and off without one.
   */
  lemma RequiredPass(mode: Mode, states: seq<State>, steps: seq<Step>, c: nat, m: nat)
    requires Run(mode, states, steps) && PmmPass(steps, c, m) && steps[c].req.Required?
    ensures var bindings, token := steps[c].bindings, Token(states[m + 1].users);
            && (NoneRenders(bindings) ==> token == Token(states[c].users))
            && (forall i: nat :: LastRendered(bindings, i) ==>
                  token.Some? && token.value.value == bindings[i].token && token.value.ours)
    ensures var bindings, live := steps[c].bindings, states[m + 1].live;
            && live.Resource?
            && (forall i: nat :: LastUnskipped(bindings, i) ==>
                  (live.pmm <==> (bindings[i].Renderable? && bindings[i].token != "") || LivePmm(states[c].live)))
            && ((forall i :: 0 <= i < |bindings| ==> bindings[i].Skipped?) ==> !live.pmm)
  {
    RenderedSoFar(mode, states, steps, c, m);
    LastTokenIsLeft(states[c].users, steps[c].bindings);
    LastBindingDecides(LivePmm(states[c].live), steps[c].bindings);
    assert Enabled(mode, states[m], steps[m]) && states[m + 1] == After(mode, states[m], steps[m]);
  }

  ghost predicate Linked(mode: Mode, states: seq<State>, steps: seq<Step>) {
    && |states| == |steps| + 1
    && forall k :: 0 <= k < |steps| ==>
         Enabled(mode, states[k], steps[k]) && states[k + 1] == After(mode, states[k], steps[k])
  }

  lemma LinkedCons(mode: Mode, s: State, step: Step, states: seq<State>, steps: seq<Step>)
    requires Linked(mode, states, steps) && Enabled(mode, s, step) && states[0] == After(mode, s, step)
    ensures Linked(mode, [s] + states, [step] + steps)
  {
  }

  /** A decided pass can always go on to apply the resource, and a crash only sends it back to its start. */
  lemma {:induction false} PassCanFinish(mode: Mode, s: State) returns (states: seq<State>, steps: seq<Step>)
    requires s.pc.Rendering? || s.pc.Removing? || s.pc.Ready?
    ensures Linked(mode, states, steps) && states[0] == s && states[|steps|].pc.Idle? && states[|steps|].live.Resource?
    ensures Enabled(mode, s, Crash) && After(mode, s, Crash) == s.(pc := Idle)
    decreases if s.pc.Rendering? then |s.pc.bindings| + 2 else if s.pc.Removing? then 1 else 0
  {
    var step := if s.pc.Ready? then ApplyResource else if s.pc.Removing? then RemoveToken
                else if s.pc.bindings == [] then RenderDone else RenderNext;
    var t := After(mode, s, step);
    if s.pc.Ready? {
      states, steps := [t], [];
    } else {
      states, steps := PassCanFinish(mode, t);
    }
    LinkedCons(mode, s, step, states, steps);
    states, steps := [s] + states, [step] + steps;
  }

  /** The token and PMM as a pass that does not require PMM has settled them. */
  ghost predicate Settled(found: State, req: Requirement, now: State) {
    && now.live == found.live
    && (now.pc.Removing? || now.pc.Ready?)
    && (now.pc.Removing? ==> req.NotRequired? && !LivePmm(found.live) && Token(now.users) == Token(found.users))
    && (now.pc.Ready? ==>
          && (now.pc.plan <==> req.Pending? && LivePmm(found.live))
          && Token(now.users) == if req.NotRequired? && !LivePmm(found.live) then Released(Token(found.users))
                                 else Token(found.users))
  }

  /** A token without the provider's ownership: gone, unless others hold it. */
  function Released(token: Option<Field>): Option<Field> {
    if token.Some? && (!token.value.ours || token.value.others) then Some(token.value.(ours := false)) else None
  }

  lemma {:induction false} SettledSoFar(mode: Mode, states: seq<State>, steps: seq<Step>, c: nat, m: nat)
    requires Run(mode, states, steps) && c < m <= |steps| && steps[c].Decide? && !steps[c].req.Required?
    requires forall j :: c < j < m ==> !steps[j].ApplyResource? && !steps[j].Crash?
    ensures Settled(states[c], steps[c].req, states[m])
  {
    if m > c + 1 {
      SettledSoFar(mode, states, steps, c, m - 1);
      var s, step := states[m - 1], steps[m - 1];
      assert Enabled(mode, s, step) && states[m] == After(mode, s, step);
    }
  }

  /**
   In every run, a pass that does not require PMM keeps it as it is while that is
   unresolved, and otherwise applies it off; it touches the token only if PMM was
   off already and is not required, and then gives up the provider's own.
   */
  lemma OtherPass(mode: Mode, states: seq<State>, steps: seq<Step>, c: nat, m: nat)
    requires Run(mode, states, steps) && PmmPass(steps, c, m) && !steps[c].req.Required?
    ensures states[m + 1].live == Resource(steps[c].req.Pending? && LivePmm(states[c].live))
    ensures Token(states[m + 1].users) ==
      if steps[c].req.NotRequired? && !LivePmm(states[c].live) then Released(Token(states[c].users))
      else Token(states[c].users)
  {
    SettledSoFar(mode, states, steps, c, m);
    assert Enabled(mode, states[m], steps[m]) && states[m + 1] == After(mode, states[m], steps[m]);
  }

  /**
   Turning PMM off takes two passes: the first applies the resource without PMM
   and keeps the token, the second removes the token, unless others wrote it too.
   */
  lemma DisablingTakesTwoPasses(mode: Mode, s: State)
    requires TokenInv(s) && s.pc.Seeded? && LivePmm(s.live) && s.users.Some?
    ensures Enabled(mode, s, Decide(NotRequired, []))
    ensures var s1 := After(mode, s, Decide(NotRequired, []));
            && Enabled(mode, s1, ApplyResource)
            && var s2 := After(mode, s1, ApplyResource);
            && s2.live == Resource(false) && HasToken(s2.users)
            && Enabled(mode, s2, CheckTarget(false))
            && var s3 := After(mode, s2, CheckTarget(false));
            && Enabled(mode, s3, Decide(NotRequired, []))
            && var s4 := After(mode, s3, Decide(NotRequired, []));
            && Enabled(mode, s4, RemoveToken)
            && var s5 := After(mode, s4, RemoveToken);
            && (TOKEN in s5.users.value <==> Survives(s.users.value[TOKEN]))
            && (TOKEN in s5.users.value ==> !s5.users.value[TOKEN].ours)
  {
  }

  // ------------------------------------------------------------------
  // The credentials
  // ------------------------------------------------------------------

  /** The seeding calls of one pass, uninterrupted: an existing secret is left alone, an absent one copied. */
  lemma StepsSeed(mode: Mode, s: State, data: map<string, string>)
    requires s.pc.Idle? && !mode.Unseeded? && s.source == Some(data)
    ensures Enabled(mode, s, CheckTarget(false))
    ensures s.users.Some? ==> After(mode, s, CheckTarget(false)) == s.(pc := Seeded)
    ensures s.users.None? ==>
      var s1 := After(mode, s, CheckTarget(false));
      && Enabled(mode, s1, ReadSource)
      && var s2 := After(mode, s1, ReadSource);
      && Enabled(mode, s2, CreateTarget)
      && After(mode, s2, CreateTarget) == s.(users := Some(Created(data)), copied := Some(data), pc := Seeded)
    ensures s.users.Some? ==>
      After(mode, s.(pc := HaveSource(data)), CreateTarget) == s.(pc := Seeded)
  {
  }

  /** The secret holds these credentials, untouched. */
  ghost predicate Holds(users: Option<Secret>, data: map<string, string>) {
    users.Some? && forall k :: k in data && k != TOKEN ==> k in users.value && users.value[k].value == data[k]
  }

  ghost predicate SeedInv(s: State) {
    && TokenInv(s)
    && (s.copied.None? ==> s.users.None? && s.live.NoResource? && (s.pc.Idle? || s.pc.NeedSource? || s.pc.HaveSource?))
    && (s.copied.Some? ==> Holds(s.users, s.copied.value))
  }

  lemma StepKeepsSeed(mode: Mode, s: State, step: Step)
    requires !mode.Unseeded? && SeedInv(s) && Enabled(mode, s, step)
    requires step.SkipUnresolved? ==> s.copied.Some?
    ensures SeedInv(After(mode, s, step))
    ensures s.copied.Some? ==> After(mode, s, step).copied == s.copied
  {
  }

  /** A seeded run in which, up to state k, no pass goes on unresolved before the credentials are copied. */
  ghost predicate SeededRun(mode: Mode, states: seq<State>, steps: seq<Step>, k: nat) {
    && Run(mode, states, steps) && k < |states| && !mode.Unseeded?
    && forall j :: 0 <= j < k && steps[j].SkipUnresolved? ==> states[j].copied.Some?
  }

  lemma {:induction false} SeedKept(mode: Mode, states: seq<State>, steps: seq<Step>, k: nat)
    requires SeededRun(mode, states, steps, k)
    ensures SeedInv(states[k])
  {
    if k > 0 {
      SeedKept(mode, states, steps, k - 1);
      StepKeepsSeed(mode, states[k - 1], steps[k - 1]);
    }
  }

  /**
   In every run that never goes on unresolved before the copy, with a crash or
   failure after any call, the engine resource or a PMM token exists only once
   the secret holds the source's credentials.
   */
  lemma CredentialsComeFirst(mode: Mode, states: seq<State>, steps: seq<Step>, k: nat)
    requires SeededRun(mode, states, steps, k)
    requires states[k].live.Resource? || TOKEN in Entries(states[k].users)
    ensures states[k].copied.Some? && Holds(states[k].users, states[k].copied.value)
  {
    SeedKept(mode, states, steps, k);
  }

  /** The credentials copied are the ones the source had when it was read, and they are never overwritten later. */
  lemma {:induction false} CredentialsNeverOverwritten(mode: Mode, states: seq<State>, steps: seq<Step>, i: nat, k: nat)
    requires SeededRun(mode, states, steps, k) && i <= k
    requires states[i].copied.Some?
    ensures states[k].copied == states[i].copied && Holds(states[k].users, states[i].copied.value)
  {
    SeedKept(mode, states, steps, k);
    if i < k {
      CredentialsNeverOverwritten(mode, states, steps, i, k - 1);
      SeedKept(mode, states, steps, k - 1);
      StepKeepsSeed(mode, states[k - 1], steps[k - 1]);
    }
  }

  lemma {:induction false} SourceWasRead(mode: Mode, states: seq<State>, steps: seq<Step>, k: nat,
                                         data: map<string, string>) returns (r: nat)
    requires Run(mode, states, steps) && k < |states|
    requires states[k].pc == HaveSource(data)
    ensures r < k && steps[r] == ReadSource && states[r].source == Some(data)
  {
    if steps[k - 1] == ReadSource {
      r := k - 1;
    } else {
      r := SourceWasRead(mode, states, steps, k - 1, data);
    }
  }

  /** Data counts as copied only if the source held exactly it at an earlier read. */
  lemma {:induction false} CopiedFromSource(mode: Mode, states: seq<State>, steps: seq<Step>, k: nat) returns (r: nat)
    requires Run(mode, states, steps) && k < |states| && states[k].copied.Some?
    ensures r < k && steps[r] == ReadSource && states[r].source == states[k].copied
  {
    if states[k - 1].copied == states[k].copied {
      r := CopiedFromSource(mode, states, steps, k - 1);
    } else {
      r := SourceWasRead(mode, states, steps, k - 1, states[k - 1].pc.data);
    }
  }

  /** One pass, from looking for the source up to applying the resource for the first time. */
  ghost predicate FirstPass(mode: Mode, states: seq<State>, steps: seq<Step>) {
    && |states| == |steps| + 1
    && SeedInv(states[0]) && states[0].pc.NeedSource? && states[0].copied.None?
    && forall k :: 0 <= k < |steps| ==>
         && Enabled(mode, states[k], steps[k]) && states[k + 1] == After(mode, states[k], steps[k])
         && !steps[k].Crash? && (steps[k].ApplyResource? <==> k == |steps| - 1)
  }

  ghost predicate Skips(steps: seq<Step>, k: nat) {
    k <= |steps| && exists j :: 0 <= j < k && steps[j].SkipUnresolved?
  }

  lemma {:induction false} PassSoFar(mode: Mode, states: seq<State>, steps: seq<Step>, k: nat)
    requires FirstPass(mode, states, steps) && k < |steps|
    ensures var s := states[k];
            && s.live.NoResource? && !s.pc.Idle?
            && (s.pc.NeedSource? || s.pc.HaveSource? ==> s.users.None? && s.copied.None? && !Skips(steps, k))
            && (!s.pc.NeedSource? && !s.pc.HaveSource? ==> (s.copied.None? <==> Skips(steps, k)))
  {
    if k > 0 {
      PassSoFar(mode, states, steps, k - 1);
      assert Enabled(mode, states[k - 1], steps[k - 1]) && !steps[k - 1].Crash? && !steps[k - 1].ApplyResource?;
      assert Skips(steps, k) <==> Skips(steps, k - 1) || steps[k - 1].SkipUnresolved?;
    }
  }

  /** A first pass applies the resource without credentials exactly if it went on unresolved. */
  lemma UnseededIffSkipped(mode: Mode, states: seq<State>, steps: seq<Step>)
    requires FirstPass(mode, states, steps) && steps != []
    ensures states[|steps|].live.Resource?
    ensures states[|steps|].copied.None? <==> Skips(steps, |steps|)
  {
    var last := |steps| - 1;
    PassSoFar(mode, states, steps, last);
    assert Enabled(mode, states[last], steps[last]) && steps[last].ApplyResource?;
    assert Skips(steps, |steps|) <==> Skips(steps, last) || steps[last].SkipUnresolved?;
  }

  /**
   A pass that goes on unresolved before the copy loses the guarantee: the
   resource is applied with no credentials copied at all.
   */
  lemma UnresolvedSourceIsNotSeeded(s: State)
    requires s.users.None? && s.copied.None? && s.live.NoResource? && s.pc.Idle?
    ensures exists states: seq<State>, steps: seq<Step> ::
      && Run(DataSource, states, steps) && states[0] == s
      && states[|steps|].live.Resource? && states[|steps|].copied.None?
  {
    var mode := DataSource;
    var steps := [CheckTarget(false), SkipUnresolved, Decide(Pending, []), ApplyResource];
    var s1 := After(mode, s, steps[0]);
    var s2 := After(mode, s1, steps[1]);
    var s3 := After(mode, s2, steps[2]);
    var s4 := After(mode, s3, steps[3]);
    var states := [s, s1, s2, s3, s4];
    assert Run(mode, states, steps) && states[|steps|] == s4;
  }
}
