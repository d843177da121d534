/**
 The users secret, shared by seeded credentials (internal/provider/provider.go)
 and the PMM server token (internal/provider/pmm.go, internal/provider/monitoring.go).
 Fields carry the owners server-side apply tracks: the provider's own applies,
 and everyone else.
 */
module UsersSecret {
  import opened Text
  import opened Requirements

  const TOKEN := "PMM_SERVER_TOKEN"

  datatype Field = Field(value: string, ours: bool, others: bool)

  type Secret = map<string, Field>

  // ------------------------------------------------------------------
  // Writing the secret
  // ------------------------------------------------------------------

  /** A plain create: every key belongs to others. */
  function Created(data: map<string, string>): Secret {
    map k | k in data :: Field(data[k], false, true)
  }

  function Entries(secret: Option<Secret>): Secret {
    if secret.Some? then secret.value else map[]
  }

  /** What server-side apply leaves of a field the provider does not apply this time. */
  predicate Survives(f: Field) {
    !f.ours || f.others
  }

  /** Server-side apply with forced ownership: sets these keys, drops the keys only the provider held. */
  function Applied(secret: Option<Secret>, desired: map<string, string>): Secret {
    var now := Entries(secret);
    map k | k in now.Keys + desired.Keys && (k in desired || Survives(now[k])) ::
      if k !in desired then now[k].(ours := false)
      else Field(desired[k], true, k in now && now[k].value == desired[k] && now[k].others)
  }

  /** Two secrets agree on every key but the token. */
  ghost predicate SameButToken(a: Secret, b: Secret) {
    forall k :: k != TOKEN ==> (k in a <==> k in b) && (k in a ==> a[k] == b[k])
  }

  /** The provider applied nothing but the token. */
  predicate OnlyTokenOurs(secret: Secret) {
    forall k :: k in secret && k != TOKEN ==> !secret[k].ours
  }

  lemma TokenApplyTouchesNothingElse(secret: Option<Secret>, desired: map<string, string>)
    requires OnlyTokenOurs(Entries(secret)) && desired.Keys <= {TOKEN}
    ensures SameButToken(Applied(secret, desired), Entries(secret))
    ensures OnlyTokenOurs(Applied(secret, desired))
  {
  }

  // ------------------------------------------------------------------
  // Seeding credentials
  // ------------------------------------------------------------------

  type SecretRead = Reading<map<string, string>>

  /** What resolving the source Instance gave: a name, nothing yet, or an error. */
  datatype Resolution = Resolved | Unresolved | Unresolvable

  class Secrets {
    var users: Option<Secret>

    /** createSecret: losing the race against another writer is fine. */
    method Create(data: map<string, string>, refused: bool) returns (r: Result<()>)
      modifies this
      ensures users == if old(users).None? && !refused then Some(Created(data)) else old(users)
      ensures old(users).None? && !refused ==>
        users.Some? && users.value.Keys == data.Keys
        && forall k :: k in data ==> users.value[k] == Field(data[k], false, true)
      ensures r.Failure? <==> old(users).None? && refused
    {
      if users.Some? {
        return Success(());
      }
      if refused {
        return Failure;
      }
      users := Some(Created(data));
      return Success(());
    }

    /** The copy from spec.userSecretRef. */
    method EnsureUserSecret(targetUnreadable: bool, source: SecretRead, refused: bool) returns (r: Result<()>)
      modifies this
      ensures r.Success? <==> !targetUnreadable && (old(users).Some? || (source.Found? && !refused))
      ensures users == if r.Success? && old(users).None? then Some(Created(source.value)) else old(users)
    {
      if targetUnreadable {
        return Failure;
      }
      if users.Some? {
        return Success(());
      }
      if !source.Found? {
        return Failure;
      }
      r := Create(source.value, refused);
    }

    /** The copy from the source Instance's secret; any failed read of the target counts as absent. */
    method EnsureDataSourceCredentials(targetUnreadable: bool, source: Resolution, secret: SecretRead, refused: bool)
      returns (r: Result<()>)
      modifies this
      ensures r.Success? <==>
        || (old(users).Some? && !targetUnreadable) || source.Unresolved?
        || (source.Resolved? && secret.Found? && (old(users).Some? || !refused))
      ensures users == if r.Success? && old(users).None? && source.Resolved? then Some(Created(secret.value))
                       else old(users)
    {
      if !targetUnreadable && users.Some? {
        return Success(());
      }
      match source {
        case Unresolvable => return Failure;
        case Unresolved => return Success(());
        case Resolved =>
      }
      if !secret.Found? {
        return Failure;
      }
      r := Create(secret.value, refused);
    }
  }

  // ------------------------------------------------------------------
  // PMM
  // ------------------------------------------------------------------

  /** A binding: not for this provider to apply, not renderable, or rendered with the destination's token. */
  datatype Binding = Skipped | Invalid | Renderable(token: string)

  /** Credentials without a token cannot be rendered. */
  predicate Renders(b: Binding) {
    b.Renderable? && b.token != ""
  }

  function SecretAfter(secret: Option<Secret>, b: Binding): Option<Secret> {
    if Renders(b) then Some(Applied(secret, map[TOKEN := b.token])) else secret
  }

  function PlanAfter(plan: bool, live: bool, b: Binding): bool {
    if b.Skipped? then plan else if Renders(b) then true else live
  }

  function SecretAfterAll(secret: Option<Secret>, bindings: seq<Binding>): Option<Secret> {
    if bindings == [] then secret
    else SecretAfter(SecretAfterAll(secret, bindings[..|bindings| - 1]), bindings[|bindings| - 1])
  }

  function PlanAfterAll(live: bool, bindings: seq<Binding>): bool {
    if bindings == [] then false
    else PlanAfter(PlanAfterAll(live, bindings[..|bindings| - 1]), live, bindings[|bindings| - 1])
  }

  function WithoutToken(secret: Option<Secret>): Option<Secret> {
    if secret.Some? && TOKEN in secret.value then Some(Applied(secret, map[])) else secret
  }

  // ------------------------------------------------------------------
  // What rendering leaves
  // ------------------------------------------------------------------

  /** The token's field, if the secret has one. */
  function Token(secret: Option<Secret>): Option<Field> {
    if secret.Some? && TOKEN in secret.value then Some(secret.value[TOKEN]) else None
  }

  /** Binding i renders, and no later one does. */
  ghost predicate LastRendered(bindings: seq<Binding>, i: nat) {
    && i < |bindings| && bindings[i].Renderable? && bindings[i].token != ""
    && forall j :: i < j < |bindings| ==> bindings[j].Renderable? ==> bindings[j].token == ""
  }

  /** Binding i is for this provider to apply, and no later one is. */
  ghost predicate LastUnskipped(bindings: seq<Binding>, i: nat) {
    i < |bindings| && !bindings[i].Skipped? && forall j :: i < j < |bindings| ==> bindings[j].Skipped?
  }

  ghost predicate NoneRenders(bindings: seq<Binding>) {
    forall i :: 0 <= i < |bindings| ==> bindings[i].Renderable? ==> bindings[i].token == ""
  }

  /** A binding that renders leaves its own token, the provider's; any other leaves the secret alone. */
  lemma RenderSetsToken(secret: Option<Secret>, b: Binding)
    ensures b.Renderable? && b.token != "" ==>
      var before, token := Token(secret), Token(SecretAfter(secret, b));
      token == Some(Field(b.token, true, before.Some? && before.value.value == b.token && before.value.others))
    ensures !b.Renderable? || b.token == "" ==> SecretAfter(secret, b) == secret
  {
  }

  /** The token left is that of the last binding that renders, and the provider's; without one nothing changes. */
  lemma {:induction false} LastTokenIsLeft(secret: Option<Secret>, bindings: seq<Binding>)
    ensures NoneRenders(bindings) ==> SecretAfterAll(secret, bindings) == secret
    ensures forall i: nat :: LastRendered(bindings, i) ==>
      var token := Token(SecretAfterAll(secret, bindings));
      token.Some? && token.value.value == bindings[i].token && token.value.ours
  {
    if bindings != [] {
      var n := |bindings| - 1;
      var earlier, last := bindings[..n], bindings[n];
      LastTokenIsLeft(secret, earlier);
      RenderSetsToken(SecretAfterAll(secret, earlier), last);
      if last.Renderable? && last.token != "" {
        assert forall i: nat :: LastRendered(bindings, i) ==> i == n;
      } else {
        assert forall i: nat :: LastRendered(bindings, i) ==> LastRendered(earlier, i);
        assert NoneRenders(bindings) ==> NoneRenders(earlier);
      }
    }
  }

  /** PMM is on if the last binding to apply renders, as it was if that one does not, and off without one. */
  lemma {:induction false} LastBindingDecides(live: bool, bindings: seq<Binding>)
    ensures (forall i :: 0 <= i < |bindings| ==> bindings[i].Skipped?) ==> !PlanAfterAll(live, bindings)
    ensures forall i: nat :: LastUnskipped(bindings, i) ==>
      (PlanAfterAll(live, bindings) <==> (bindings[i].Renderable? && bindings[i].token != "") || live)
  {
    if bindings != [] {
      var n := |bindings| - 1;
      var earlier := bindings[..n];
      LastBindingDecides(live, earlier);
      if bindings[n].Skipped? {
        assert forall i: nat :: LastUnskipped(bindings, i) ==> LastUnskipped(earlier, i);
      }
    }
  }

  class Pmm {
    var users: Option<Secret>
    /** Whether the resource under construction has PMM enabled. */
    var enabled: bool

    method ApplyPMMBindings(req: Requirement, live: bool, bindings: seq<Binding>)
      modifies this
      requires !enabled
      ensures req.Required? ==>
        users == SecretAfterAll(old(users), bindings) && enabled == PlanAfterAll(live, bindings)
      ensures req.Required? && NoneRenders(bindings) ==> users == old(users)
      ensures req.Required? ==> forall i: nat :: LastRendered(bindings, i) ==>
        users.Some? && TOKEN in users.value && users.value[TOKEN].value == bindings[i].token && users.value[TOKEN].ours
      ensures req.Required? ==> forall i: nat :: LastUnskipped(bindings, i) ==>
        (enabled <==> (bindings[i].Renderable? && bindings[i].token != "") || live)
      ensures req.Required? && (forall i :: 0 <= i < |bindings| ==> bindings[i].Skipped?) ==> !enabled
      ensures !req.Required? ==> enabled == (req.Pending? && live)
      ensures req.Pending? || (req.NotRequired? && live) ==> users == old(users)
      ensures req.NotRequired? && !live ==> users == WithoutToken(old(users))
    {
      if req.Required? {
        for i := 0 to |bindings|
          invariant users == SecretAfterAll(old(users), bindings[..i])
          invariant enabled == PlanAfterAll(live, bindings[..i])
        {
          assert bindings[..i + 1][..i] == bindings[..i];
          var rb := bindings[i];
          if rb.Skipped? {
            continue;
          }
          if rb.Invalid? || rb.token == "" {
            enabled := live;
            continue;
          }
          users := Some(Applied(users, map[TOKEN := rb.token]));
          enabled := true;
        }
        assert bindings[..|bindings|] == bindings;
        LastTokenIsLeft(old(users), bindings);
        LastBindingDecides(live, bindings);
      } else if Else(req, live) {
        enabled := live;
      } else if req.NotRequired? && !live {
        if users.Some? && TOKEN in users.value {
          users := Some(Applied(users, map[]));
        }
      }
    }
  }

  // ------------------------------------------------------------------
  // Enabling, rotating, disabling
  // ------------------------------------------------------------------

  /** The secret after passes that each render these bindings. */
  function AfterPasses(secret: Option<Secret>, passes: seq<seq<Binding>>): Option<Secret> {
    if passes == [] then secret
    else SecretAfterAll(AfterPasses(secret, passes[..|passes| - 1]), passes[|passes| - 1])
  }

  /** Whatever these bindings render is v. */
  ghost predicate OnlyRender(bindings: seq<Binding>, v: string) {
    forall i :: 0 <= i < |bindings| ==> bindings[i].Renderable? && bindings[i].token != "" ==> bindings[i].token == v
  }

  ghost predicate AllOnlyRender(passes: seq<seq<Binding>>, v: string) {
    forall p :: 0 <= p < |passes| ==> OnlyRender(passes[p], v)
  }

  /** The users secret without a token of the provider's own. */
  predicate Untouched(secret: Secret) {
    OnlyTokenOurs(secret) && (TOKEN in secret ==> !secret[TOKEN].ours && secret[TOKEN].others)
  }

  /**
   Where the passes so far leave the secret: the other keys are as they were; the
   token is as it was, or applied, and then others own it too exactly as far as
   nothing but their own value was ever rendered.
   */
  ghost predicate Between(secret: Secret, now: Option<Secret>, allTheirs: bool) {
    && now.Some? && SameButToken(now.value, secret) && OnlyTokenOurs(now.value)
    && (TOKEN in secret ==> TOKEN in now.value)
    && (TOKEN in now.value ==> now.value[TOKEN].ours || (TOKEN in secret && now.value[TOKEN] == secret[TOKEN]))
    && (TOKEN in now.value && TOKEN in secret ==>
          && (now.value[TOKEN].others <==> allTheirs)
          && (allTheirs ==> now.value[TOKEN].value == secret[TOKEN].value))
    && (TOKEN in now.value && TOKEN !in secret ==> !now.value[TOKEN].others)
  }

  lemma BindingKeepsBetween(secret: Secret, now: Option<Secret>, b: Binding, allTheirs: bool)
    requires Untouched(secret) && Between(secret, now, allTheirs)
    ensures Between(secret, SecretAfter(now, b),
                    allTheirs && (Renders(b) && TOKEN in secret ==> b.token == secret[TOKEN].value))
  {
    if Renders(b) {
      TokenApplyTouchesNothingElse(now, map[TOKEN := b.token]);
    }
  }

  lemma {:induction false} PassKeepsBetween(secret: Secret, now: Option<Secret>, bindings: seq<Binding>,
                                            allTheirs: bool)
    requires Untouched(secret) && Between(secret, now, allTheirs)
    ensures Between(secret, SecretAfterAll(now, bindings),
                    allTheirs && (TOKEN in secret ==> OnlyRender(bindings, secret[TOKEN].value)))
  {
    if bindings != [] {
      var n := |bindings| - 1;
      var earlier, last := bindings[..n], bindings[n];
      var soFar := allTheirs && (TOKEN in secret ==> OnlyRender(earlier, secret[TOKEN].value));
      PassKeepsBetween(secret, now, earlier, allTheirs);
      BindingKeepsBetween(secret, SecretAfterAll(now, earlier), last, soFar);
      if TOKEN in secret {
        var v := secret[TOKEN].value;
        assert OnlyRender(bindings, v) <==> OnlyRender(earlier, v) && (Renders(last) ==> last.token == v);
      }
    }
  }

  lemma {:induction false} PassesKeepBetween(secret: Secret, passes: seq<seq<Binding>>)
    requires Untouched(secret)
    ensures Between(secret, AfterPasses(Some(secret), passes),
                    TOKEN in secret ==> AllOnlyRender(passes, secret[TOKEN].value))
  {
    if passes != [] {
      var n := |passes| - 1;
      PassesKeepBetween(secret, passes[..n]);
      PassKeepsBetween(secret, AfterPasses(Some(secret), passes[..n]), passes[n],
                       TOKEN in secret ==> AllOnlyRender(passes[..n], secret[TOKEN].value));
      if TOKEN in secret {
        var v := secret[TOKEN].value;
        assert AllOnlyRender(passes, v) <==> AllOnlyRender(passes[..n], v) && OnlyRender(passes[n], v);
      }
    }
  }

  /** Removing the token keeps it only where others own it. */
  lemma TokenDropped(r: Secret)
    requires OnlyTokenOurs(r) && TOKEN in r
    ensures var back := WithoutToken(Some(r));
            && back.Some? && SameButToken(back.value, r)
            && (TOKEN in back.value <==> !r[TOKEN].ours || r[TOKEN].others)
            && (TOKEN in back.value ==> back.value[TOKEN] == Field(r[TOKEN].value, false, r[TOKEN].others))
  {
  }

  lemma EqualFromParts(a: Secret, b: Secret)
    ensures a == b <==>
      SameButToken(a, b) && (TOKEN in a <==> TOKEN in b) && (TOKEN in a ==> a[TOKEN] == b[TOKEN])
  {
  }

  /**
   Any number of passes with PMM required, with any bindings, and then the
   removal of the token give the secret back exactly, if and only if it held no
   token before, or nothing but precisely that value was ever rendered.
   */
  lemma EnableRotateDisableRestores(secret: Secret, passes: seq<seq<Binding>>)
    requires Untouched(secret)
    ensures WithoutToken(AfterPasses(Some(secret), passes)) == Some(secret) <==>
      TOKEN !in secret || AllOnlyRender(passes, secret[TOKEN].value)
  {
    PassesKeepBetween(secret, passes);
    var now := AfterPasses(Some(secret), passes).value;
    if TOKEN in now {
      TokenDropped(now);
      EqualFromParts(WithoutToken(Some(now)).value, secret);
    } else {
      EqualFromParts(now, secret);
    }
  }
}
