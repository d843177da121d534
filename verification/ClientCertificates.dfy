/**
 Letting TLS clients connect without a certificate (internal/provider/tls.go):
 one option set in every mongod and mongos configuration, behind an approval on
 existing clusters. Configurations are decoded YAML trees.
 */
module ClientCertificates {
  import opened Text

  /** A YAML value; anything that is not a mapping is opaque here. */
  datatype Value = Plain(text: string) | Mapping(entries: map<string, Value>)

  /** A configuration text: not a YAML mapping, or a tree (empty for an empty text). */
  datatype Config = Unparsed(text: string) | Tree(root: map<string, Value>)

  const NET := "net"
  const TLS := "tls"
  const ALLOW := "allowConnectionsWithoutCertificates"
  const OPTION := [NET, TLS, ALLOW]

  function Lookup(entries: map<string, Value>, path: seq<string>): Option<Value>
    decreases |path|
  {
    if path == [] then Some(Mapping(entries))
    else if path[0] !in entries then None
    else match entries[path[0]]
      case Plain(text) => if |path| == 1 then Some(Plain(text)) else None
      case Mapping(inner) => Lookup(inner, path[1..])
  }

  /** An empty mapping where there is none. */
  function Submap(entries: map<string, Value>, key: string): map<string, Value> {
    if key in entries && entries[key].Mapping? then entries[key].entries else map[]
  }

  predicate MapOrAbsent(entries: map<string, Value>, key: string) {
    key in entries ==> entries[key].Mapping?
  }

  /** net and net.tls are mappings wherever they are set. */
  predicate WellShaped(c: Config) {
    c.Tree? && MapOrAbsent(c.root, NET) && MapOrAbsent(Submap(c.root, NET), TLS)
  }

  predicate HasOption(c: Config) {
    c.Tree? && ALLOW in Submap(Submap(c.root, NET), TLS)
  }

  function WithOption(c: Config): Config {
    if !WellShaped(c) || HasOption(c) then c
    else
      var net := Submap(c.root, NET);
      var tls := Submap(net, TLS)[ALLOW := Plain("true")];
      Tree(c.root[NET := Mapping(net[TLS := Mapping(tls)])])
  }

  method WithClientCertificatesOptional(configuration: Config) returns (out: Config)
    ensures out == WithOption(configuration)
  {
    if configuration.Unparsed? {
      return configuration;
    }
    var conf := configuration.root;
    var net: map<string, Value> := map[];
    if NET in conf {
      if !conf[NET].Mapping? {
        return configuration;
      }
      net := conf[NET].entries;
    }
    var tls: map<string, Value> := map[];
    if TLS in net {
      if !net[TLS].Mapping? {
        return configuration;
      }
      tls := net[TLS].entries;
    }
    if ALLOW in tls {
      return configuration;
    }
    tls := tls[ALLOW := Plain("true")];
    net := net[TLS := Mapping(tls)];
    conf := conf[NET := Mapping(net)];
    return Tree(conf);
  }

  // ------------------------------------------------------------------
  // One configuration
  // ------------------------------------------------------------------

  /** The option ends up set exactly in well-shaped configurations. */
  lemma OptionSetIffWellShaped(c: Config)
    ensures HasOption(WithOption(c)) <==> WellShaped(c) || HasOption(c)
    ensures WellShaped(c) ==> WellShaped(WithOption(c))
  {
  }

  lemma OptionIsAPath(c: Config)
    requires c.Tree?
    ensures HasOption(c) <==> Lookup(c.root, OPTION).Some?
  {
    assert OPTION[1..] == [TLS, ALLOW] && [TLS, ALLOW][1..] == [ALLOW];
    var net := Submap(c.root, NET);
    var tls := Submap(net, TLS);
    assert Lookup(tls, [ALLOW]).Some? <==> ALLOW in tls;
    if NET in c.root && c.root[NET].Mapping? {
      assert Lookup(c.root, OPTION) == Lookup(net, [TLS, ALLOW]);
      if TLS in net && net[TLS].Mapping? {
        assert Lookup(net, [TLS, ALLOW]) == Lookup(tls, [ALLOW]);
      } else {
        assert tls == map[] && Lookup(net, [TLS, ALLOW]).None?;
      }
    } else {
      assert net == map[] && tls == map[] && Lookup(c.root, OPTION).None?;
    }
  }

  /** What a configuration says about clients without certificates. */
  function Setting(c: Config): Option<Value> {
    if c.Tree? then Lookup(c.root, ["net", "tls", "allowConnectionsWithoutCertificates"]) else None
  }

  lemma SettingIs(c: Config)
    ensures Setting(c) == if HasOption(c) then Some(Submap(Submap(c.root, NET), TLS)[ALLOW]) else None
  {
    assert OPTION[1..] == [TLS, ALLOW] && [TLS, ALLOW][1..] == [ALLOW];
    if c.Tree? {
      var net := Submap(c.root, NET);
      var tls := Submap(net, TLS);
      assert Lookup(tls, [ALLOW]) == if ALLOW in tls then Some(tls[ALLOW]) else None by {
        assert [ALLOW][1..] == [];
      }
      OptionIsAPath(c);
      if HasOption(c) {
        assert Lookup(c.root, OPTION) == Lookup(net, [TLS, ALLOW]) == Lookup(tls, [ALLOW]);
      }
    }
  }

  /** A well-shaped configuration that says nothing comes out saying true; any other keeps what it says. */
  ghost predicate Allows(before: Config, after: Config) {
    Setting(after) == if WellShaped(before) && Setting(before).None? then Some(Plain("true")) else Setting(before)
  }

  lemma AddedOptionIsTrue(c: Config)
    ensures Allows(c, WithOption(c))
  {
    SettingIs(c);
    SettingIs(WithOption(c));
  }

  /** Adding the option twice is adding it once, and a value the user set stays. */
  lemma AddingOptionIsIdempotent(c: Config)
    ensures WithOption(WithOption(c)) == WithOption(c)
    ensures HasOption(c) ==> WithOption(c) == c
  {
  }

  /** Replacing one entry changes no path that starts elsewhere. */
  lemma OtherEntriesUntouched(entries: map<string, Value>, key: string, v: Value, path: seq<string>)
    requires path != [] && path[0] != key
    ensures Lookup(entries[key := v], path) == Lookup(entries, path)
  {
  }

  lemma LookupUnder(entries: map<string, Value>, key: string, path: seq<string>)
    requires |path| > 1 && path[0] == key && MapOrAbsent(entries, key)
    ensures Lookup(entries, path) == Lookup(Submap(entries, key), path[1..])
  {
  }

  /** No path changes but the option's own: the ones leading to it are exempt, being mappings that hold it. */
  lemma NoOtherPathChanges(c: Config, path: seq<string>)
    requires c.Tree? && !(path <= OPTION)
    ensures WithOption(c).Tree? && Lookup(WithOption(c).root, path) == Lookup(c.root, path)
  {
    var out := WithOption(c);
    if out != c {
      var net := Submap(c.root, NET);
      var tls := Submap(net, TLS);
      var net' := net[TLS := Mapping(tls[ALLOW := Plain("true")])];
      assert out == Tree(c.root[NET := Mapping(net')]);
      assert path != [];
      if path[0] != NET {
        OtherEntriesUntouched(c.root, NET, Mapping(net'), path);
      } else {
        LookupUnder(c.root, NET, path);
        LookupUnder(out.root, NET, path);
        NoOtherPathUnderNet(net, path[1..]);
      }
    }
  }

  lemma NoOtherPathUnderNet(net: map<string, Value>, path: seq<string>)
    requires MapOrAbsent(net, TLS) && ALLOW !in Submap(net, TLS)
    requires path != [] && !([NET] + path <= OPTION)
    ensures var tls := Submap(net, TLS);
            Lookup(net[TLS := Mapping(tls[ALLOW := Plain("true")])], path) == Lookup(net, path)
  {
  }

  // ------------------------------------------------------------------
  // The engine resource
  // ------------------------------------------------------------------

  datatype Sharding = Sharding(configServer: Config, mongos: Config)

  datatype Engine = Engine(replsets: seq<Config>, sharding: Option<Sharding>)

  /** The live resource is asked through its first replica set. */
  predicate Accepts(e: Engine) {
    e.replsets != [] && HasOption(e.replsets[0])
  }

  function Adjusted(e: Engine): Engine {
    Engine(seq(|e.replsets|, i requires 0 <= i < |e.replsets| => WithOption(e.replsets[i])),
           if e.sharding.Some?
           then Some(Sharding(WithOption(e.sharding.value.configServer), WithOption(e.sharding.value.mongos)))
           else None)
  }

  /** Approval is asked for on an existing cluster that does not accept such clients yet. */
  predicate AsksApproval(tlsOn: bool, live: Option<Engine>) {
    tlsOn && live.Some? && !Accepts(live.value)
  }

  function Rendered(tlsOn: bool, live: Option<Engine>, approved: bool, base: Engine): Engine {
    if !tlsOn || (AsksApproval(tlsOn, live) && !approved) then base else Adjusted(base)
  }

  class Draft {
    var replsets: seq<Config>
    var sharding: Option<Sharding>

    method AcceptClientsWithoutCertificates(tlsOn: bool, live: Result<Option<Engine>>, approved: bool)
      returns (r: Result<()>, asked: bool)
      modifies this
      ensures r.Failure? <==> tlsOn && live.Failure?
      ensures r.Failure? || !tlsOn ==> unchanged(this) && !asked
      ensures r.Success? && live.Success? ==>
        && Engine(replsets, sharding) == Rendered(tlsOn, live.value, approved, old(Engine(replsets, sharding)))
        && asked == AsksApproval(tlsOn, live.value)
    {
      asked := false;
      if !tlsOn {
        return Success(()), asked;
      }
      if live.Failure? {
        return Failure, asked;
      }
      if live.value.Some? && !Accepts(live.value.value) {
        asked := true;
        if !approved {
          return Success(()), asked;
        }
      }
      ghost var base := replsets;
      for i := 0 to |replsets|
        invariant |replsets| == |base| && sharding == old(sharding)
        invariant forall k :: 0 <= k < |base| ==> replsets[k] == if k < i then WithOption(base[k]) else base[k]
      {
        var conf := WithClientCertificatesOptional(replsets[i]);
        replsets := replsets[i := conf];
      }
      if sharding.Some? {
        var cfg := WithClientCertificatesOptional(sharding.value.configServer);
        var mongos := WithClientCertificatesOptional(sharding.value.mongos);
        sharding := Some(Sharding(cfg, mongos));
      }
      assert replsets == Adjusted(Engine(base, old(sharding))).replsets;
      return Success(()), asked;
    }
  }

  // ------------------------------------------------------------------
  // Runs
  // ------------------------------------------------------------------

  /** One applied Sync: the configurations the Instance asks for, and whether the restart is approved. */
  datatype Pass = Pass(base: Engine, approved: bool)

  /** lives[k] is the resource after k passes, none before the first; TLS stays on. */
  ghost predicate Run(lives: seq<Option<Engine>>, passes: seq<Pass>) {
    && |lives| == |passes| + 1
    && forall k :: 0 <= k < |passes| ==>
         lives[k + 1] == Some(Rendered(true, lives[k], passes[k].approved, passes[k].base))
  }

  /** Every rendering has a replica set, and well-shaped configurations throughout. */
  predicate Proper(e: Engine) {
    && e.replsets != []
    && (forall k :: 0 <= k < |e.replsets| ==> WellShaped(e.replsets[k]))
    && (e.sharding.Some? ==> WellShaped(e.sharding.value.configServer) && WellShaped(e.sharding.value.mongos))
  }

  predicate AcceptsEverywhere(e: Engine) {
    && e.replsets != []
    && (forall k :: 0 <= k < |e.replsets| ==> HasOption(e.replsets[k]))
    && (e.sharding.Some? ==> HasOption(e.sharding.value.configServer) && HasOption(e.sharding.value.mongos))
  }

  lemma AdjustedAcceptsEverywhere(e: Engine)
    requires Proper(e)
    ensures AcceptsEverywhere(Adjusted(e))
  {
  }

  /** Component by component, what says nothing comes out saying true and the rest keeps what it says. */
  ghost predicate AllowsEverywhere(before: Engine, after: Engine) {
    && |after.replsets| == |before.replsets|
    && (forall k :: 0 <= k < |before.replsets| ==> Allows(before.replsets[k], after.replsets[k]))
    && (after.sharding.Some? <==> before.sharding.Some?)
    && (before.sharding.Some? ==>
          && Allows(before.sharding.value.configServer, after.sharding.value.configServer)
          && Allows(before.sharding.value.mongos, after.sharding.value.mongos))
  }

  lemma AdjustedAllowsEverywhere(e: Engine)
    ensures AllowsEverywhere(e, Adjusted(e))
  {
    forall k | 0 <= k < |e.replsets| ensures Allows(e.replsets[k], Adjusted(e).replsets[k]) {
      AddedOptionIsTrue(e.replsets[k]);
    }
    if e.sharding.Some? {
      AddedOptionIsTrue(e.sharding.value.configServer);
      AddedOptionIsTrue(e.sharding.value.mongos);
    }
  }

  // ------------------------------------------------------------------
  // The approval gate
  // ------------------------------------------------------------------

  /** The option is added to this configuration when it is added at all. */
  predicate Lacks(c: Config) {
    WellShaped(c) && !HasOption(c)
  }

  predicate LacksSomewhere(e: Engine) {
    || (exists k :: 0 <= k < |e.replsets| && Lacks(e.replsets[k]))
    || (e.sharding.Some? && (Lacks(e.sharding.value.configServer) || Lacks(e.sharding.value.mongos)))
  }

  /** A live resource rendered by adding the option shows it. */
  predicate Shows(e: Engine) {
    e.replsets != [] && (WellShaped(e.replsets[0]) || HasOption(e.replsets[0]))
  }

  lemma AddedIffLacking(c: Config)
    ensures WithOption(c) != c <==> Lacks(c)
  {
    OptionSetIffWellShaped(c);
  }

  lemma AdjustedIffLacking(e: Engine)
    ensures Adjusted(e) != e <==> LacksSomewhere(e)
  {
    var out := Adjusted(e);
    forall k | 0 <= k < |e.replsets| ensures out.replsets[k] != e.replsets[k] <==> Lacks(e.replsets[k]) {
      AddedIffLacking(e.replsets[k]);
    }
    if e.sharding.Some? {
      AddedIffLacking(e.sharding.value.configServer);
      AddedIffLacking(e.sharding.value.mongos);
    }
    if !LacksSomewhere(e) {
      assert out.replsets == e.replsets;
    }
  }

  /**
   One unapproved pass over an existing cluster changes a configuration exactly
   if the live resource has the option on its first replica set, with any value,
   and some well-shaped component lacks it.
   */
  lemma UnapprovedChangeIff(live: Engine, base: Engine)
    ensures Rendered(true, Some(live), false, base) != base <==> Accepts(live) && LacksSomewhere(base)
  {
    AdjustedIffLacking(base);
  }

  /** Some pass from i up to m set the option on the first replica set, and the ones since then show it. */
  ghost predicate SetBefore(passes: seq<Pass>, i: nat, m: nat) {
    && m <= |passes|
    && exists j :: i <= j < m && Accepts(passes[j].base) && forall l :: j < l < m ==> Shows(passes[l].base)
  }

  ghost predicate Unapproved(lives: seq<Option<Engine>>, passes: seq<Pass>, i: nat, k: nat) {
    && Run(lives, passes) && i <= k < |lives|
    && lives[i].Some? && !Accepts(lives[i].value)
    && forall j :: i <= j < k ==> !passes[j].approved
  }

  lemma SetBeforeStep(passes: seq<Pass>, i: nat, m: nat)
    requires i <= m < |passes|
    ensures SetBefore(passes, i, m + 1) <==>
      Accepts(passes[m].base) || (SetBefore(passes, i, m) && Shows(passes[m].base))
  {
    if Accepts(passes[m].base) {
      assert SetBefore(passes, i, m + 1);
    } else if SetBefore(passes, i, m) && Shows(passes[m].base) {
      var j :| i <= j < m && Accepts(passes[j].base) && forall l :: j < l < m ==> Shows(passes[l].base);
      assert forall l :: j < l < m + 1 ==> Shows(passes[l].base);
    }
  }

  /** Without approval the live resource shows the option exactly if the user's configurations put it there. */
  lemma {:induction false} LiveShowsIffSet(lives: seq<Option<Engine>>, passes: seq<Pass>, i: nat, k: nat)
    requires Unapproved(lives, passes, i, k)
    ensures lives[k].Some? && (Accepts(lives[k].value) <==> SetBefore(passes, i, k))
  {
    if i < k {
      LiveShowsIffSet(lives, passes, i, k - 1);
      SetBeforeStep(passes, i, k - 1);
      var base := passes[k - 1].base;
      assert lives[k] == Some(Rendered(true, lives[k - 1], false, base));
      if base.replsets != [] {
        OptionSetIffWellShaped(base.replsets[0]);
        assert Adjusted(base).replsets[0] == WithOption(base.replsets[0]);
      }
    }
  }

  /**
   In every run without approval, from an existing cluster without the option,
   a pass renders exactly what is configured unless earlier configurations put
   the option on the live first replica set and some well-shaped component
   lacks it now; and it asks for approval exactly until they did.
   */
  lemma UnchangedUntilApproved(lives: seq<Option<Engine>>, passes: seq<Pass>, i: nat, k: nat)
    requires Unapproved(lives, passes, i, k) && i < k
    ensures lives[k] == Some(passes[k - 1].base) <==>
      !SetBefore(passes, i, k - 1) || !LacksSomewhere(passes[k - 1].base)
    ensures AsksApproval(true, lives[k - 1]) <==> !SetBefore(passes, i, k - 1)
  {
    LiveShowsIffSet(lives, passes, i, k - 1);
    UnapprovedChangeIff(lives[k - 1].value, passes[k - 1].base);
    assert lives[k] == Some(Rendered(true, lives[k - 1], passes[k - 1].approved, passes[k - 1].base));
  }

  /** With well-shaped configurations, it is enough that one earlier pass set the option. */
  lemma SetOnceIsSet(passes: seq<Pass>, i: nat, m: nat)
    requires m <= |passes| && forall j :: i <= j < m ==> Proper(passes[j].base)
    ensures SetBefore(passes, i, m) <==> exists j :: i <= j < m && Accepts(passes[j].base)
  {
    if j :| i <= j < m && Accepts(passes[j].base) {
      assert forall l :: j < l < m ==> Shows(passes[l].base);
    }
  }

  const EMPTY := Tree(map[])
  const REFUSING := Tree(map[NET := Mapping(map[TLS := Mapping(map[ALLOW := Plain("false")])])])

  /**
   The gate fails for a user who refuses such clients on the replica sets of a
   sharded cluster: config server and mongos are made to accept them two passes
   later, with nothing approved and nothing asked for.
   */
  lemma OptionSpreadsWithoutApproval() returns (lives: seq<Option<Engine>>, passes: seq<Pass>)
    ensures Unapproved(lives, passes, 0, 2) && |passes| == 2 && passes[0].base == passes[1].base
    ensures lives[0].Some? && forall c :: c in lives[0].value.replsets ==> !HasOption(c)
    ensures lives[1] == Some(passes[0].base) && !AsksApproval(true, lives[1])
    ensures lives[2].Some? && lives[2].value.replsets == passes[1].base.replsets
    ensures var before, after := passes[1].base.sharding, lives[2].value.sharding;
            && before == Some(Sharding(EMPTY, EMPTY)) && after.Some?
            && Setting(after.value.configServer) == Setting(after.value.mongos) == Some(Plain("true"))
  {
    var sharding := Some(Sharding(EMPTY, EMPTY));
    var before, base := Engine([EMPTY], sharding), Engine([REFUSING], sharding);
    passes := [Pass(base, false), Pass(base, false)];
    lives := [Some(before), Some(base), Some(Adjusted(base))];
    assert Submap(REFUSING.root, NET) == map[TLS := Mapping(map[ALLOW := Plain("false")])];
    assert HasOption(REFUSING);
    AddingOptionIsIdempotent(REFUSING);
    AddedOptionIsTrue(EMPTY);
    SettingIs(EMPTY);
  }

  // ------------------------------------------------------------------
  // Once set
  // ------------------------------------------------------------------

  /**
   Once the live cluster has the option on its first replica set, every later
   rendering has it on every component, shards added later included, and no
   approval is asked for again.
   */
  lemma {:induction false} StaysOnceLive(lives: seq<Option<Engine>>, passes: seq<Pass>, i: nat, k: nat)
    requires Run(lives, passes) && i < k < |lives|
    requires lives[i].Some? && Accepts(lives[i].value)
    requires forall j :: i <= j < k ==> Proper(passes[j].base)
    ensures lives[k].Some? && AcceptsEverywhere(lives[k].value)
    ensures AllowsEverywhere(passes[k - 1].base, lives[k].value)
    ensures !AsksApproval(true, lives[k])
  {
    if i < k - 1 {
      StaysOnceLive(lives, passes, i, k - 1);
    }
    AdjustedAcceptsEverywhere(passes[k - 1].base);
    AdjustedAllowsEverywhere(passes[k - 1].base);
  }

  /** A new cluster, and an approved one, gets the option on every component at once, without or with one approval. */
  lemma CreationOrApprovalSetsIt(lives: seq<Option<Engine>>, passes: seq<Pass>, k: nat)
    requires Run(lives, passes) && k < |passes| && Proper(passes[k].base)
    requires lives[k].None? || passes[k].approved
    ensures lives[k + 1].Some? && AcceptsEverywhere(lives[k + 1].value) && Accepts(lives[k + 1].value)
    ensures AllowsEverywhere(passes[k].base, lives[k + 1].value)
    ensures lives[k].None? ==> !AsksApproval(true, lives[k])
  {
    AdjustedAcceptsEverywhere(passes[k].base);
    AdjustedAllowsEverywhere(passes[k].base);
  }
}
