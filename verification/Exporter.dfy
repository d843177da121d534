/**
 The metrics exporter sidecar (internal/provider/metrics.go,
 internal/provider/monitoring_sources.go) and its mirroring onto hidden members
 (internal/provider/hidden.go): which components carry it, and how the decision
 is held while the requirement is unresolved.
 */
module Exporter {
  import opened Text
  import opened Requirements

  const EXPORTER := "mongodb-exporter"

  datatype Collectors = MongodCollectors | MongosCollectors

  datatype Sidecar = Sidecar(name: string, collectors: Collectors)

  datatype Hidden = Hidden(enabled: bool, configuration: string, sidecars: seq<Sidecar>)

  datatype Replset = Replset(name: string, configuration: string, sidecars: seq<Sidecar>, hidden: Hidden)

  datatype Sharding = Sharding(configServer: Replset, mongos: seq<Sidecar>)

  datatype Engine = Engine(replsets: seq<Replset>, sharding: Option<Sharding>)

  // ------------------------------------------------------------------
  // Specification
  // ------------------------------------------------------------------

  const FOR_MONGOD := Sidecar(EXPORTER, MongodCollectors)
  const FOR_MONGOS := Sidecar(EXPORTER, MongosCollectors)

  function Observed(rs: Replset): Replset {
    rs.(sidecars := rs.sidecars + [FOR_MONGOD])
  }

  function WithExporter(e: Engine): Engine {
    Engine(seq(|e.replsets|, i requires 0 <= i < |e.replsets| => Observed(e.replsets[i])),
           if e.sharding.Some?
           then Some(Sharding(Observed(e.sharding.value.configServer), e.sharding.value.mongos + [FOR_MONGOS]))
           else None)
  }

  function Mirror(rs: Replset): Replset {
    if rs.hidden.enabled then rs.(hidden := rs.hidden.(configuration := rs.configuration, sidecars := rs.sidecars))
    else rs
  }

  function Mirrored(e: Engine): Engine {
    e.(replsets := seq(|e.replsets|, i requires 0 <= i < |e.replsets| => Mirror(e.replsets[i])))
  }

  function Rendered(base: Engine, required: bool): Engine {
    Mirrored(if required then WithExporter(base) else base)
  }

  /** Some replica set carries the exporter. */
  predicate HasExporter(e: Engine) {
    exists i :: 0 <= i < |e.replsets| && Carries(e.replsets[i].sidecars)
  }

  predicate Carries(sidecars: seq<Sidecar>) {
    exists j :: 0 <= j < |sidecars| && sidecars[j].name == EXPORTER
  }

  // ------------------------------------------------------------------
  // The loops
  // ------------------------------------------------------------------

  method HasMetricsExporter(e: Engine) returns (found: bool)
    ensures found <==> HasExporter(e)
  {
    for i := 0 to |e.replsets|
      invariant forall k :: 0 <= k < i ==> !Carries(e.replsets[k].sidecars)
    {
      var sidecars := e.replsets[i].sidecars;
      for j := 0 to |sidecars|
        invariant forall k :: 0 <= k < j ==> sidecars[k].name != EXPORTER
      {
        if sidecars[j].name == EXPORTER {
          return true;
        }
      }
    }
    return false;
  }

  /** The engine resource under construction. */
  class Draft {
    var replsets: seq<Replset>
    var sharding: Option<Sharding>

    function View(): Engine
      reads this
    {
      Engine(replsets, sharding)
    }

    /** live is the resource as it is now, without replica sets before it exists; image is the pinned exporter image. */
    method ConfigureMetricsExporter(req: Result<Requirement>, live: Result<Engine>, image: Result<string>)
      returns (r: Result<()>)
      modifies this
      ensures r.Failure? ==> unchanged(this)
      ensures r.Success? ==>
        && req.Success? && live.Success?
        && View() == (if Else(req.value, HasExporter(live.value)) then WithExporter(old(View())) else old(View()))
      ensures r.Success? <==>
        && req.Success? && live.Success?
        && (req.value.Required? || (req.value.Pending? && HasExporter(live.value)) ==>
              image.Success? && image.value != "")
    {
      if req.Failure? || live.Failure? {
        return Failure;
      }
      var held := HasMetricsExporter(live.value);
      if !Else(req.value, held) {
        return Success(());
      }
      if image.Failure? || image.value == "" {
        return Failure;
      }
      ghost var base := replsets;
      for i := 0 to |replsets|
        invariant |replsets| == |base| && sharding == old(sharding)
        invariant forall k :: 0 <= k < |base| ==> replsets[k] == if k < i then Observed(base[k]) else base[k]
      {
        replsets := replsets[i := replsets[i].(sidecars := replsets[i].sidecars + [FOR_MONGOD])];
      }
      if sharding.Some? {
        var cfg := sharding.value.configServer;
        cfg := cfg.(sidecars := cfg.sidecars + [FOR_MONGOD]);
        sharding := Some(Sharding(cfg, sharding.value.mongos + [FOR_MONGOS]));
      }
      assert replsets == WithExporter(old(View())).replsets;
      return Success(());
    }

    method MirrorReplsetOntoHidden()
      modifies this
      ensures View() == Mirrored(old(View()))
    {
      ghost var base := replsets;
      for i := 0 to |replsets|
        invariant |replsets| == |base| && sharding == old(sharding)
        invariant forall k :: 0 <= k < |base| ==> replsets[k] == if k < i then Mirror(base[k]) else base[k]
      {
        var rs := replsets[i];
        if !rs.hidden.enabled {
          continue;
        }
        rs := rs.(hidden := rs.hidden.(configuration := rs.configuration));
        rs := rs.(hidden := rs.hidden.(sidecars := rs.sidecars));
        replsets := replsets[i := rs];
      }
      assert replsets == Mirrored(old(View())).replsets;
    }
  }

  // ------------------------------------------------------------------
  // Component by component
  // ------------------------------------------------------------------

  /** A replica set keeps its own, gains the exporter of its kind if required, and hidden members in use copy it. */
  ghost predicate RenderedFrom(before: Replset, after: Replset, required: bool) {
    && after.name == before.name && after.configuration == before.configuration
    && after.sidecars == before.sidecars + (if required then [Sidecar("mongodb-exporter", MongodCollectors)] else [])
    && after.hidden == if before.hidden.enabled then Hidden(true, after.configuration, after.sidecars)
                       else before.hidden
  }

  /** The rendering adds the exporter to every component, with the collectors of its kind, and nothing else. */
  lemma RendersComponents(base: Engine, required: bool)
    ensures var e := Rendered(base, required);
            && |e.replsets| == |base.replsets|
            && (forall i :: 0 <= i < |base.replsets| ==> RenderedFrom(base.replsets[i], e.replsets[i], required))
            && (e.sharding.Some? <==> base.sharding.Some?)
            && (base.sharding.Some? ==>
                  var before, after := base.sharding.value, e.sharding.value;
                  && after.configServer == before.configServer.(sidecars := after.configServer.sidecars)
                  && after.configServer.sidecars == before.configServer.sidecars
                       + (if required then [Sidecar("mongodb-exporter", MongodCollectors)] else [])
                  && after.mongos == before.mongos
                       + (if required then [Sidecar("mongodb-exporter", MongosCollectors)] else []))
  {
  }

  // ------------------------------------------------------------------
  // All components together, or none
  // ------------------------------------------------------------------

  function Count(sidecars: seq<Sidecar>): nat {
    if sidecars == [] then 0
    else Count(sidecars[..|sidecars| - 1]) + if sidecars[|sidecars| - 1].name == EXPORTER then 1 else 0
  }

  /** Rendering starts from at least one replica set, and without sidecars. */
  predicate Bare(e: Engine) {
    && e.replsets != []
    && (forall i :: 0 <= i < |e.replsets| ==> e.replsets[i].sidecars == [] && e.replsets[i].hidden.sidecars == [])
    && (e.sharding.Some? ==> e.sharding.value.configServer.sidecars == [] && e.sharding.value.mongos == [])
  }

  /** Every mongod, hidden mongod, config server and mongos pod carries exactly n exporters. */
  predicate Everywhere(e: Engine, n: nat) {
    && (forall i :: 0 <= i < |e.replsets| ==>
          && Count(e.replsets[i].sidecars) == n
          && (e.replsets[i].hidden.enabled ==> Count(e.replsets[i].hidden.sidecars) == n))
    && (e.sharding.Some? ==> Count(e.sharding.value.configServer.sidecars) == n && Count(e.sharding.value.mongos) == n)
  }

  lemma {:induction false} CountsWhenCarried(sidecars: seq<Sidecar>)
    ensures Carries(sidecars) <==> Count(sidecars) > 0
  {
    if sidecars != [] {
      var n := |sidecars| - 1;
      CountsWhenCarried(sidecars[..n]);
      if sidecars[n].name != EXPORTER && Carries(sidecars) {
        var j :| 0 <= j < |sidecars| && sidecars[j].name == EXPORTER;
        assert sidecars[..n][j].name == EXPORTER;
      }
    }
  }

  lemma CountAppended(sidecar: Sidecar)
    requires sidecar.name == EXPORTER
    ensures Count([]) == 0 && Count([] + [sidecar]) == 1
  {
  }

  lemma RenderedReplset(base: Engine, required: bool, i: nat)
    requires Bare(base) && i < |base.replsets|
    ensures var rs := Rendered(base, required).replsets[i];
            && Count(rs.sidecars) == (if required then 1 else 0)
            && (rs.hidden.enabled ==> rs.hidden.configuration == rs.configuration && rs.hidden.sidecars == rs.sidecars)
            && (Carries(rs.sidecars) <==> required)
  {
  }

  /** A rendered resource carries exactly one exporter on every component, or none on any. */
  lemma OneEverywhereOrNone(base: Engine, required: bool)
    requires Bare(base)
    ensures Everywhere(Rendered(base, required), if required then 1 else 0)
    ensures HasExporter(Rendered(base, required)) <==> required
    ensures required && base.sharding.Some? ==>
      Rendered(base, required).sharding.value.configServer.sidecars == [FOR_MONGOD]
      && Rendered(base, required).sharding.value.mongos == [FOR_MONGOS]
    ensures forall i :: 0 <= i < |base.replsets| ==>
      var rs := Rendered(base, required).replsets[i];
      rs.hidden.enabled ==> rs.hidden.configuration == rs.configuration && rs.hidden.sidecars == rs.sidecars
  {
    forall i | 0 <= i < |base.replsets|
      ensures var rs := Rendered(base, required).replsets[i];
              && Count(rs.sidecars) == (if required then 1 else 0)
              && (rs.hidden.enabled ==>
                    rs.hidden.configuration == rs.configuration && rs.hidden.sidecars == rs.sidecars)
              && (Carries(rs.sidecars) <==> required)
    {
      RenderedReplset(base, required, i);
    }
    CountAppended(FOR_MONGOD);
    CountAppended(FOR_MONGOS);
    assert Carries(Rendered(base, required).replsets[0].sidecars) <==> required;
  }

  /** So any one replica set answers for the whole resource. */
  lemma AnyReplsetDecides(base: Engine, required: bool, i: nat)
    requires Bare(base) && i < |base.replsets|
    ensures var e := Rendered(base, required);
            && (Carries(e.replsets[i].sidecars) <==> HasExporter(e))
            && (HasExporter(e) ==> Everywhere(e, 1)) && (!HasExporter(e) ==> Everywhere(e, 0))
  {
    OneEverywhereOrNone(base, required);
    CountsWhenCarried(Rendered(base, required).replsets[i].sidecars);
  }

  // ------------------------------------------------------------------
  // The hold rule over runs
  // ------------------------------------------------------------------

  /** One Sync pass: the requirement it saw, what it rendered from, and whether it got as far as applying. */
  datatype Pass = Pass(req: Requirement, base: Engine, applied: bool)

  const NO_ENGINE := Engine([], None)

  function LiveAfter(passes: seq<Pass>): Engine {
    if passes == [] then NO_ENGINE
    else
      var live, last := LiveAfter(passes[..|passes| - 1]), passes[|passes| - 1];
      if last.applied then Rendered(last.base, Else(last.req, HasExporter(live))) else live
  }

  /** The last requirement that was resolved at an applied pass; negative before any. */
  function LastDecision(passes: seq<Pass>): bool {
    if passes == [] then false
    else
      var last := passes[|passes| - 1];
      if last.applied && !last.req.Pending? then last.req.Required? else LastDecision(passes[..|passes| - 1])
  }

  /** The live resource remembers the last decision, and shows it on every component. */
  lemma {:induction false} HoldRuleIsMemory(passes: seq<Pass>)
    requires forall k :: 0 <= k < |passes| ==> Bare(passes[k].base)
    ensures HasExporter(LiveAfter(passes)) <==> LastDecision(passes)
    ensures Everywhere(LiveAfter(passes), if LastDecision(passes) then 1 else 0)
  {
    if passes != [] {
      var n := |passes| - 1;
      HoldRuleIsMemory(passes[..n]);
      OneEverywhereOrNone(passes[n].base, Else(passes[n].req, HasExporter(LiveAfter(passes[..n]))));
    }
  }
}
