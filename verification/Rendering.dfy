/**
 What validation accepts (internal/provider/validate.go) renders above the
 operator's minimums with an odd number of voters
 (internal/provider/replsets.go, internal/provider/hidden.go), for engine and
 hidden members alike. Quantities are in thousandths of their unit.
 */
module Rendering {
  import opened Text

  datatype Name = Cpu | Memory | Other(name: string)

  type Quantities = map<Name, int>

  datatype Resources = Resources(limits: Option<Quantities>, requests: Option<Quantities>)

  datatype Storage = Storage(size: int, storageClass: Option<string>)

  /** A component; service is the type of the Service it asks for. */
  datatype Component = Component(
    replicas: Option<Int32>, storage: Option<Storage>, resources: Option<Resources>, service: Option<string>)

  /** The components of a replica set Instance. */
  datatype Components = Components(engine: Option<Component>, hidden: Option<Component>)

  const MIN_STORAGE := 1_073_741_824_000
  const DEFAULT_STORAGE := 10_737_418_240_000
  const MIN_CPU := 600
  const MIN_MEMORY := 536_870_912_000
  const MAX_VOTING_MEMBERS := 7
  const SERVICE_TYPES := ["ClusterIP", "LoadBalancer", "NodePort"]
  const MIN_LIMITS: seq<(Name, int)> := [(Cpu, MIN_CPU), (Memory, MIN_MEMORY)]

  /** Go's int32 addition. */
  function Add32(a: Int32, b: Int32): Int32 {
    var sum := a + b;
    if sum > 0x7FFF_FFFF then sum - 0x1_0000_0000
    else if sum < -0x8000_0000 then sum + 0x1_0000_0000
    else sum
  }

  /** Looking a name up in a possibly nil list; a missing entry is zero. */
  function Get(list: Option<Quantities>, name: Name): int {
    if list.Some? && name in list.value then list.value[name] else 0
  }

  predicate Has(list: Option<Quantities>, name: Name) {
    list.Some? && name in list.value
  }

  /** The requested value, or the default where none is requested; zero when neither is set. */
  function Preferred(requested: Option<Quantities>, defaults: Option<Quantities>, name: Name): int {
    if Get(requested, name) != 0 then Get(requested, name) else Get(defaults, name)
  }

  // ------------------------------------------------------------------
  // Validation
  // ------------------------------------------------------------------

  datatype Problem = EngineMissing | ReplicasMissing | ReplicasNotOdd | StorageMissing | StorageTooSmall
                   | LimitsMissing | LimitMissing(name: Name) | LimitTooSmall(name: Name) | TooManyVoters
                   | ServiceNotSupported

  predicate LimitsAccepted(resources: Option<Resources>) {
    && resources.Some? && resources.value.limits.Some?
    && forall k :: 0 <= k < |MIN_LIMITS| ==> LimitMet(resources.value.limits, k)
  }

  predicate LimitMet(limits: Option<Quantities>, k: nat)
    requires k < |MIN_LIMITS|
  {
    Has(limits, MIN_LIMITS[k].0) && Get(limits, MIN_LIMITS[k].0) >= MIN_LIMITS[k].1
  }

  method ValidateLimits(resources: Option<Resources>) returns (errs: seq<Problem>)
    ensures errs == [] <==> LimitsAccepted(resources)
    ensures errs == [] <==>
      && resources.Some? && resources.value.limits.Some?
      && Has(resources.value.limits, Cpu) && resources.value.limits.value[Cpu] >= 600
      && Has(resources.value.limits, Memory) && resources.value.limits.value[Memory] >= 512 * 1024 * 1024 * 1000
  {
    if resources.None? || resources.value.limits.None? {
      return [LimitsMissing];
    }
    var limits := resources.value.limits.value;
    errs := [];
    for i := 0 to |MIN_LIMITS|
      invariant errs == [] <==> forall k :: 0 <= k < i ==> LimitMet(Some(limits), k)
    {
      var (name, min) := MIN_LIMITS[i];
      assert LimitMet(Some(limits), i) <==> name in limits && limits[name] >= min;
      if name !in limits {
        errs := errs + [LimitMissing(name)];
      } else if limits[name] < min {
        errs := errs + [LimitTooSmall(name)];
      }
    }
    assert LimitsAccepted(resources) <==> LimitMet(Some(limits), 0) && LimitMet(Some(limits), 1);
  }

  predicate ServiceAccepted(service: Option<string>) {
    service.Some? ==> service.value in SERVICE_TYPES
  }

  method ValidateService(service: Option<string>) returns (errs: seq<Problem>)
    ensures errs == [] <==> service.None? || service.value in {"ClusterIP", "LoadBalancer", "NodePort"}
    ensures errs == [] <==> ServiceAccepted(service)
  {
    if service.None? {
      return [];
    }
    for i := 0 to |SERVICE_TYPES|
      invariant service.value !in SERVICE_TYPES[..i]
    {
      if service.value == SERVICE_TYPES[i] {
        return [];
      }
    }
    assert SERVICE_TYPES[..|SERVICE_TYPES|] == SERVICE_TYPES;
    return [ServiceNotSupported];
  }

  predicate EngineAccepted(c: Components) {
    && c.engine.Some?
    && c.engine.value.replicas.Some? && c.engine.value.replicas.value >= 1 && c.engine.value.replicas.value % 2 == 1
    && c.engine.value.storage.Some? && c.engine.value.storage.value.size >= MIN_STORAGE
    && LimitsAccepted(c.engine.value.resources)
    && ServiceAccepted(c.engine.value.service)
  }

  method ValidateEngine(c: Components) returns (errs: seq<Problem>)
    ensures errs == [] <==> EngineAccepted(c)
    ensures errs == [] <==>
      && c.engine.Some?
      && c.engine.value.replicas.Some? && c.engine.value.replicas.value > 0 && c.engine.value.replicas.value % 2 != 0
      && c.engine.value.storage.Some? && c.engine.value.storage.value.size >= 1024 * 1024 * 1024 * 1000
      && LimitsAccepted(c.engine.value.resources) && ServiceAccepted(c.engine.value.service)
  {
    if c.engine.None? {
      return [EngineMissing];
    }
    var engine := c.engine.value;
    errs := [];
    if engine.replicas.None? {
      errs := errs + [ReplicasMissing];
    } else if engine.replicas.value < 1 || engine.replicas.value % 2 == 0 {
      errs := errs + [ReplicasNotOdd];
    }
    if engine.storage.None? {
      errs := errs + [StorageMissing];
    } else if engine.storage.value.size < MIN_STORAGE {
      errs := errs + [StorageTooSmall];
    }
    var limits := ValidateLimits(engine.resources);
    var service := ValidateService(engine.service);
    errs := errs + limits + service;
  }

  predicate HiddenAccepted(c: Components) {
    c.hidden.Some? && c.hidden.value.replicas.Some? ==>
      && (c.engine.Some? && c.engine.value.replicas.Some? ==>
            Add32(c.engine.value.replicas.value, c.hidden.value.replicas.value) <= MAX_VOTING_MEMBERS)
      && (c.hidden.value.storage.Some? && c.hidden.value.storage.value.size != 0 ==>
            c.hidden.value.storage.value.size >= MIN_STORAGE)
      && (c.hidden.value.resources.Some? ==>
            forall k :: 0 <= k < |MIN_LIMITS| ==> LimitUnsetOrMet(c.hidden.value.resources.value.limits, k))
  }

  predicate LimitUnsetOrMet(limits: Option<Quantities>, k: nat)
    requires k < |MIN_LIMITS|
  {
    Get(limits, MIN_LIMITS[k].0) == 0 || LimitMet(limits, k)
  }

  method ValidateHidden(c: Components) returns (errs: seq<Problem>)
    ensures errs == [] <==> HiddenAccepted(c)
    ensures c.hidden.None? || c.hidden.value.replicas.None? ==> errs == []
    ensures c.hidden.Some? && c.hidden.value.replicas.Some? ==>
      var hidden, engine := c.hidden.value, c.engine;
      && (TooManyVoters in errs <==>
            engine.Some? && engine.value.replicas.Some?
            && Add32(engine.value.replicas.value, hidden.replicas.value) > 7)
      && (StorageTooSmall in errs <==>
            hidden.storage.Some? && hidden.storage.value.size != 0
            && hidden.storage.value.size < 1024 * 1024 * 1024 * 1000)
      && (LimitTooSmall(Cpu) in errs <==>
            hidden.resources.Some? && Get(hidden.resources.value.limits, Cpu) != 0
            && Get(hidden.resources.value.limits, Cpu) < 600)
      && (LimitTooSmall(Memory) in errs <==>
            hidden.resources.Some? && Get(hidden.resources.value.limits, Memory) != 0
            && Get(hidden.resources.value.limits, Memory) < 512 * 1024 * 1024 * 1000)
  {
    errs := [];
    if c.hidden.None? || c.hidden.value.replicas.None? {
      return;
    }
    var hidden := c.hidden.value;
    if c.engine.Some? && c.engine.value.replicas.Some? {
      var voting := Add32(c.engine.value.replicas.value, hidden.replicas.value);
      if voting > MAX_VOTING_MEMBERS {
        errs := errs + [TooManyVoters];
      }
    }
    if hidden.storage.Some? && hidden.storage.value.size != 0 && hidden.storage.value.size < MIN_STORAGE {
      errs := errs + [StorageTooSmall];
    }
    if hidden.resources.Some? {
      var limits := hidden.resources.value.limits;
      var before := errs;
      for i := 0 to |MIN_LIMITS|
        invariant errs == [] <==> before == [] && forall k :: 0 <= k < i ==> LimitUnsetOrMet(limits, k)
        invariant forall e :: e in before ==> e in errs
        invariant forall e :: e in errs && e !in before ==> e in {LimitTooSmall(Cpu), LimitTooSmall(Memory)}
        invariant LimitTooSmall(Cpu) in errs <==> i > 0 && !LimitUnsetOrMet(limits, 0)
        invariant LimitTooSmall(Memory) in errs <==> i > 1 && !LimitUnsetOrMet(limits, 1)
      {
        var (name, min) := MIN_LIMITS[i];
        assert LimitUnsetOrMet(limits, i) <==> Get(limits, name) == 0 || limits.value[name] >= min;
        if Has(limits, name) && limits.value[name] != 0 && limits.value[name] < min {
          errs := errs + [LimitTooSmall(name)];
        }
      }
    }
  }

  // ------------------------------------------------------------------
  // Rendering
  // ------------------------------------------------------------------

  /** Keeps what is set of CPU and memory. */
  function KeepSet(list: Option<Quantities>): Quantities {
    map name | name in {Cpu, Memory} && Get(list, name) != 0 :: Get(list, name)
  }

  function LimitsOf(resources: Option<Resources>): Option<Quantities> {
    if resources.Some? then resources.value.limits else None
  }

  function RequestsOf(resources: Option<Resources>): Option<Quantities> {
    if resources.Some? then resources.value.requests else None
  }

  /** Limits are always a list, requests only if there was one. */
  function MongodResources(resources: Option<Resources>): Resources {
    Resources(Some(KeepSet(LimitsOf(resources))),
              if RequestsOf(resources).None? then None else Some(KeepSet(RequestsOf(resources))))
  }

  function MongodVolume(storage: Option<Storage>): Storage {
    match storage
    case None => Storage(DEFAULT_STORAGE, None)
    case Some(s) => Storage(if s.size != 0 then s.size else DEFAULT_STORAGE, s.storageClass)
  }

  function HiddenStorage(engine: Option<Storage>, hidden: Option<Storage>): Option<Storage> {
    if hidden.None? then engine
    else if engine.None? then hidden
    else Some(Storage(if hidden.value.size == 0 then engine.value.size else hidden.value.size,
                      if hidden.value.storageClass.None? then engine.value.storageClass else hidden.value.storageClass))
  }

  /** CPU and memory left at zero are taken from the other list, where it has them. */
  function Filled(into: Option<Quantities>, from: Option<Quantities>, names: seq<Name>): Option<Quantities> {
    if names == [] then into
    else
      var name, before := names[|names| - 1], Filled(into, from, names[..|names| - 1]);
      if !Has(from, name) || Get(before, name) != 0 then before
      else Some((if before.Some? then before.value else map[])[name := from.value[name]])
  }

  const NAMES := [Cpu, Memory]

  /** The fill loop of hiddenResources. */
  method Fill(into: Option<Quantities>, from: Option<Quantities>) returns (out: Option<Quantities>)
    ensures out == Filled(into, from, NAMES)
    ensures forall name :: name in NAMES ==> Get(out, name) == Preferred(into, from, name)
    ensures forall name :: name !in NAMES ==> Get(out, name) == Get(into, name)
  {
    out := into;
    for i := 0 to |NAMES|
      invariant out == Filled(into, from, NAMES[..i])
    {
      assert NAMES[..i + 1][..i] == NAMES[..i];
      var name := NAMES[i];
      if !Has(from, name) || Get(out, name) != 0 {
        continue;
      }
      if out.None? {
        out := Some(map[]);
      }
      out := Some(out.value[name := from.value[name]]);
    }
    assert NAMES[..2] == NAMES;
    FilledFallsBack(into, from);
  }

  /** Field by field: the own value where set, else the other's; nothing but CPU and memory is touched. */
  lemma FilledFallsBack(into: Option<Quantities>, from: Option<Quantities>)
    ensures var out := Filled(into, from, NAMES);
            forall name :: Get(out, name) == if name in NAMES then Preferred(into, from, name) else Get(into, name)
  {
    assert NAMES[..1] == [Cpu] && [Cpu][..0] == [];
    assert Filled(into, from, []) == into;
    var one := Filled(into, from, [Cpu]);
    assert Filled(into, from, NAMES) == Filled(into, from, [Cpu, Memory]);
    assert forall name :: Get(one, name) == if name == Cpu then Preferred(into, from, name) else Get(into, name);
  }

  function HiddenResources(engine: Option<Resources>, hidden: Option<Resources>): Option<Resources> {
    if hidden.None? then engine
    else if engine.None? then hidden
    else Some(Resources(Filled(hidden.value.limits, engine.value.limits, NAMES),
                        Filled(hidden.value.requests, engine.value.requests, NAMES)))
  }

  /** A rendered set of mongod members. */
  datatype Members = Members(size: int, resources: Resources, volume: Storage)

  datatype Replset = Replset(engine: Members, hidden: Option<Members>)

  /** held: the hidden start is held back. liveClass: the class running hidden members keep. */
  function RenderReplset(c: Components, held: bool, liveClass: Option<Option<string>>): Replset
    requires c.engine.Some?
  {
    var engine := c.engine.value;
    var size: int := if engine.replicas.Some? then engine.replicas.value else 3;
    var members := Members(size, MongodResources(engine.resources), MongodVolume(engine.storage));
    if c.hidden.None? || c.hidden.value.replicas.None? || c.hidden.value.replicas.value <= 0 || held
    then Replset(members, None)
    else
      var hidden := c.hidden.value;
      var volume := MongodVolume(HiddenStorage(engine.storage, hidden.storage));
      Replset(members, Some(Members(hidden.replicas.value,
                                    MongodResources(HiddenResources(engine.resources, hidden.resources)),
                                    if liveClass.Some? then volume.(storageClass := liveClass.value) else volume)))
  }

  function Voters(rs: Replset): int {
    rs.engine.size + if rs.hidden.Some? then rs.hidden.value.size else 0
  }

  // ------------------------------------------------------------------
  // Validation implies rendering
  // ------------------------------------------------------------------

  /** The topology's schema: hidden replicas, where set, are even and at least two. */
  predicate SchemaAccepted(c: Components) {
    c.hidden.Some? && c.hidden.value.replicas.Some? ==>
      c.hidden.value.replicas.value >= 2 && c.hidden.value.replicas.value % 2 == 0
  }

  predicate Accepted(c: Components) {
    SchemaAccepted(c) && EngineAccepted(c) && HiddenAccepted(c)
  }

  predicate AboveMinimums(m: Members) {
    && Get(m.resources.limits, Cpu) >= MIN_CPU
    && Get(m.resources.limits, Memory) >= MIN_MEMORY
    && m.volume.size >= MIN_STORAGE
  }

  lemma EngineLimits(c: Components)
    requires EngineAccepted(c)
    ensures var limits := c.engine.value.resources.value.limits;
            Has(limits, Cpu) && Get(limits, Cpu) >= MIN_CPU && Has(limits, Memory) && Get(limits, Memory) >= MIN_MEMORY
  {
    var limits := c.engine.value.resources.value.limits;
    assert LimitMet(limits, 0) && LimitMet(limits, 1);
  }

  lemma HiddenLimits(c: Components)
    requires EngineAccepted(c) && HiddenAccepted(c) && c.hidden.Some? && c.hidden.value.replicas.Some?
    ensures var merged := HiddenResources(c.engine.value.resources, c.hidden.value.resources);
            merged.Some? && Get(merged.value.limits, Cpu) >= MIN_CPU && Get(merged.value.limits, Memory) >= MIN_MEMORY
  {
    EngineLimits(c);
    var hidden := c.hidden.value.resources;
    if hidden.Some? {
      assert LimitUnsetOrMet(hidden.value.limits, 0) && LimitUnsetOrMet(hidden.value.limits, 1);
      FilledFallsBack(hidden.value.limits, c.engine.value.resources.value.limits);
    }
  }

  /** What mongod members are given of CPU and memory is what the resources ask for. */
  lemma MongodResourcesKeep(resources: Option<Resources>, name: Name)
    requires name in NAMES
    ensures Get(MongodResources(resources).limits, name) == Get(LimitsOf(resources), name)
    ensures Get(MongodResources(resources).requests, name) == Get(RequestsOf(resources), name)
  {
  }

  lemma HiddenResourcesFallBack(engine: Option<Resources>, hidden: Option<Resources>, name: Name)
    requires name in NAMES
    ensures Get(LimitsOf(HiddenResources(engine, hidden)), name) == Preferred(LimitsOf(hidden), LimitsOf(engine), name)
    ensures Get(RequestsOf(HiddenResources(engine, hidden)), name)
            == Preferred(RequestsOf(hidden), RequestsOf(engine), name)
  {
    FilledFallsBack(LimitsOf(hidden), LimitsOf(engine));
    FilledFallsBack(RequestsOf(hidden), RequestsOf(engine));
  }

  /** Hidden members get their own resources and storage where set, the engine's otherwise, and keep a live class. */
  lemma HiddenRendersFieldByField(c: Components, liveClass: Option<Option<string>>)
    requires Accepted(c) && c.hidden.Some? && c.hidden.value.replicas.Some?
    ensures var engine, hidden := c.engine.value, c.hidden.value;
            var rendered := RenderReplset(c, false, liveClass).hidden.value;
            && rendered.size == hidden.replicas.value
            && (forall name :: name in NAMES ==>
                  && Get(rendered.resources.limits, name)
                     == Preferred(LimitsOf(hidden.resources), LimitsOf(engine.resources), name)
                  && Get(rendered.resources.requests, name)
                     == Preferred(RequestsOf(hidden.resources), RequestsOf(engine.resources), name))
            && rendered.volume.size == (if hidden.storage.Some? && hidden.storage.value.size != 0
                                        then hidden.storage.value.size else engine.storage.value.size)
            && rendered.volume.storageClass ==
                 (if liveClass.Some? then liveClass.value
                  else if hidden.storage.Some? && hidden.storage.value.storageClass.Some?
                  then hidden.storage.value.storageClass else engine.storage.value.storageClass)
  {
    var engine, hidden := c.engine.value.resources, c.hidden.value.resources;
    var rendered := RenderReplset(c, false, liveClass).hidden.value;
    assert rendered.resources == MongodResources(HiddenResources(engine, hidden));
    forall name | name in NAMES
      ensures Get(rendered.resources.limits, name) == Preferred(LimitsOf(hidden), LimitsOf(engine), name)
      ensures Get(rendered.resources.requests, name) == Preferred(RequestsOf(hidden), RequestsOf(engine), name)
    {
      MongodResourcesKeep(HiddenResources(engine, hidden), name);
      HiddenResourcesFallBack(engine, hidden, name);
    }
  }

  /**
   Requests are not lowered to limits: the hidden members' rendered request fits
   its limit exactly when the request and the limit that each fall back on their
   own happen to fit.
   */
  lemma HiddenRequestFitsIff(c: Components, liveClass: Option<Option<string>>, name: Name)
    requires Accepted(c) && c.hidden.Some? && c.hidden.value.replicas.Some? && name in NAMES
    ensures var engine, hidden := c.engine.value.resources, c.hidden.value.resources;
            var rendered := RenderReplset(c, false, liveClass).hidden.value.resources;
            Get(rendered.requests, name) <= Get(rendered.limits, name) <==>
              Preferred(RequestsOf(hidden), RequestsOf(engine), name)
              <= Preferred(LimitsOf(hidden), LimitsOf(engine), name)
  {
    HiddenRendersFieldByField(c, liveClass);
  }

  /** Accepted components whose hidden members have a limit of their own below the engine's request. */
  lemma HiddenFallbackCanExceedLimit() returns (c: Components)
    ensures Accepted(c) && c.hidden.Some? && c.hidden.value.replicas.Some?
    ensures var rendered := RenderReplset(c, false, None).hidden.value.resources;
            Get(rendered.requests, Cpu) > Get(rendered.limits, Cpu) >= MIN_CPU
  {
    var engine := Resources(Some(map[Cpu := 2000, Memory := MIN_MEMORY]), Some(map[Cpu := 2000]));
    var hidden := Resources(Some(map[Cpu := MIN_CPU]), None);
    c := Components(Some(Component(Some(3), Some(Storage(MIN_STORAGE, None)), Some(engine), None)),
                    Some(Component(Some(2), None, Some(hidden), None)));
    assert Cpu in NAMES;
    HiddenRendersFieldByField(c, None);
  }

  /** CPU and memory as asked for, and no other resource. */
  ghost predicate OnlyAsked(rendered: Option<Quantities>, asked: Option<Quantities>) {
    && (forall name :: Has(rendered, name) ==> name in {Cpu, Memory} && Get(rendered, name) != 0)
    && Get(rendered, Cpu) == Get(asked, Cpu) && Get(rendered, Memory) == Get(asked, Memory)
  }

  /**
   The engine's members render as asked for: their number, three if unset; their
   storage, 10Gi if unset, and its class; their CPU and memory, with requests
   only if there were any. The hidden members are left out exactly if none are
   asked for or their start is held back.
   */
  lemma EngineRendersAsAsked(c: Components, held: bool, liveClass: Option<Option<string>>)
    requires c.engine.Some?
    ensures var engine, rendered := c.engine.value, RenderReplset(c, held, liveClass).engine;
            && rendered.size == (if engine.replicas.Some? then engine.replicas.value else 3)
            && rendered.volume.size == (if engine.storage.Some? && engine.storage.value.size != 0
                                        then engine.storage.value.size else 10 * 1024 * 1024 * 1024 * 1000)
            && rendered.volume.storageClass
               == (if engine.storage.Some? then engine.storage.value.storageClass else None)
            && rendered.resources.limits.Some? && OnlyAsked(rendered.resources.limits, LimitsOf(engine.resources))
            && (rendered.resources.requests.Some? <==>
                  engine.resources.Some? && engine.resources.value.requests.Some?)
            && OnlyAsked(rendered.resources.requests, RequestsOf(engine.resources))
    ensures RenderReplset(c, held, liveClass).hidden.None? <==>
      held || c.hidden.None? || c.hidden.value.replicas.None? || c.hidden.value.replicas.value <= 0
  {
    var resources := c.engine.value.resources;
    assert Cpu in NAMES && Memory in NAMES;
    MongodResourcesKeep(resources, Cpu);
    MongodResourcesKeep(resources, Memory);
  }

  /** Whatever is accepted renders every member above the minimums, whether or not the hidden start is held back. */
  lemma AcceptedRendersAboveMinimums(c: Components, held: bool, liveClass: Option<Option<string>>)
    requires Accepted(c)
    ensures var rs := RenderReplset(c, held, liveClass);
            AboveMinimums(rs.engine) && (rs.hidden.Some? ==> AboveMinimums(rs.hidden.value))
  {
    EngineLimits(c);
    assert Cpu in NAMES && Memory in NAMES;
    if c.hidden.Some? && c.hidden.value.replicas.Some? {
      HiddenLimits(c);
    }
  }

  /** The number of voters is odd, in both phases of a start. */
  lemma AcceptedRendersOddVoters(c: Components, held: bool, liveClass: Option<Option<string>>)
    requires Accepted(c)
    ensures Voters(RenderReplset(c, held, liveClass)) % 2 == 1
  {
  }

  /**
   With hidden members asked for, the voter limit holds exactly as far as the
   two counts add up within 32 bits: beyond, the wrapped sum hides any excess.
   */
  lemma VoterLimitHoldsWithoutOverflow(c: Components, held: bool, liveClass: Option<Option<string>>)
    requires Accepted(c) && c.hidden.Some? && c.hidden.value.replicas.Some?
    ensures var sum := c.engine.value.replicas.value + c.hidden.value.replicas.value;
            && (sum <= 0x7FFF_FFFF <==> sum <= MAX_VOTING_MEMBERS)
            && (sum <= 0x7FFF_FFFF ==> Voters(RenderReplset(c, held, liveClass)) <= MAX_VOTING_MEMBERS)
            && Voters(RenderReplset(c, false, liveClass)) == sum
  {
  }

  /** The overflow is reachable: accepted components with far more than seven voters. */
  lemma OverflowIsAccepted(engine: Component, hidden: Component)
    requires EngineAccepted(Components(Some(engine), None))
    requires hidden == Component(Some(2), None, None, None)
    ensures var c := Components(Some(engine.(replicas := Some(0x7FFF_FFFF))), Some(hidden));
            Accepted(c) && Voters(RenderReplset(c, false, None)) > MAX_VOTING_MEMBERS
  {
  }
}
