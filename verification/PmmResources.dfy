/**
 The resources of the PMM client (internal/provider/pmm.go): requested values
 over size-tier defaults, with default requests lowered to the limit.
 */
module PmmResources {
  import opened Text
  import opened Rendering

  method MergeResourceList(requested: Option<Quantities>, defaults: Option<Quantities>)
    returns (merged: Option<Quantities>)
    ensures merged.Some? ==> merged.value != map[] && merged.value.Keys <= {Cpu, Memory}
    ensures forall name :: name in NAMES ==>
      && Get(merged, name) == Preferred(requested, defaults, name)
      && Get(merged, name) == (if Get(requested, name) != 0 then Get(requested, name) else Get(defaults, name))
      && (Has(merged, name) <==> Get(requested, name) != 0 || Get(defaults, name) != 0)
  {
    var list: Quantities := map[];
    for i := 0 to |NAMES|
      invariant list.Keys <= {Cpu, Memory}
      invariant forall k :: 0 <= k < i ==>
        && (NAMES[k] in list <==> Preferred(requested, defaults, NAMES[k]) != 0)
        && (NAMES[k] in list ==> list[NAMES[k]] == Preferred(requested, defaults, NAMES[k]))
      invariant forall k :: i <= k < |NAMES| ==> NAMES[k] !in list
    {
      var name := NAMES[i];
      if Has(requested, name) && requested.value[name] != 0 {
        list := list[name := requested.value[name]];
      } else if Has(defaults, name) && defaults.value[name] != 0 {
        list := list[name := defaults.value[name]];
      }
    }
    if list == map[] {
      return None;
    }
    return Some(list);
  }

  /** The caller asked for more than its own limit, or the default one, allows. */
  predicate Overrequested(requested: Resources, defaults: Resources, name: Name) {
    var limit := Preferred(requested.limits, defaults.limits, name);
    Get(requested.requests, name) != 0 && limit != 0 && Get(requested.requests, name) > limit
  }

  /** A default request is lowered to the limit. */
  function Request(requested: Resources, defaults: Resources, name: Name): int {
    var request := Preferred(requested.requests, defaults.requests, name);
    var limit := Preferred(requested.limits, defaults.limits, name);
    if request != 0 && limit != 0 && request > limit then limit else request
  }

  method MergeResources(requested: Resources, defaults: Resources) returns (r: Result<Resources>)
    ensures r.Failure? <==> Overrequested(requested, defaults, Cpu) || Overrequested(requested, defaults, Memory)
    ensures r.Success? <==> forall name :: name in {Cpu, Memory} ==>
      var own, request := Get(requested.limits, name), Get(requested.requests, name);
      var limit := if own != 0 then own else Get(defaults.limits, name);
      request == 0 || limit == 0 || request <= limit
    ensures r.Success? ==> forall name :: name in NAMES ==>
      var own, request := Get(requested.limits, name), Get(requested.requests, name);
      var limit := if own != 0 then own else Get(defaults.limits, name);
      && Get(r.value.limits, name) == limit
      && Get(r.value.requests, name) ==
           (if request != 0 then request
            else if 0 != limit < Get(defaults.requests, name) && Get(defaults.requests, name) != 0 then limit
            else Get(defaults.requests, name))
    ensures r.Success? ==> forall name :: name in NAMES ==>
      && Get(r.value.limits, name) == Preferred(requested.limits, defaults.limits, name)
      && Get(r.value.requests, name) == Request(requested, defaults, name)
      && (Has(r.value.limits, name) && Has(r.value.requests, name) ==>
            Get(r.value.requests, name) <= Get(r.value.limits, name))
  {
    var requests := MergeResourceList(requested.requests, defaults.requests);
    var limits := MergeResourceList(requested.limits, defaults.limits);
    assert Cpu in NAMES && Memory in NAMES;
    for i := 0 to |NAMES|
      invariant forall k :: 0 <= k < i ==> !Overrequested(requested, defaults, NAMES[k])
      invariant forall k :: 0 <= k < |NAMES| ==>
        && (Has(requests, NAMES[k]) <==> Preferred(requested.requests, defaults.requests, NAMES[k]) != 0)
        && Get(requests, NAMES[k]) == if k < i then Request(requested, defaults, NAMES[k])
                                      else Preferred(requested.requests, defaults.requests, NAMES[k])
    {
      var name := NAMES[i];
      if !Has(requests, name) || !Has(limits, name) || requests.value[name] <= limits.value[name] {
        continue;
      }
      if Has(requested.requests, name) && requested.requests.value[name] != 0 {
        return Failure;
      }
      requests := Some(requests.value[name := limits.value[name]]);
    }
    assert NAMES[0] == Cpu && NAMES[1] == Memory;
    return Success(Resources(limits, requests));
  }
}
