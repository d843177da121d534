/**
 The volume loop behind hidden members (internal/provider/hidden.go): it works
 on names, and is shown to do what a loop over StatefulSet ordinals would do.
 */
module HiddenVolumes {
  import opened Text

  /** A listed PersistentVolumeClaim: its name, and whether it is being deleted. */
  datatype Claim = Claim(name: string, terminating: bool)

  /** What the loop does with one claim. */
  datatype Verdict = Skip | Keep | Delete

  // ------------------------------------------------------------------
  // Names
  // ------------------------------------------------------------------

  function PodName(statefulSet: string, ordinal: nat): string {
    statefulSet + "-" + Itoa(ordinal)
  }

  function VolumeName(template: string, statefulSet: string, ordinal: nat): string {
    template + "-" + PodName(statefulSet, ordinal)
  }

  /** What follows the last dash. */
  function Trailing(name: string): string {
    name[LastIndex(name, '-') + 1..]
  }

  function TrailingOrdinal(name: string): Option<int> {
    Atoi(Trailing(name))
  }

  lemma VolumeNameSplit(template: string, statefulSet: string, i: nat)
    ensures Trailing(VolumeName(template, statefulSet, i)) == Itoa(i)
  {
    var name := VolumeName(template, statefulSet, i);
    var at := |name| - |Itoa(i)| - 1;
    assert name == template + "-" + statefulSet + "-" + Itoa(i);
    assert name[at] == '-' && name[at + 1..] == Itoa(i);
    forall k | at < k < |name| ensures name[k] != '-' {
      assert name[k] == Itoa(i)[k - at - 1];
    }
    LastIndexUnique(name, '-', at);
  }

  /** The ordinal parsed from a StatefulSet volume name is the one printed into it. */
  lemma OrdinalOfVolume(template: string, statefulSet: string, i: nat)
    requires i <= MAX_INT
    ensures TrailingOrdinal(VolumeName(template, statefulSet, i)) == Some(i)
  {
    VolumeNameSplit(template, statefulSet, i);
    AtoiItoa(i);
  }

  /** The suffix test finds a volume's own pod and no other: 1 and 11 are told apart. */
  lemma SuffixMatchesOwnPod(template: string, statefulSet: string, i: nat, j: nat)
    ensures HasSuffix(VolumeName(template, statefulSet, i), "-" + PodName(statefulSet, j)) <==> i == j
  {
    var name := VolumeName(template, statefulSet, i);
    var suffix := "-" + PodName(statefulSet, j);
    if i == j {
      assert name == template + suffix;
    } else if HasSuffix(name, suffix) {
      var rest := name[..|name| - |suffix|];
      assert name == rest + suffix == VolumeName(rest, statefulSet, j);
      VolumeNameSplit(template, statefulSet, i);
      VolumeNameSplit(rest, statefulSet, j);
      ItoaInjective(i, j);
    }
  }

  // ------------------------------------------------------------------
  // The loop, on names
  // ------------------------------------------------------------------

  predicate InUse(name: string, pods: seq<string>) {
    exists k :: 0 <= k < |pods| && HasSuffix(name, "-" + pods[k])
  }

  function Visit(claim: Claim, pods: seq<string>, keepBelow: int): Verdict {
    match TrailingOrdinal(claim.name)
    case None => Skip
    case Some(ordinal) =>
      if ordinal < keepBelow then Skip
      else if InUse(claim.name, pods) || claim.terminating then Keep
      else Delete
  }

  /** A claim whose name does not end in a dash and a number, signed or not, is none of the loop's business. */
  lemma OtherClaimsAreSkipped(claim: Claim, pods: seq<string>, keepBelow: int)
    requires var text := Trailing(claim.name);
             text == "" || (!AllDigits(text) && (text[0] in {'+', '-'} ==> !AllDigits(text[1..])))
    ensures Visit(claim, pods, keepBelow) == Skip
  {
    var text := Trailing(claim.name);
    ParseNeedsDigits(text);
    if text != "" {
      ParseNeedsDigits(text[1..]);
    }
  }

  /** The loop deletes only what is alive and ends in no listed pod's name. */
  lemma DeletedIsUnused(claim: Claim, pods: seq<string>, keepBelow: int, k: nat)
    requires Visit(claim, pods, keepBelow) == Delete && k < |pods|
    ensures !claim.terminating && !HasSuffix(claim.name, "-" + pods[k])
  {
  }

  /** How the loop judges claims, given the pods listed. */
  function Visitor(pods: seq<string>, keepBelow: int): Claim -> Verdict {
    claim => Visit(claim, pods, keepBelow)
  }

  function Marked(claim: Claim, visit: Claim -> Verdict): Claim {
    if visit(claim).Delete? then claim.(terminating := true) else claim
  }

  /** The claims once the loop has passed the first n of them. */
  function SweptTo(claims: seq<Claim>, visit: Claim -> Verdict, n: nat): (after: seq<Claim>)
    ensures |after| == |claims|
    ensures forall k :: 0 <= k < |claims| ==> after[k] == if k < n then Marked(claims[k], visit) else claims[k]
  {
    seq(|claims|, k requires 0 <= k < |claims| => if k < n then Marked(claims[k], visit) else claims[k])
  }

  function Swept(claims: seq<Claim>, visit: Claim -> Verdict): seq<Claim> {
    SweptTo(claims, visit, |claims|)
  }

  function Remaining(claims: seq<Claim>, visit: Claim -> Verdict): nat {
    if claims == [] then 0
    else
      var last := |claims| - 1;
      Remaining(claims[..last], visit) + if visit(claims[last]).Skip? then 0 else 1
  }

  /** One turn of the loop moves the sweep and the count past one claim. */
  lemma SweepStep(claims: seq<Claim>, visit: Claim -> Verdict, i: nat)
    requires i < |claims|
    ensures var now := SweptTo(claims, visit, i);
            SweptTo(claims, visit, i + 1) ==
              if visit(claims[i]).Delete? then now[i := claims[i].(terminating := true)] else now
    ensures Remaining(claims[..i + 1], visit) == Remaining(claims[..i], visit) + if visit(claims[i]).Skip? then 0 else 1
  {
    assert claims[..i + 1][..i] == claims[..i];
    var now, next := SweptTo(claims, visit, i), SweptTo(claims, visit, i + 1);
    assert forall k :: 0 <= k < |claims| && k != i ==> next[k] == now[k];
    assert now[i] == claims[i] && next[i] == Marked(claims[i], visit);
  }

  /** The loop stopped after some of the claims. */
  ghost predicate SweptInPart(before: seq<Claim>, after: seq<Claim>, visit: Claim -> Verdict) {
    exists n :: 0 <= n <= |before| && after == SweptTo(before, visit, n)
  }

  /** Which calls to the API server fail. */
  datatype Faults = Faults(listClaims: bool, listPods: bool, delete: set<string>)

  /** The hidden members' claims and pods, as the API server holds them. */
  class VolumeStore {
    var claims: seq<Claim>
    var pods: seq<string>

    /** Deletes the unused volumes from ordinal keepBelow up; the result counts those still there. */
    method DeleteHiddenVolumes(keepBelow: int, faults: Faults) returns (r: Result<nat>)
      modifies `claims
      ensures r.Success? ==>
        && r.value == Remaining(old(claims), Visitor(pods, keepBelow))
        && claims == Swept(old(claims), Visitor(pods, keepBelow))
      ensures r.Failure? ==> SweptInPart(old(claims), claims, Visitor(pods, keepBelow))
      ensures r.Success? <==>
        && !faults.listClaims && (old(claims) == [] || !faults.listPods)
        && forall k :: 0 <= k < |old(claims)| ==>
             Visit(old(claims)[k], pods, keepBelow).Delete? ==> old(claims)[k].name !in faults.delete
    {
      if faults.listClaims {
        assert claims == SweptTo(claims, Visitor(pods, keepBelow), 0);
        return Failure;
      }
      if |claims| == 0 {
        return Success(0);
      }
      if faults.listPods {
        assert claims == SweptTo(claims, Visitor(pods, keepBelow), 0);
        return Failure;
      }
      r := Sweep(Visitor(pods, keepBelow), faults.delete);
    }

    /** The loop over the listed claims. */
    method Sweep(visit: Claim -> Verdict, refused: set<string>) returns (r: Result<nat>)
      modifies `claims
      ensures r.Success? ==> r.value == Remaining(old(claims), visit) && claims == Swept(old(claims), visit)
      ensures r.Failure? ==> SweptInPart(old(claims), claims, visit)
      ensures r.Success? <==>
        forall k :: 0 <= k < |old(claims)| ==> visit(old(claims)[k]).Delete? ==> old(claims)[k].name !in refused
    {
      var listed := claims;
      var remaining := 0;
      assert claims == SweptTo(listed, visit, 0);
      for i := 0 to |listed|
        invariant remaining == Remaining(listed[..i], visit)
        invariant claims == SweptTo(listed, visit, i)
        invariant forall k :: 0 <= k < i ==> visit(listed[k]).Delete? ==> listed[k].name !in refused
      {
        SweepStep(listed, visit, i);
        var claim := listed[i];
        var verdict := visit(claim);
        if verdict.Skip? {
          continue;
        }
        remaining := remaining + 1;
        if verdict.Keep? {
          continue;
        }
        if claim.name in refused {
          return Failure;
        }
        claims := claims[i := claim.(terminating := true)];
      }
      assert listed[..|listed|] == listed;
      return Success(remaining);
    }
  }

  // ------------------------------------------------------------------
  // The loop, on ordinals
  // ------------------------------------------------------------------

  /** The claims of one StatefulSet, one per ordinal. */
  ghost predicate ClaimsOf(claims: seq<Claim>, template: string, statefulSet: string, ordinals: seq<nat>) {
    && |claims| == |ordinals|
    && (forall k :: 0 <= k < |claims| ==> claims[k].name == VolumeName(template, statefulSet, ordinals[k]))
    && (forall k :: 0 <= k < |ordinals| ==> ordinals[k] <= MAX_INT)
    && (forall j, k :: 0 <= j < k < |ordinals| ==> ordinals[j] != ordinals[k])
  }

  /** The pods of that StatefulSet, in any order, possibly listed twice. */
  ghost predicate PodsOf(pods: seq<string>, statefulSet: string, running: set<nat>) {
    && (forall k :: 0 <= k < |pods| ==> exists j :: j in running && pods[k] == PodName(statefulSet, j))
    && (forall j :: j in running ==> PodName(statefulSet, j) in pods)
  }

  ghost function From(ordinals: seq<nat>, keepBelow: int): set<nat> {
    set i | i in ordinals && keepBelow <= i
  }

  function VisitOrdinal(i: nat, terminating: bool, running: set<nat>, keepBelow: int): Verdict {
    if i < keepBelow then Skip else if i in running || terminating then Keep else Delete
  }

  /** One turn of the loop decides on the name exactly as it would on the ordinal. */
  lemma VisitRefines(template: string, statefulSet: string, i: nat, terminating: bool,
                     pods: seq<string>, running: set<nat>, keepBelow: int)
    requires i <= MAX_INT
    requires PodsOf(pods, statefulSet, running)
    ensures Visit(Claim(VolumeName(template, statefulSet, i), terminating), pods, keepBelow)
            == VisitOrdinal(i, terminating, running, keepBelow)
  {
    var name := VolumeName(template, statefulSet, i);
    OrdinalOfVolume(template, statefulSet, i);
    if i in running {
      var k :| 0 <= k < |pods| && pods[k] == PodName(statefulSet, i);
      SuffixMatchesOwnPod(template, statefulSet, i, i);
      assert HasSuffix(name, "-" + pods[k]);
    } else if InUse(name, pods) {
      var k :| 0 <= k < |pods| && HasSuffix(name, "-" + pods[k]);
      var j :| j in running && pods[k] == PodName(statefulSet, j);
      SuffixMatchesOwnPod(template, statefulSet, i, j);
    }
  }

  /** Exactly the unused ordinals from keepBelow up are deleted; everything else is untouched. */
  lemma SweepRefinesOrdinals(claims: seq<Claim>, template: string, statefulSet: string, ordinals: seq<nat>,
                             pods: seq<string>, running: set<nat>, keepBelow: int)
    requires ClaimsOf(claims, template, statefulSet, ordinals)
    requires PodsOf(pods, statefulSet, running)
    ensures forall k :: 0 <= k < |claims| ==>
      Swept(claims, Visitor(pods, keepBelow))[k] == Claim(claims[k].name,
        claims[k].terminating || (keepBelow <= ordinals[k] && ordinals[k] !in running))
  {
    forall k | 0 <= k < |claims|
      ensures Swept(claims, Visitor(pods, keepBelow))[k] == Claim(claims[k].name,
        claims[k].terminating || (keepBelow <= ordinals[k] && ordinals[k] !in running))
    {
      VisitRefines(template, statefulSet, ordinals[k], claims[k].terminating, pods, running, keepBelow);
      assert claims[k] == Claim(VolumeName(template, statefulSet, ordinals[k]), claims[k].terminating);
    }
  }

  /** The count returned is the number of ordinals from keepBelow up, deleted in this pass or not. */
  lemma {:induction false} RemainingCountsOrdinals(claims: seq<Claim>, template: string, statefulSet: string,
                                                   ordinals: seq<nat>, pods: seq<string>, running: set<nat>,
                                                   keepBelow: int)
    requires ClaimsOf(claims, template, statefulSet, ordinals)
    requires PodsOf(pods, statefulSet, running)
    ensures Remaining(claims, Visitor(pods, keepBelow)) == |From(ordinals, keepBelow)|
  {
    if claims == [] {
      assert From(ordinals, keepBelow) == {};
    } else {
      var last := |claims| - 1;
      RemainingCountsOrdinals(claims[..last], template, statefulSet, ordinals[..last], pods, running, keepBelow);
      VisitRefines(template, statefulSet, ordinals[last], claims[last].terminating, pods, running, keepBelow);
      assert claims[last] == Claim(VolumeName(template, statefulSet, ordinals[last]), claims[last].terminating);
      CountedSnoc(ordinals, keepBelow);
    }
  }

  lemma CountedSnoc(ordinals: seq<nat>, keepBelow: int)
    requires ordinals != []
    requires forall j, k :: 0 <= j < k < |ordinals| ==> ordinals[j] != ordinals[k]
    ensures var last := |ordinals| - 1;
            |From(ordinals, keepBelow)|
            == |From(ordinals[..last], keepBelow)| + if keepBelow <= ordinals[last] then 1 else 0
  {
    var last := |ordinals| - 1;
    var before, x := From(ordinals[..last], keepBelow), ordinals[last];
    assert ordinals == ordinals[..last] + [x];
    assert x !in before;
    if keepBelow <= x {
      assert From(ordinals, keepBelow) == before + {x};
    } else {
      assert From(ordinals, keepBelow) == before;
    }
  }
}
