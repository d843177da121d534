/**
 The client host list without hidden members (internal/provider/hidden.go,
 withoutHiddenHosts): pod names, and load balancer addresses of their Services,
 are turned into prefixes, and the hosts carrying one are dropped.
 */
module HiddenHosts {
  import opened Text
  import HiddenVolumes

  datatype Ingress = Ingress(ip: string, hostname: string)

  /** What reading a pod's own Service gives. */
  type ServiceRead = Reading<seq<Ingress>>

  datatype Pod = Pod(name: string, service: ServiceRead)

  // ------------------------------------------------------------------
  // Specification: a filter on the split list
  // ------------------------------------------------------------------

  function IngressPrefixes(ingresses: seq<Ingress>): seq<string> {
    if ingresses == [] then []
    else
      var last := ingresses[|ingresses| - 1];
      IngressPrefixes(ingresses[..|ingresses| - 1])
      + (if last.ip != "" then [last.ip + ":"] else [])
      + (if last.hostname != "" then [last.hostname + ":"] else [])
  }

  function Prefixes(pods: seq<Pod>): seq<string> {
    if pods == [] then []
    else
      var last := pods[|pods| - 1];
      Prefixes(pods[..|pods| - 1]) + [last.name + "."]
      + (if last.service.Found? then IngressPrefixes(last.service.value) else [])
  }

  predicate IsHidden(host: string, prefixes: seq<string>) {
    exists k :: 0 <= k < |prefixes| && HasPrefix(host, prefixes[k])
  }

  function Kept(hosts: seq<string>, prefixes: seq<string>): (kept: seq<string>)
    ensures forall h :: h in kept <==> h in hosts && !IsHidden(h, prefixes)
  {
    if hosts == [] then []
    else
      var last := hosts[|hosts| - 1];
      assert hosts == hosts[..|hosts| - 1] + [last];
      Kept(hosts[..|hosts| - 1], prefixes) + if IsHidden(last, prefixes) then [] else [last]
  }

  predicate Readable(pods: seq<Pod>) {
    forall k :: 0 <= k < |pods| ==> !pods[k].service.Unreadable?
  }

  /** A lone host, or a cluster without hidden pods, is passed through. */
  function WithoutHidden(sharded: bool, hosts: string, pods: seq<Pod>): string {
    if sharded || ',' !in hosts || pods == [] then hosts
    else Join(Kept(Split(hosts, ','), Prefixes(pods)), ',')
  }

  // ------------------------------------------------------------------
  // The loops
  // ------------------------------------------------------------------

  /** The inner loop, over the addresses of one Service. */
  method AddIngresses(named: seq<string>, ingresses: seq<Ingress>) returns (prefixes: seq<string>)
    ensures prefixes == named + IngressPrefixes(ingresses)
  {
    prefixes := named;
    for j := 0 to |ingresses|
      invariant prefixes == named + IngressPrefixes(ingresses[..j])
    {
      assert ingresses[..j + 1][..j] == ingresses[..j];
      if ingresses[j].ip != "" {
        prefixes := prefixes + [ingresses[j].ip + ":"];
      }
      if ingresses[j].hostname != "" {
        prefixes := prefixes + [ingresses[j].hostname + ":"];
      }
    }
    assert ingresses[..|ingresses|] == ingresses;
  }

  method HiddenPrefixes(pods: seq<Pod>) returns (r: Result<seq<string>>)
    ensures r == if Readable(pods) then Success(Prefixes(pods)) else Failure
    ensures r.Failure? <==> exists k :: 0 <= k < |pods| && pods[k].service.Unreadable?
  {
    var prefixes := [];
    for i := 0 to |pods|
      invariant prefixes == Prefixes(pods[..i])
      invariant Readable(pods[..i])
    {
      var pod := pods[i];
      assert pods[..i + 1][..i] == pods[..i];
      prefixes := prefixes + [pod.name + "."];
      match pod.service {
        case NotFound =>
        case Unreadable =>
          return Failure;
        case Found(ingresses) =>
          prefixes := AddIngresses(prefixes, ingresses);
      }
    }
    assert pods[..|pods|] == pods;
    return Success(prefixes);
  }

  method WithoutHiddenHosts(sharded: bool, hosts: string, listed: Result<seq<Pod>>) returns (r: Result<string>)
    ensures r.Success? <==> sharded || ',' !in hosts || (listed.Success? && Readable(listed.value))
    ensures r.Success? && listed.Success? ==> r.value == WithoutHidden(sharded, hosts, listed.value)
    ensures sharded || ',' !in hosts || listed == Success([]) ==> r == Success(hosts)
  {
    if sharded || ',' !in hosts {
      return Success(hosts);
    }
    if listed.Failure? {
      return Failure;
    }
    if |listed.value| == 0 {
      return Success(hosts);
    }
    var prefixes := HiddenPrefixes(listed.value);
    if prefixes.Failure? {
      return Failure;
    }
    var split := Split(hosts, ',');
    var kept := [];
    for i := 0 to |split|
      invariant kept == Kept(split[..i], prefixes.value)
    {
      assert split[..i + 1][..i] == split[..i];
      var isHidden := IsHidden(split[i], prefixes.value);
      if !isHidden {
        kept := kept + [split[i]];
      }
    }
    assert split[..|split|] == split;
    return Success(Join(kept, ','));
  }

  // ------------------------------------------------------------------
  // What clients are left with
  // ------------------------------------------------------------------

  lemma {:induction false} KeptIsStable(hosts: seq<string>, prefixes: seq<string>)
    requires forall h :: h in hosts ==> !IsHidden(h, prefixes)
    ensures Kept(hosts, prefixes) == hosts
  {
    if hosts != [] {
      var last := |hosts| - 1;
      KeptIsStable(hosts[..last], prefixes);
      assert hosts == hosts[..last] + [hosts[last]];
    }
  }

  /** The result reads back as the kept hosts, in order, whenever any is left. */
  lemma ResultSplitsBack(hosts: string, pods: seq<Pod>)
    requires ',' in hosts && pods != []
    ensures var kept := Kept(Split(hosts, ','), Prefixes(pods));
            kept != [] ==> Split(WithoutHidden(false, hosts, pods), ',') == kept
  {
    var kept := Kept(Split(hosts, ','), Prefixes(pods));
    if kept != [] {
      SplitJoin(kept, ',');
    }
  }

  /** Without a hidden pod, on a sharded cluster, and with a lone host, the text is passed through. */
  lemma NothingToDrop(sharded: bool, hosts: string, pods: seq<Pod>)
    requires sharded || ',' !in hosts || pods == []
    ensures WithoutHidden(sharded, hosts, pods) == hosts
  {
  }

  /** Filtering an already filtered list changes nothing. */
  lemma FilteringIsIdempotent(sharded: bool, hosts: string, pods: seq<Pod>)
    ensures WithoutHidden(sharded, WithoutHidden(sharded, hosts, pods), pods) == WithoutHidden(sharded, hosts, pods)
  {
    var once := WithoutHidden(sharded, hosts, pods);
    if !sharded && ',' in hosts && pods != [] && ',' in once {
      var kept := Kept(Split(hosts, ','), Prefixes(pods));
      ResultSplitsBack(hosts, pods);
      KeptIsStable(kept, Prefixes(pods));
    }
  }

  /** The relative order of the kept hosts is the original one: hosts kept from a concatenation are concatenated. */
  lemma {:induction false} KeptConcat(a: seq<string>, b: seq<string>, prefixes: seq<string>)
    ensures Kept(a + b, prefixes) == Kept(a, prefixes) + Kept(b, prefixes)
  {
    if b == [] {
      assert a + b == a;
    } else {
      var last := |b| - 1;
      assert (a + b)[..|a + b| - 1] == a + b[..last];
      KeptConcat(a, b[..last], prefixes);
    }
  }

  // ------------------------------------------------------------------
  // What the prefixes stand for
  // ------------------------------------------------------------------

  ghost predicate IngressPrefix(ingress: Ingress, p: string) {
    (ingress.ip != "" && p == ingress.ip + ":") || (ingress.hostname != "" && p == ingress.hostname + ":")
  }

  ghost predicate PodPrefix(pod: Pod, p: string) {
    || p == pod.name + "."
    || (pod.service.Found?
        && exists j :: 0 <= j < |pod.service.value| && IngressPrefix(pod.service.value[j], p))
  }

  lemma {:induction false} IngressPrefixesExact(ingresses: seq<Ingress>, p: string)
    ensures p in IngressPrefixes(ingresses) <==> exists j :: 0 <= j < |ingresses| && IngressPrefix(ingresses[j], p)
  {
    if ingresses != [] {
      var n := |ingresses| - 1;
      var init := ingresses[..n];
      IngressPrefixesExact(init, p);
      assert forall j :: 0 <= j < n ==> init[j] == ingresses[j];
      assert p in IngressPrefixes(ingresses) <==> p in IngressPrefixes(init) || IngressPrefix(ingresses[n], p);
    }
  }

  lemma LastPodPrefixes(pods: seq<Pod>, p: string)
    requires pods != []
    ensures var n := |pods| - 1;
            p in Prefixes(pods) <==> p in Prefixes(pods[..n]) || PodPrefix(pods[n], p)
  {
    var last := pods[|pods| - 1];
    if last.service.Found? {
      IngressPrefixesExact(last.service.value, p);
    }
  }

  /** The prefixes are the pods' names and the addresses of their Services, and nothing else. */
  lemma {:induction false} PrefixesExact(pods: seq<Pod>, p: string)
    ensures p in Prefixes(pods) <==> exists k :: 0 <= k < |pods| && PodPrefix(pods[k], p)
  {
    if pods != [] {
      var n := |pods| - 1;
      PrefixesExact(pods[..n], p);
      LastPodPrefixes(pods, p);
      assert forall k :: 0 <= k < n ==> pods[..n][k] == pods[k];
    }
  }

  /** A prefix ending in a separator matches a whole field or nothing: 10.0.0.1 is never taken for 10.0.0.11. */
  lemma PrefixUpTo(a: string, b: string, rest: string, sep: char)
    requires sep !in a && sep !in b
    ensures b + [sep] <= a + [sep] + rest <==> a == b
  {
    var s, t := a + [sep] + rest, b + [sep];
    assert s[..|a|] == a && s[|a|] == sep && t[..|b|] == b && t[|b|] == sep;
    if t <= s {
      assert forall k :: 0 <= k < |t| ==> s[k] == t[k];
      assert forall k :: 0 <= k < |a| ==> s[k] == a[k] && s[k] != sep;
      assert forall k :: 0 <= k < |b| ==> t[k] == b[k] && t[k] != sep;
      assert |a| == |b|;
    }
    assert a == b ==> s == t + rest;
  }

  /** An address, followed by a colon, starts the host. */
  predicate Starts(address: string, host: string) {
    address != "" && HasPrefix(host, address + ":")
  }

  /** The host starts with an address of the pod's own Service. */
  ghost predicate ByAddress(pod: Pod, host: string) {
    && pod.service.Found?
    && exists j :: 0 <= j < |pod.service.value|
                   && (Starts(pod.service.value[j].ip, host) || Starts(pod.service.value[j].hostname, host))
  }

  ghost predicate Matches(pod: Pod, host: string) {
    HasPrefix(host, pod.name + ".") || ByAddress(pod, host)
  }

  lemma PodPrefixMatches(pod: Pod, host: string)
    ensures Matches(pod, host) <==> exists p :: PodPrefix(pod, p) && HasPrefix(host, p)
  {
    if HasPrefix(host, pod.name + ".") {
      assert PodPrefix(pod, pod.name + ".");
    } else if ByAddress(pod, host) {
      var j :| 0 <= j < |pod.service.value|
               && (Starts(pod.service.value[j].ip, host) || Starts(pod.service.value[j].hostname, host));
      var ingress := pod.service.value[j];
      var p := (if Starts(ingress.ip, host) then ingress.ip else ingress.hostname) + ":";
      assert IngressPrefix(ingress, p) && PodPrefix(pod, p);
    }
    forall p | PodPrefix(pod, p) && HasPrefix(host, p) ensures Matches(pod, host) {
      if p != pod.name + "." {
        var j :| 0 <= j < |pod.service.value| && IngressPrefix(pod.service.value[j], p);
        assert Starts(pod.service.value[j].ip, host) || Starts(pod.service.value[j].hostname, host);
      }
    }
  }

  /** A host is dropped exactly when it carries a hidden pod's name or an address of its Service. */
  lemma DroppedIffMatched(pods: seq<Pod>, host: string)
    ensures IsHidden(host, Prefixes(pods)) <==> exists k :: 0 <= k < |pods| && Matches(pods[k], host)
  {
    var prefixes := Prefixes(pods);
    if IsHidden(host, prefixes) {
      var n :| 0 <= n < |prefixes| && HasPrefix(host, prefixes[n]);
      PrefixesExact(pods, prefixes[n]);
      var k :| 0 <= k < |pods| && PodPrefix(pods[k], prefixes[n]);
      PodPrefixMatches(pods[k], host);
    }
    if k :| 0 <= k < |pods| && Matches(pods[k], host) {
      PodPrefixMatches(pods[k], host);
      var p :| PodPrefix(pods[k], p) && HasPrefix(host, p);
      PrefixesExact(pods, p);
    }
  }

  // ------------------------------------------------------------------
  // Load balancer addresses
  // ------------------------------------------------------------------

  /** Address a is the whole address, or all of it up to one of its colons. */
  predicate Covers(a: string, address: string) {
    a != "" && (a == address || HasPrefix(address, a + ":"))
  }

  lemma StartsIffCovers(a: string, address: string, port: string)
    requires ':' !in port
    ensures Starts(a, address + ":" + port) <==> Covers(a, address)
  {
    var host := address + ":" + port;
    assert host[|address|] == ':' && host[|address| + 1..] == port;
    assert forall n :: |address| < n < |host| ==> host[n] == port[n - |address| - 1] && host[n] != ':';
    if HasPrefix(host, a + ":") {
      assert host[|a|] == ':' && host[..|a|] == a;
      if |a| < |address| {
        assert host[..|a| + 1] == address[..|a| + 1];
      } else {
        assert host[..|address|] == address;
      }
    }
    if HasPrefix(address, a + ":") {
      assert host[..|a| + 1] == address[..|a| + 1];
    }
  }

  /** Without colons an address covers only itself: 10.0.0.1 is never taken for 10.0.0.11. */
  lemma ColonFreeCoversItself(a: string, address: string)
    requires ':' !in address
    ensures Covers(a, address) <==> a != "" && a == address
  {
    assert (a + ":")[|a|] == ':';
  }

  /** An address of the pod's Service covers this one. */
  ghost predicate HasAddress(pod: Pod, address: string) {
    && pod.service.Found?
    && exists j :: 0 <= j < |pod.service.value|
                   && (|| Covers(pod.service.value[j].ip, address)
                       || Covers(pod.service.value[j].hostname, address))
  }

  lemma ByAddressIffCovered(pod: Pod, address: string, port: string)
    requires ':' !in port
    ensures ByAddress(pod, address + ":" + port) <==> HasAddress(pod, address)
  {
    if pod.service.Found? {
      forall j | 0 <= j < |pod.service.value|
        ensures Starts(pod.service.value[j].ip, address + ":" + port)
                <==> Covers(pod.service.value[j].ip, address)
        ensures Starts(pod.service.value[j].hostname, address + ":" + port)
                <==> Covers(pod.service.value[j].hostname, address)
      {
        StartsIffCovers(pod.service.value[j].ip, address, port);
        StartsIffCovers(pod.service.value[j].hostname, address, port);
      }
    }
  }

  /**
   A host given by address and port, and not by a pod's name, is dropped exactly
   when an address of a hidden pod's Service covers it, colons in it or not.
   */
  lemma LoadBalancerHostsDropped(pods: seq<Pod>, address: string, port: string)
    requires ':' !in port
    requires forall k :: 0 <= k < |pods| ==> !HasPrefix(address + ":" + port, pods[k].name + ".")
    ensures IsHidden(address + ":" + port, Prefixes(pods)) <==>
      exists k :: 0 <= k < |pods| && HasAddress(pods[k], address)
  {
    var host := address + ":" + port;
    DroppedIffMatched(pods, host);
    forall k | 0 <= k < |pods| ensures Matches(pods[k], host) <==> HasAddress(pods[k], address) {
      ByAddressIffCovered(pods[k], address, port);
    }
  }

  /** Bare IPv6 addresses can be confused: a hidden member's may be another's up to a colon. */
  lemma BareIPv6CanBeConfused(name: string, port: string)
    requires ':' !in port && !HasPrefix("2001:db8::1:5:" + port, name + ".")
    ensures var pods := [Pod(name, Found([Ingress("2001:db8::1", "")]))];
            IsHidden("2001:db8::1:5:" + port, Prefixes(pods))
  {
    var ingress, address := Ingress("2001:db8::1", ""), "2001:db8::1:5";
    var pods := [Pod(name, Found([ingress]))];
    assert "2001:db8::1:5:" + port == address + ":" + port;
    assert address[..|ingress.ip| + 1] == ingress.ip + ":";
    assert Covers(pods[0].service.value[0].ip, address);
    assert HasAddress(pods[0], address);
    LoadBalancerHostsDropped(pods, address, port);
  }

  /** Bracketed ones are never recognised: the recorded address has no bracket. */
  lemma BracketedIPv6IsNotCovered(a: string, ip: string)
    requires '[' !in a
    ensures !Covers(a, "[" + ip + "]")
  {
    var address := "[" + ip + "]";
    assert address[0] == '[';
    assert a != "" ==> (a + ":")[0] == a[0] && a[0] in a;
  }

  // ------------------------------------------------------------------
  // Operator-style DNS names
  // ------------------------------------------------------------------

  /** The host of hidden pod i carries the prefix of hidden pod j only if they are the same pod. */
  lemma HiddenOrdinalsNeverConfused(sts: string, i: nat, j: nat, domain: string)
    ensures HasPrefix(HiddenVolumes.PodName(sts, i) + "." + domain, HiddenVolumes.PodName(sts, j) + ".") <==> i == j
  {
    var host := HiddenVolumes.PodName(sts, i) + "." + domain;
    var prefix := HiddenVolumes.PodName(sts, j) + ".";
    if HasPrefix(host, prefix) {
      var at := |sts| + 1;
      assert host[at..] == Itoa(i) + "." + domain;
      assert prefix[at..] == Itoa(j) + ".";
      assert prefix[at..] <= host[at..];
      PrefixUpTo(Itoa(i), Itoa(j), domain, '.');
      ItoaInjective(i, j);
    }
    assert i == j ==> host == prefix + domain;
  }

  /** The operator's name for a replica set's hidden StatefulSet. */
  function HiddenSet(replset: string): string {
    replset + "-hidden"
  }

  /** A data-bearing member is never taken for a hidden one. */
  lemma DataMemberNeverHidden(replset: string, i: nat, j: nat, domain: string)
    ensures !HasPrefix(HiddenVolumes.PodName(replset, i) + "." + domain,
                       HiddenVolumes.PodName(HiddenSet(replset), j) + ".")
  {
    var host := HiddenVolumes.PodName(replset, i) + "." + domain;
    var prefix := HiddenVolumes.PodName(HiddenSet(replset), j) + ".";
    var at := |replset| + 1;
    assert IsDigit(Itoa(i)[0]);
    assert host[at] == Itoa(i)[0];
    assert prefix[at] == 'h';
  }

  /**
   With the hidden pods of one replica set listed, whatever Services they have,
   a hidden ordinal's host is dropped exactly if its pod is listed or a hidden
   address starts it, and a data-bearing member's only in the latter case.
   */
  lemma ExactlyHiddenHostsDropped(replset: string, running: seq<nat>, pods: seq<Pod>, domain: string, i: nat)
    requires |pods| == |running|
    requires forall k :: 0 <= k < |pods| ==> pods[k].name == HiddenVolumes.PodName(HiddenSet(replset), running[k])
    ensures var host := HiddenVolumes.PodName(HiddenSet(replset), i) + "." + domain;
            IsHidden(host, Prefixes(pods)) <==>
              i in running || exists k :: 0 <= k < |pods| && ByAddress(pods[k], host)
    ensures var host := HiddenVolumes.PodName(replset, i) + "." + domain;
            IsHidden(host, Prefixes(pods)) <==> exists k :: 0 <= k < |pods| && ByAddress(pods[k], host)
  {
    var hidden := HiddenVolumes.PodName(HiddenSet(replset), i) + "." + domain;
    var bearing := HiddenVolumes.PodName(replset, i) + "." + domain;
    DroppedIffMatched(pods, hidden);
    DroppedIffMatched(pods, bearing);
    forall k | 0 <= k < |pods|
      ensures Matches(pods[k], hidden) <==> running[k] == i || ByAddress(pods[k], hidden)
      ensures Matches(pods[k], bearing) <==> ByAddress(pods[k], bearing)
    {
      HiddenOrdinalsNeverConfused(HiddenSet(replset), i, running[k], domain);
      DataMemberNeverHidden(replset, i, running[k], domain);
    }
  }
}
