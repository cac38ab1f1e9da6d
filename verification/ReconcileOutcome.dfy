/** What a reconcile leaves behind, read off what it was given: the reason of the group's Ready
    condition, the resolved links and the ports (internal/controller/machinegroup_controller.go). */
module ReconcileOutcome {
  import opened Prelude
  import opened Api
  import opened Controller
  import AllocatorProperties
  import LinkHash
  import LinkMatching
  import LoadBalancerNames
  import PortAllocator
  import ServingOrder

  // ---------------------------------------------------------------- reasons

  /** The exposure is off, or its list names no load balancer twice and knows every scope. */
  ghost predicate ExposureKnown(x: Input) {
    x.loadBalancers.Some? ==>
      && LoadBalancerNames.NamedOnce(x.loadBalancers.value)
      && forall k | 0 <= k < |x.loadBalancers.value| :: LoadBalancerNames.ScopeIsKnown(x.loadBalancers.value[k])
  }

  /** The group is there and its status can be written. */
  predicate Reached(x: Input) {
    x.present && x.patched
  }

  /** The spec is valid and the objects can be listed. */
  ghost predicate Listed(x: Input) {
    0 < x.start <= x.end && ExposureKnown(x) && x.linksListed && x.portsListed
  }

  /** The machine ports can all be given ports. */
  ghost predicate PortsFit(x: Input) {
    ServingOrder.Satisfiable(Requests(x.machinePorts), x.start, x.end)
  }

  ghost predicate GoesThrough(x: Input) {
    Reached(x) && Listed(x) && |x.machinePorts| <= 50 && PortsFit(x) && x.managerFound
  }

  lemma {:induction false} ExposureOkIff(x: Input)
    ensures ExposureOk(x.loadBalancers) <==> ExposureKnown(x)
  {
    if x.loadBalancers.Some? {
      LoadBalancerNames.AcceptedIff(x.loadBalancers.value);
    }
  }

  /** Whether a reconcile goes through is up to what it is given, not to the status it finds. */
  lemma {:induction false} WritesIff(st: Status, x: Input)
    ensures Writes(st, x) <==> GoesThrough(x)
  {
    ExposureOkIff(x);
    ServingOrder.SucceedsIff(st.allocatedPorts, Requests(x.machinePorts), x.start, x.end);
  }

  /** The reason `x` writes, if any; otherwise the reason found in the status stays. */
  ghost function Written(st: Status, x: Input): Reason {
    Step(st.(reason := Unset), x).reason
  }

  lemma {:induction false} ReasonWritten(st: Status, x: Input)
    ensures Step(st, x).reason == if Written(st, x) == Unset then st.reason else Written(st, x)
  {
  }

  /** When a reconcile is given up for each of the four early reasons. */
  lemma {:induction false} EarlyReasons(st: Status, x: Input)
    ensures Written(st, x) == InvalidPortRange <==> Reached(x) && !(0 < x.start <= x.end)
    ensures Written(st, x) == InvalidExposure <==> Reached(x) && 0 < x.start <= x.end && !ExposureKnown(x)
    ensures Written(st, x) == TooManyMachinePorts
      <==> Reached(x) && Listed(x) && |x.machinePorts| > 50 && x.children
    ensures Written(st, x) == PortAllocationFailed
      <==> Reached(x) && Listed(x) && |x.machinePorts| <= 50 && !PortsFit(x) && x.children
  {
    ExposureOkIff(x);
    ServingOrder.SucceedsIff(st.allocatedPorts, Requests(x.machinePorts), x.start, x.end);
  }

  /** As many links end in an error as get no port. */
  lemma {:induction false} ErrorsIff(links: seq<Link>, machinePorts: seq<MachinePort>, ports: Ports)
    requires LinkMatching.DistinctLinks(links) && LinkMatching.DistinctMachinePorts(machinePorts)
    requires PortAllocator.Injective(ports)
    ensures |LinkMatching.Match(links, machinePorts, ports).errors| > 0
      <==> |links| > |LinkMatching.Slots(machinePorts, ports, |machinePorts|)|
  {
    LinkMatching.MaximumMatching(links, machinePorts, ports);
    LinkMatching.LinkCount(links);
    var m := LinkMatching.Match(links, machinePorts, ports);
    assert |m.errors| == |m.errors.Keys|;
    assert |m.granted| == |m.granted.Keys|;
    assert |LinkMatching.LinkUids(links) - m.granted.Keys| == |links| - |m.granted|;
  }

  /** A reconcile that goes through blames the cloud before missing ports, and is Ready exactly if
      there is a usable port for every link. */
  lemma {:induction false} ReasonAfterWrite(st: Status, x: Input)
    ensures Written(st, x) == CloudEnsureFailed <==> GoesThrough(x) && !x.cloudOk
    ensures LinkMatching.DistinctLinks(x.links) && LinkMatching.DistinctMachinePorts(x.machinePorts) ==>
      && (Written(st, x) == Ready <==> GoesThrough(x) && x.cloudOk && |x.links| <= UsablePorts(x))
      && (Written(st, x) == InsufficientMachinePorts
          <==> GoesThrough(x) && x.cloudOk && |x.links| > UsablePorts(x))
  {
    var before := st.(reason := Unset);
    WritesIff(before, x);
    if Writes(before, x) && LinkMatching.DistinctLinks(x.links)
       && LinkMatching.DistinctMachinePorts(x.machinePorts)
    {
      SlotsAfterWrite(before, x);
      AllocatedForAll(before, x);
      ErrorsIff(x.links, x.machinePorts, Step(before, x).allocatedPorts);
    }
  }

  // ---------------------------------------------------------------- resolved links

  /** `r` describes link `l`: what is blank gets its default, everything else is as written. */
  ghost predicate Describes(r: ResolvedLink, l: Link) {
    && r.uid == l.uid && r.name == l.name && r.namespace == l.namespace
    && r.frontendUser == l.frontendUser && r.pdAddresses == l.pdAddresses
    && r.nsServerAddr == l.nsServerAddr && r.tlsSecret == l.tlsSecret
    && (TrimSpace(l.routeNamespace) != "" ==> r.routeNamespace == TrimSpace(l.routeNamespace))
    && (TrimSpace(l.routeNamespace) == "" ==> r.routeNamespace == l.name)
    && (TrimSpace(l.clusterName) != "" ==> r.clusterName == TrimSpace(l.clusterName))
    && (TrimSpace(l.clusterName) == "" ==> r.clusterName == l.namespace + "." + l.name)
    && r.hashed == r.uid + r.name + r.namespace + r.routeNamespace + r.frontendUser + Itoa(r.port)
                   + r.clusterName + r.nsServerAddr + LinkHash.Concat(r.pdAddresses)
                   + if r.tlsSecret.Some? then r.tlsSecret.value else ""
  }

  lemma {:induction false} ResolveDescribes(l: Link, port: int32)
    ensures Describes(Resolve(l, port), l) && Resolve(l, port).port == port
  {
    LinkHash.HashTextIs(Resolve(l, port));
  }

  /** Positions below `n`, in order. */
  ghost predicate Ascend(at: seq<nat>, n: nat) {
    && (forall k | 0 <= k < |at| :: at[k] < n)
    && (forall k, l | 0 <= k < l < |at| :: at[k] < at[l])
  }

  /** The entries describe the links that `at` says, in the order of the first `n` links. */
  ghost predicate DescribeAt(entries: seq<ResolvedLink>, links: seq<Link>, at: seq<nat>, n: nat)
    requires n <= |links|
  {
    && |at| == |entries| && Ascend(at, n)
    && forall k | 0 <= k < |at| :: Describes(entries[k], links[at[k]])
  }

  /** The positions of the links with a port among the first `n`. */
  ghost function WithPort(links: seq<Link>, linkPorts: Ports, n: nat): seq<nat>
    requires n <= |links|
  {
    if n == 0 then []
    else if links[n - 1].uid in linkPorts then WithPort(links, linkPorts, n - 1) + [n - 1]
    else WithPort(links, linkPorts, n - 1)
  }

  lemma {:induction false} WithPortAscends(links: seq<Link>, linkPorts: Ports, n: nat)
    requires n <= |links|
    ensures Ascend(WithPort(links, linkPorts, n), n)
  {
    if n > 0 {
      WithPortAscends(links, linkPorts, n - 1);
      var before := WithPort(links, linkPorts, n - 1);
      assert Ascend(before + [n - 1], n);
    }
  }

  lemma {:induction false} OneEach(links: seq<Link>, linkPorts: Ports, n: nat)
    requires n <= |links|
    ensures |Resolved(links, linkPorts, n)| == |WithPort(links, linkPorts, n)|
  {
    if n > 0 {
      OneEach(links, linkPorts, n - 1);
    }
  }

  lemma {:induction false} DescribesAt(links: seq<Link>, linkPorts: Ports, n: nat, k: nat)
    requires n <= |links| && k < |Resolved(links, linkPorts, n)| == |WithPort(links, linkPorts, n)|
    requires WithPort(links, linkPorts, n)[k] < |links|
    ensures Describes(Resolved(links, linkPorts, n)[k], links[WithPort(links, linkPorts, n)[k]])
  {
    OneEach(links, linkPorts, n - 1);
    if k < |Resolved(links, linkPorts, n - 1)| {
      WithPortAscends(links, linkPorts, n - 1);
      DescribesAt(links, linkPorts, n - 1, k);
    } else {
      ResolveDescribes(links[n - 1], linkPorts[links[n - 1].uid]);
    }
  }

  lemma {:induction false} ResolvedUpTo(links: seq<Link>, linkPorts: Ports, n: nat)
    requires n <= |links|
    ensures DescribeAt(Resolved(links, linkPorts, n), links, WithPort(links, linkPorts, n), n)
  {
    OneEach(links, linkPorts, n);
    WithPortAscends(links, linkPorts, n);
    forall k | 0 <= k < |WithPort(links, linkPorts, n)|
      ensures Describes(Resolved(links, linkPorts, n)[k], links[WithPort(links, linkPorts, n)[k]])
    {
      DescribesAt(links, linkPorts, n, k);
    }
  }

  /** The resolved links describe links that are listed, in their order; `at` says which. */
  lemma {:induction false} ResolvedDescribe(st: Status, x: Input) returns (at: seq<nat>)
    requires GoesThrough(x)
    ensures DescribeAt(Step(st, x).resolvedLinks, x.links, at, |x.links|)
  {
    WritesIff(st, x);
    var granted := GrantedBy(x, Step(st, x).allocatedPorts);
    assert Step(st, x).resolvedLinks == Resolved(x.links, granted, |x.links|);
    ResolvedUpTo(x.links, granted, |x.links|);
    at := WithPort(x.links, granted, |x.links|);
  }

  // ---------------------------------------------------------------- names

  /** A link and a machine port are namesakes if they agree in namespace and name; a namespace holds
      no slash. */
  lemma {:induction false} SameKeyIff(l: Link, mp: MachinePort)
    ensures l.namespace == mp.namespace && l.name == mp.name ==> l.Key() == mp.Key()
    ensures '/' !in l.namespace && '/' !in mp.namespace && l.Key() == mp.Key() ==>
      l.namespace == mp.namespace && l.name == mp.name
  {
    FirstSlash(l.namespace, l.name);
    FirstSlash(mp.namespace, mp.name);
    if '/' !in l.namespace && '/' !in mp.namespace && l.Key() == mp.Key() {
      var a, b := |l.namespace|, |mp.namespace|;
      assert !(a < b) && !(b < a);
      assert l.Key()[..a] == l.namespace && mp.Key()[..b] == mp.namespace;
      assert l.Key()[a + 1..] == l.name && mp.Key()[b + 1..] == mp.name;
    }
  }

  lemma {:induction false} FirstSlash(namespace: string, name: string)
    ensures (namespace + "/" + name)[|namespace|] == '/'
    ensures '/' !in namespace ==> forall k | 0 <= k < |namespace| :: (namespace + "/" + name)[k] != '/'
  {
  }

  /** New machine ports are served in the order of namespace/name: as long as the range has enough
      ports the first one gets the smaller port. */
  lemma {:induction false} NewPortsByName(st: Status, x: Input, i: nat, j: nat)
    requires GoesThrough(x) && LinkMatching.DistinctMachinePorts(x.machinePorts)
    requires i < |x.machinePorts| && j < |x.machinePorts| && i != j
    requires |x.machinePorts| <= x.end - x.start + 1
    requires x.machinePorts[i].requestedPort.None? && x.machinePorts[i].uid !in st.allocatedPorts
    requires x.machinePorts[j].requestedPort.None? && x.machinePorts[j].uid !in st.allocatedPorts
    requires StrLeq(x.machinePorts[i].namespace + "/" + x.machinePorts[i].name,
                    x.machinePorts[j].namespace + "/" + x.machinePorts[j].name)
    ensures var ports := Step(st, x).allocatedPorts;
      && x.machinePorts[i].uid in ports && x.machinePorts[j].uid in ports
      && ports[x.machinePorts[i].uid] < ports[x.machinePorts[j].uid]
  {
    WritesIff(st, x);
    AllocationChangesOnlyByWrites(st, x);
    UidCount(x.machinePorts);
    var rs := Requests(x.machinePorts);
    assert rs[i].name == x.machinePorts[i].namespace + "/" + x.machinePorts[i].name != "";
    assert rs[j].name == x.machinePorts[j].namespace + "/" + x.machinePorts[j].name != "";
    var p, q := ServingOrder.FirstGetsSmallerPort(st.allocatedPorts, rs, x.start, x.end, i, j);
  }
}
