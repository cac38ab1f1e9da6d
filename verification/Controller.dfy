/** One reconcile of a machine group as a step on its status, and what holds over runs of
    reconciles (internal/controller/machinegroup_controller.go). */
module Controller {
  import opened Prelude
  import opened Api
  import PortAllocator
  import AllocatorProperties
  import LinkHash
  import LinkMatching
  import LoadBalancerNames
  import Render

  type Ports = PortAllocator.Ports

  const MAX_MACHINE_PORTS_PER_GROUP := 50

  // ---------------------------------------------------------------- resolved links

  function Resolve(l: Link, port: int32): ResolvedLink {
    var cluster := TrimSpace(l.clusterName);
    var route := TrimSpace(l.routeNamespace);
    var entry := ResolvedLink(
      l.uid, l.name, l.namespace,
      if route == "" then l.name else route, l.frontendUser, port,
      if cluster == "" then l.namespace + "." + l.name else cluster,
      l.pdAddresses, l.nsServerAddr, l.tlsSecret, "");
    entry.(hashed := LinkHash.HashText(entry))
  }

  ghost function Resolved(links: seq<Link>, linkPorts: Ports, n: nat): seq<ResolvedLink>
    requires n <= |links|
  {
    if n == 0 then []
    else if links[n - 1].uid in linkPorts
    then Resolved(links, linkPorts, n - 1) + [Resolve(links[n - 1], linkPorts[links[n - 1].uid])]
    else Resolved(links, linkPorts, n - 1)
  }

  method BuildResolvedLinks(links: seq<Link>, linkPorts: Ports) returns (resolved: seq<ResolvedLink>)
    ensures resolved == Resolved(links, linkPorts, |links|)
  {
    resolved := [];
    for i := 0 to |links|
      invariant resolved == Resolved(links, linkPorts, i)
    {
      if links[i].uid in linkPorts {
        var link := links[i];
        var clusterName := TrimSpace(link.clusterName);
        if clusterName == "" {
          clusterName := link.namespace + "." + link.name;
        }
        var routeNamespace := TrimSpace(link.routeNamespace);
        if routeNamespace == "" {
          routeNamespace := link.name;
        }
        var entry := ResolvedLink(
          link.uid, link.name, link.namespace, routeNamespace, link.frontendUser, linkPorts[link.uid], clusterName,
          link.pdAddresses, link.nsServerAddr, link.tlsSecret, "");
        var text := LinkHash.ResolvedLinkHash(entry);
        resolved := resolved + [entry.(hashed := text)];
      }
    }
  }

  // ---------------------------------------------------------------- one reconcile

  /** Reason of the group's Ready condition. */
  datatype Reason =
    | Unset | InvalidPortRange | InvalidExposure | TooManyMachinePorts | PortAllocationFailed
    | CloudEnsureFailed | InsufficientMachinePorts | Ready

  /** What a reconcile reads besides the status: the spec, the listed objects, and which of the
      calls it makes succeed. `present` is false when the group is gone, being deleted or still
      lacks its finalizer; `children` stands for the status writes on ports and links that come
      before the group's own. */
  datatype Input = Input(
    present: bool, start: int32, end: int32, loadBalancers: Option<LoadBalancerNames.Specs>,
    linksListed: bool, links: seq<Link>, portsListed: bool, machinePorts: seq<MachinePort>,
    children: bool, managerFound: bool, cloudOk: bool, patched: bool)

  datatype Status = Status(allocatedPorts: Ports, resolvedLinks: seq<ResolvedLink>, reason: Reason)

  function RequestOf(mp: MachinePort): PortAllocator.Request {
    PortAllocator.Request(mp.uid, mp.Key(), mp.requestedPort)
  }

  ghost function Requests(machinePorts: seq<MachinePort>): (r: seq<PortAllocator.Request>)
    ensures |r| == |machinePorts| && forall i | 0 <= i < |r| :: r[i] == RequestOf(machinePorts[i])
  {
    seq(|machinePorts|, i requires 0 <= i < |machinePorts| => RequestOf(machinePorts[i]))
  }

  ghost predicate ExposureOk(lbs: Option<LoadBalancerNames.Specs>) {
    lbs.None? || exists out :: LoadBalancerNames.IsNormalized(lbs.value, Ok(out))
  }

  ghost function Allocation(st: Status, x: Input): PortAllocator.Allocation {
    PortAllocator.Allocate(st.allocatedPorts, Requests(x.machinePorts), x.start, x.end)
  }

  /** The reason a reconcile is given up for before it allocates ports, if any. */
  ghost function Rejected(st: Status, x: Input): Option<Reason> {
    if !ValidRange(x.start, x.end) then Some(InvalidPortRange)
    else if !ExposureOk(x.loadBalancers) then Some(InvalidExposure)
    else if !x.linksListed || !x.portsListed then None
    else if |x.machinePorts| > MAX_MACHINE_PORTS_PER_GROUP then Some(TooManyMachinePorts)
    else if Allocation(st, x).Err? then Some(PortAllocationFailed)
    else None
  }

  ghost predicate EarlyReason(r: Reason) {
    r == InvalidPortRange || r == InvalidExposure
  }

  /** Whether this reconcile replaces the allocation. */
  ghost predicate Writes(st: Status, x: Input) {
    x.present && Rejected(st, x).None? && x.linksListed && x.portsListed && x.managerFound && x.patched
  }

  ghost function MatchOf(st: Status, x: Input): LinkMatching.Matching
    requires Allocation(st, x).Ok?
  {
    LinkMatching.Match(x.links, x.machinePorts, Allocation(st, x).value)
  }

  /** The status after one reconcile. */
  ghost function Step(st: Status, x: Input): Status {
    if !x.present || !x.patched then st
    else
      match Rejected(st, x)
      case Some(r) => if EarlyReason(r) || x.children then st.(reason := r) else st
      case None =>
        if !x.linksListed || !x.portsListed || !x.managerFound then st
        else
          var m := MatchOf(st, x);
          Status(Allocation(st, x).value, Resolved(x.links, m.granted, |x.links|),
                 if !x.cloudOk then CloudEnsureFailed
                 else if |m.errors| > 0 then InsufficientMachinePorts
                 else Ready)
  }

  lemma {:induction false} FewUids(rs: seq<PortAllocator.Request>)
    ensures |PortAllocator.Uids(rs)| <= |rs|
  {
    if |rs| > 0 {
      var init := rs[..|rs| - 1];
      FewUids(init);
      assert rs == init + [rs[|rs| - 1]];
      PortAllocator.UidsAppend(init, rs[|rs| - 1]);
    }
  }

  method CollectPortRequests(machinePorts: seq<MachinePort>) returns (portRequests: seq<PortAllocator.Request>)
    ensures portRequests == Requests(machinePorts)
  {
    portRequests := [];
    for i := 0 to |machinePorts|
      invariant portRequests == Requests(machinePorts)[..i]
    {
      portRequests := portRequests + [RequestOf(machinePorts[i])];
    }
  }

  class MachineGroup {
    var allocatedPorts: Ports
    var resolvedLinks: seq<ResolvedLink>
    var reason: Reason

    constructor ()
      ensures Current() == Status(map[], [], Unset)
    {
      allocatedPorts, resolvedLinks, reason := map[], [], Unset;
    }

    ghost function Current(): Status
      reads this
    {
      Status(allocatedPorts, resolvedLinks, reason)
    }

    /** markMachineGroupError. */
    method MarkError(r: Reason, patched: bool)
      modifies this`reason
      ensures Current() == if patched then old(Current()).(reason := r) else old(Current())
    {
      if patched {
        reason := r;
      }
    }

    /** Reconcile, as far as the group's status is concerned. */
    method Reconcile(x: Input)
      modifies this
      ensures Current() == Step(old(Current()), x)
    {
      if !x.present {
        return;
      }
      if !(0 < x.start && x.start <= x.end) {
        MarkError(InvalidPortRange, x.patched);
        return;
      }
      var normalized := LoadBalancerNames.NormalizeLoadBalancers(x.loadBalancers);
      NormalizedOnce(x.loadBalancers, normalized);
      if normalized.Err? {
        MarkError(InvalidExposure, x.patched);
        return;
      }
      if !x.linksListed || !x.portsListed {
        return;
      }
      if |x.machinePorts| > MAX_MACHINE_PORTS_PER_GROUP {
        if x.children {
          MarkError(TooManyMachinePorts, x.patched);
        }
        return;
      }
      var portRequests := CollectPortRequests(x.machinePorts);
      FewUids(portRequests);
      var ports := PortAllocator.ReconcilePorts(allocatedPorts, portRequests, x.start, x.end);
      if ports.Err? {
        if x.children {
          MarkError(PortAllocationFailed, x.patched);
        }
        return;
      }
      var matching := LinkMatching.AssignPortsToLinks(x.links, x.machinePorts, ports.value);
      var resolved := BuildResolvedLinks(x.links, matching.granted);
      if !x.managerFound || !x.patched {
        return;
      }
      allocatedPorts := ports.value;
      resolvedLinks := resolved;
      if !x.cloudOk {
        reason := CloudEnsureFailed;
      } else if |matching.errors| > 0 {
        reason := InsufficientMachinePorts;
      } else {
        reason := Ready;
      }
    }
  }

  /** Normalization has one outcome. */
  lemma {:induction false} NormalizedOnce(lbs: Option<LoadBalancerNames.Specs>,
          r: Result<LoadBalancerNames.Specs, LoadBalancerNames.NameError>)
    requires lbs.None? ==> r.Ok?
    requires lbs.Some? ==> LoadBalancerNames.IsNormalized(lbs.value, r)
    ensures ExposureOk(lbs) <==> r.Ok?
  {
    if lbs.Some? && r.Err? {
      var e := LoadBalancerNames.Entries(lbs.value);
      forall out ensures !LoadBalancerNames.IsNormalized(lbs.value, Ok(out)) {
        match r.error {
          case DuplicateName(name) =>
            assert !LoadBalancerNames.NoRepeats(e, |e|);
          case UnsupportedScope(i, scope) =>
            assert !LoadBalancerNames.ScopesSupported(e, |e|);
        }
      }
    }
  }

  // ---------------------------------------------------------------- runs

  /** The status before reconcile `n` of a run. */
  ghost function Run(st: Status, xs: seq<Input>, n: nat): Status
    requires n <= |xs|
  {
    if n == 0 then st else Step(Run(st, xs, n - 1), xs[n - 1])
  }

  /** A reconcile that does not go through leaves the allocation and the resolved links as they
      were; one that does stores a fresh allocation. */
  lemma {:induction false} AllocationChangesOnlyByWrites(st: Status, x: Input)
    ensures !Writes(st, x) ==>
      Step(st, x).allocatedPorts == st.allocatedPorts && Step(st, x).resolvedLinks == st.resolvedLinks
    ensures Writes(st, x) ==> Allocation(st, x) == Ok(Step(st, x).allocatedPorts)
  {
  }

  /** No reconcile from `i` to before `n` goes through. */
  ghost predicate NothingWritten(st: Status, xs: seq<Input>, i: nat, n: nat)
    requires i <= n <= |xs|
    decreases n
  {
    i < n ==> NothingWritten(st, xs, i, n - 1) && !Writes(Run(st, xs, n - 1), xs[n - 1])
  }

  /** Outages of any length leave the stored allocation and the resolved links alone. */
  lemma {:induction false} UnchangedByFailures(st: Status, xs: seq<Input>, i: nat, n: nat)
    requires i <= n <= |xs| && NothingWritten(st, xs, i, n)
    ensures Run(st, xs, n).allocatedPorts == Run(st, xs, i).allocatedPorts
    ensures Run(st, xs, n).resolvedLinks == Run(st, xs, i).resolvedLinks
    decreases n
  {
    if i < n {
      UnchangedByFailures(st, xs, i, n - 1);
      AllocationChangesOnlyByWrites(Run(st, xs, n - 1), xs[n - 1]);
    }
  }

  /** No run ever stores one port for two machine ports. */
  lemma {:induction false} NeverShared(st: Status, xs: seq<Input>, n: nat)
    requires n <= |xs| && PortAllocator.Injective(st.allocatedPorts)
    ensures PortAllocator.Injective(Run(st, xs, n).allocatedPorts)
  {
    if n > 0 {
      NeverShared(st, xs, n - 1);
      var before, x := Run(st, xs, n - 1), xs[n - 1];
      AllocationChangesOnlyByWrites(before, x);
      if Writes(before, x) {
        AllocatorProperties.AllocationSound(before.allocatedPorts, Requests(x.machinePorts), x.start, x.end);
      }
    }
  }

  ghost predicate DistinctMachinePortUids(machinePorts: seq<MachinePort>) {
    forall i, j | 0 <= i < j < |machinePorts| :: machinePorts[i].uid != machinePorts[j].uid
  }

  /** Nothing in `x` gives machine port `uid` a reason to leave `port`: it is still listed, the
      port is in the range, nobody else pins it, and it is not pinned elsewhere itself. */
  ghost predicate Undisturbed(x: Input, uid: string, port: int32) {
    && DistinctMachinePortUids(x.machinePorts)
    && x.start <= port <= x.end
    && (exists mp :: mp in x.machinePorts && mp.uid == uid)
    && (forall mp | mp in x.machinePorts && mp.uid == uid && mp.requestedPort.Some? :: mp.requestedPort.value == port)
    && (forall mp | mp in x.machinePorts && mp.requestedPort == Some(port) :: mp.uid == uid)
  }

  /** No reconcile from `i` to before `n` that goes through disturbs `uid`. */
  ghost predicate NeverDisturbed(st: Status, xs: seq<Input>, i: nat, n: nat, uid: string, port: int32)
    requires i <= n <= |xs|
    decreases n
  {
    i < n ==>
      NeverDisturbed(st, xs, i, n - 1, uid, port)
      && (Writes(Run(st, xs, n - 1), xs[n - 1]) ==> Undisturbed(xs[n - 1], uid, port))
  }

  ghost predicate Has(st: Status, uid: string, port: int32) {
    uid in st.allocatedPorts && st.allocatedPorts[uid] == port
  }

  /** Ports are stable over any run, failed reconciles included: a machine port keeps its port
      as long as no reconcile that goes through disturbs it. */
  lemma {:induction false} PortStable(st: Status, xs: seq<Input>, i: nat, n: nat, uid: string, port: int32)
    requires i <= n <= |xs| && PortAllocator.Injective(st.allocatedPorts)
    requires Has(Run(st, xs, i), uid, port) && NeverDisturbed(st, xs, i, n, uid, port)
    ensures Has(Run(st, xs, n), uid, port)
    decreases n
  {
    if i < n {
      PortStable(st, xs, i, n - 1, uid, port);
      StepAt(st, xs, i, n, uid, port);
    }
  }

  lemma {:induction false} StepAt(st: Status, xs: seq<Input>, i: nat, n: nat, uid: string, port: int32)
    requires i < n <= |xs| && PortAllocator.Injective(st.allocatedPorts)
    requires Has(Run(st, xs, n - 1), uid, port) && NeverDisturbed(st, xs, i, n, uid, port)
    ensures Has(Run(st, xs, n), uid, port)
  {
    NeverShared(st, xs, n - 1);
    StepStable(Run(st, xs, n - 1), xs[n - 1], uid, port);
  }

  lemma {:induction false} StepStable(st: Status, x: Input, uid: string, port: int32)
    requires PortAllocator.Injective(st.allocatedPorts) && Has(st, uid, port)
    requires Writes(st, x) ==> Undisturbed(x, uid, port)
    ensures Has(Step(st, x), uid, port)
  {
    AllocationChangesOnlyByWrites(st, x);
    if Writes(st, x) {
      UndisturbedKeeps(st.allocatedPorts, x, uid, port);
    }
  }

  lemma {:induction false} UndisturbedKeeps(before: Ports, x: Input, uid: string, port: int32)
    requires PortAllocator.Allocate(before, Requests(x.machinePorts), x.start, x.end).Ok?
    requires PortAllocator.Injective(before) && uid in before && before[uid] == port && Undisturbed(x, uid, port)
    ensures var after := PortAllocator.Allocate(before, Requests(x.machinePorts), x.start, x.end).value;
      uid in after && after[uid] == port
  {
    var mp :| mp in x.machinePorts && mp.uid == uid;
    var i :| 0 <= i < |x.machinePorts| && x.machinePorts[i] == mp;
    AllocatorProperties.PortKept(before, Requests(x.machinePorts), x.start, x.end, i);
  }

  // ---------------------------------------------------------------- end to end

  /** As many links are resolved as there are links with a port. */
  lemma {:induction false} ResolvedCount(links: seq<Link>, linkPorts: Ports, n: nat)
    requires n <= |links| && LinkMatching.DistinctLinks(links)
    ensures |Resolved(links, linkPorts, n)| == |LinkMatching.LinkUids(links[..n]) * linkPorts.Keys|
  {
    if n == 0 {
      assert LinkMatching.LinkUids(links[..n]) * linkPorts.Keys == {};
    } else {
      ResolvedCount(links, linkPorts, n - 1);
      UidsGrow(links, n);
      CountStep(LinkMatching.LinkUids(links[..n - 1]), linkPorts.Keys, links[n - 1].uid);
    }
  }

  lemma {:induction false} CountStep(uids: set<string>, keys: set<string>, u: string)
    requires u !in uids
    ensures |(uids + {u}) * keys| == |uids * keys| + if u in keys then 1 else 0
  {
    assert (uids + {u}) * keys == uids * keys + if u in keys then {u} else {};
  }

  /** A resolved link carries the port its link was given. */
  lemma {:induction false} ResolvedPorts(links: seq<Link>, linkPorts: Ports, n: nat)
    requires n <= |links|
    ensures forall r | r in Resolved(links, linkPorts, n) :: r.uid in linkPorts && r.port == linkPorts[r.uid]
  {
    if n > 0 {
      ResolvedPorts(links, linkPorts, n - 1);
    }
  }

  lemma {:induction false} UidsGrow(links: seq<Link>, n: nat)
    requires 0 < n <= |links| && LinkMatching.DistinctLinks(links)
    ensures LinkMatching.LinkUids(links[..n]) == LinkMatching.LinkUids(links[..n - 1]) + {links[n - 1].uid}
    ensures links[n - 1].uid !in LinkMatching.LinkUids(links[..n - 1])
  {
    assert links[..n] == links[..n - 1] + [links[n - 1]];
    assert forall l :: l in links[..n] <==> l in links[..n - 1] || l == links[n - 1];
  }

  /** The options the agent renders with right after this reconcile. */
  ghost function AgentOptions(st: Status, x: Input, apiPort: int32): Render.Options {
    Render.Options(st.resolvedLinks, apiPort, "0.0.0.0", x.start, x.end, x.start)
  }

  /** How many ports a group can use: one for each machine port, but no more than the range has. */
  ghost function UsablePorts(x: Input): int {
    if |x.machinePorts| <= x.end - x.start + 1 then |x.machinePorts| else x.end - x.start + 1
  }

  /** A reconcile that goes through gives every listed machine port a port of its own. The ports
      lie in the range; only where the allocator's cursor overflows, and only when the range is
      used up, are the others negative. */
  lemma {:induction false} AllocatedForAll(st: Status, x: Input)
    requires Writes(st, x)
    ensures var ports := Step(st, x).allocatedPorts;
      && PortAllocator.Injective(ports) && ports.Keys == PortAllocator.Uids(Requests(x.machinePorts))
      && (forall i | 0 <= i < |x.machinePorts| :: x.machinePorts[i].uid in ports)
      && (forall u | u in ports :: AllocatorProperties.InRangeOrOverflown(ports, ports[u], x.start, x.end))
      && (PortAllocator.InRange(ports, x.start, x.end) <==> |ports.Keys| <= x.end - x.start + 1)
  {
    var rs := Requests(x.machinePorts);
    AllocationChangesOnlyByWrites(st, x);
    FewUids(rs);
    AllocatorProperties.AllocationSound(st.allocatedPorts, rs, x.start, x.end);
    AllocatorProperties.OverflowIsNegative(st.allocatedPorts, rs, x.start, x.end);
    forall i | 0 <= i < |x.machinePorts|
      ensures x.machinePorts[i].uid in PortAllocator.Uids(rs)
    {
      assert rs[i] in rs;
    }
  }

  lemma {:induction false} UidIndex(machinePorts: seq<MachinePort>, uid: string) returns (i: nat)
    requires uid in PortAllocator.Uids(Requests(machinePorts))
    ensures i < |machinePorts| && machinePorts[i].uid == uid
  {
    var r :| r in Requests(machinePorts) && r.uid == uid;
    i :| 0 <= i < |Requests(machinePorts)| && Requests(machinePorts)[i] == r;
  }

  lemma {:induction false} SlotOfPort(machinePorts: seq<MachinePort>, ports: Ports, p: int32)
    requires ports.Keys == PortAllocator.Uids(Requests(machinePorts)) && p in ports.Values && p > 0
    ensures p in LinkMatching.SlotPorts(LinkMatching.Slots(machinePorts, ports, |machinePorts|))
  {
    var u :| u in ports && ports[u] == p;
    var i := UidIndex(machinePorts, u);
    LinkMatching.SlotsSpec(machinePorts, ports, |machinePorts|);
    assert LinkMatching.Slot(p, machinePorts[i].Key()) in LinkMatching.Slots(machinePorts, ports, |machinePorts|);
  }

  lemma {:induction false} PortOfSlot(machinePorts: seq<MachinePort>, ports: Ports, s: LinkMatching.Slot)
    requires s in LinkMatching.Slots(machinePorts, ports, |machinePorts|)
    ensures s.port > 0 && s.port in ports.Values
  {
    LinkMatching.SlotsSpec(machinePorts, ports, |machinePorts|);
    var i :| 0 <= i < |machinePorts| && LinkMatching.IsSlotOf(s, machinePorts[i], ports);
  }

  /** The ports links can get are the positive allocated ones. */
  lemma {:induction false} SlotPortsAre(machinePorts: seq<MachinePort>, ports: Ports)
    requires ports.Keys == PortAllocator.Uids(Requests(machinePorts))
    ensures LinkMatching.SlotPorts(LinkMatching.Slots(machinePorts, ports, |machinePorts|))
      == set p | p in ports.Values && p > 0
  {
    var slots := LinkMatching.Slots(machinePorts, ports, |machinePorts|);
    forall p | p in ports.Values && p > 0
      ensures p in LinkMatching.SlotPorts(slots)
    {
      SlotOfPort(machinePorts, ports, p);
    }
    forall s | s in slots
      ensures s.port in ports.Values && s.port > 0
    {
      PortOfSlot(machinePorts, ports, s);
    }
  }

  lemma {:induction false} UidCount(machinePorts: seq<MachinePort>)
    requires LinkMatching.DistinctMachinePorts(machinePorts)
    ensures |PortAllocator.Uids(Requests(machinePorts))| == |machinePorts|
  {
    if |machinePorts| > 0 {
      var init, last := machinePorts[..|machinePorts| - 1], machinePorts[|machinePorts| - 1];
      UidCount(init);
      assert Requests(machinePorts) == Requests(init) + [RequestOf(last)];
      PortAllocator.UidsAppend(Requests(init), RequestOf(last));
      if last.uid in PortAllocator.Uids(Requests(init)) {
        var i := UidIndex(init, last.uid);
      }
    }
  }

  /** After a reconcile that goes through there is a slot for every usable port, all in range. */
  lemma {:induction false} SlotsAfterWrite(st: Status, x: Input)
    requires Writes(st, x) && LinkMatching.DistinctMachinePorts(x.machinePorts)
    ensures var slots := LinkMatching.Slots(x.machinePorts, Step(st, x).allocatedPorts, |x.machinePorts|);
      |slots| == UsablePorts(x) && forall p | p in LinkMatching.SlotPorts(slots) :: x.start <= p <= x.end
  {
    var ports := Step(st, x).allocatedPorts;
    var slots := LinkMatching.Slots(x.machinePorts, ports, |x.machinePorts|);
    AllocatedForAll(st, x);
    UidCount(x.machinePorts);
    SlotPortsAre(x.machinePorts, ports);
    LinkMatching.SlotsDistinct(x.machinePorts, ports, |x.machinePorts|);
    LinkMatching.SlotCount(slots);
    InRangeCount(ports, x.start, x.end);
  }

  lemma {:induction false} InRangeCount(ports: Ports, start: int32, end: int32)
    requires 0 < start <= end && PortAllocator.Injective(ports)
    requires forall u | u in ports :: AllocatorProperties.InRangeOrOverflown(ports, ports[u], start, end)
    requires PortAllocator.InRange(ports, start, end) <==> |ports.Keys| <= end - start + 1
    ensures var inside := set p | p in ports.Values && p > 0;
      (forall p | p in inside :: start <= p <= end)
      && |inside| == if |ports.Keys| <= end - start + 1 then |ports.Keys| else end - start + 1
  {
    var inside := set p | p in ports.Values && p > 0;
    forall p | p in inside ensures start <= p <= end {
      var u :| u in ports && ports[u] == p;
      assert AllocatorProperties.InRangeOrOverflown(ports, ports[u], start, end);
    }
    if PortAllocator.InRange(ports, start, end) {
      PortAllocator.InjectiveCard(ports);
      assert inside == ports.Values;
    } else {
      var window := PortAllocator.Window(start, end);
      PortAllocator.WindowCard(start, end);
      var u :| u in ports && !(start <= ports[u] <= end);
      assert AllocatorProperties.InRangeOrOverflown(ports, ports[u], start, end);
      forall p: int32 ensures p in window <==> start <= p <= end {
        assert Wrap32(p) == p;
      }
      assert inside == window;
    }
  }

  /** Right after a reconcile that goes through, as many links are resolved as there are links or
      usable ports, whichever is less, and their ports lie in the range. */
  lemma {:induction false} ResolvedAfterWrite(st: Status, x: Input)
    requires Writes(st, x)
    requires LinkMatching.DistinctLinks(x.links) && LinkMatching.DistinctMachinePorts(x.machinePorts)
    ensures var resolved := Step(st, x).resolvedLinks;
      && |resolved| == (if |x.links| <= UsablePorts(x) then |x.links| else UsablePorts(x))
      && (forall r | r in resolved :: x.start <= r.port <= x.end)
  {
    AllocatedForAll(st, x);
    SlotsAfterWrite(st, x);
    ResolvedFor(x.links, x.machinePorts, Step(st, x).allocatedPorts);
  }

  /** The resolved links are as many as links get ports, and carry ports of the slots. */
  lemma {:induction false} ResolvedFor(links: seq<Link>, machinePorts: seq<MachinePort>, ports: Ports)
    requires LinkMatching.DistinctLinks(links) && LinkMatching.DistinctMachinePorts(machinePorts)
    requires PortAllocator.Injective(ports)
    ensures var resolved := Resolved(links, LinkMatching.Match(links, machinePorts, ports).granted, |links|);
      var slots := LinkMatching.Slots(machinePorts, ports, |machinePorts|);
      && |resolved| == (if |links| <= |slots| then |links| else |slots|)
      && (forall r | r in resolved :: r.port in LinkMatching.SlotPorts(slots))
  {
    var granted := LinkMatching.Match(links, machinePorts, ports).granted;
    LinkMatching.MaximumMatching(links, machinePorts, ports);
    ResolvedCount(links, granted, |links|);
    assert links[..|links|] == links;
    assert LinkMatching.LinkUids(links) * granted.Keys == granted.Keys;
    ResolvedPorts(links, granted, |links|);
  }

  /** End to end: after such a reconcile every resolved link's port lies in the port range the
      agent renders. Rendering succeeds exactly when the API port is not negative, each
      resolved link has a non-blank PD address, and the cluster names differ, and then lists
      one cluster per resolved link. */
  lemma {:induction false} EndToEnd(st: Status, x: Input, apiPort: int32)
    requires Writes(st, x)
    requires LinkMatching.DistinctLinks(x.links) && LinkMatching.DistinctMachinePorts(x.machinePorts)
    ensures var resolved := Step(st, x).resolvedLinks;
      var r := Render.Rendered(AgentOptions(Step(st, x), x, apiPort));
      && (r.Ok? <==> apiPort >= 0 && Render.DistinctNames(resolved) && forall l | l in resolved :: HasAddress(l))
      && (r.Ok? ==> && r.value[2] == Render.PortRange(x.start, x.end)
                    && (forall l | l in resolved :: x.start <= l.port <= x.end)
                    && Render.BackendClusters(resolved).Ok?
                    && |Render.BackendClusters(resolved).value| == |resolved|)
  {
    ResolvedAfterWrite(st, x);
    var resolved := Step(st, x).resolvedLinks;
    var o := AgentOptions(Step(st, x), x, apiPort);
    Render.RenderSucceedsIff(o);
    assert forall l | l in resolved :: Render.Usable(l) <==> HasAddress(l);
    if Render.Rendered(o).Ok? {
      Render.RangeCovers(o);
      Render.ClustersOfLinks(resolved);
    }
  }

  ghost predicate HasAddress(r: ResolvedLink) {
    exists i :: 0 <= i < |r.pdAddresses| && TrimSpace(r.pdAddresses[i]) != ""
  }

  // ---------------------------------------------------------------- link ports over runs

  /** Link `uid` is resolved, to `port` and nothing else. */
  ghost predicate ResolvedTo(st: Status, uid: string, port: int32) {
    && (exists r :: r in st.resolvedLinks && r.uid == uid)
    && (forall r | r in st.resolvedLinks && r.uid == uid :: r.port == port)
  }

  lemma {:induction false} ResolvedHas(links: seq<Link>, linkPorts: Ports, n: nat, i: nat)
    requires i < n <= |links| && links[i].uid in linkPorts
    ensures exists r :: r in Resolved(links, linkPorts, n) && r.uid == links[i].uid
  {
    if i < n - 1 {
      ResolvedHas(links, linkPorts, n - 1, i);
      var r :| r in Resolved(links, linkPorts, n - 1) && r.uid == links[i].uid;
      assert r in Resolved(links, linkPorts, n);
    } else {
      var r := Resolve(links[i], linkPorts[links[i].uid]);
      assert r in Resolved(links, linkPorts, n);
    }
  }

  /** The links' ports that reconcile `x` stores. */
  ghost function GrantedBy(x: Input, ports: Ports): Ports {
    LinkMatching.Match(x.links, x.machinePorts, ports).granted
  }

  ghost predicate Gives(granted: Ports, uid: string, port: int32) {
    uid in granted && granted[uid] == port
  }

  /** A listed link is resolved to the port it was given, if any. */
  lemma {:induction false} ResolvedToIff(st: Status, x: Input, ports: Ports, i: nat, port: int32)
    requires Writes(st, x) && ports == Step(st, x).allocatedPorts && i < |x.links|
    ensures ResolvedTo(Step(st, x), x.links[i].uid, port) <==> Gives(GrantedBy(x, ports), x.links[i].uid, port)
  {
    var granted := GrantedBy(x, ports);
    assert Step(st, x).resolvedLinks == Resolved(x.links, granted, |x.links|);
    ResolvedPorts(x.links, granted, |x.links|);
    if x.links[i].uid in granted {
      ResolvedHas(x.links, granted, |x.links|, i);
    }
  }

  /** The objects are distinct, and link `uid` and machine port `owner` are listed under the same
      name. */
  ghost predicate Namesakes(x: Input, uid: string, owner: string) {
    && LinkMatching.DistinctLinks(x.links) && LinkMatching.DistinctMachinePorts(x.machinePorts)
    && exists l, mp :: NamesakesAre(x, l, mp) && l.uid == uid && mp.uid == owner
  }

  ghost predicate NamesakesAre(x: Input, l: Link, mp: MachinePort) {
    l in x.links && mp in x.machinePorts && l.Key() == mp.Key()
  }

  lemma {:induction false} WriteResolvesNamesake(st: Status, x: Input, uid: string, owner: string, port: int32)
    requires Writes(st, x) && Namesakes(x, uid, owner)
    requires Has(Step(st, x), owner, port) && 0 < port
    ensures ResolvedTo(Step(st, x), uid, port)
  {
    var ports := Step(st, x).allocatedPorts;
    AllocatedForAll(st, x);
    var l, mp :| NamesakesAre(x, l, mp) && l.uid == uid && mp.uid == owner;
    var i :| 0 <= i < |x.links| && x.links[i] == l;
    var j :| 0 <= j < |x.machinePorts| && x.machinePorts[j] == mp;
    LinkMatching.SlotsSpec(x.machinePorts, ports, |x.machinePorts|);
    LinkMatching.MaximumMatching(x.links, x.machinePorts, ports);
    assert LinkMatching.Slot(port, l.Key()) in LinkMatching.Slots(x.machinePorts, ports, |x.machinePorts|);
    ResolvedToIff(st, x, ports, i, port);
  }

  lemma {:induction false} ResolvedStep(st: Status, x: Input, uid: string, owner: string, port: int32)
    requires Has(Step(st, x), owner, port)
    requires Writes(st, x) ==> Namesakes(x, uid, owner) && x.start <= port
    requires !Writes(st, x) ==> ResolvedTo(st, uid, port)
    ensures ResolvedTo(Step(st, x), uid, port)
  {
    if Writes(st, x) {
      WriteResolvesNamesake(st, x, uid, owner, port);
    } else {
      AllocationChangesOnlyByWrites(st, x);
    }
  }

  /** Every reconcile from `i` to before `n` that goes through lists the two as namesakes. */
  ghost predicate StayNamesakes(st: Status, xs: seq<Input>, i: nat, n: nat, uid: string, owner: string)
    requires i <= n <= |xs|
    decreases n
  {
    i < n ==>
      StayNamesakes(st, xs, i, n - 1, uid, owner)
      && (Writes(Run(st, xs, n - 1), xs[n - 1]) ==> Namesakes(xs[n - 1], uid, owner))
  }

  lemma {:induction false} ResolvedAt(st: Status, xs: seq<Input>, i: nat, n: nat, uid: string, owner: string,
          port: int32)
    requires i < n <= |xs| && Has(Run(st, xs, n), owner, port) && ResolvedTo(Run(st, xs, n - 1), uid, port)
    requires NeverDisturbed(st, xs, i, n, owner, port) && StayNamesakes(st, xs, i, n, uid, owner)
    ensures ResolvedTo(Run(st, xs, n), uid, port)
  {
    ResolvedStep(Run(st, xs, n - 1), xs[n - 1], uid, owner, port);
  }

  /** Link ports are stable over any run, failures included: once a link is resolved to the port of
      its namesake machine port, as by any reconcile that goes through, it stays resolved to it
      while the two stay listed and the machine port undisturbed. */
  lemma {:induction false} LinkPortStable(st: Status, xs: seq<Input>, i: nat, n: nat, uid: string, owner: string,
          port: int32)
    requires i <= n <= |xs| && PortAllocator.Injective(st.allocatedPorts)
    requires Has(Run(st, xs, i), owner, port) && ResolvedTo(Run(st, xs, i), uid, port)
    requires NeverDisturbed(st, xs, i, n, owner, port) && StayNamesakes(st, xs, i, n, uid, owner)
    ensures Has(Run(st, xs, n), owner, port) && ResolvedTo(Run(st, xs, n), uid, port)
    decreases n
  {
    if i < n {
      LinkPortStable(st, xs, i, n - 1, uid, owner, port);
      PortStable(st, xs, i, n, owner, port);
      ResolvedAt(st, xs, i, n, uid, owner, port);
    }
  }

  /** Without a namesake nothing of the kind holds. What such a link is resolved to depends on the
      other links alone: exactly the left-over port with as many smaller ones as there are links
      without a namesake before it. So it keeps a port exactly as long as that is its rank. */
  lemma {:induction false} LeftoverResolvedIff(st: Status, x: Input, i: nat, port: int32)
    requires Writes(st, x) && i < |x.links|
    requires LinkMatching.DistinctLinks(x.links) && LinkMatching.DistinctMachinePorts(x.machinePorts)
    requires LinkMatching.Nameless(SlotsOf(st, x), x.links[i])
    ensures var left := LinkMatching.LeftPorts(x.links, SlotsOf(st, x));
      ResolvedTo(Step(st, x), x.links[i].uid, port)
      <==> port in left && |LinkMatching.Below(left, port)| == LinkMatching.NamelessBefore(x.links, SlotsOf(st, x), i)
  {
    AllocatedForAll(st, x);
    ResolvedToIff(st, x, Step(st, x).allocatedPorts, i, port);
    LinkMatching.LeftoverExactly(x.links, x.machinePorts, Step(st, x).allocatedPorts, i, port);
  }

  /** The slots of the allocation that reconcile `x` stores. */
  ghost function SlotsOf(st: Status, x: Input): seq<LinkMatching.Slot> {
    LinkMatching.Slots(x.machinePorts, Step(st, x).allocatedPorts, |x.machinePorts|)
  }

  /** Reconciling the same machine ports again goes through and keeps the allocation, whatever
      links are listed. */
  lemma {:induction false} WritesAgain(st: Status, x: Input, links: seq<Link>)
    requires Writes(st, x)
    ensures var again := x.(links := links);
      && Writes(Step(st, x), again)
      && Step(Step(st, x), again).allocatedPorts == Step(st, x).allocatedPorts
  {
    AllocatorProperties.Idempotent(st.allocatedPorts, Requests(x.machinePorts), x.start, x.end);
  }

  /** Such a run: nothing happens but that a link without a namesake joins in front, and the link
      is no longer resolved to the port it had. */
  lemma {:induction false} LeftoverMoves(st: Status, x: Input, newcomer: Link, i: nat, port: int32)
    requires Writes(st, x) && i < |x.links| && LinkMatching.DistinctMachinePorts(x.machinePorts)
    requires LinkMatching.DistinctLinks(x.links)
    requires LinkMatching.DistinctLinks(LinkMatching.Joined(x.links, newcomer, i))
    requires LinkMatching.Nameless(SlotsOf(st, x), x.links[i]) && LinkMatching.Nameless(SlotsOf(st, x), newcomer)
    requires ResolvedTo(Step(st, x), x.links[i].uid, port)
    ensures var again := x.(links := LinkMatching.Joined(x.links, newcomer, i));
      && Writes(Step(st, x), again)
      && Step(Step(st, x), again).allocatedPorts == Step(st, x).allocatedPorts
      && !ResolvedTo(Step(Step(st, x), again), x.links[i].uid, port)
  {
    var ports := Step(st, x).allocatedPorts;
    var again := x.(links := LinkMatching.Joined(x.links, newcomer, i));
    WritesAgain(st, x, again.links);
    AllocatedForAll(st, x);
    ResolvedToIff(st, x, ports, i, port);
    assert again.links[i + 1] == x.links[i];
    ResolvedToIff(Step(st, x), again, ports, i + 1, port);
    LinkMatching.NewcomerMoves(x.links, newcomer, x.machinePorts, ports, i);
  }

  /** An instance: one machine port n/p and the link n/w, then also the link n/v. */
  ghost function OneLink(): Input {
    Input(true, 1000, 2000, None, true, [LinkNamed("w")], true, [MachinePort("p", "n", "p", None, "")],
          true, true, true, true)
  }

  function LinkNamed(name: string): Link {
    Link(name, "n", name, "", "", "", [], "", None)
  }

  lemma {:induction false} OneLinkWrites(st: Status)
    ensures Writes(st, OneLink())
  {
    var x := OneLink();
    var rs := Requests(x.machinePorts);
    FewUids(rs);
    assert rs == [RequestOf(x.machinePorts[0])];
    forall r | r in AllocatorProperties.Deduped(rs) ensures r.pin.None? {
      assert PortAllocator.Dedupe(rs, 1) == PortAllocator.Dedupe(rs, 0) + [PortAllocator.Named(rs[0])];
    }
    AllocatorProperties.ExactSuccess(st.allocatedPorts, rs, x.start, x.end);
  }

  lemma {:induction false} OneLinkNameless(st: Status, l: Link)
    requires l == LinkNamed("v") || l == LinkNamed("w")
    ensures LinkMatching.Nameless(SlotsOf(st, OneLink()), l)
  {
    var x := OneLink();
    LinkMatching.SlotsSpec(x.machinePorts, Step(st, x).allocatedPorts, 1);
    forall s | s in SlotsOf(st, x) ensures s.key != l.Key() {
      assert s.key == x.machinePorts[0].Key();
      assert x.machinePorts[0].Key()[2] == 'p' && l.Key()[2] in "vw";
    }
  }

  lemma {:induction false} OneLinkResolved(st: Status) returns (port: int32)
    ensures ResolvedTo(Step(st, OneLink()), "w", port) && 1000 <= port <= 2000
  {
    var x := OneLink();
    OneLinkWrites(st);
    ResolvedAfterWrite(st, x);
    var r := Step(st, x).resolvedLinks[0];
    assert r in Step(st, x).resolvedLinks;
    port := r.port;
    var granted := GrantedBy(x, Step(st, x).allocatedPorts);
    ResolvedPorts(x.links, granted, 1);
    assert Resolved(x.links, granted, 0) == [];
    assert r.uid == "w";
    ResolvedToIff(st, x, Step(st, x).allocatedPorts, 0, port);
  }

  /** In whatever status, reconciling with n/w alone resolves it to some port, and reconciling once
      more with n/v in front of it takes that port away. */
  lemma {:induction false} LeftoverMovesInstance(st: Status) returns (port: int32)
    ensures var x := OneLink();
      var again := x.(links := [LinkNamed("v"), LinkNamed("w")]);
      && Writes(st, x) && ResolvedTo(Step(st, x), "w", port)
      && Writes(Step(st, x), again)
      && Step(Step(st, x), again).allocatedPorts == Step(st, x).allocatedPorts
      && !ResolvedTo(Step(Step(st, x), again), "w", port)
  {
    var x := OneLink();
    OneLinkWrites(st);
    port := OneLinkResolved(st);
    OneLinkNameless(st, LinkNamed("v"));
    OneLinkNameless(st, LinkNamed("w"));
    var both := LinkMatching.Joined(x.links, LinkNamed("v"), 0);
    assert both == [LinkNamed("v"), LinkNamed("w")];
    assert both[0].Key()[2] != both[1].Key()[2];
    LeftoverMoves(st, x, LinkNamed("v"), 0, port);
  }
}
