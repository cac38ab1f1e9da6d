/** When a machine port counts as ready (internal/controller/machinegroup_controller.go,
    syncMachinePortStatuses, phases only), and that both cloud providers get it there
    (internal/cloud/noop/manager.go; CloudExposure for AWS). */
module Readiness {
  import opened Prelude
  import opened Sorting
  import opened Api
  import opened CloudExposure
  import opened CloudConvergence
  import AllocatorProperties
  import Controller
  import LoadBalancerNames

  datatype PortPhase = Pending | Allocated | Ready

  type LoadBalancers = seq<LoadBalancerSpec>

  // ---------------------------------------------------------------- specification

  /** Some entry shows a listener on the load balancer called `name`. */
  predicate HasListener(statuses: seq<PortStatus>, name: string) {
    exists i :: 0 <= i < |statuses| && Shows(statuses[i], name)
  }

  predicate Shows(s: PortStatus, name: string) {
    s.name == name && TrimSpace(s.listenerID) != ""
  }

  ghost function ReadyCount(lbs: LoadBalancers, statuses: seq<PortStatus>, n: nat): nat
    requires n <= |lbs|
  {
    if n == 0 then 0
    else ReadyCount(lbs, statuses, n - 1) + if HasListener(statuses, lbs[n - 1].name) then 1 else 0
  }

  /** The port has a listener on every load balancer. */
  ghost predicate Everywhere(lbs: LoadBalancers, statuses: seq<PortStatus>) {
    forall i | 0 <= i < |lbs| :: HasListener(statuses, lbs[i].name)
  }

  /** Ready means: a port is assigned, and exposure is switched off or it worked and every load
      balancer has a listener for the port. */
  ghost predicate IsReady(lbs: LoadBalancers, uid: string, ports: Ports, cloud: Statuses, cloudOk: bool) {
    uid in ports && (lbs == [] || (cloudOk && Everywhere(lbs, StatusOf(cloud, uid))))
  }

  /** Spelled out: for each load balancer there is an entry of its name, with a listener. */
  lemma {:induction false} ReadyIff(lbs: LoadBalancers, uid: string, ports: Ports, cloud: Statuses, cloudOk: bool)
    ensures IsReady(lbs, uid, ports, cloud, cloudOk) <==>
      && uid in ports
      && (lbs != [] ==>
            && cloudOk && uid in cloud
            && forall l | l in lbs :: exists e :: e in cloud[uid] && e.name == l.name && TrimSpace(e.listenerID) != "")
  {
    var statuses := StatusOf(cloud, uid);
    forall l | l in lbs
      ensures HasListener(statuses, l.name)
        <==> exists e :: e in statuses && e.name == l.name && TrimSpace(e.listenerID) != ""
    {
      if HasListener(statuses, l.name) {
        var i :| 0 <= i < |statuses| && Shows(statuses[i], l.name);
        assert statuses[i] in statuses;
      }
      if e :| e in statuses && e.name == l.name && TrimSpace(e.listenerID) != "" {
        var i :| 0 <= i < |statuses| && statuses[i] == e;
        assert Shows(statuses[i], l.name);
      }
    }
    assert Everywhere(lbs, statuses) <==> forall l | l in lbs :: HasListener(statuses, l.name);
    if lbs != [] {
      assert lbs[0] in lbs;
    }
  }

  // ---------------------------------------------------------------- the controller's side

  method CountReadyPortLoadBalancers(lbs: LoadBalancers, statuses: seq<PortStatus>) returns (count: nat)
    ensures count == ReadyCount(lbs, statuses, |lbs|)
  {
    var readyByName: set<string> := {};
    for i := 0 to |statuses|
      invariant forall name :: name in readyByName <==> exists k :: 0 <= k < i && Shows(statuses[k], name)
    {
      if TrimSpace(statuses[i].listenerID) == "" {
        continue;
      }
      readyByName := readyByName + {statuses[i].name};
    }
    count := 0;
    for i := 0 to |lbs|
      invariant count == ReadyCount(lbs, statuses, i)
    {
      if lbs[i].name in readyByName {
        count := count + 1;
      }
    }
  }

  lemma {:induction false} AllReady(lbs: LoadBalancers, statuses: seq<PortStatus>, n: nat)
    requires n <= |lbs|
    ensures ReadyCount(lbs, statuses, n) <= n
    ensures ReadyCount(lbs, statuses, n) == n <==> forall i | 0 <= i < n :: HasListener(statuses, lbs[i].name)
  {
    if n > 0 {
      AllReady(lbs, statuses, n - 1);
    }
  }

  /** The phase of one machine port. */
  method PhaseOf(lbs: LoadBalancers, uid: string, ports: Ports, cloud: Statuses, cloudOk: bool)
    returns (phase: PortPhase)
    ensures phase.Ready? <==> IsReady(lbs, uid, ports, cloud, cloudOk)
    ensures phase.Pending? <==> uid !in ports
  {
    var exposureDisabled := |lbs| == 0;
    phase := Pending;
    if uid in ports {
      phase := Allocated;
      if exposureDisabled {
        phase := Ready;
      } else if cloudOk {
        var ready := CountReadyPortLoadBalancers(lbs, StatusOf(cloud, uid));
        AllReady(lbs, StatusOf(cloud, uid), |lbs|);
        if |lbs| > 0 && ready == |lbs| {
          phase := Ready;
        }
      }
    }
  }

  /** syncMachinePortStatuses: the phases written, up to the first status patch that fails.
      `patched` says which of the patches get through. */
  method SyncMachinePortStatuses(lbs: LoadBalancers, machinePorts: seq<MachinePort>, ports: Ports, cloud: Statuses,
                                 cloudOk: bool, patched: seq<bool>)
    returns (phases: seq<PortPhase>, ok: bool)
    requires |patched| == |machinePorts|
    ensures |phases| <= |machinePorts| && forall i | 0 <= i < |phases| :: patched[i]
    ensures ok <==> |phases| == |machinePorts|
    ensures !ok ==> !patched[|phases|]
    ensures forall i | 0 <= i < |phases| ::
      && (phases[i].Ready? <==> IsReady(lbs, machinePorts[i].uid, ports, cloud, cloudOk))
      && (phases[i].Pending? <==> machinePorts[i].uid !in ports)
  {
    phases := [];
    for i := 0 to |machinePorts|
      invariant |phases| == i && forall k | 0 <= k < i :: patched[k]
      invariant forall k | 0 <= k < i ::
        && (phases[k].Ready? <==> IsReady(lbs, machinePorts[k].uid, ports, cloud, cloudOk))
        && (phases[k].Pending? <==> machinePorts[k].uid !in ports)
    {
      var phase := PhaseOf(lbs, machinePorts[i].uid, ports, cloud, cloudOk);
      if !patched[i] {
        return phases, false;
      }
      phases := phases + [phase];
    }
    ok := true;
  }

  // ---------------------------------------------------------------- the provider without a cloud

  function NoopLb(group: string, l: LoadBalancerSpec): LbStatus {
    LbStatus(l.name, l.scope, "noop://" + group + "/" + l.name, l.name + ".noop.local")
  }

  function NoopEntry(lb: LbStatus, port: int32): PortStatus {
    PortStatus(lb.name, lb.scope, lb.lbID, lb.address,
               "noop-listener://" + lb.name + "/" + Itoa(port), "noop-backend://" + lb.name + "/" + Itoa(port))
  }

  /** `entries` are the entries of a machine port with this port. */
  predicate NoopEntries(entries: seq<PortStatus>, lbs: seq<LbStatus>, port: int32) {
    |entries| == |lbs| && forall i | 0 <= i < |lbs| :: entries[i] == NoopEntry(lbs[i], port)
  }

  /** The entries of the noop provider for one UID. */
  ghost predicate NoopServes(cloud: Statuses, lbStatuses: seq<LbStatus>, ports: Ports, uid: string) {
    && (uid in cloud <==> |lbStatuses| > 0 && uid in ports && ports[uid] > 0)
    && (uid in cloud && uid in ports ==> NoopEntries(cloud[uid], lbStatuses, ports[uid]))
  }

  /** EnsureMachineGroup of the noop provider. */
  method NoopEnsureMachineGroup(group: string, lbs: LoadBalancers, machinePorts: seq<MachinePort>, ports: Ports)
    returns (lbStatuses: seq<LbStatus>, cloud: Statuses)
    ensures |lbStatuses| == |lbs| && forall i | 0 <= i < |lbs| :: lbStatuses[i] == NoopLb(group, lbs[i])
    ensures forall u | u in cloud :: u in ports && exists i :: 0 <= i < |machinePorts| && machinePorts[i].uid == u
    ensures forall i | 0 <= i < |machinePorts| :: NoopServes(cloud, lbStatuses, ports, machinePorts[i].uid)
  {
    lbStatuses, cloud := [], map[];
    if |lbs| == 0 {
      return;
    }
    for i := 0 to |lbs|
      invariant |lbStatuses| == i && forall k | 0 <= k < i :: lbStatuses[k] == NoopLb(group, lbs[k])
    {
      lbStatuses := lbStatuses + [NoopLb(group, lbs[i])];
    }
    for i := 0 to |machinePorts|
      invariant forall u | u in cloud :: u in ports && exists k :: 0 <= k < i && machinePorts[k].uid == u
      invariant forall u | u in cloud && u in ports :: ports[u] > 0 && NoopEntries(cloud[u], lbStatuses, ports[u])
      invariant forall k | 0 <= k < i && machinePorts[k].uid in ports && ports[machinePorts[k].uid] > 0 ::
        machinePorts[k].uid in cloud
    {
      var uid := machinePorts[i].uid;
      if uid in ports && ports[uid] > 0 {
        var entries := [];
        for k := 0 to |lbStatuses|
          invariant NoopEntries(entries, lbStatuses[..k], ports[uid])
        {
          entries := entries + [NoopEntry(lbStatuses[k], ports[uid])];
        }
        assert lbStatuses[..|lbStatuses|] == lbStatuses;
        cloud := cloud[uid := entries];
      }
    }
  }

  /** What the provider makes up for port `port` on load balancer `l`. */
  lemma {:induction false} NoopEntryIs(group: string, l: LoadBalancerSpec, port: int32)
    ensures var e := NoopEntry(NoopLb(group, l), port);
      && e.name == l.name && e.scope == l.scope
      && e.lbID == "noop://" + group + "/" + l.name && e.address == l.name + ".noop.local"
      && e.listenerID == "noop-listener://" + l.name + "/" + Itoa(port)
      && e.backendID == "noop-backend://" + l.name + "/" + Itoa(port)
  {
  }

  lemma {:induction false} NoopListener(group: string, l: LoadBalancerSpec, port: int32)
    ensures Shows(NoopEntry(NoopLb(group, l), port), l.name)
  {
    var e := NoopEntry(NoopLb(group, l), port);
    assert e.listenerID[0] == 'n';
    TrimKeeps(e.listenerID, 0);
  }

  /** A string with a character that is no space is not trimmed away. */
  lemma {:induction false} TrimKeeps(s: string, i: nat)
    requires i < |s| && !IsSpace(s[i])
    ensures TrimSpace(s) != ""
    decreases |s|
  {
    assert TrimSpace(s) == TrimFront(s);
    if IsSpace(s[0]) {
      TrimKeeps(s[1..], i - 1);
    } else if IsSpace(s[|s| - 1]) {
      assert TrimFront(s) == TrimBack(s) == TrimFront(s[..|s| - 1]);
      TrimKeeps(s[..|s| - 1], i);
      assert TrimSpace(s[..|s| - 1]) == TrimFront(s[..|s| - 1]);
    } else {
      assert TrimFront(s) == TrimBack(s) == s;
    }
  }

  lemma {:induction false} NoopReadyIff(group: string, lbs: LoadBalancers, lbStatuses: seq<LbStatus>, ports: Ports,
                                        cloud: Statuses, uid: string)
    requires |lbStatuses| == |lbs| && forall i | 0 <= i < |lbs| :: lbStatuses[i] == NoopLb(group, lbs[i])
    requires uid in ports && NoopServes(cloud, lbStatuses, ports, uid)
    ensures IsReady(lbs, uid, ports, cloud, true) <==> lbs == [] || ports[uid] > 0
  {
    if uid in cloud {
      forall k | 0 <= k < |lbs|
        ensures HasListener(StatusOf(cloud, uid), lbs[k].name)
      {
        NoopListener(group, lbs[k], ports[uid]);
        assert Shows(cloud[uid][k], lbs[k].name);
      }
    } else if lbs != [] {
      assert !HasListener(StatusOf(cloud, uid), lbs[0].name);
    }
  }

  /** One whole pass without a cloud. After a reconcile that goes through, with load balancers as
      its specification normalises to, a listed machine port is ready exactly when exposure is off
      or its port lies in the range; it does unless the allocator's cursor has overflown. */
  method NoopPass(group: string, ghost st: Controller.Status, x: Controller.Input, ports: Ports, patched: seq<bool>)
    returns (lbs: LoadBalancers, phases: seq<PortPhase>, ok: bool)
    requires Controller.Writes(st, x) && ports == Controller.Step(st, x).allocatedPorts
    requires |patched| == |x.machinePorts|
    ensures x.loadBalancers.None? ==> lbs == LoadBalancerNames.DEFAULT
    ensures x.loadBalancers.Some? ==> LoadBalancerNames.IsNormalized(x.loadBalancers.value, Ok(lbs))
    ensures |phases| <= |x.machinePorts| && (ok <==> |phases| == |x.machinePorts|)
    ensures forall i | 0 <= i < |phases| ::
      && x.machinePorts[i].uid in ports
      && (phases[i].Ready? <==> lbs == [] || x.start <= ports[x.machinePorts[i].uid] <= x.end)
  {
    Controller.AllocatedForAll(st, x);
    var normalized := LoadBalancerNames.NormalizeLoadBalancers(x.loadBalancers);
    Controller.NormalizedOnce(x.loadBalancers, normalized);
    lbs := normalized.value;
    var lbStatuses, cloud := NoopEnsureMachineGroup(group, lbs, x.machinePorts, ports);
    phases, ok := SyncMachinePortStatuses(lbs, x.machinePorts, ports, cloud, true, patched);
    forall i | 0 <= i < |x.machinePorts|
      ensures IsReady(lbs, x.machinePorts[i].uid, ports, cloud, true)
        <==> lbs == [] || x.start <= ports[x.machinePorts[i].uid] <= x.end
    {
      var uid := x.machinePorts[i].uid;
      assert AllocatorProperties.InRangeOrOverflown(ports, ports[uid], x.start, x.end);
      NoopReadyIff(group, lbs, lbStatuses, ports, cloud, uid);
    }
  }

  // ---------------------------------------------------------------- AWS

  /** No listener, existing or yet to come, has a blank identifier. */
  ghost predicate Identified(c: Context, st: CloudState) {
    && (forall lb, p :: TrimSpace(c.listenerArn(lb, p)) != "")
    && (forall lb | lb in st.listeners :: TableIdentified(st.listeners[lb]))
  }

  ghost predicate TableIdentified(t: Table) {
    forall p | p in t :: TrimSpace(t[p].arn) != ""
  }

  lemma {:induction false} PassIdentified(c: Context, st: CloudState, l: LoadBalancerSpec, desired: set<int32>,
          after: CloudState)
    requires Lists(c) && Identified(c, st) && Pass(c, st, l, desired, after)
    ensures Identified(c, WithLb(c, st, l)) && Identified(c, after)
  {
    var s, lb := WithLb(c, st, l), LbOf(c, st, l).arn;
    assert TableIdentified(ListenersOf(s, lb));
    assert TableIdentified(ListenersAfter(c, s, lb, l, desired));
  }

  lemma {:induction false} TraceIdentified(c: Context, lbs: LoadBalancers, desired: set<int32>, trace: seq<CloudState>,
          n: nat, k: nat)
    requires Lists(c) && k <= n <= |lbs| && n < |trace| && Steps(c, lbs, desired, trace, n) && Identified(c, trace[0])
    ensures Identified(c, trace[k])
  {
    if k > 0 {
      TraceIdentified(c, lbs, desired, trace, n, k - 1);
      StepAt(c, lbs, desired, trace, n, k - 1);
      PassIdentified(c, trace[k - 1], lbs[k - 1], desired, trace[k]);
    }
  }

  /** After an exposure run without error every machine port with a port is ready. */
  lemma {:induction false} AwsReady(c: Context, lbs: LoadBalancers, machinePorts: seq<MachinePort>, ports: Ports,
          st: CloudState, trace: seq<CloudState>, after: CloudState, out: Exposure, i: nat)
    requires Lists(c) && Identified(c, st) && Desired(machinePorts, ports, |machinePorts|).Ok?
    requires Completed(c, lbs, Desired(machinePorts, ports, |machinePorts|).value, st, trace, after, out)
    requires i < |machinePorts| && machinePorts[i].uid in ports && ports[machinePorts[i].uid] > 0
    ensures IsReady(lbs, machinePorts[i].uid, ports, out.ports, true)
  {
    DesiredSpec(machinePorts, ports, |machinePorts|);
    var desired := Desired(machinePorts, ports, |machinePorts|).value;
    var uid := machinePorts[i].uid;
    var p := ports[uid];
    assert p in desired && desired[p] == uid;
    forall k | 0 <= k < |lbs|
      ensures HasListener(StatusOf(out.ports, uid), lbs[k].name)
    {
      ShownOn(c, lbs, desired, st, trace, after, out, p, k);
    }
  }

  lemma {:induction false} ShownOn(c: Context, lbs: LoadBalancers, desired: map<int32, string>, st: CloudState,
                trace: seq<CloudState>, after: CloudState, out: Exposure, p: int32, k: nat)
    requires Lists(c) && Identified(c, st) && Completed(c, lbs, desired, st, trace, after, out)
    requires p in desired && k < |lbs|
    ensures HasListener(StatusOf(out.ports, desired[p]), lbs[k].name)
  {
    PassesAreSteps(c, lbs, desired.Keys, trace, |lbs|);
    TraceIdentified(c, lbs, desired.Keys, trace, |lbs|, k);
    StepAt(c, lbs, desired.Keys, trace, |lbs|, k);
    PassIdentified(c, trace[k], lbs[k], desired.Keys, trace[k + 1]);
    var e := EntryIn(c, p)(trace[k], lbs[k]);
    EntryShows(c, trace[k], lbs[k], p);
    var raw := EntriesUpTo(c, lbs, trace, p, |lbs|);
    assert raw[k] == e;
    EntryListed(raw, e);
    var entries := out.ports[desired[p]];
    var j :| 0 <= j < |entries| && entries[j] == e;
  }

  lemma {:induction false} EntryShows(c: Context, st: CloudState, l: LoadBalancerSpec, p: int32)
    requires Lists(c) && Identified(c, WithLb(c, st, l))
    ensures Shows(EntryIn(c, p)(st, l), l.name)
  {
    assert TableIdentified(ListenersOf(WithLb(c, st, l), LbOf(c, st, l).arn));
  }

  lemma {:induction false} EntryListed(raw: seq<PortStatus>, e: PortStatus)
    requires e in raw
    ensures e in Sort(raw, ByEntryName)
  {
    EntryOrder();
    SortSorts(raw, ByEntryName);
  }
}
