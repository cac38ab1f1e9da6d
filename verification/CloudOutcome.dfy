/** What a completed exposure run leaves behind, read off the spec and the cloud: which load
    balancers face the internet, which ports are exposed, and what the statuses say
    (internal/cloud/aws/manager.go). */
module CloudOutcome {
  import opened Prelude
  import opened Sorting
  import opened Api
  import opened CloudExposure
  import opened CloudConvergence
  import LoadBalancerNames

  // ---------------------------------------------------------------- load balancers

  /** The load balancer of `l` in state `st`: a network load balancer that faces the internet exactly
      if the scope says external, in any case and with any spaces around it. */
  ghost predicate HasLb(c: Context, st: CloudState, l: LoadBalancerSpec) {
    && c.lbName(l) in st.lbs && st.lbs[c.lbName(l)].network
    && (st.lbs[c.lbName(l)].internetFacing <==> ToLower(TrimSpace(l.scope)) == "external")
  }

  lemma {:induction false} PassMakesLb(c: Context, st: CloudState, l: LoadBalancerSpec, desired: set<int32>,
          after: CloudState)
    requires Lists(c) && Pass(c, st, l, desired, after)
    ensures HasLb(c, after, l) && after.lbs[c.lbName(l)] == LbOf(c, st, l)
  {
    ExternalIff(l);
  }

  lemma {:induction false} LbsStay(c: Context, lbs: seq<LoadBalancerSpec>, desired: set<int32>, trace: seq<CloudState>,
          n: nat, k: nat, name: string)
    requires Lists(c) && k <= n <= |lbs| && n < |trace| && Steps(c, lbs, desired, trace, n)
    requires name in trace[k].lbs
    ensures name in trace[n].lbs && trace[n].lbs[name] == trace[k].lbs[name]
    decreases n
  {
    if k < n {
      LbsStay(c, lbs, desired, trace, n - 1, k, name);
      StepAt(c, lbs, desired, trace, n, n - 1);
      PassLeaves(c, trace[n - 1], lbs[n - 1], desired, trace[n]);
    }
  }

  /** After a completed run every load balancer is there, of the right type and scheme. */
  lemma {:induction false} SchemeWritten(c: Context, lbs: seq<LoadBalancerSpec>, desired: map<int32, string>,
          st: CloudState, trace: seq<CloudState>, after: CloudState, out: Exposure, i: nat)
    requires Lists(c) && Completed(c, lbs, desired, st, trace, after, out) && i < |lbs|
    ensures HasLb(c, after, lbs[i]) && after.lbs[c.lbName(lbs[i])] == LbOf(c, trace[i], lbs[i])
    ensures c.lbName(lbs[i]) in st.lbs ==> after.lbs[c.lbName(lbs[i])] == st.lbs[c.lbName(lbs[i])]
  {
    var n := |lbs|;
    PassesAreSteps(c, lbs, desired.Keys, trace, n);
    StepAt(c, lbs, desired.Keys, trace, n, i);
    PassMakesLb(c, trace[i], lbs[i], desired.Keys, trace[i + 1]);
    LbsStay(c, lbs, desired.Keys, trace, n, i + 1, c.lbName(lbs[i]));
    if c.lbName(lbs[i]) in st.lbs {
      LbsStay(c, lbs, desired.Keys, trace, n, 0, c.lbName(lbs[i]));
    }
  }

  /** Exposing the default list opens nothing to the internet. */
  lemma {:induction false} DefaultStaysInternal(c: Context, desired: map<int32, string>, st: CloudState,
          trace: seq<CloudState>, after: CloudState, out: Exposure, i: nat)
    requires Lists(c) && i < |LoadBalancerNames.DEFAULT|
    requires Completed(c, LoadBalancerNames.DEFAULT, desired, st, trace, after, out)
    ensures var name := c.lbName(LoadBalancerNames.DEFAULT[i]);
      name in after.lbs && !after.lbs[name].internetFacing
  {
    LoadBalancerNames.DefaultIsInternal();
    SchemeWritten(c, LoadBalancerNames.DEFAULT, desired, st, trace, after, out, i);
    assert "internal"[0] != "external"[0];
  }

  /** Exposing a list once normalized, the scopes as they were written before decide. */
  lemma {:induction false} SchemeAsWritten(c: Context, s: seq<LoadBalancerSpec>, lbs: seq<LoadBalancerSpec>,
          desired: map<int32, string>, st: CloudState, trace: seq<CloudState>, after: CloudState, out: Exposure, i: nat)
    requires Lists(c) && Completed(c, lbs, desired, st, trace, after, out)
    requires LoadBalancerNames.IsNormalized(s, Ok(lbs)) && i < |s|
    ensures |lbs| == |s| && c.lbName(lbs[i]) in after.lbs
    ensures after.lbs[c.lbName(lbs[i])].internetFacing <==> ToLower(TrimSpace(s[i].scope)) == "external"
  {
    LoadBalancerNames.NamedAsWritten(s, lbs, i);
    SchemeWritten(c, lbs, desired, st, trace, after, out, i);
    SameScheme(s[i], lbs[i]);
  }

  lemma {:induction false} SameScheme(s: LoadBalancerSpec, l: LoadBalancerSpec)
    requires l.scope == LoadBalancerNames.WrittenScope(s)
    ensures ToLower(TrimSpace(l.scope)) == "external" <==> ToLower(TrimSpace(s.scope)) == "external"
  {
    TrimEnds(s.scope);
    TrimFixed(TrimSpace(s.scope));
    TrimFixed("internal");
    ExternalIff(s);
    ExternalIff(l);
  }

  // ---------------------------------------------------------------- exposed ports

  lemma {:induction false} IsTcpIff(protocol: string)
    ensures IsTcp(protocol) <==> TrimSpace(protocol) == "" || ToLower(TrimSpace(protocol)) == "tcp"
  {
    var p := TrimSpace(protocol);
    if |p| == 3 {
      ToLowerAt(p, 0);
      ToLowerAt(p, 1);
      ToLowerAt(p, 2);
      assert ToLower(p) == [Lower(p[0]), Lower(p[1]), Lower(p[2])];
    }
  }

  ghost predicate Speaks(protocol: string) {
    TrimSpace(protocol) == "" || ToLower(TrimSpace(protocol)) == "tcp"
  }

  /** Machine port `i` has a port to expose. */
  ghost predicate Wanted(machinePorts: seq<MachinePort>, ports: Ports, i: nat, p: int32) {
    && i < |machinePorts| && machinePorts[i].uid in ports
    && ports[machinePorts[i].uid] == p && 0 < p
  }

  /** Machine port `i` cannot be exposed for this reason: it does not speak TCP, or an earlier one has
      its port. */
  ghost predicate Objection(machinePorts: seq<MachinePort>, ports: Ports, i: nat, e: ExposureError) {
    && i < |machinePorts|
    && exists p :: Wanted(machinePorts, ports, i, p) && ObjectionTo(machinePorts, ports, i, p, e)
  }

  /** The first `n` machine ports can be exposed. */
  ghost predicate NoObjection(machinePorts: seq<MachinePort>, ports: Ports, n: nat) {
    forall i: nat, e | i < n :: !Objection(machinePorts, ports, i, e)
  }

  ghost predicate ObjectionTo(machinePorts: seq<MachinePort>, ports: Ports, i: nat, p: int32, e: ExposureError)
    requires i < |machinePorts|
  {
    if !Speaks(machinePorts[i].protocol) then e == UnsupportedProtocol(machinePorts[i].uid)
    else e == PortConflict(p) && exists j: nat :: j < i && Wanted(machinePorts, ports, j, p)
  }

  /** Exposed are exactly the positive ports of the listed machine ports, each under its UID. */
  lemma {:induction false} DesiredAre(machinePorts: seq<MachinePort>, ports: Ports, n: nat, p: int32, u: string)
    requires n <= |machinePorts| && Desired(machinePorts, ports, n).Ok?
    ensures var m := Desired(machinePorts, ports, n).value;
      p in m && m[p] == u <==> exists i: nat :: i < n && Wanted(machinePorts, ports, i, p) && machinePorts[i].uid == u
  {
    if n > 0 {
      DesiredAre(machinePorts, ports, n - 1, p, u);
      DesiredSpec(machinePorts, ports, n);
      DesiredSpec(machinePorts, ports, n - 1);
    }
  }

  lemma {:induction false} TakenIff(machinePorts: seq<MachinePort>, ports: Ports, n: nat, p: int32)
    requires n <= |machinePorts| && Desired(machinePorts, ports, n).Ok?
    ensures p in Desired(machinePorts, ports, n).value
      <==> exists i: nat :: i < n && Wanted(machinePorts, ports, i, p)
  {
    var m := Desired(machinePorts, ports, n).value;
    if p in m {
      DesiredAre(machinePorts, ports, n, p, m[p]);
    }
    if i: nat :| i < n && Wanted(machinePorts, ports, i, p) {
      DesiredAre(machinePorts, ports, n, p, machinePorts[i].uid);
    }
  }

  /** All ports can be exposed if there is no objection to any machine port, and else the first one
      there is an objection to is what the call fails with. */
  lemma {:induction false} ExposedPorts(machinePorts: seq<MachinePort>, ports: Ports, n: nat)
    requires n <= |machinePorts|
    ensures Desired(machinePorts, ports, n).Ok? <==> NoObjection(machinePorts, ports, n)
    ensures Desired(machinePorts, ports, n).Err? ==>
      exists i: nat :: i < n && NoObjection(machinePorts, ports, i)
                       && Objection(machinePorts, ports, i, Desired(machinePorts, ports, n).error)
  {
    if n > 0 {
      ExposedPorts(machinePorts, ports, n - 1);
      if Desired(machinePorts, ports, n - 1).Ok? {
        NextExposed(machinePorts, ports, n - 1);
      }
    }
  }

  lemma {:induction false} NextExposed(machinePorts: seq<MachinePort>, ports: Ports, i: nat)
    requires i < |machinePorts| && Desired(machinePorts, ports, i).Ok?
    ensures Desired(machinePorts, ports, i + 1).Ok? <==> forall e :: !Objection(machinePorts, ports, i, e)
    ensures Desired(machinePorts, ports, i + 1).Err? ==>
      Objection(machinePorts, ports, i, Desired(machinePorts, ports, i + 1).error)
  {
    var mp := machinePorts[i];
    IsTcpIff(mp.protocol);
    if e :| Objection(machinePorts, ports, i, e) {
      var p :| Wanted(machinePorts, ports, i, p) && ObjectionTo(machinePorts, ports, i, p, e);
      TakenIff(machinePorts, ports, i, p);
    }
    if mp.uid in ports && ports[mp.uid] > 0 {
      TakenIff(machinePorts, ports, i, ports[mp.uid]);
      assert Wanted(machinePorts, ports, i, ports[mp.uid]);
      if Desired(machinePorts, ports, i + 1).Err? {
        var e := Desired(machinePorts, ports, i + 1).error;
        assert ObjectionTo(machinePorts, ports, i, ports[mp.uid], e);
        assert Objection(machinePorts, ports, i, e);
      }
    }
  }

  // ---------------------------------------------------------------- statuses

  /** The entry tells how port `p` is reached: over load balancer `lb`, its listener for the port, and
      an existing target group of that port the listener forwards to. */
  ghost predicate Tells(st: CloudState, lb: LoadBalancer, l: LoadBalancerSpec, p: int32, e: PortStatus) {
    && e.name == l.name && e.scope == l.scope && e.lbID == lb.arn && e.address == lb.dns
    && ServedBy(st, lb.arn, p, e.backendID) && e.listenerID == ListenersOf(st, lb.arn)[p].arn
  }

  lemma {:induction false} EntryTells(c: Context, st: CloudState, l: LoadBalancerSpec, desired: set<int32>,
          after: CloudState, p: int32)
    requires Lists(c) && Pass(c, st, l, desired, after) && p in desired
    ensures Tells(after, LbOf(c, st, l), l, p, EntryIn(c, p)(st, l))
    ensures EntryIn(c, p)(st, l).backendID in TargetsIn(c, desired)(st, l)
  {
    var s, lb := WithLb(c, st, l), LbOf(c, st, l).arn;
    ExposedServes(c, s, lb, l, desired, after, p);
    assert ListenersOf(after, lb) == ListenersAfter(c, s, lb, l, desired);
  }

  lemma {:induction false} StillTells(st: CloudState, lb: LoadBalancer, l: LoadBalancerSpec, p: int32, e: PortStatus,
          other: string, desired: set<int32>, after: CloudState)
    requires Tells(st, lb, l, p, e) && Untouched(st, other, desired, after) && other != lb.arn && p in desired
    ensures Tells(after, lb, l, p, e)
  {
  }

  /** No load balancer after entry `i` is the same one. */
  ghost predicate NotAgain(c: Context, lbs: seq<LoadBalancerSpec>, trace: seq<CloudState>, i: nat)
    requires i < |lbs| <= |trace|
  {
    forall k | i < k < |lbs| :: LbOf(c, trace[k], lbs[k]).arn != LbOf(c, trace[i], lbs[i]).arn
  }

  lemma {:induction false} TellsSince(c: Context, lbs: seq<LoadBalancerSpec>, desired: set<int32>,
          trace: seq<CloudState>, n: nat, k: nat, lb: LoadBalancer, l: LoadBalancerSpec, p: int32, e: PortStatus)
    requires Lists(c) && k <= n <= |lbs| < |trace| && Steps(c, lbs, desired, trace, n) && p in desired
    requires forall i | k <= i < |lbs| :: LbOf(c, trace[i], lbs[i]).arn != lb.arn
    requires Tells(trace[k], lb, l, p, e)
    ensures Tells(trace[n], lb, l, p, e)
    decreases n
  {
    if k < n {
      TellsSince(c, lbs, desired, trace, n - 1, k, lb, l, p, e);
      StepAt(c, lbs, desired, trace, n, n - 1);
      PassLeaves(c, trace[n - 1], lbs[n - 1], desired, trace[n]);
      StillTells(trace[n - 1], lb, l, p, e, LbOf(c, trace[n - 1], lbs[n - 1]).arn, desired, trace[n]);
    }
  }

  lemma {:induction false} UnionGrows(sets: seq<set<string>>, k: nat)
    requires k <= |sets|
    ensures Union(sets[..k]) <= Union(sets)
  {
    if k == |sets| {
      assert sets[..k] == sets;
    } else {
      var init := sets[..|sets| - 1];
      UnionGrows(init, k);
      assert init[..k] == sets[..k];
    }
  }

  lemma {:induction false} TargetsGrow(c: Context, lbs: seq<LoadBalancerSpec>, desired: set<int32>,
          trace: seq<CloudState>, n: nat, k: nat)
    requires Lists(c) && k <= n <= |lbs| < |trace|
    ensures Targets(c, lbs, desired, trace, k) <= Targets(c, lbs, desired, trace, n)
  {
    var all := Each(TargetsIn(c, desired), lbs, trace, n);
    UnionGrows(all, k);
    assert Each(TargetsIn(c, desired), lbs, trace, k) == all[..k];
  }

  lemma {:induction false} EntryMade(c: Context, lbs: seq<LoadBalancerSpec>, desired: set<int32>,
          trace: seq<CloudState>, i: nat, p: int32)
    returns (e: PortStatus)
    requires Lists(c) && i < |lbs| < |trace| && Passes(c, lbs, desired, trace, |lbs|) && p in desired
    ensures e == EntryIn(c, p)(trace[i], lbs[i]) && Tells(trace[i + 1], LbOf(c, trace[i], lbs[i]), lbs[i], p, e)
    ensures e.backendID in Targets(c, lbs, desired, trace, i + 1)
  {
    PassesAt(c, lbs, desired, trace, |lbs|, i);
    EntryTells(c, trace[i], lbs[i], desired, trace[i + 1], p);
    TargetsLast(c, lbs, desired, trace, i);
    e := EntryIn(c, p)(trace[i], lbs[i]);
  }

  lemma {:induction false} EntryReturned(c: Context, lbs: seq<LoadBalancerSpec>, desired: map<int32, string>,
          trace: seq<CloudState>, out: Exposure, i: nat, p: int32)
    requires Lists(c) && i < |lbs| <= |trace| && Returned(c, lbs, desired, trace, out) && p in desired
    ensures desired[p] in out.ports && EntryIn(c, p)(trace[i], lbs[i]) in out.ports[desired[p]]
  {
    RawEntry(c, lbs, trace, p, i);
    EntryOrder();
    SortSorts(EntriesUpTo(c, lbs, trace, p, |lbs|), ByEntryName);
  }

  /** The statuses a completed run returns are true of the cloud it leaves: each machine port has an
      entry for each load balancer that tells how the port is reached there, over an attached target
      group. */
  lemma {:induction false} StatusTruthful(c: Context, lbs: seq<LoadBalancerSpec>, desired: map<int32, string>,
          st: CloudState, trace: seq<CloudState>, after: CloudState, out: Exposure, i: nat, p: int32)
    returns (e: PortStatus)
    requires Lists(c) && Completed(c, lbs, desired, st, trace, after, out)
    requires i < |lbs| && NotAgain(c, lbs, trace, i) && p in desired
    ensures desired[p] in out.ports && e in out.ports[desired[p]]
    ensures c.lbName(lbs[i]) in after.lbs && Tells(after, after.lbs[c.lbName(lbs[i])], lbs[i], p, e)
    ensures after.attached.Some? && e.backendID in after.attached.value
  {
    e := EntryMade(c, lbs, desired.Keys, trace, i, p);
    EntryReturned(c, lbs, desired, trace, out, i, p);
    SchemeWritten(c, lbs, desired, st, trace, after, out, i);
    PassesAreSteps(c, lbs, desired.Keys, trace, |lbs|);
    TellsSince(c, lbs, desired.Keys, trace, |lbs|, i + 1, LbOf(c, trace[i], lbs[i]), lbs[i], p, e);
    TargetsGrow(c, lbs, desired.Keys, trace, |lbs|, i + 1);
    SameTelling(trace[|lbs|], after, LbOf(c, trace[i], lbs[i]), lbs[i], p, e);
  }

  lemma {:induction false} SameTelling(st: CloudState, after: CloudState, lb: LoadBalancer, l: LoadBalancerSpec,
          p: int32, e: PortStatus)
    requires after == st.(attached := after.attached) && Tells(st, lb, l, p, e)
    ensures Tells(after, lb, l, p, e)
  {
  }

  /** The group's own statuses list exactly its load balancers, by name, with the identifiers they have
      in the cloud. */
  lemma {:induction false} LbStatusTruthful(c: Context, lbs: seq<LoadBalancerSpec>, desired: map<int32, string>,
          st: CloudState, trace: seq<CloudState>, after: CloudState, out: Exposure)
    requires Lists(c) && Completed(c, lbs, desired, st, trace, after, out)
    ensures |out.lbStatuses| == |lbs|
    ensures forall i, j | 0 <= i < j < |out.lbStatuses| :: StrLeq(out.lbStatuses[i].name, out.lbStatuses[j].name)
    ensures forall i | 0 <= i < |lbs| :: exists s :: s in out.lbStatuses && IsStatusOf(c, after, lbs[i], s)
    ensures forall s | s in out.lbStatuses :: exists i :: 0 <= i < |lbs| && IsStatusOf(c, after, lbs[i], s)
  {
    var raw := LbStatusesUpTo(c, lbs, trace, |lbs|);
    forall i | 0 <= i < |lbs| ensures IsStatusOf(c, after, lbs[i], raw[i]) {
      SchemeWritten(c, lbs, desired, st, trace, after, out, i);
    }
    SortedStatuses(c, lbs, after, raw);
  }

  lemma {:induction false} SortedStatuses(c: Context, lbs: seq<LoadBalancerSpec>, after: CloudState,
          raw: seq<LbStatus>)
    requires |raw| == |lbs| && forall i | 0 <= i < |lbs| :: IsStatusOf(c, after, lbs[i], raw[i])
    ensures var sorted := Sort(raw, ByLbName);
      && |sorted| == |lbs|
      && (forall i, j | 0 <= i < j < |sorted| :: StrLeq(sorted[i].name, sorted[j].name))
      && (forall i | 0 <= i < |lbs| :: exists s :: s in sorted && IsStatusOf(c, after, lbs[i], s))
      && (forall s | s in sorted :: exists i :: 0 <= i < |lbs| && IsStatusOf(c, after, lbs[i], s))
  {
    SortedByName(raw);
    forall i | 0 <= i < |lbs| ensures raw[i] in Sort(raw, ByLbName) {
      assert raw[i] in raw;
    }
  }

  lemma {:induction false} SortedByName(raw: seq<LbStatus>)
    ensures var sorted := Sort(raw, ByLbName);
      && |sorted| == |raw| && (forall s :: s in sorted <==> s in raw)
      && (forall i, j | 0 <= i < j < |sorted| :: StrLeq(sorted[i].name, sorted[j].name))
  {
    LbOrder();
    SortSorts(raw, ByLbName);
    var sorted := Sort(raw, ByLbName);
    forall i, j | 0 <= i < j < |sorted| ensures StrLeq(sorted[i].name, sorted[j].name) {
      assert ByLbName(sorted[i], sorted[j]);
    }
  }

  ghost predicate IsStatusOf(c: Context, st: CloudState, l: LoadBalancerSpec, s: LbStatus) {
    && c.lbName(l) in st.lbs
    && s.name == l.name && s.scope == l.scope
    && s.lbID == st.lbs[c.lbName(l)].arn && s.address == st.lbs[c.lbName(l)].dns
  }

  lemma {:induction false} LbOrder()
    ensures TotalPreorder(ByLbName)
  {
    forall a, b ensures ByLbName(a, b) || ByLbName(b, a) {
      StrLeqTotal(a.name, b.name);
    }
    forall a, b, c | ByLbName(a, b) && ByLbName(b, c) ensures ByLbName(a, c) {
      StrLeqTransitive(a.name, b.name, c.name);
    }
  }
}
