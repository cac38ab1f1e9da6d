/** What a completed exposure run guarantees, from any starting state of the cloud. */
module CloudConvergence {
  import opened Prelude
  import opened Sorting
  import opened Api
  import opened CloudExposure

  // ---------------------------------------------------------------- the passes of a run

  lemma {:induction false} PassesAt(c: Context, lbs: seq<LoadBalancerSpec>, desired: set<int32>, trace: seq<CloudState>,
          n: nat, i: nat)
    requires Lists(c) && i < n <= |lbs| && n < |trace| && Passes(c, lbs, desired, trace, n)
    ensures Pass(c, trace[i], lbs[i], desired, trace[i + 1])
  {
    if i < n - 1 {
      PassesAt(c, lbs, desired, trace, n - 1, i);
    }
  }

  ghost predicate PassIn(c: Context, lbs: seq<LoadBalancerSpec>, desired: set<int32>, trace: seq<CloudState>, i: nat)
    requires Lists(c) && i < |lbs| && i + 1 < |trace|
  {
    Pass(c, trace[i], lbs[i], desired, trace[i + 1])
  }

  /** The first `n` passes, each by itself. */
  ghost predicate Steps(c: Context, lbs: seq<LoadBalancerSpec>, desired: set<int32>, trace: seq<CloudState>, n: nat)
    requires Lists(c) && n <= |lbs| && n < |trace|
  {
    forall i | 0 <= i < n :: PassIn(c, lbs, desired, trace, i)
  }

  lemma {:induction false} StepAt(c: Context, lbs: seq<LoadBalancerSpec>, desired: set<int32>, trace: seq<CloudState>,
          n: nat, i: nat)
    requires Lists(c) && i < n <= |lbs| && n < |trace| && Steps(c, lbs, desired, trace, n)
    ensures Pass(c, trace[i], lbs[i], desired, trace[i + 1])
  {
    assert PassIn(c, lbs, desired, trace, i);
  }

  lemma {:induction false} PassesAreSteps(c: Context, lbs: seq<LoadBalancerSpec>, desired: set<int32>,
          trace: seq<CloudState>, n: nat)
    requires Lists(c) && n <= |lbs| && n < |trace| && Passes(c, lbs, desired, trace, n)
    ensures Steps(c, lbs, desired, trace, n)
  {
    forall i | 0 <= i < n ensures PassIn(c, lbs, desired, trace, i) {
      PassesAt(c, lbs, desired, trace, n, i);
    }
  }

  // ---------------------------------------------------------------- convergence

  /** Port `p` is served: its TCP listener forwards to `t`, an existing target group of that
      port. */
  ghost predicate ServedBy(st: CloudState, lb: string, p: int32, t: string) {
    && p in ListenersOf(st, lb) && ListenersOf(st, lb)[p].tcp && Forwards(ListenersOf(st, lb)[p], t)
    && t in st.tgs && st.tgs[t] == Some(p)
  }

  /** The load balancer named by `l` exists and has listeners for exactly the ports of `via`,
      each served by the target group `via` gives for it. */
  ghost predicate Converged(c: Context, st: CloudState, l: LoadBalancerSpec, via: map<int32, string>) {
    && c.lbName(l) in st.lbs
    && ListenersOf(st, LbOf(c, st, l).arn).Keys == via.Keys
    && (forall p | p in via :: ServedBy(st, LbOf(c, st, l).arn, p, via[p]))
  }

  lemma {:induction false} ByPortSpec(tgs: map<string, Option<int32>>, listed: seq<string>, n: nat)
    requires n <= |listed| && forall t | t in listed :: t in tgs
    ensures forall p | p in ByPort(tgs, listed, n) ::
      ByPort(tgs, listed, n)[p] in listed && tgs[ByPort(tgs, listed, n)[p]] == Some(p)
  {
    if n > 0 {
      ByPortSpec(tgs, listed, n - 1);
    }
  }

  lemma {:induction false} FoundSpec(c: Context, st: CloudState, lb: string)
    requires Lists(c)
    ensures forall p | p in Found(c, st, lb) ::
      Found(c, st, lb)[p] in Associated(st, lb) && st.tgs[Found(c, st, lb)[p]] == Some(p)
  {
    var listed := c.order(Associated(st, lb));
    ByPortSpec(st.tgs, listed, |listed|);
  }

  /** After a pass the target group chosen for a desired port exists and has that port. */
  lemma {:induction false} TargetExists(c: Context, st: CloudState, lb: string, l: LoadBalancerSpec,
          desired: set<int32>, after: CloudState, p: int32)
    requires Lists(c) && Exposed(c, st, lb, l, desired, after) && p in desired
    ensures var t := TargetFor(c, st, lb, l, p); t in after.tgs && after.tgs[t] == Some(p)
  {
    FoundSpec(c, st, lb);
    var t := TargetFor(c, st, lb, l, p);
    if p in Found(c, st, lb) {
      assert !Stale(st, lb, desired, t);
    } else {
      assert p in Missing(c, st, lb, desired);
    }
  }

  ghost function Via(c: Context, st: CloudState, lb: string, l: LoadBalancerSpec,
          desired: set<int32>): map<int32, string>
    requires Lists(c)
  {
    map p | p in desired :: TargetFor(c, st, lb, l, p)
  }

  lemma {:induction false} ExposedServes(c: Context, st: CloudState, lb: string, l: LoadBalancerSpec,
          desired: set<int32>, after: CloudState, p: int32)
    requires Lists(c) && Exposed(c, st, lb, l, desired, after) && p in desired
    ensures ServedBy(after, lb, p, TargetFor(c, st, lb, l, p))
  {
    TargetExists(c, st, lb, l, desired, after, p);
    var t := TargetFor(c, st, lb, l, p);
    assert ListenersOf(after, lb)[p] == ListenerAfter(c, lb, p, ListenersOf(st, lb), t);
    assert ActionForwards(ForwardTo(t)[0], t);
  }

  lemma {:induction false} PassConverges(c: Context, st: CloudState, l: LoadBalancerSpec, desired: set<int32>,
          after: CloudState)
    returns (via: map<int32, string>)
    requires Lists(c) && Pass(c, st, l, desired, after)
    ensures via.Keys == desired && Converged(c, after, l, via)
    ensures via.Values <= TargetsIn(c, desired)(st, l)
  {
    var s, lb := WithLb(c, st, l), LbOf(c, st, l).arn;
    via := Via(c, s, lb, l, desired);
    assert LbOf(c, after, l) == LbOf(c, st, l);
    assert ListenersOf(after, lb) == ListenersAfter(c, s, lb, l, desired);
    assert via.Values <= TargetsOf(c, s, lb, l, desired);
    forall p | p in desired ensures ServedBy(after, lb, p, via[p]) {
      ExposedServes(c, s, lb, l, desired, after, p);
    }
  }

  /** What a pass over one load balancer leaves alone. */
  ghost predicate Untouched(st: CloudState, lb: string, desired: set<int32>, after: CloudState) {
    && (forall a | a != lb :: ListenersOf(after, a) == ListenersOf(st, a))
    && (forall t | t in st.tgs && st.tgs[t].Some? && st.tgs[t].value in desired ::
         t in after.tgs && after.tgs[t] == st.tgs[t])
    && (forall n | n in st.lbs :: n in after.lbs && after.lbs[n] == st.lbs[n])
  }

  lemma {:induction false} PassKeepsWanted(c: Context, st: CloudState, l: LoadBalancerSpec, desired: set<int32>,
          after: CloudState, t: string)
    requires Lists(c) && Pass(c, st, l, desired, after)
    requires t in st.tgs && st.tgs[t].Some? && st.tgs[t].value in desired
    ensures t in after.tgs && after.tgs[t] == st.tgs[t]
  {
    assert !Stale(WithLb(c, st, l), LbOf(c, st, l).arn, desired, t);
  }

  lemma {:induction false} PassKeepsListeners(c: Context, st: CloudState, l: LoadBalancerSpec, desired: set<int32>,
          after: CloudState, a: string)
    requires Lists(c) && Pass(c, st, l, desired, after) && a != LbOf(c, st, l).arn
    ensures ListenersOf(after, a) == ListenersOf(st, a)
  {
  }

  lemma {:induction false} PassLeaves(c: Context, st: CloudState, l: LoadBalancerSpec, desired: set<int32>,
          after: CloudState)
    requires Lists(c) && Pass(c, st, l, desired, after)
    ensures Untouched(st, LbOf(c, st, l).arn, desired, after)
  {
    forall a | a != LbOf(c, st, l).arn
      ensures ListenersOf(after, a) == ListenersOf(st, a)
    {
      PassKeepsListeners(c, st, l, desired, after, a);
    }
    forall t | t in st.tgs && st.tgs[t].Some? && st.tgs[t].value in desired
      ensures t in after.tgs && after.tgs[t] == st.tgs[t]
    {
      PassKeepsWanted(c, st, l, desired, after, t);
    }
  }

  lemma {:induction false} UntouchedConverged(c: Context, st: CloudState, l: LoadBalancerSpec, via: map<int32, string>,
          lb: string, after: CloudState)
    requires Converged(c, st, l, via) && LbOf(c, st, l).arn != lb && Untouched(st, lb, via.Keys, after)
    ensures Converged(c, after, l, via)
  {
    var a := LbOf(c, st, l).arn;
    assert LbOf(c, after, l) == LbOf(c, st, l) && ListenersOf(after, a) == ListenersOf(st, a);
    forall p | p in via ensures ServedBy(after, a, p, via[p]) {
      assert ServedBy(st, a, p, via[p]);
    }
  }

  lemma {:induction false} SameLbConverged(c: Context, st: CloudState, l: LoadBalancerSpec, l': LoadBalancerSpec,
          via: map<int32, string>)
    requires Converged(c, st, l', via) && c.lbName(l) in st.lbs && LbOf(c, st, l).arn == LbOf(c, st, l').arn
    ensures Converged(c, st, l, via)
  {
  }

  /** A later pass does not undo an earlier one, even over the same load balancer. */
  lemma {:induction false} PassKeepsConverged(c: Context, st: CloudState, l: LoadBalancerSpec, via: map<int32, string>,
                                              l': LoadBalancerSpec, desired: set<int32>, after: CloudState)
    returns (via': map<int32, string>)
    requires Lists(c) && via.Keys == desired && Converged(c, st, l, via) && Pass(c, st, l', desired, after)
    ensures via'.Keys == desired && Converged(c, after, l, via')
    ensures via'.Values <= via.Values + TargetsIn(c, desired)(st, l')
  {
    PassLeaves(c, st, l', desired, after);
    if LbOf(c, st, l).arn == LbOf(c, st, l').arn {
      via' := PassConverges(c, st, l', desired, after);
      SameLbConverged(c, after, l, l', via');
    } else {
      via' := via;
      UntouchedConverged(c, st, l, via, LbOf(c, st, l').arn, after);
    }
  }

  lemma {:induction false} TargetsLast(c: Context, lbs: seq<LoadBalancerSpec>, desired: set<int32>,
          trace: seq<CloudState>, n: nat)
    requires Lists(c) && n < |lbs| && n < |trace|
    ensures Targets(c, lbs, desired, trace, n + 1)
      == Targets(c, lbs, desired, trace, n) + TargetsIn(c, desired)(trace[n], lbs[n])
  {
    TargetsOne(c, lbs, desired, trace, [], n);
    assert trace + [] == trace;
  }

  lemma {:induction false} ManagedLast(c: Context, lbs: seq<LoadBalancerSpec>, desired: set<int32>,
          trace: seq<CloudState>, n: nat)
    requires Lists(c) && n < |lbs| && n < |trace|
    ensures Managed(c, lbs, desired, trace, n + 1)
      == Managed(c, lbs, desired, trace, n) + ManagedIn(c, desired)(trace[n], lbs[n])
  {
    ManagedOne(c, lbs, desired, trace, [], n);
    assert trace + [] == trace;
  }

  lemma {:induction false} JustConverged(c: Context, lbs: seq<LoadBalancerSpec>, desired: set<int32>,
          trace: seq<CloudState>, i: nat)
    returns (via: map<int32, string>)
    requires Lists(c) && i < |lbs| && i + 1 < |trace| && PassIn(c, lbs, desired, trace, i)
    ensures via.Keys == desired && Converged(c, trace[i + 1], lbs[i], via)
    ensures via.Values <= Targets(c, lbs, desired, trace, i + 1)
  {
    TargetsLast(c, lbs, desired, trace, i);
    via := PassConverges(c, trace[i], lbs[i], desired, trace[i + 1]);
  }

  lemma {:induction false} StillConverged(c: Context, lbs: seq<LoadBalancerSpec>, desired: set<int32>,
          trace: seq<CloudState>, k: nat, l: LoadBalancerSpec, via: map<int32, string>)
    returns (via': map<int32, string>)
    requires Lists(c) && k < |lbs| && k + 1 < |trace| && PassIn(c, lbs, desired, trace, k)
    requires via.Keys == desired && Converged(c, trace[k], l, via) && via.Values <= Targets(c, lbs, desired, trace, k)
    ensures via'.Keys == desired && Converged(c, trace[k + 1], l, via')
    ensures via'.Values <= Targets(c, lbs, desired, trace, k + 1)
  {
    TargetsLast(c, lbs, desired, trace, k);
    via' := PassKeepsConverged(c, trace[k], l, via, lbs[k], desired, trace[k + 1]);
  }

  lemma {:induction false} ConvergedSince(c: Context, lbs: seq<LoadBalancerSpec>, desired: set<int32>,
          trace: seq<CloudState>, n: nat, k: nat, i: nat)
    returns (via: map<int32, string>)
    requires Lists(c) && i < k <= n <= |lbs| && n < |trace| && Steps(c, lbs, desired, trace, n)
    ensures via.Keys == desired && Converged(c, trace[k], lbs[i], via)
    ensures via.Values <= Targets(c, lbs, desired, trace, k)
    decreases k
  {
    assert PassIn(c, lbs, desired, trace, k - 1);
    if i == k - 1 {
      via := JustConverged(c, lbs, desired, trace, i);
    } else {
      var via0 := ConvergedSince(c, lbs, desired, trace, n, k - 1, i);
      via := StillConverged(c, lbs, desired, trace, k - 1, lbs[i], via0);
    }
  }

  lemma {:induction false} AllConverged(c: Context, lbs: seq<LoadBalancerSpec>, desired: set<int32>,
          trace: seq<CloudState>, n: nat, i: nat)
    returns (via: map<int32, string>)
    requires Lists(c) && i < n <= |lbs| && n < |trace| && Passes(c, lbs, desired, trace, n)
    ensures via.Keys == desired && Converged(c, trace[n], lbs[i], via)
    ensures via.Values <= Targets(c, lbs, desired, trace, n)
  {
    PassesAreSteps(c, lbs, desired, trace, n);
    via := ConvergedSince(c, lbs, desired, trace, n, n, i);
  }

  /** Convergence. From any starting state, a run without error leaves on every load balancer
      listeners for exactly the desired ports, each forwarding to an attached target group of
      its port; and the attachments are the former ones without the managed ones, plus the
      wanted ones, so those of others are kept. */
  lemma {:induction false} RunConverges(c: Context, lbs: seq<LoadBalancerSpec>, desired: map<int32, string>,
          st: CloudState, trace: seq<CloudState>, after: CloudState, out: Exposure, i: nat)
    returns (via: map<int32, string>)
    requires Lists(c) && Completed(c, lbs, desired, st, trace, after, out) && i < |lbs|
    ensures via.Keys == desired.Keys && Converged(c, after, lbs[i], via)
    ensures after.attached.Some? && via.Values <= after.attached.value
    ensures st.attached.Some? && after.attached.value
      == (st.attached.value - Managed(c, lbs, desired.Keys, trace, |lbs|)) + Targets(c, lbs, desired.Keys, trace, |lbs|)
  {
    via := AllConverged(c, lbs, desired.Keys, trace, |lbs|, i);
    SameButAttached(c, trace[|lbs|], after, lbs[i], via);
  }

  lemma {:induction false} SameButAttached(c: Context, st: CloudState, st': CloudState, l: LoadBalancerSpec,
          via: map<int32, string>)
    requires st' == st.(attached := st'.attached) && Converged(c, st, l, via)
    ensures Converged(c, st', l, via)
  {
    forall p | p in via ensures ServedBy(st', LbOf(c, st', l).arn, p, via[p]) {
      assert ServedBy(st, LbOf(c, st, l).arn, p, via[p]);
    }
  }

  // ---------------------------------------------------------------- order of the ports

  lemma {:induction false} TargetGroupsUnique(c: Context, st: CloudState, lb: string, l: LoadBalancerSpec,
          desired: set<int32>, a: map<string, Option<int32>>, b: map<string, Option<int32>>)
    requires Lists(c) && TargetGroupsAfter(c, st, lb, l, desired, a) && TargetGroupsAfter(c, st, lb, l, desired, b)
    ensures a == b
  {
    forall t | t in a ensures a[t] == b[t] {
      if t !in st.tgs {
        var p :| p in Missing(c, st, lb, desired) && t == c.tgArn(l, p);
      }
    }
    assert a.Keys == b.Keys;
  }

  lemma {:induction false} PassUnique(c: Context, st: CloudState, l: LoadBalancerSpec, desired: set<int32>,
          a: CloudState, b: CloudState)
    requires Lists(c) && Pass(c, st, l, desired, a) && Pass(c, st, l, desired, b)
    ensures a == b
  {
    TargetGroupsUnique(c, WithLb(c, st, l), LbOf(c, st, l).arn, l, desired, a.tgs, b.tgs);
  }

  lemma {:induction false} TraceUnique(c: Context, lbs: seq<LoadBalancerSpec>, desired: set<int32>, a: seq<CloudState>,
          b: seq<CloudState>, n: nat)
    requires Lists(c) && n <= |lbs| && n < |a| && n < |b| && a[0] == b[0]
    requires Passes(c, lbs, desired, a, n) && Passes(c, lbs, desired, b, n)
    ensures forall k | 0 <= k <= n :: a[k] == b[k]
  {
    forall i | 0 <= i < n && a[i] == b[i]
      ensures a[i + 1] == b[i + 1]
    {
      PassesAt(c, lbs, desired, a, n, i);
      PassesAt(c, lbs, desired, b, n, i);
      PassUnique(c, a[i], lbs[i], desired, a[i + 1], b[i + 1]);
    }
    forall k | 0 <= k <= n
      ensures a[k] == b[k]
    {
      InStep(a, b, n, k);
    }
  }

  lemma {:induction false} InStep(a: seq<CloudState>, b: seq<CloudState>, n: nat, k: nat)
    requires k <= n < |a| && n < |b| && a[0] == b[0]
    requires forall i | 0 <= i < n && a[i] == b[i] :: a[i + 1] == b[i + 1]
    ensures a[k] == b[k]
  {
    if k > 0 {
      InStep(a, b, n, k - 1);
      assert a[k - 1 + 1] == b[k - 1 + 1];
    }
  }

  /** Two completed runs from the same state agree on everything: the order in which map
      iteration brings up the ports cannot be observed, neither in the cloud nor in the
      returned statuses. */
  lemma {:induction false} RunsAgree(c: Context, lbs: seq<LoadBalancerSpec>, desired: map<int32, string>,
          st: CloudState, trace: seq<CloudState>, after: CloudState, out: Exposure, trace': seq<CloudState>,
          after': CloudState, out': Exposure)
    requires Lists(c)
    requires Completed(c, lbs, desired, st, trace, after, out) && Completed(c, lbs, desired, st, trace', after', out')
    ensures after == after' && out == out'
  {
    TraceUnique(c, lbs, desired.Keys, trace, trace', |lbs|);
    assert trace == trace';
    SameOutput(c, lbs, desired, trace, out, out');
  }

  lemma {:induction false} SameOutput(c: Context, lbs: seq<LoadBalancerSpec>, desired: map<int32, string>,
          trace: seq<CloudState>, a: Exposure, b: Exposure)
    requires Lists(c) && |lbs| <= |trace|
    requires Returned(c, lbs, desired, trace, a) && Returned(c, lbs, desired, trace, b)
    ensures a == b
  {
    forall u | u in a.ports ensures u in b.ports && a.ports[u] == b.ports[u] {
      var p :| p in desired.Keys && p in desired && desired[p] == u;
    }
    assert a.ports.Keys == b.ports.Keys;
  }

  // ---------------------------------------------------------------- statuses

  ghost predicate DistinctNames(lbs: seq<LoadBalancerSpec>) {
    forall i, j | 0 <= i < j < |lbs| :: lbs[i].name != lbs[j].name
  }

  /** The entries are in strictly increasing order of name. */
  ghost predicate StrictlyNamed(entries: seq<PortStatus>) {
    forall i, j | 0 <= i < j < |entries| ::
      StrLeq(entries[i].name, entries[j].name) && entries[i].name != entries[j].name
  }

  /** Every desired machine port gets exactly one entry per load balancer, in strictly
      increasing order of name. */
  lemma {:induction false} StatusComplete(c: Context, lbs: seq<LoadBalancerSpec>, desired: map<int32, string>,
          st: CloudState, trace: seq<CloudState>, after: CloudState, out: Exposure, p: int32)
    requires Lists(c) && Completed(c, lbs, desired, st, trace, after, out)
    requires DistinctNames(lbs) && |lbs| > 0 && p in desired
    ensures desired[p] in out.ports
    ensures var entries := out.ports[desired[p]];
      && |entries| == |lbs|
      && StrictlyNamed(entries)
      && (forall i | 0 <= i < |lbs| :: EntryIn(c, p)(trace[i], lbs[i]) in entries)
  {
    var raw := EntriesUpTo(c, lbs, trace, p, |lbs|);
    forall i | 0 <= i < |lbs|
      ensures raw[i].name == lbs[i].name && raw[i] == EntryIn(c, p)(trace[i], lbs[i]) && raw[i] in raw
    {
      RawEntry(c, lbs, trace, p, i);
    }
    SortedEntries(raw);
  }

  lemma {:induction false} RawEntry(c: Context, lbs: seq<LoadBalancerSpec>, trace: seq<CloudState>, p: int32, i: nat)
    requires Lists(c) && i < |lbs| <= |trace|
    ensures var raw := EntriesUpTo(c, lbs, trace, p, |lbs|);
      && |raw| == |lbs| && raw[i] == EntryIn(c, p)(trace[i], lbs[i])
      && raw[i].name == lbs[i].name && raw[i] in raw
  {
    var raw := EntriesUpTo(c, lbs, trace, p, |lbs|);
    assert raw[i] in raw;
  }

  lemma {:induction false} SortedEntries(raw: seq<PortStatus>)
    requires forall i, j | 0 <= i < j < |raw| :: raw[i].name != raw[j].name
    ensures var entries := Sort(raw, ByEntryName);
      && |entries| == |raw| && (forall e :: e in entries <==> e in raw)
      && StrictlyNamed(entries)
  {
    EntryOrder();
    SortSorts(raw, ByEntryName);
    var entries := Sort(raw, ByEntryName);
    PermutedNoDuplicates(raw, entries);
    forall i, j | 0 <= i < j < |entries|
      ensures StrLeq(entries[i].name, entries[j].name) && entries[i].name != entries[j].name
    {
      assert ByEntryName(entries[i], entries[j]);
      assert entries[i] in raw && entries[j] in raw && entries[i] != entries[j];
    }
  }

  lemma {:induction false} EntryOrder()
    ensures TotalPreorder(ByEntryName)
  {
    forall a, b ensures ByEntryName(a, b) || ByEntryName(b, a) {
      StrLeqTotal(a.name, b.name);
    }
    forall a, b, c | ByEntryName(a, b) && ByEntryName(b, c) ensures ByEntryName(a, c) {
      StrLeqTransitive(a.name, b.name, c.name);
    }
  }
}
