/** What exposure runs that fail can lead to: target groups that no load balancer of the group
    refers to any more are left alone by every later run, failed or completed, whether they are
    somebody else's or the group's own that it has lost track of. */
module CloudFailures {
  import opened Prelude
  import opened Api
  import opened CloudExposure
  import opened CloudConvergence

  ghost predicate Unforwarded(table: Table, t: string) {
    forall p | p in table :: !Forwards(table[p], t)
  }

  /** Some listener of the load balancer named by `l` forwards to `t`. */
  ghost predicate Refers(c: Context, st: CloudState, l: LoadBalancerSpec, t: string) {
    !Unforwarded(ListenersOf(st, LbOf(c, st, l).arn), t)
  }

  /** No load balancer of the group forwards to `t`. */
  ghost predicate Unreferenced(c: Context, st: CloudState, lbs: seq<LoadBalancerSpec>, t: string) {
    forall i | 0 <= i < |lbs| :: !Refers(c, st, lbs[i], t)
  }

  /** The group creates no target group `t` for the ports it wants. */
  ghost predicate NotCreated(c: Context, lbs: seq<LoadBalancerSpec>, desired: set<int32>, t: string) {
    forall i | 0 <= i < |lbs| :: NotCreatedFor(c, lbs[i], desired, t)
  }

  ghost predicate NotCreatedFor(c: Context, l: LoadBalancerSpec, desired: set<int32>, t: string) {
    forall p | p in desired :: c.tgArn(l, p) != t
  }

  ghost predicate KeepsGroup(st: CloudState, after: CloudState, t: string) {
    t in st.tgs ==> t in after.tgs && after.tgs[t] == st.tgs[t]
  }

  ghost predicate Attached(st: CloudState, t: string) {
    st.attached.Some? && t in st.attached.value
  }

  // ---------------------------------------------------------------- one pass

  lemma {:induction false} TargetDiffers(c: Context, st: CloudState, l: LoadBalancerSpec, desired: set<int32>,
          t: string)
    requires Lists(c) && !Refers(c, st, l, t) && NotCreatedFor(c, l, desired, t)
    ensures var s, lb := WithLb(c, st, l), LbOf(c, st, l).arn;
      && t !in Associated(s, lb)
      && (forall p | p in desired :: TargetFor(c, s, lb, l, p) != t)
      && t !in ManagedIn(c, desired)(st, l)
  {
    FoundSpec(c, WithLb(c, st, l), LbOf(c, st, l).arn);
  }

  lemma {:induction false} WhenUnforwarded(c: Context, st: CloudState, lb: string, l: LoadBalancerSpec,
          desired: set<int32>, settled: set<int32>, dropped: set<int32>, t: string)
    requires Lists(c) && Unforwarded(ListenersOf(st, lb), t) && settled <= desired
    requires forall p | p in desired :: TargetFor(c, st, lb, l, p) != t
    ensures Unforwarded(ListenersWhen(c, st, lb, l, settled, dropped), t)
  {
  }

  /** Changing the table of one load balancer, to one that does not forward to `t` either, does not
      change who refers to `t`. */
  lemma {:induction false} SameReferrers(c: Context, st: CloudState, l: LoadBalancerSpec, table: Table,
          after: CloudState, l': LoadBalancerSpec, t: string)
    requires after.lbs == WithLb(c, st, l).lbs
    requires after.listeners == WithLb(c, st, l).listeners[LbOf(c, st, l).arn := table]
    requires !Refers(c, st, l, t) && Unforwarded(table, t)
    ensures Refers(c, after, l', t) <==> Refers(c, st, l', t)
  {
    var lb, a := LbOf(c, st, l).arn, LbOf(c, st, l').arn;
    assert LbOf(c, after, l').arn == a;
    if a == lb {
      assert ListenersOf(after, a) == table;
    } else {
      assert ListenersOf(after, a) == ListenersOf(st, a);
    }
  }

  /** However far a pass gets, it leaves alone a target group its load balancer does not forward
      to, and what other load balancers forward to. */
  lemma {:induction false} PartialKeeps(c: Context, st: CloudState, l: LoadBalancerSpec, desired: set<int32>,
          pr: Progress, after: CloudState, l': LoadBalancerSpec, t: string)
    requires Lists(c) && Interrupted(c, st, l, desired, pr, after)
    requires !Refers(c, st, l, t) && NotCreatedFor(c, l, desired, t)
    ensures KeepsGroup(st, after, t) && (Refers(c, after, l', t) <==> Refers(c, st, l', t))
  {
    if after != st {
      TargetDiffers(c, st, l, desired, t);
      var s, lb := WithLb(c, st, l), LbOf(c, st, l).arn;
      WhenUnforwarded(c, s, lb, l, desired, pr.settled, pr.dropped, t);
      SameReferrers(c, st, l, ListenersWhen(c, s, lb, l, pr.settled, pr.dropped), after, l', t);
    }
  }

  lemma {:induction false} PassKeepsGroup(c: Context, st: CloudState, l: LoadBalancerSpec, desired: set<int32>,
          after: CloudState, t: string)
    requires Lists(c) && Pass(c, st, l, desired, after) && !Refers(c, st, l, t)
    ensures KeepsGroup(st, after, t)
  {
    var s, lb := WithLb(c, st, l), LbOf(c, st, l).arn;
    assert !Stale(s, lb, desired, t);
  }

  /** The same for a pass that completes. */
  lemma {:induction false} PassKeeps(c: Context, st: CloudState, l: LoadBalancerSpec, desired: set<int32>,
          after: CloudState, l': LoadBalancerSpec, t: string)
    requires Lists(c) && Pass(c, st, l, desired, after)
    requires !Refers(c, st, l, t) && NotCreatedFor(c, l, desired, t)
    ensures KeepsGroup(st, after, t) && (Refers(c, after, l', t) <==> Refers(c, st, l', t))
  {
    PassKeepsGroup(c, st, l, desired, after, t);
    TargetDiffers(c, st, l, desired, t);
    var s, lb := WithLb(c, st, l), LbOf(c, st, l).arn;
    AfterUnforwarded(c, s, lb, l, desired, t);
    SameReferrers(c, st, l, ListenersAfter(c, s, lb, l, desired), after, l', t);
  }

  lemma {:induction false} AfterUnforwarded(c: Context, st: CloudState, lb: string, l: LoadBalancerSpec,
          desired: set<int32>, t: string)
    requires Lists(c) && Unforwarded(ListenersOf(st, lb), t)
    requires forall p | p in desired :: TargetFor(c, st, lb, l, p) != t
    ensures Unforwarded(ListenersAfter(c, st, lb, l, desired), t)
  {
    WhenComplete(c, st, lb, l, desired);
    WhenUnforwarded(c, st, lb, l, desired, desired, ListenersOf(st, lb).Keys - desired, t);
  }

  // ---------------------------------------------------------------- runs

  lemma {:induction false} PassesKeep(c: Context, lbs: seq<LoadBalancerSpec>, desired: set<int32>,
          trace: seq<CloudState>, n: nat, t: string)
    requires Lists(c) && n <= |lbs| && n < |trace| && Passes(c, lbs, desired, trace, n)
    requires Unreferenced(c, trace[0], lbs, t) && NotCreated(c, lbs, desired, t)
    ensures Unreferenced(c, trace[n], lbs, t) && KeepsGroup(trace[0], trace[n], t)
    ensures t !in Managed(c, lbs, desired, trace, n)
  {
    if n > 0 {
      PassesKeep(c, lbs, desired, trace, n - 1, t);
      var st, l := trace[n - 1], lbs[n - 1];
      forall i | 0 <= i < |lbs|
        ensures !Refers(c, trace[n], lbs[i], t) && KeepsGroup(st, trace[n], t)
      {
        PassKeeps(c, st, l, desired, trace[n], lbs[i], t);
      }
      TargetDiffers(c, st, l, desired, t);
      ManagedLast(c, lbs, desired, trace, n - 1);
    }
  }

  /** A completed run neither deletes nor detaches a target group that its load balancers do not
      refer to and that it does not create. */
  lemma {:induction false} CompletedKeeps(c: Context, lbs: seq<LoadBalancerSpec>, desired: map<int32, string>,
          st: CloudState, trace: seq<CloudState>, after: CloudState, out: Exposure, t: string)
    requires Lists(c) && Completed(c, lbs, desired, st, trace, after, out)
    requires Unreferenced(c, st, lbs, t) && NotCreated(c, lbs, desired.Keys, t)
    ensures Unreferenced(c, after, lbs, t) && KeepsGroup(st, after, t) && (Attached(st, t) ==> Attached(after, t))
  {
    PassesKeep(c, lbs, desired.Keys, trace, |lbs|, t);
    SameReferences(c, lbs, trace[|lbs|], after, t);
  }

  lemma {:induction false} SameReferences(c: Context, lbs: seq<LoadBalancerSpec>, st: CloudState, after: CloudState,
          t: string)
    requires after == st.(attached := after.attached)
    ensures Unreferenced(c, after, lbs, t) <==> Unreferenced(c, st, lbs, t)
  {
    assert forall i | 0 <= i < |lbs| :: Refers(c, after, lbs[i], t) <==> Refers(c, st, lbs[i], t);
  }

  lemma {:induction false} StoppedAttachingKeeps(c: Context, lbs: seq<LoadBalancerSpec>, desired: set<int32>,
          trace: seq<CloudState>, after: CloudState, t: string)
    requires Lists(c) && StoppedAttaching(c, lbs, desired, trace, after)
    requires Unreferenced(c, trace[0], lbs, t) && NotCreated(c, lbs, desired, t)
    ensures Unreferenced(c, after, lbs, t) && KeepsGroup(trace[0], after, t)
    ensures (Attached(trace[0], t) ==> Attached(after, t))
  {
    PassesKeep(c, lbs, desired, trace, |lbs|, t);
    SameReferences(c, lbs, trace[|lbs|], after, t);
  }

  lemma {:induction false} StoppedInKeeps(c: Context, lbs: seq<LoadBalancerSpec>, desired: set<int32>,
          trace: seq<CloudState>, pr: Progress, after: CloudState, t: string)
    requires Lists(c) && StoppedIn(c, lbs, desired, trace, pr, after)
    requires Unreferenced(c, trace[0], lbs, t) && NotCreated(c, lbs, desired, t)
    ensures Unreferenced(c, after, lbs, t) && KeepsGroup(trace[0], after, t)
    ensures (Attached(trace[0], t) ==> Attached(after, t))
  {
    var n := |trace| - 1;
    PassesKeep(c, lbs, desired, trace, n, t);
    AttachedAllAlong(c, lbs, desired, trace, n);
    InterruptedKeeps(c, lbs, trace[n], lbs[n], desired, pr, after, t);
  }

  /** Nor does a run that fails. */
  lemma {:induction false} FailedKeeps(c: Context, lbs: seq<LoadBalancerSpec>, desired: set<int32>, st: CloudState,
                                       trace: seq<CloudState>, pr: Progress, after: CloudState, t: string)
    requires Lists(c) && Failed(c, lbs, desired, st, trace, pr, after)
    requires Unreferenced(c, st, lbs, t) && NotCreated(c, lbs, desired, t)
    ensures Unreferenced(c, after, lbs, t) && KeepsGroup(st, after, t) && (Attached(st, t) ==> Attached(after, t))
  {
    if StoppedAttaching(c, lbs, desired, trace, after) {
      StoppedAttachingKeeps(c, lbs, desired, trace, after, t);
    } else {
      StoppedInKeeps(c, lbs, desired, trace, pr, after, t);
    }
  }

  lemma {:induction false} InterruptedKeeps(c: Context, lbs: seq<LoadBalancerSpec>, st: CloudState, l: LoadBalancerSpec,
          desired: set<int32>, pr: Progress, after: CloudState, t: string)
    requires Lists(c) && Interrupted(c, st, l, desired, pr, after) && l in lbs
    requires Unreferenced(c, st, lbs, t) && NotCreated(c, lbs, desired, t)
    ensures Unreferenced(c, after, lbs, t) && KeepsGroup(st, after, t) && after.attached == st.attached
  {
    var k :| 0 <= k < |lbs| && lbs[k] == l;
    assert !Refers(c, st, lbs[k], t) && NotCreatedFor(c, lbs[k], desired, t);
    PartialKeeps(c, st, l, desired, pr, after, l, t);
    forall i | 0 <= i < |lbs|
      ensures !Refers(c, after, lbs[i], t)
    {
      PartialKeeps(c, st, l, desired, pr, after, lbs[i], t);
    }
  }

  // ---------------------------------------------------------------- many runs

  /** One exposure run of a group, completed or not. */
  datatype Attempt = Attempt(ok: bool, desired: map<int32, string>, trace: seq<CloudState>, pr: Progress, out: Exposure)

  ghost predicate Leads(c: Context, lbs: seq<LoadBalancerSpec>, st: CloudState, a: Attempt, after: CloudState)
    requires Lists(c)
  {
    if a.ok then Completed(c, lbs, a.desired, st, a.trace, after, a.out)
    else Failed(c, lbs, a.desired.Keys, st, a.trace, a.pr, after)
  }

  /** `states` holds the states between the first `n` attempts. */
  ghost predicate Attempts(c: Context, lbs: seq<LoadBalancerSpec>, attempts: seq<Attempt>, states: seq<CloudState>,
          n: nat)
    requires Lists(c) && n <= |attempts| && n < |states|
  {
    n > 0 ==> Attempts(c, lbs, attempts, states, n - 1) && Leads(c, lbs, states[n - 1], attempts[n - 1], states[n])
  }

  lemma {:induction false} LeadsKeeps(c: Context, lbs: seq<LoadBalancerSpec>, st: CloudState, a: Attempt,
          after: CloudState, t: string)
    requires Lists(c) && Leads(c, lbs, st, a, after)
    requires Unreferenced(c, st, lbs, t) && NotCreated(c, lbs, a.desired.Keys, t)
    ensures Unreferenced(c, after, lbs, t) && KeepsGroup(st, after, t) && (Attached(st, t) ==> Attached(after, t))
  {
    if a.ok {
      CompletedKeeps(c, lbs, a.desired, st, a.trace, after, a.out, t);
    } else {
      FailedKeeps(c, lbs, a.desired.Keys, st, a.trace, a.pr, after, t);
    }
  }

  /** None of the first `n` attempts creates `t`. */
  ghost predicate NeverCreated(c: Context, lbs: seq<LoadBalancerSpec>, attempts: seq<Attempt>, n: nat, t: string)
    requires n <= |attempts|
  {
    n > 0 ==> NeverCreated(c, lbs, attempts, n - 1, t) && NotCreated(c, lbs, attempts[n - 1].desired.Keys, t)
  }

  /** Once no load balancer of the group refers to a target group, no run will ever delete or
      detach it, whatever ports are wanted and whichever calls fail, unless it is created anew. */
  lemma {:induction false} NeverCollected(c: Context, lbs: seq<LoadBalancerSpec>, attempts: seq<Attempt>,
          states: seq<CloudState>, n: nat, t: string)
    requires Lists(c) && n <= |attempts| && n < |states| && Attempts(c, lbs, attempts, states, n)
    requires Unreferenced(c, states[0], lbs, t) && NeverCreated(c, lbs, attempts, n, t)
    ensures Unreferenced(c, states[n], lbs, t) && KeepsGroup(states[0], states[n], t)
    ensures Attached(states[0], t) ==> Attached(states[n], t)
  {
    if n > 0 {
      NeverCollected(c, lbs, attempts, states, n - 1, t);
      LeadsKeeps(c, lbs, states[n - 1], attempts[n - 1], states[n], t);
    }
  }

  /** How the group loses track of one of its own. Its last port is withdrawn; the run deletes the
      listener, and then the call that deletes the target group fails. What is left is out of
      reach of all later runs. */
  lemma {:induction false} Orphaned(c: Context, l: LoadBalancerSpec, lb: LoadBalancer, p: int32, arn: string, t: string)
    requires Lists(c) && lb.network && lb.internetFacing == External(l)
    ensures var table: Table := map[p := Listener(arn, true, ForwardTo(t))];
      var none: Table := map[];
      var st := CloudState(map[c.lbName(l) := lb], map[lb.arn := table], map[t := Some(p)], Some({t}));
      var after := st.(listeners := map[lb.arn := none]);
      && WellFormed(st) && Refers(c, st, l, t)
      && Failed(c, [l], {}, st, [st], Progress({}, st.tgs, {}, {p}, {}), after)
      && Unreferenced(c, after, [l], t) && t in after.tgs && Attached(after, t)
  {
    var table: Table := map[p := Listener(arn, true, ForwardTo(t))];
    var none: Table := map[];
    var st := CloudState(map[c.lbName(l) := lb], map[lb.arn := table], map[t := Some(p)], Some({t}));
    var after := st.(listeners := map[lb.arn := none]);
    assert ActionForwards(ForwardTo(t)[0], t);
    assert Forwards(table[p], t);
    assert ListenersOf(st, lb.arn) == table && ListenersOf(after, lb.arn) == none;
    assert ListenersWhen(c, st, lb.arn, l, {}, {p}) == none;
    var pr := Progress({}, st.tgs, {}, {p}, {});
    assert Partial(c, st, lb.arn, l, {}, pr, after);
    assert Interrupted(c, st, l, {}, pr, after);
    assert StoppedIn(c, [l], {}, [st], pr, after);
  }

  // ---------------------------------------------------------------- what a completed run collects

  /** `t` is a target group for port `p`, which is no longer wanted, or it is gone already. */
  ghost predicate Unwanted(st: CloudState, desired: set<int32>, t: string, p: int32) {
    p !in desired && (t in st.tgs ==> st.tgs[t] == Some(p))
  }

  lemma {:induction false} PassCollects(c: Context, st: CloudState, l: LoadBalancerSpec, desired: set<int32>,
          after: CloudState, t: string, p: int32)
    requires Lists(c) && Pass(c, st, l, desired, after) && NotCreatedFor(c, l, desired, t)
    requires t in st.tgs && Unwanted(st, desired, t, p) && Refers(c, st, l, t)
    ensures t !in after.tgs && t in ManagedIn(c, desired)(st, l)
  {
    var s, lb := WithLb(c, st, l), LbOf(c, st, l).arn;
    assert ListenersOf(s, lb) == ListenersOf(st, lb);
    var q :| q in ListenersOf(st, lb) && Forwards(ListenersOf(st, lb)[q], t);
    assert t in Associated(s, lb);
    assert Stale(s, lb, desired, t);
  }

  lemma {:induction false} PassLeavesGone(c: Context, st: CloudState, l: LoadBalancerSpec, desired: set<int32>,
          after: CloudState, t: string)
    requires Lists(c) && Pass(c, st, l, desired, after) && NotCreatedFor(c, l, desired, t) && t !in st.tgs
    ensures t !in after.tgs
  {
  }

  lemma {:induction false} NotTargeted(c: Context, st: CloudState, l: LoadBalancerSpec, desired: set<int32>, t: string,
          p: int32)
    requires Lists(c) && Unwanted(st, desired, t, p) && NotCreatedFor(c, l, desired, t)
    ensures t !in TargetsIn(c, desired)(st, l)
  {
    FoundSpec(c, WithLb(c, st, l), LbOf(c, st, l).arn);
  }

  ghost predicate UnreferencedUpTo(c: Context, st: CloudState, lbs: seq<LoadBalancerSpec>, n: nat, t: string)
    requires n <= |lbs|
  {
    n > 0 ==> UnreferencedUpTo(c, st, lbs, n - 1, t) && !Refers(c, st, lbs[n - 1], t)
  }

  lemma {:induction false} UnreferencedAll(c: Context, st: CloudState, lbs: seq<LoadBalancerSpec>, n: nat, t: string)
    requires n <= |lbs|
    ensures UnreferencedUpTo(c, st, lbs, n, t) <==> forall i | 0 <= i < n :: !Refers(c, st, lbs[i], t)
  {
    if n > 0 {
      UnreferencedAll(c, st, lbs, n - 1, t);
    }
  }

  /** What has become of `t` after some passes. */
  ghost predicate CollectedSoFar(c: Context, lbs: seq<LoadBalancerSpec>, desired: set<int32>, trace: seq<CloudState>,
          n: nat, t: string, p: int32)
    requires Lists(c) && n <= |lbs| && n < |trace|
  {
    && Unwanted(trace[n], desired, t, p) && t !in Targets(c, lbs, desired, trace, n)
    && if UnreferencedUpTo(c, trace[0], lbs, n, t) then
         && t in trace[n].tgs && t !in Managed(c, lbs, desired, trace, n)
         && (forall i | 0 <= i < |lbs| :: Refers(c, trace[n], lbs[i], t) <==> Refers(c, trace[0], lbs[i], t))
       else t !in trace[n].tgs && t in Managed(c, lbs, desired, trace, n)
  }

  lemma {:induction false} CollectStep(c: Context, lbs: seq<LoadBalancerSpec>, desired: set<int32>,
          trace: seq<CloudState>, n: nat, t: string, p: int32)
    requires Lists(c) && n < |lbs| && n + 1 < |trace| && Pass(c, trace[n], lbs[n], desired, trace[n + 1])
    requires NotCreated(c, lbs, desired, t) && CollectedSoFar(c, lbs, desired, trace, n, t, p)
    ensures CollectedSoFar(c, lbs, desired, trace, n + 1, t, p)
  {
    var st, l, after := trace[n], lbs[n], trace[n + 1];
    assert NotCreatedFor(c, l, desired, t);
    NotTargeted(c, st, l, desired, t, p);
    TargetsLast(c, lbs, desired, trace, n);
    ManagedLast(c, lbs, desired, trace, n);
    if t !in st.tgs {
      PassLeavesGone(c, st, l, desired, after, t);
    } else if Refers(c, st, l, t) {
      PassCollects(c, st, l, desired, after, t, p);
    } else {
      TargetDiffers(c, st, l, desired, t);
      PassKeeps(c, st, l, desired, after, l, t);
      forall i | 0 <= i < |lbs|
        ensures Refers(c, after, lbs[i], t) <==> Refers(c, trace[0], lbs[i], t)
      {
        PassKeeps(c, st, l, desired, after, lbs[i], t);
      }
    }
  }

  lemma {:induction false} CollectStarts(c: Context, lbs: seq<LoadBalancerSpec>, desired: set<int32>,
          trace: seq<CloudState>, t: string, p: int32)
    requires Lists(c) && 0 < |trace| && t in trace[0].tgs && Unwanted(trace[0], desired, t, p)
    ensures CollectedSoFar(c, lbs, desired, trace, 0, t, p)
  {
    assert Each(TargetsIn(c, desired), lbs, trace, 0) == [] && Each(ManagedIn(c, desired), lbs, trace, 0) == [];
  }

  ghost predicate CollectsOn(c: Context, lbs: seq<LoadBalancerSpec>, desired: set<int32>, trace: seq<CloudState>,
          n: nat, t: string, p: int32)
    requires Lists(c) && n < |lbs| && n + 1 < |trace|
  {
    CollectedSoFar(c, lbs, desired, trace, n, t, p) ==> CollectedSoFar(c, lbs, desired, trace, n + 1, t, p)
  }

  lemma {:induction false} CollectsAlong(c: Context, lbs: seq<LoadBalancerSpec>, desired: set<int32>,
          trace: seq<CloudState>, n: nat, t: string, p: int32)
    requires Lists(c) && n <= |lbs| && n < |trace| && CollectedSoFar(c, lbs, desired, trace, 0, t, p)
    requires forall i | 0 <= i < n :: CollectsOn(c, lbs, desired, trace, i, t, p)
    ensures CollectedSoFar(c, lbs, desired, trace, n, t, p)
  {
    if n > 0 {
      CollectsAlong(c, lbs, desired, trace, n - 1, t, p);
      assert CollectsOn(c, lbs, desired, trace, n - 1, t, p);
    }
  }

  lemma {:induction false} Collects(c: Context, lbs: seq<LoadBalancerSpec>, desired: set<int32>, trace: seq<CloudState>,
          n: nat, t: string, p: int32)
    requires Lists(c) && n <= |lbs| && n < |trace| && Passes(c, lbs, desired, trace, n)
    requires NotCreated(c, lbs, desired, t) && t in trace[0].tgs && Unwanted(trace[0], desired, t, p)
    ensures CollectedSoFar(c, lbs, desired, trace, n, t, p)
  {
    CollectStarts(c, lbs, desired, trace, t, p);
    forall i | 0 <= i < n
      ensures CollectsOn(c, lbs, desired, trace, i, t, p)
    {
      PassesAt(c, lbs, desired, trace, n, i);
      if CollectedSoFar(c, lbs, desired, trace, i, t, p) {
        CollectStep(c, lbs, desired, trace, i, t, p);
      }
    }
    CollectsAlong(c, lbs, desired, trace, n, t, p);
  }

  /** Exactly which target groups of unwanted ports a completed run deletes and detaches: those
      that a listener of the group's load balancers still forwards to when the run starts. */
  lemma {:induction false} CollectedIff(c: Context, lbs: seq<LoadBalancerSpec>, desired: map<int32, string>,
          st: CloudState, trace: seq<CloudState>, after: CloudState, out: Exposure, t: string, p: int32)
    requires Lists(c) && Completed(c, lbs, desired, st, trace, after, out)
    requires t in st.tgs && Unwanted(st, desired.Keys, t, p) && NotCreated(c, lbs, desired.Keys, t)
    ensures t !in after.tgs <==> !Unreferenced(c, st, lbs, t)
    ensures Attached(st, t) ==> (!Attached(after, t) <==> !Unreferenced(c, st, lbs, t))
  {
    Collects(c, lbs, desired.Keys, trace, |lbs|, t, p);
    UnreferencedAll(c, st, lbs, |lbs|, t);
  }
}
