/** When an exposure run can complete at all. */
module CloudCompletion {
  import opened Prelude
  import opened Api
  import opened CloudExposure
  import opened CloudConvergence

  // ---------------------------------------------------------------- the run as a function

  /** The target groups after a pass. */
  ghost function TgsAfter(c: Context, st: CloudState, lb: string, l: LoadBalancerSpec,
          desired: set<int32>): map<string, Option<int32>>
    requires Lists(c)
  {
    var missing := Missing(c, st, lb, desired);
    map t | t in st.tgs.Keys + ArnsOf(c, l, missing) && !Stale(st, lb, desired, t) ::
      if t in st.tgs then st.tgs[t] else (var p :| p in missing && c.tgArn(l, p) == t; Some(p))
  }

  /** The state after a pass for `l`, provided that is possible. */
  ghost function After(c: Context, st: CloudState, l: LoadBalancerSpec, desired: set<int32>): CloudState
    requires Lists(c)
  {
    var s, lb := WithLb(c, st, l), LbOf(c, st, l).arn;
    s.(listeners := s.listeners[lb := ListenersAfter(c, s, lb, l, desired)], tgs := TgsAfter(c, s, lb, l, desired))
  }

  /** The state before iteration `k`. */
  ghost function Before(c: Context, st: CloudState, lbs: seq<LoadBalancerSpec>, desired: set<int32>, k: nat): CloudState
    requires Lists(c) && k <= |lbs|
  {
    if k == 0 then st else After(c, Before(c, st, lbs, desired, k - 1), lbs[k - 1], desired)
  }

  /** Every iteration meets a cloud in which nothing stands in its way. */
  ghost predicate Completable(c: Context, st: CloudState, lbs: seq<LoadBalancerSpec>, desired: set<int32>)
    requires Lists(c)
  {
    st.attached.Some? && forall k | 0 <= k < |lbs| :: Possible(c, Before(c, st, lbs, desired, k), lbs[k], desired)
  }

  lemma {:induction false} CreatedNotStale(c: Context, st: CloudState, lb: string, l: LoadBalancerSpec,
          desired: set<int32>, p: int32)
    requires Lists(c) && NamesFree(c, l, st.tgs, Missing(c, st, lb, desired)) && p in Missing(c, st, lb, desired)
    ensures !Stale(st, lb, desired, c.tgArn(l, p))
    ensures c.tgArn(l, p) in ArnsOf(c, l, Missing(c, st, lb, desired))
  {
  }

  lemma {:induction false} TgsAfterAre(c: Context, st: CloudState, lb: string, l: LoadBalancerSpec, desired: set<int32>)
    requires Lists(c) && NamesFree(c, l, st.tgs, Missing(c, st, lb, desired))
    ensures TargetGroupsAfter(c, st, lb, l, desired, TgsAfter(c, st, lb, l, desired))
  {
    forall p | p in Missing(c, st, lb, desired)
      ensures var t, after := c.tgArn(l, p), TgsAfter(c, st, lb, l, desired); t in after && after[t] == Some(p)
    {
      CreatedNotStale(c, st, lb, l, desired, p);
    }
  }

  lemma {:induction false} PossiblePass(c: Context, st: CloudState, l: LoadBalancerSpec, desired: set<int32>)
    requires Lists(c) && Possible(c, st, l, desired)
    ensures Pass(c, st, l, desired, After(c, st, l, desired))
  {
    TgsAfterAre(c, WithLb(c, st, l), LbOf(c, st, l).arn, l, desired);
  }

  /** A pass is possible exactly when there is one. */
  lemma {:induction false} PossibleIff(c: Context, st: CloudState, l: LoadBalancerSpec, desired: set<int32>)
    requires Lists(c)
    ensures Possible(c, st, l, desired) <==> exists after :: Pass(c, st, l, desired, after)
  {
    if Possible(c, st, l, desired) {
      PossiblePass(c, st, l, desired);
    }
  }

  lemma {:induction false} TraceBefore(c: Context, lbs: seq<LoadBalancerSpec>, desired: set<int32>,
          trace: seq<CloudState>, n: nat, k: nat)
    requires Lists(c) && k <= n <= |lbs| && n < |trace| && Steps(c, lbs, desired, trace, n)
    ensures trace[k] == Before(c, trace[0], lbs, desired, k)
  {
    if k > 0 {
      TraceBefore(c, lbs, desired, trace, n, k - 1);
      StepAt(c, lbs, desired, trace, n, k - 1);
      PossiblePass(c, trace[k - 1], lbs[k - 1], desired);
      PassUnique(c, trace[k - 1], lbs[k - 1], desired, trace[k], After(c, trace[k - 1], lbs[k - 1], desired));
    }
  }

  // ---------------------------------------------------------------- when it completes

  /** On a cloud that loses no call a run completes exactly when it is completable. */
  lemma {:induction false} CompletesIff(c: Context, st: CloudState, lbs: seq<LoadBalancerSpec>, desired: set<int32>,
          trace: seq<CloudState>, ok: bool)
    requires Lists(c) && NothingLost(c, lbs, desired, trace, ok) && trace[0] == st
    ensures ok <==> Completable(c, st, lbs, desired)
  {
    var n := |trace| - 1;
    PassesAreSteps(c, lbs, desired, trace, n);
    forall k | 0 <= k <= n ensures trace[k] == Before(c, st, lbs, desired, k) {
      TraceBefore(c, lbs, desired, trace, n, k);
    }
    if n == |lbs| {
      forall k | 0 <= k < n ensures Possible(c, Before(c, st, lbs, desired, k), lbs[k], desired) {
        StepAt(c, lbs, desired, trace, n, k);
      }
    } else {
      assert !Possible(c, Before(c, st, lbs, desired, n), lbs[n], desired);
    }
  }

  /** On any cloud no other run completes. */
  lemma {:induction false} CompletedWasCompletable(c: Context, lbs: seq<LoadBalancerSpec>, desired: map<int32, string>,
          st: CloudState, trace: seq<CloudState>, after: CloudState, out: Exposure)
    requires Lists(c) && Completed(c, lbs, desired, st, trace, after, out)
    ensures Completable(c, st, lbs, desired.Keys)
  {
    PassesAreSteps(c, lbs, desired.Keys, trace, |lbs|);
    forall k | 0 <= k < |lbs| ensures Possible(c, Before(c, st, lbs, desired.Keys, k), lbs[k], desired.Keys) {
      TraceBefore(c, lbs, desired.Keys, trace, |lbs|, k);
      StepAt(c, lbs, desired.Keys, trace, |lbs|, k);
    }
  }

  /** What blocks a pass whose names are free: a listener that stays as it is, on this load balancer
      or another, and forwards to a target group the pass has to delete. */
  ghost predicate Blocks(c: Context, st: CloudState, lb: string, l: LoadBalancerSpec, desired: set<int32>, a: string,
          p: int32, t: string)
    requires Lists(c)
  {
    && p in ListenersOf(st, a) && Forwards(ListenersOf(st, a)[p], t) && Stale(st, lb, desired, t)
    && (a == lb ==> p in desired && ListenerAfter(c, lb, p, ListenersOf(st, lb), TargetFor(c, st, lb, l, p))
                                      == ListenersOf(st, lb)[p])
  }

  lemma {:induction false} DoableIff(c: Context, st: CloudState, lb: string, l: LoadBalancerSpec, desired: set<int32>)
    requires Lists(c) && NamesFree(c, l, st.tgs, Missing(c, st, lb, desired))
    ensures Doable(c, st, lb, l, desired) <==> forall a, p, t :: !Blocks(c, st, lb, l, desired, a, p, t)
  {
    var after := st.listeners[lb := ListenersAfter(c, st, lb, l, desired)];
    forall a, p, t | Blocks(c, st, lb, l, desired, a, p, t)
      ensures Referenced(after, t) && t in StaleGroups(st, lb, desired)
    {
      assert a in after && p in after[a] && Forwards(after[a][p], t);
    }
    forall t | t in StaleGroups(st, lb, desired) && Referenced(after, t)
      ensures exists a, p :: Blocks(c, st, lb, l, desired, a, p, t)
    {
      var a, p :| a in after && p in after[a] && Forwards(after[a][p], t);
      ReferenceBlocks(c, st, lb, l, desired, a, p, t);
    }
  }

  lemma {:induction false} ReferenceBlocks(c: Context, st: CloudState, lb: string, l: LoadBalancerSpec,
          desired: set<int32>, a: string, p: int32, t: string)
    requires Lists(c) && NamesFree(c, l, st.tgs, Missing(c, st, lb, desired)) && Stale(st, lb, desired, t)
    requires var after := st.listeners[lb := ListenersAfter(c, st, lb, l, desired)];
      a in after && p in after[a] && Forwards(after[a][p], t)
    ensures Blocks(c, st, lb, l, desired, a, p, t)
  {
    if a == lb {
      FoundSpec(c, st, lb);
      var v := TargetFor(c, st, lb, l, p);
      if p !in Found(c, st, lb) {
        CreatedNotStale(c, st, lb, l, desired, p);
      }
      assert t != v;
    }
  }
}
