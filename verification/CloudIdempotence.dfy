/** Exposing the same ports a second time changes nothing, and when that is so. */
module CloudIdempotence {
  import opened Prelude
  import opened Api
  import opened Sorting
  import opened CloudExposure
  import opened CloudConvergence

  // ---------------------------------------------------------------- what it depends on

  /** The cloud lists target groups in one fixed order, which `rank` describes. With arbitrary
      orders two target groups of one port could take turns. */
  ghost predicate OneOrder(c: Context, rank: string -> int) {
    forall s, i, j | 0 <= i < j < |c.order(s)| :: rank(c.order(s)[i]) < rank(c.order(s)[j])
  }

  /** A target group that exists and has a desired port. */
  ghost predicate Wanted(st: CloudState, desired: set<int32>, t: string) {
    t in st.tgs && st.tgs[t].Some? && st.tgs[t].value in desired
  }

  /** The listeners of a load balancer forward to nothing but target groups that existed at the
      start or are wanted. (A forward action with several target groups has the empty identifier
      in the place of a single one.) */
  ghost predicate Accounted(st: CloudState, now: CloudState, lb: string, desired: set<int32>) {
    forall p, t | p in ListenersOf(now, lb) && Forwards(ListenersOf(now, lb)[p], t) && t != "" ::
      t in st.tgs || Wanted(now, desired, t)
  }

  /** No listener of the load balancers forwards to a target group that does not exist. */
  ghost predicate NothingDangles(c: Context, st: CloudState, lbs: seq<LoadBalancerSpec>, desired: set<int32>) {
    forall i | 0 <= i < |lbs| :: Accounted(st, st, LbOf(c, st, lbs[i]).arn, desired)
  }

  /** No target group has the empty identifier. */
  ghost predicate RealNames(c: Context, st: CloudState) {
    "" !in st.tgs && forall l, p :: c.tgArn(l, p) != ""
  }

  /** Target groups that already have the name of one to create have its port. */
  ghost predicate NamesFit(c: Context, st: CloudState, lbs: seq<LoadBalancerSpec>, desired: set<int32>) {
    forall i, p | 0 <= i < |lbs| && p in desired && c.tgArn(lbs[i], p) in st.tgs ::
      st.tgs[c.tgArn(lbs[i], p)] == Some(p)
  }

  /** What the run relies on in the state it starts from, besides the order. */
  ghost predicate Orderly(c: Context, st: CloudState, lbs: seq<LoadBalancerSpec>, desired: set<int32>) {
    RealNames(c, st) && NothingDangles(c, st, lbs, desired) && NamesFit(c, st, lbs, desired)
  }

  // ---------------------------------------------------------------- the choice of target groups

  /** The target group found for a port is the last one listed. */
  lemma {:induction false} ByPortLast(tgs: map<string, Option<int32>>, listed: seq<string>, n: nat, rank: string -> int,
          k: nat)
    requires n <= |listed| && forall t | t in listed :: t in tgs
    requires forall i, j | 0 <= i < j < |listed| :: rank(listed[i]) < rank(listed[j])
    requires k < n && tgs[listed[k]].Some?
    ensures var p := tgs[listed[k]].value;
      p in ByPort(tgs, listed, n) && rank(listed[k]) <= rank(ByPort(tgs, listed, n)[p])
  {
    if k < n - 1 {
      ByPortLast(tgs, listed, n - 1, rank, k);
    }
  }

  lemma {:induction false} FoundLast(c: Context, rank: string -> int, st: CloudState, lb: string, t: string, p: int32)
    requires Lists(c) && OneOrder(c, rank) && t in Associated(st, lb) && st.tgs[t] == Some(p)
    ensures p in Found(c, st, lb) && rank(t) <= rank(Found(c, st, lb)[p])
  {
    var listed := c.order(Associated(st, lb));
    assert t in listed;
    var k :| 0 <= k < |listed| && listed[k] == t;
    ByPortLast(st.tgs, listed, |listed|, rank, k);
  }

  /** Equal rank in one listing means equal. */
  lemma {:induction false} SameRank(c: Context, rank: string -> int, s: set<string>, t: string, u: string)
    requires Lists(c) && OneOrder(c, rank) && t in s && u in s && rank(t) == rank(u)
    ensures t == u
  {
    var listed := c.order(s);
    assert t in listed && u in listed;
    var i :| 0 <= i < |listed| && listed[i] == t;
    var j :| 0 <= j < |listed| && listed[j] == u;
  }

  /** If what is associated with `lb` for port `p` in state `b` was so in state `a` as well, or is
      `v`, and `v` was the choice in `a`, then it is the choice in `b`. */
  lemma {:induction false} SameChoice(c: Context, rank: string -> int, a: CloudState, b: CloudState, lb: string,
          l: LoadBalancerSpec, p: int32, v: string)
    requires Lists(c) && OneOrder(c, rank) && v == TargetFor(c, a, lb, l, p)
    requires v in Associated(b, lb) && b.tgs[v] == Some(p)
    requires forall t | t in Associated(b, lb) && b.tgs[t] == Some(p) && t != v ::
      t in Associated(a, lb) && a.tgs[t] == Some(p)
    ensures p in Found(c, b, lb) && Found(c, b, lb)[p] == v
  {
    FoundLast(c, rank, b, lb, v, p);
    FoundSpec(c, b, lb);
    FoundSpec(c, a, lb);
    var u := Found(c, b, lb)[p];
    if u != v {
      FoundLast(c, rank, a, lb, u, p);
      SameRank(c, rank, Associated(b, lb), u, v);
    }
  }

  // ---------------------------------------------------------------- history of a run

  /** What has become of a target group that existed at the start. */
  ghost predicate KeptOrStale(st: CloudState, after: CloudState, desired: set<int32>, t: string)
    requires t in st.tgs
  {
    && (t in after.tgs ==> after.tgs[t] == st.tgs[t])
    && (t !in after.tgs ==> st.tgs[t].Some? && st.tgs[t].value !in desired)
  }

  lemma {:induction false} NotRecreated(c: Context, st: CloudState, l: LoadBalancerSpec, lbs: seq<LoadBalancerSpec>,
          desired: set<int32>, t: string, p: int32)
    requires l in lbs && NamesFit(c, st, lbs, desired) && t in st.tgs && p in desired && t == c.tgArn(l, p)
    ensures st.tgs[t] == Some(p)
  {
    var i :| 0 <= i < |lbs| && lbs[i] == l;
    assert c.tgArn(lbs[i], p) in st.tgs;
  }

  lemma {:induction false} PassHistory(c: Context, st: CloudState, l: LoadBalancerSpec, lbs: seq<LoadBalancerSpec>,
          desired: set<int32>, before: CloudState, after: CloudState, t: string)
    requires Lists(c) && l in lbs && NamesFit(c, st, lbs, desired) && t in st.tgs
    requires KeptOrStale(st, before, desired, t) && Pass(c, before, l, desired, after)
    ensures KeptOrStale(st, after, desired, t)
    ensures t in after.tgs ==> t in before.tgs && !Stale(WithLb(c, before, l), LbOf(c, before, l).arn, desired, t)
  {
    forall p | p in desired && t == c.tgArn(l, p) ensures st.tgs[t] == Some(p) {
      NotRecreated(c, st, l, lbs, desired, t, p);
    }
    var s, lb := WithLb(c, before, l), LbOf(c, before, l).arn;
    assert t in after.tgs <==> t in before.tgs && !Stale(s, lb, desired, t);
  }

  /** A pass destroys a target group for good, and only when it is stale. */
  ghost predicate GoesOn(st: CloudState, before: CloudState, after: CloudState, desired: set<int32>, t: string)
    requires t in st.tgs
  {
    KeptOrStale(st, before, desired, t) ==>
      KeptOrStale(st, after, desired, t) && (t in after.tgs ==> t in before.tgs)
  }

  lemma {:induction false} GoesOnAlong(trace: seq<CloudState>, desired: set<int32>, n: nat, t: string)
    requires n < |trace| && t in trace[0].tgs
    requires forall i | 0 <= i < n :: GoesOn(trace[0], trace[i], trace[i + 1], desired, t)
    ensures KeptOrStale(trace[0], trace[n], desired, t)
    ensures t in trace[n].tgs ==> forall k | 0 <= k <= n :: t in trace[k].tgs && trace[k].tgs[t] == trace[0].tgs[t]
  {
    if n > 0 {
      GoesOnAlong(trace, desired, n - 1, t);
      assert GoesOn(trace[0], trace[n - 1], trace[n - 1 + 1], desired, t);
    }
  }

  /** What becomes of a target group in the first `k` passes of a run: one that is there then was
      there, with its port, all along. */
  lemma {:induction false} History(c: Context, lbs: seq<LoadBalancerSpec>, desired: set<int32>, trace: seq<CloudState>,
          n: nat, k: nat, t: string)
    requires Lists(c) && k <= n <= |lbs| && n < |trace| && Steps(c, lbs, desired, trace, n)
    requires NamesFit(c, trace[0], lbs, desired) && t in trace[0].tgs
    ensures KeptOrStale(trace[0], trace[k], desired, t)
    ensures t in trace[k].tgs ==> forall j | 0 <= j <= k :: t in trace[j].tgs && trace[j].tgs[t] == trace[0].tgs[t]
  {
    forall i | 0 <= i < k
      ensures GoesOn(trace[0], trace[i], trace[i + 1], desired, t)
    {
      StepAt(c, lbs, desired, trace, n, i);
      if KeptOrStale(trace[0], trace[i], desired, t) {
        PassHistory(c, trace[0], lbs[i], lbs, desired, trace[i], trace[i + 1], t);
      }
    }
    GoesOnAlong(trace, desired, k, t);
  }

  /** A pass keeps load balancers that exist and names none differently. */
  lemma {:induction false} PassLbs(c: Context, st: CloudState, l: LoadBalancerSpec, desired: set<int32>,
          after: CloudState, l': LoadBalancerSpec)
    requires Lists(c) && Pass(c, st, l, desired, after)
    ensures LbOf(c, after, l').arn == LbOf(c, st, l').arn
    ensures c.lbName(l') in st.lbs ==> c.lbName(l') in after.lbs && LbOf(c, after, l') == LbOf(c, st, l')
    ensures c.lbName(l) in after.lbs && LbOf(c, after, l) == LbOf(c, st, l)
  {
  }

  lemma {:induction false} SameArn(c: Context, lbs: seq<LoadBalancerSpec>, desired: set<int32>, trace: seq<CloudState>,
          n: nat, k: nat, l: LoadBalancerSpec)
    requires Lists(c) && k <= n <= |lbs| && n < |trace| && Steps(c, lbs, desired, trace, n)
    ensures LbOf(c, trace[k], l).arn == LbOf(c, trace[0], l).arn
  {
    if k > 0 {
      SameArn(c, lbs, desired, trace, n, k - 1, l);
      StepAt(c, lbs, desired, trace, n, k - 1);
      PassLbs(c, trace[k - 1], lbs[k - 1], desired, trace[k], l);
    }
  }

  // ---------------------------------------------------------------- what listeners forward to

  /** A listener that forwards to anything but the chosen target group was kept. */
  lemma {:induction false} KeptListener(c: Context, lb: string, q: int32, before: Table, v: string, t: string)
    requires Forwards(ListenerAfter(c, lb, q, before, v), t)
    ensures t == v || (q in before && Forwards(before[q], t))
  {
  }

  /** What a load balancer forwards to after a pass over it. */
  lemma {:induction false} ForwardedAfter(c: Context, st: CloudState, l: LoadBalancerSpec, desired: set<int32>,
          after: CloudState, p: int32, t: string)
    requires Lists(c) && Pass(c, st, l, desired, after)
    requires var lb := LbOf(c, st, l).arn; p in ListenersOf(after, lb) && Forwards(ListenersOf(after, lb)[p], t)
    ensures var s, lb := WithLb(c, st, l), LbOf(c, st, l).arn;
      && p in desired
      && (t == TargetFor(c, s, lb, l, p) || (p in ListenersOf(st, lb) && Forwards(ListenersOf(st, lb)[p], t)))
  {
    var s, lb := WithLb(c, st, l), LbOf(c, st, l).arn;
    KeptListener(c, lb, p, ListenersOf(s, lb), TargetFor(c, s, lb, l, p), t);
  }

  lemma {:induction false} PassAccountsAt(c: Context, before: CloudState, l: LoadBalancerSpec, desired: set<int32>,
          after: CloudState, lb: string, p: int32, t: string)
    requires Lists(c) && Pass(c, before, l, desired, after)
    requires p in ListenersOf(after, lb) && Forwards(ListenersOf(after, lb)[p], t)
    ensures Wanted(after, desired, t) || (p in ListenersOf(before, lb) && Forwards(ListenersOf(before, lb)[p], t))
  {
    if lb != LbOf(c, before, l).arn {
      PassKeepsListeners(c, before, l, desired, after, lb);
    } else {
      ForwardedAfter(c, before, l, desired, after, p, t);
      if t == TargetFor(c, WithLb(c, before, l), lb, l, p) {
        ExposedServes(c, WithLb(c, before, l), lb, l, desired, after, p);
      }
    }
  }

  lemma {:induction false} PassAccounts(c: Context, st: CloudState, l: LoadBalancerSpec, desired: set<int32>,
          before: CloudState, after: CloudState, lb: string)
    requires Lists(c) && Pass(c, before, l, desired, after) && Accounted(st, before, lb, desired)
    ensures Accounted(st, after, lb, desired)
  {
    forall p, t | p in ListenersOf(after, lb) && Forwards(ListenersOf(after, lb)[p], t) && t != "" && t !in st.tgs
      ensures Wanted(after, desired, t)
    {
      PassAccountsAt(c, before, l, desired, after, lb, p, t);
      if Wanted(before, desired, t) {
        PassKeepsWanted(c, before, l, desired, after, t);
      }
    }
  }

  lemma {:induction false} AccountedAlong(c: Context, lbs: seq<LoadBalancerSpec>, desired: set<int32>,
          trace: seq<CloudState>, n: nat, k: nat, lb: string)
    requires Lists(c) && k <= n <= |lbs| && n < |trace| && Steps(c, lbs, desired, trace, n)
    requires Accounted(trace[0], trace[0], lb, desired)
    ensures Accounted(trace[0], trace[k], lb, desired)
  {
    if k > 0 {
      AccountedAlong(c, lbs, desired, trace, n, k - 1, lb);
      StepAt(c, lbs, desired, trace, n, k - 1);
      PassAccounts(c, trace[0], lbs[k - 1], desired, trace[k - 1], trace[k], lb);
    }
  }

  lemma {:induction false} PassNoBlank(c: Context, st: CloudState, l: LoadBalancerSpec, desired: set<int32>,
          after: CloudState)
    requires Lists(c) && Pass(c, st, l, desired, after) && RealNames(c, st)
    ensures RealNames(c, after)
  {
  }

  lemma {:induction false} NoBlank(c: Context, lbs: seq<LoadBalancerSpec>, desired: set<int32>, trace: seq<CloudState>,
          n: nat, k: nat)
    requires Lists(c) && k <= n <= |lbs| && n < |trace| && Steps(c, lbs, desired, trace, n)
    requires RealNames(c, trace[0])
    ensures RealNames(c, trace[k])
  {
    if k > 0 {
      NoBlank(c, lbs, desired, trace, n, k - 1);
      StepAt(c, lbs, desired, trace, n, k - 1);
      PassNoBlank(c, trace[k - 1], lbs[k - 1], desired, trace[k]);
    }
  }

  /** A target group of state `after` that a listener forwarded to in state `before` was there, with
      its port, and was not stale for the load balancer of the pass in between. */
  ghost predicate WasThere(c: Context, before: CloudState, l: LoadBalancerSpec, desired: set<int32>, after: CloudState,
          t: string)
    requires t in after.tgs
  {
    && t in before.tgs && before.tgs[t] == after.tgs[t]
    && !Stale(WithLb(c, before, l), LbOf(c, before, l).arn, desired, t)
  }

  lemma {:induction false} OldWasThere(c: Context, lbs: seq<LoadBalancerSpec>, desired: set<int32>,
          trace: seq<CloudState>, n: nat, k: nat, t: string)
    requires Lists(c) && k < n <= |lbs| && n < |trace| && Steps(c, lbs, desired, trace, n)
    requires NamesFit(c, trace[0], lbs, desired) && t in trace[0].tgs && t in trace[k + 1].tgs
    ensures WasThere(c, trace[k], lbs[k], desired, trace[k + 1], t)
  {
    History(c, lbs, desired, trace, n, k, t);
    History(c, lbs, desired, trace, n, k + 1, t);
    StepAt(c, lbs, desired, trace, n, k);
    PassHistory(c, trace[0], lbs[k], lbs, desired, trace[k], trace[k + 1], t);
  }

  lemma {:induction false} WantedWasThere(c: Context, st: CloudState, l: LoadBalancerSpec, desired: set<int32>,
          after: CloudState, t: string)
    requires Lists(c) && Pass(c, st, l, desired, after) && Wanted(st, desired, t)
    ensures t in after.tgs && WasThere(c, st, l, desired, after, t)
  {
    PassKeepsWanted(c, st, l, desired, after, t);
  }

  lemma {:induction false} ForwardedWasThere(c: Context, lbs: seq<LoadBalancerSpec>, desired: set<int32>,
          trace: seq<CloudState>, n: nat, k: nat, lb: string, p: int32, t: string)
    requires Lists(c) && k < n <= |lbs| && n < |trace| && Steps(c, lbs, desired, trace, n)
    requires RealNames(c, trace[0]) && NamesFit(c, trace[0], lbs, desired) && Accounted(trace[0], trace[0], lb, desired)
    requires p in ListenersOf(trace[k], lb) && Forwards(ListenersOf(trace[k], lb)[p], t) && t in trace[k + 1].tgs
    ensures WasThere(c, trace[k], lbs[k], desired, trace[k + 1], t)
  {
    if t in trace[0].tgs {
      OldWasThere(c, lbs, desired, trace, n, k, t);
    } else {
      assert t != "" by {
        NoBlank(c, lbs, desired, trace, n, k + 1);
      }
      assert Wanted(trace[k], desired, t) by {
        AccountedAlong(c, lbs, desired, trace, n, k, lb);
      }
      StepAt(c, lbs, desired, trace, n, k);
      WantedWasThere(c, trace[k], lbs[k], desired, trace[k + 1], t);
    }
  }

  // ---------------------------------------------------------------- the state after a run is at rest

  ghost predicate ServedAsFound(c: Context, st: CloudState, lb: string, p: int32)
    requires Lists(c)
  {
    p in Found(c, st, lb) && ServedBy(st, lb, p, Found(c, st, lb)[p])
  }

  /** Exactly the desired ports have listeners, and each is served by the target group that would
      be chosen. */
  ghost predicate AllServed(c: Context, st: CloudState, lb: string, desired: set<int32>)
    requires Lists(c)
  {
    && lb in st.listeners && st.listeners[lb].Keys == desired
    && (forall p | p in desired :: ServedAsFound(c, st, lb, p))
  }

  ghost predicate NoneStale(st: CloudState, lb: string, desired: set<int32>) {
    forall t :: !Stale(st, lb, desired, t)
  }

  /** A pass over the load balancer of `l` has nothing to do. */
  ghost predicate AtRest(c: Context, st: CloudState, l: LoadBalancerSpec, desired: set<int32>)
    requires Lists(c)
  {
    var lb := LbOf(c, st, l);
    && c.lbName(l) in st.lbs && lb.network && lb.internetFacing == External(l)
    && AllServed(c, st, lb.arn, desired) && NoneStale(st, lb.arn, desired)
  }

  lemma {:induction false} NothingToDo(c: Context, st: CloudState, lb: string, l: LoadBalancerSpec, desired: set<int32>)
    requires Lists(c) && AllServed(c, st, lb, desired)
    ensures Missing(c, st, lb, desired) == {} && ListenersAfter(c, st, lb, l, desired) == st.listeners[lb]
  {
    var table := st.listeners[lb];
    forall p | p in desired
      ensures ListenerAfter(c, lb, p, table, TargetFor(c, st, lb, l, p)) == table[p] && p in Found(c, st, lb)
    {
      assert ServedAsFound(c, st, lb, p);
    }
  }

  lemma {:induction false} RestingPass(c: Context, st: CloudState, l: LoadBalancerSpec, desired: set<int32>)
    requires Lists(c) && AtRest(c, st, l, desired)
    ensures Pass(c, st, l, desired, st)
  {
    var lb := LbOf(c, st, l).arn;
    NothingToDo(c, st, lb, l, desired);
    forall t ensures t !in StaleGroups(st, lb, desired) {
      assert !Stale(st, lb, desired, t);
    }
  }

  lemma {:induction false} RestingExposed(c: Context, st: CloudState, lb: string, l: LoadBalancerSpec,
          desired: set<int32>, after: CloudState)
    requires Lists(c) && AllServed(c, st, lb, desired) && NoneStale(st, lb, desired)
    requires Exposed(c, st, lb, l, desired, after)
    ensures after.tgs == st.tgs && lb in after.listeners && after.listeners[lb] == st.listeners[lb]
  {
    NothingToDo(c, st, lb, l, desired);
    TargetGroupsUnique(c, st, lb, l, desired, after.tgs, st.tgs);
  }

  lemma {:induction false} RestingWith(c: Context, st: CloudState, lb: string, l: LoadBalancerSpec, desired: set<int32>)
    requires Lists(c) && AllServed(c, st, lb, desired) && NoneStale(st, lb, desired)
    ensures AllServed(c, WithLb(c, st, l), lb, desired) && NoneStale(WithLb(c, st, l), lb, desired)
    ensures WithLb(c, st, l).listeners[lb] == st.listeners[lb]
  {
    var s := WithLb(c, st, l);
    assert ListenersOf(s, lb) == ListenersOf(st, lb);
    assert Associated(s, lb) == Associated(st, lb);
    assert Found(c, s, lb) == Found(c, st, lb);
    forall p | p in desired ensures ServedAsFound(c, s, lb, p) {
      assert ServedAsFound(c, st, lb, p);
    }
    forall t ensures !Stale(s, lb, desired, t) {
      assert !Stale(st, lb, desired, t);
    }
  }

  /** A pass for an entry that stands for a load balancer at rest does nothing to it. */
  lemma {:induction false} RestingOther(c: Context, st: CloudState, l: LoadBalancerSpec, desired: set<int32>,
          after: CloudState)
    requires Lists(c) && Pass(c, st, l, desired, after)
    requires var lb := LbOf(c, st, l).arn; AllServed(c, st, lb, desired) && NoneStale(st, lb, desired)
    ensures var lb := LbOf(c, st, l).arn;
      after.tgs == st.tgs && lb in after.listeners && after.listeners[lb] == st.listeners[lb]
  {
    var lb := LbOf(c, st, l).arn;
    RestingWith(c, st, lb, l, desired);
    RestingExposed(c, WithLb(c, st, l), lb, l, desired, after);
  }

  // ---------------------------------------------------------------- what a pass leaves stays

  /** An associated target group was so before, with its port and not stale, or is the one chosen
      for its port. */
  ghost predicate OldOrChosen(c: Context, l: LoadBalancerSpec, desired: set<int32>, before: CloudState, now: CloudState,
          t: string)
    requires Lists(c) && t in now.tgs
  {
    var s, lb := WithLb(c, before, l), LbOf(c, before, l).arn;
    || (t in Associated(s, lb) && s.tgs[t] == now.tgs[t] && !Stale(s, lb, desired, t))
    || (exists q :: q in desired && t == TargetFor(c, s, lb, l, q))
  }

  /** State `now` still has what the pass from `before` left for its load balancer. */
  ghost predicate AsLeft(c: Context, l: LoadBalancerSpec, desired: set<int32>, before: CloudState, now: CloudState)
    requires Lists(c)
  {
    var s, lb := WithLb(c, before, l), LbOf(c, before, l);
    && lb.network && lb.internetFacing == External(l)
    && c.lbName(l) in now.lbs && LbOf(c, now, l) == lb
    && lb.arn in now.listeners && now.listeners[lb.arn] == ListenersAfter(c, s, lb.arn, l, desired)
    && (forall p | p in desired :: ServedBy(now, lb.arn, p, TargetFor(c, s, lb.arn, l, p)))
    && (forall t | t in Associated(now, lb.arn) :: OldOrChosen(c, l, desired, before, now, t))
  }

  lemma {:induction false} JustOldOrChosen(c: Context, lbs: seq<LoadBalancerSpec>, desired: set<int32>,
          trace: seq<CloudState>, n: nat, i: nat, t: string)
    requires Lists(c) && i < n <= |lbs| && n < |trace| && Steps(c, lbs, desired, trace, n)
    requires Orderly(c, trace[0], lbs, desired) && t in Associated(trace[i + 1], LbOf(c, trace[i], lbs[i]).arn)
    ensures OldOrChosen(c, lbs[i], desired, trace[i], trace[i + 1], t)
  {
    var before, l, after := trace[i], lbs[i], trace[i + 1];
    var s, lb := WithLb(c, before, l), LbOf(c, before, l).arn;
    var p :| p in ListenersOf(after, lb) && Forwards(ListenersOf(after, lb)[p], t);
    StepAt(c, lbs, desired, trace, n, i);
    ForwardedAfter(c, before, l, desired, after, p, t);
    if t != TargetFor(c, s, lb, l, p) {
      SameArn(c, lbs, desired, trace, n, i, l);
      ForwardedWasThere(c, lbs, desired, trace, n, i, lb, p, t);
      assert ListenersOf(s, lb) == ListenersOf(before, lb);
    }
  }

  lemma {:induction false} JustLeft(c: Context, lbs: seq<LoadBalancerSpec>, desired: set<int32>,
          trace: seq<CloudState>, n: nat, i: nat)
    requires Lists(c) && i < n <= |lbs| && n < |trace| && Steps(c, lbs, desired, trace, n)
    requires Orderly(c, trace[0], lbs, desired)
    ensures AsLeft(c, lbs[i], desired, trace[i], trace[i + 1])
  {
    var before, l, after := trace[i], lbs[i], trace[i + 1];
    var s, lb := WithLb(c, before, l), LbOf(c, before, l).arn;
    StepAt(c, lbs, desired, trace, n, i);
    PassLbs(c, before, l, desired, after, l);
    forall p | p in desired ensures ServedBy(after, lb, p, TargetFor(c, s, lb, l, p)) {
      ExposedServes(c, s, lb, l, desired, after, p);
    }
    forall t | t in Associated(after, lb)
      ensures OldOrChosen(c, l, desired, before, after, t)
    {
      JustOldOrChosen(c, lbs, desired, trace, n, i, t);
    }
  }

  /** Such a state is at rest, and the choice in it is the choice of the pass. */
  lemma {:induction false} LeftAtRest(c: Context, rank: string -> int, l: LoadBalancerSpec, desired: set<int32>,
          before: CloudState, now: CloudState)
    requires Lists(c) && OneOrder(c, rank) && AsLeft(c, l, desired, before, now)
    ensures var s, lb := WithLb(c, before, l), LbOf(c, before, l).arn;
      && AtRest(c, now, l, desired)
      && (forall p | p in desired :: TargetFor(c, now, lb, l, p) == TargetFor(c, s, lb, l, p))
  {
    var s, lb := WithLb(c, before, l), LbOf(c, before, l).arn;
    forall p | p in desired
      ensures ServedAsFound(c, now, lb, p) && TargetFor(c, now, lb, l, p) == TargetFor(c, s, lb, l, p)
    {
      ChosenAgain(c, rank, l, desired, before, now, p);
    }
    forall t ensures !Stale(now, lb, desired, t) {
      if t in Associated(now, lb) {
        LeftNotStale(c, l, desired, before, now, t);
      }
    }
  }

  lemma {:induction false} OldUnlessChosen(c: Context, l: LoadBalancerSpec, desired: set<int32>, before: CloudState,
          now: CloudState, t: string, p: int32)
    requires Lists(c) && AsLeft(c, l, desired, before, now) && t in Associated(now, LbOf(c, before, l).arn)
    requires now.tgs[t] == Some(p)
    ensures var s, lb := WithLb(c, before, l), LbOf(c, before, l).arn;
      || (t in Associated(s, lb) && s.tgs[t] == Some(p) && !Stale(s, lb, desired, t))
      || (p in desired && t == TargetFor(c, s, lb, l, p))
  {
    var s, lb := WithLb(c, before, l), LbOf(c, before, l).arn;
    assert OldOrChosen(c, l, desired, before, now, t);
    if q :| q in desired && t == TargetFor(c, s, lb, l, q) {
      assert ServedBy(now, lb, q, t);
    }
  }

  lemma {:induction false} ChosenAgain(c: Context, rank: string -> int, l: LoadBalancerSpec, desired: set<int32>,
          before: CloudState, now: CloudState, p: int32)
    requires Lists(c) && OneOrder(c, rank) && AsLeft(c, l, desired, before, now) && p in desired
    ensures var s, lb := WithLb(c, before, l), LbOf(c, before, l).arn;
      ServedAsFound(c, now, lb, p) && TargetFor(c, now, lb, l, p) == TargetFor(c, s, lb, l, p)
  {
    var s, lb := WithLb(c, before, l), LbOf(c, before, l).arn;
    var v := TargetFor(c, s, lb, l, p);
    assert ServedBy(now, lb, p, v);
    forall t | t in Associated(now, lb) && now.tgs[t] == Some(p) && t != v
      ensures t in Associated(s, lb) && s.tgs[t] == Some(p)
    {
      OldUnlessChosen(c, l, desired, before, now, t, p);
    }
    SameChoice(c, rank, s, now, lb, l, p, v);
  }

  lemma {:induction false} LeftNotStale(c: Context, l: LoadBalancerSpec, desired: set<int32>, before: CloudState,
          now: CloudState, t: string)
    requires Lists(c) && AsLeft(c, l, desired, before, now) && t in Associated(now, LbOf(c, before, l).arn)
    ensures !Stale(now, LbOf(c, before, l).arn, desired, t)
  {
    if now.tgs[t].Some? {
      OldUnlessChosen(c, l, desired, before, now, t, now.tgs[t].value);
    }
  }

  lemma {:induction false} StaysLeft(c: Context, l: LoadBalancerSpec, desired: set<int32>, before: CloudState,
          now: CloudState, l': LoadBalancerSpec, after: CloudState)
    requires Lists(c) && AsLeft(c, l, desired, before, now) && Pass(c, now, l', desired, after)
    requires var lb := LbOf(c, before, l).arn;
      && lb in after.listeners && after.listeners[lb] == now.listeners[lb]
      && (forall t | t in Associated(after, lb) :: t in Associated(now, lb) && now.tgs[t] == after.tgs[t])
    ensures AsLeft(c, l, desired, before, after)
  {
    var s, lb := WithLb(c, before, l), LbOf(c, before, l);
    PassLbs(c, now, l', desired, after, l);
    forall p | p in desired ensures ServedBy(after, lb.arn, p, TargetFor(c, s, lb.arn, l, p)) {
      assert ServedBy(now, lb.arn, p, TargetFor(c, s, lb.arn, l, p));
      PassKeepsWanted(c, now, l', desired, after, TargetFor(c, s, lb.arn, l, p));
    }
    forall t | t in Associated(after, lb.arn)
      ensures OldOrChosen(c, l, desired, before, after, t)
    {
      assert OldOrChosen(c, l, desired, before, now, t);
    }
  }

  /** Later passes keep what pass `i` left, also those over the same load balancer. */
  lemma {:induction false} LeftInTheEnd(c: Context, rank: string -> int, lbs: seq<LoadBalancerSpec>,
          desired: set<int32>, trace: seq<CloudState>, n: nat, i: nat, k: nat)
    requires Lists(c) && i < k <= n <= |lbs| && n < |trace| && Steps(c, lbs, desired, trace, n)
    requires OneOrder(c, rank) && Orderly(c, trace[0], lbs, desired)
    ensures AsLeft(c, lbs[i], desired, trace[i], trace[k])
    decreases k
  {
    if k == i + 1 {
      JustLeft(c, lbs, desired, trace, n, i);
    } else {
      LeftInTheEnd(c, rank, lbs, desired, trace, n, i, k - 1);
      LeftOneMore(c, rank, lbs, desired, trace, n, i, k - 1);
    }
  }

  lemma {:induction false} LeftOneMore(c: Context, rank: string -> int, lbs: seq<LoadBalancerSpec>,
          desired: set<int32>, trace: seq<CloudState>, n: nat, i: nat, k: nat)
    requires Lists(c) && i < k < n <= |lbs| && n < |trace| && Steps(c, lbs, desired, trace, n)
    requires OneOrder(c, rank) && Orderly(c, trace[0], lbs, desired)
    requires AsLeft(c, lbs[i], desired, trace[i], trace[k])
    ensures AsLeft(c, lbs[i], desired, trace[i], trace[k + 1])
  {
    var l, now, after := lbs[i], trace[k], trace[k + 1];
    var lb := LbOf(c, now, l).arn;
    StepAt(c, lbs, desired, trace, n, k);
    if LbOf(c, now, lbs[k]).arn == lb {
      LeftAtRest(c, rank, l, desired, trace[i], now);
      RestingOther(c, now, lbs[k], desired, after);
    } else {
      PassKeepsListeners(c, now, lbs[k], desired, after, lb);
      SameArn(c, lbs, desired, trace, n, k, l);
      forall t | t in Associated(after, lb)
        ensures t in Associated(now, lb) && now.tgs[t] == after.tgs[t]
      {
        var p :| p in ListenersOf(after, lb) && Forwards(ListenersOf(after, lb)[p], t);
        ForwardedWasThere(c, lbs, desired, trace, n, k, lb, p, t);
      }
    }
    StaysLeft(c, l, desired, trace[i], now, lbs[k], after);
  }

  // ---------------------------------------------------------------- the second run

  ghost function Still(st: CloudState, n: nat): seq<CloudState> {
    seq(n, _ => st)
  }

  /** A run over load balancers at rest stays where it starts. */
  lemma {:induction false} RestingRun(c: Context, lbs: seq<LoadBalancerSpec>, desired: set<int32>,
          trace: seq<CloudState>)
    requires Lists(c) && |trace| == |lbs| + 1 && Steps(c, lbs, desired, trace, |lbs|)
    requires forall i | 0 <= i < |lbs| :: AtRest(c, trace[0], lbs[i], desired)
    ensures forall i | 0 <= i <= |lbs| :: trace[i] == trace[0]
  {
    forall i | 0 <= i < |lbs| && trace[i] == trace[0]
      ensures trace[i + 1] == trace[0]
    {
      StepAt(c, lbs, desired, trace, |lbs|, i);
      RestingPass(c, trace[0], lbs[i], desired);
      PassUnique(c, trace[0], lbs[i], desired, trace[0], trace[i + 1]);
    }
    forall k | 0 <= k <= |lbs|
      ensures trace[k] == trace[0]
    {
      InStep(trace, Still(trace[0], |trace|), |lbs|, k);
    }
  }

  /** Load balancer `l` is at rest in `end`, with the choices that were made in `before`. */
  ghost predicate RestsLike(c: Context, before: CloudState, end: CloudState, l: LoadBalancerSpec, desired: set<int32>)
    requires Lists(c)
  {
    && AtRest(c, end, l, desired) && LbOf(c, end, l) == LbOf(c, before, l)
    && ManagedIn(c, desired)(end, l) <= ManagedIn(c, desired)(before, l)
    && TargetsIn(c, desired)(end, l) == TargetsIn(c, desired)(before, l)
    && LbStatusIn(c)(end, l) == LbStatusIn(c)(before, l)
    && (forall p | p in desired :: EntryIn(c, p)(end, l) == EntryIn(c, p)(before, l))
  }

  lemma {:induction false} LeftRestsLike(c: Context, rank: string -> int, l: LoadBalancerSpec, desired: set<int32>,
          before: CloudState, end: CloudState)
    requires Lists(c) && OneOrder(c, rank) && AsLeft(c, l, desired, before, end)
    ensures RestsLike(c, before, end, l, desired)
  {
    var s, lb := WithLb(c, before, l), LbOf(c, before, l);
    LeftAtRest(c, rank, l, desired, before, end);
    assert WithLb(c, end, l) == end;
    LeftManaged(c, l, desired, before, end);
    forall p | p in desired
      ensures EntryIn(c, p)(end, l) == EntryIn(c, p)(before, l)
    {
      assert ServedAsFound(c, end, lb.arn, p);
      assert end.listeners[lb.arn][p]
        == ListenerAfter(c, lb.arn, p, ListenersOf(s, lb.arn), TargetFor(c, s, lb.arn, l, p));
    }
  }

  /** What the second run would count as its own the first one did as well. */
  lemma {:induction false} LeftManaged(c: Context, l: LoadBalancerSpec, desired: set<int32>, before: CloudState,
          end: CloudState)
    requires Lists(c) && AsLeft(c, l, desired, before, end) && AtRest(c, end, l, desired)
    ensures ManagedIn(c, desired)(end, l) <= ManagedIn(c, desired)(before, l)
  {
    var s, lb := WithLb(c, before, l), LbOf(c, before, l).arn;
    NothingMissing(c, end, l, desired);
    forall t | t in Associated(end, lb) && end.tgs[t].Some?
      ensures t in ManagedBy(c, s, lb, l, desired)
    {
      assert OldOrChosen(c, l, desired, before, end, t);
      if q :| q in desired && t == TargetFor(c, s, lb, l, q) {
        ChosenManaged(c, s, lb, l, desired, q);
      }
    }
  }

  lemma {:induction false} ChosenManaged(c: Context, st: CloudState, lb: string, l: LoadBalancerSpec,
          desired: set<int32>, p: int32)
    requires Lists(c) && p in desired
    ensures TargetFor(c, st, lb, l, p) in ManagedBy(c, st, lb, l, desired)
  {
    FoundSpec(c, st, lb);
    if p !in Found(c, st, lb) {
      assert p in Missing(c, st, lb, desired);
    }
  }

  lemma {:induction false} NothingMissing(c: Context, st: CloudState, l: LoadBalancerSpec, desired: set<int32>)
    requires Lists(c) && AtRest(c, st, l, desired)
    ensures var lb := LbOf(c, st, l).arn;
      ManagedIn(c, desired)(st, l) == set t | t in Associated(st, lb) && st.tgs[t].Some?
  {
    var lb := LbOf(c, st, l).arn;
    forall p | p in desired ensures p in Found(c, st, lb) {
      assert ServedAsFound(c, st, lb, p);
    }
    assert Missing(c, st, lb, desired) == {};
    assert ArnsOf(c, l, {}) == {};
  }

  /** The attachments play no part in this. */
  lemma {:induction false} RestsAttached(c: Context, before: CloudState, end: CloudState, after: CloudState,
          l: LoadBalancerSpec, desired: set<int32>)
    requires Lists(c) && RestsLike(c, before, end, l, desired) && after == end.(attached := after.attached)
    ensures RestsLike(c, before, after, l, desired)
  {
    var lb := LbOf(c, end, l).arn;
    assert ListenersOf(after, lb) == ListenersOf(end, lb);
    assert Associated(after, lb) == Associated(end, lb);
    assert Found(c, after, lb) == Found(c, end, lb);
    forall p | p in desired ensures ServedAsFound(c, after, lb, p) {
      assert ServedAsFound(c, end, lb, p);
    }
    forall t ensures !Stale(after, lb, desired, t) {
      assert !Stale(end, lb, desired, t);
    }
    assert WithLb(c, after, l) == after && WithLb(c, end, l) == end;
  }

  lemma {:induction false} UnionGrows(a: seq<set<string>>, b: seq<set<string>>)
    requires |a| == |b| && forall i | 0 <= i < |a| :: a[i] <= b[i]
    ensures Union(a) <= Union(b)
  {
    if |a| > 0 {
      UnionGrows(a[..|a| - 1], b[..|b| - 1]);
    }
  }

  lemma {:induction false} SecondGroups(c: Context, lbs: seq<LoadBalancerSpec>, desired: set<int32>,
          trace: seq<CloudState>, again: seq<CloudState>)
    requires Lists(c) && |lbs| < |trace| && |lbs| < |again|
    requires forall i | 0 <= i < |lbs| :: RestsLike(c, trace[i], again[i], lbs[i], desired)
    ensures Managed(c, lbs, desired, again, |lbs|) <= Managed(c, lbs, desired, trace, |lbs|)
    ensures Targets(c, lbs, desired, again, |lbs|) == Targets(c, lbs, desired, trace, |lbs|)
  {
    var f, g := ManagedIn(c, desired), TargetsIn(c, desired);
    forall i | 0 <= i < |lbs|
      ensures f(again[i], lbs[i]) <= f(trace[i], lbs[i]) && g(again[i], lbs[i]) == g(trace[i], lbs[i])
    {
      RestsGroups(c, trace[i], again[i], lbs[i], desired);
    }
    EachGrows(f, lbs, trace, again);
    EachSame(g, lbs, trace, again);
  }

  lemma {:induction false} RestsGroups(c: Context, before: CloudState, end: CloudState, l: LoadBalancerSpec,
          desired: set<int32>)
    requires Lists(c) && RestsLike(c, before, end, l, desired)
    ensures ManagedIn(c, desired)(end, l) <= ManagedIn(c, desired)(before, l)
    ensures TargetsIn(c, desired)(end, l) == TargetsIn(c, desired)(before, l)
  {
  }

  lemma {:induction false} EachGrows(f: (CloudState, LoadBalancerSpec) -> set<string>, lbs: seq<LoadBalancerSpec>,
          trace: seq<CloudState>, again: seq<CloudState>)
    requires |lbs| <= |trace| && |lbs| <= |again|
    requires forall i | 0 <= i < |lbs| :: f(again[i], lbs[i]) <= f(trace[i], lbs[i])
    ensures Union(Each(f, lbs, again, |lbs|)) <= Union(Each(f, lbs, trace, |lbs|))
  {
    UnionGrows(Each(f, lbs, again, |lbs|), Each(f, lbs, trace, |lbs|));
  }

  lemma {:induction false} EachSame<T>(f: (CloudState, LoadBalancerSpec) -> T, lbs: seq<LoadBalancerSpec>,
          trace: seq<CloudState>, again: seq<CloudState>)
    requires |lbs| <= |trace| && |lbs| <= |again|
    requires forall i | 0 <= i < |lbs| :: f(again[i], lbs[i]) == f(trace[i], lbs[i])
    ensures Each(f, lbs, again, |lbs|) == Each(f, lbs, trace, |lbs|)
  {
  }

  lemma {:induction false} RestsEntries(c: Context, before: CloudState, end: CloudState, l: LoadBalancerSpec,
          desired: set<int32>, p: int32)
    requires Lists(c) && RestsLike(c, before, end, l, desired)
    ensures LbStatusIn(c)(end, l) == LbStatusIn(c)(before, l)
    ensures p in desired ==> EntryIn(c, p)(end, l) == EntryIn(c, p)(before, l)
  {
  }

  lemma {:induction false} SecondEntries(c: Context, lbs: seq<LoadBalancerSpec>, desired: set<int32>,
          trace: seq<CloudState>, again: seq<CloudState>, p: int32)
    requires Lists(c) && |lbs| < |trace| && |lbs| < |again|
    requires forall i | 0 <= i < |lbs| :: RestsLike(c, trace[i], again[i], lbs[i], desired)
    ensures LbStatusesUpTo(c, lbs, again, |lbs|) == LbStatusesUpTo(c, lbs, trace, |lbs|)
    ensures p in desired ==> EntriesUpTo(c, lbs, again, p, |lbs|) == EntriesUpTo(c, lbs, trace, p, |lbs|)
  {
    var f, g := LbStatusIn(c), EntryIn(c, p);
    forall i | 0 <= i < |lbs|
      ensures f(again[i], lbs[i]) == f(trace[i], lbs[i])
      ensures p in desired ==> g(again[i], lbs[i]) == g(trace[i], lbs[i])
    {
      RestsEntries(c, trace[i], again[i], lbs[i], desired, p);
    }
    EachSame(f, lbs, trace, again);
    if p in desired {
      EachSame(g, lbs, trace, again);
    }
  }

  lemma {:induction false} SecondOutput(c: Context, lbs: seq<LoadBalancerSpec>, desired: map<int32, string>,
          trace: seq<CloudState>, again: seq<CloudState>, out: Exposure)
    requires Lists(c) && |lbs| < |trace| && |lbs| < |again| && Returned(c, lbs, desired, again, out)
    requires forall i | 0 <= i < |lbs| :: RestsLike(c, trace[i], again[i], lbs[i], desired.Keys)
    ensures Returned(c, lbs, desired, trace, out)
  {
    SecondEntries(c, lbs, desired.Keys, trace, again, 0);
    forall p | p in desired
      ensures EntriesUpTo(c, lbs, again, p, |lbs|) == EntriesUpTo(c, lbs, trace, p, |lbs|)
    {
      SecondEntries(c, lbs, desired.Keys, trace, again, p);
    }
  }

  /** After the first run all load balancers rest, also with the new attachments. */
  lemma {:induction false} AllRest(c: Context, rank: string -> int, lbs: seq<LoadBalancerSpec>, desired: set<int32>,
          trace: seq<CloudState>, after: CloudState)
    requires Lists(c) && |trace| == |lbs| + 1 && Steps(c, lbs, desired, trace, |lbs|)
    requires OneOrder(c, rank) && Orderly(c, trace[0], lbs, desired)
    requires after == trace[|lbs|].(attached := after.attached)
    ensures forall i | 0 <= i < |lbs| :: RestsLike(c, trace[i], after, lbs[i], desired)
  {
    forall i | 0 <= i < |lbs|
      ensures RestsLike(c, trace[i], after, lbs[i], desired)
    {
      LeftInTheEnd(c, rank, lbs, desired, trace, |lbs|, i, |lbs|);
      LeftRestsLike(c, rank, lbs[i], desired, trace[i], trace[|lbs|]);
      RestsAttached(c, trace[i], trace[|lbs|], after, lbs[i], desired);
    }
  }

  /** So the second run stays where it starts. */
  lemma {:induction false} SecondStates(c: Context, lbs: seq<LoadBalancerSpec>, desired: set<int32>,
          trace: seq<CloudState>, again: seq<CloudState>)
    requires Lists(c) && |trace| == |again| == |lbs| + 1 && Steps(c, lbs, desired, again, |lbs|)
    requires forall i | 0 <= i < |lbs| :: RestsLike(c, trace[i], again[0], lbs[i], desired)
    ensures forall i | 0 <= i <= |lbs| :: again[i] == again[0]
  {
    forall i | 0 <= i < |lbs|
      ensures AtRest(c, again[0], lbs[i], desired)
    {
      assert RestsLike(c, trace[i], again[0], lbs[i], desired);
    }
    RestingRun(c, lbs, desired, again);
  }

  lemma {:induction false} AttachedAgain(before: set<string>, managed: set<string>, targets: set<string>,
          managed': set<string>)
    requires managed' <= managed
    ensures (((before - managed) + targets) - managed') + targets == (before - managed) + targets
  {
  }

  /** Idempotence. From an orderly state, a second completed run that wants the same ports changes
      nothing, neither listeners nor target groups nor attachments, and returns the same. */
  lemma {:induction false} SecondRunIdle(c: Context, rank: string -> int, lbs: seq<LoadBalancerSpec>,
          desired: map<int32, string>, st: CloudState, trace: seq<CloudState>, after: CloudState, out: Exposure,
          again: seq<CloudState>, after': CloudState, out': Exposure)
    requires Lists(c) && OneOrder(c, rank) && Orderly(c, st, lbs, desired.Keys)
    requires Completed(c, lbs, desired, st, trace, after, out)
    requires Completed(c, lbs, desired, after, again, after', out')
    ensures after' == after && out' == out
  {
    PassesAreSteps(c, lbs, desired.Keys, trace, |lbs|);
    PassesAreSteps(c, lbs, desired.Keys, again, |lbs|);
    AllRest(c, rank, lbs, desired.Keys, trace, after);
    SecondStates(c, lbs, desired.Keys, trace, again);
    SecondGroups(c, lbs, desired.Keys, trace, again);
    SecondOutput(c, lbs, desired, trace, again, out');
    SameOutput(c, lbs, desired, trace, out, out');
    var n := |lbs|;
    AttachedAgain(st.attached.value, Managed(c, lbs, desired.Keys, trace, n), Targets(c, lbs, desired.Keys, trace, n),
                  Managed(c, lbs, desired.Keys, again, n));
  }

  // ---------------------------------------------------------------- exactly when a run is idle

  /** The condition under which a run changes nothing: all load balancers are at rest, and what is
      attached is what would be attached. */
  ghost predicate Idle(c: Context, st: CloudState, lbs: seq<LoadBalancerSpec>, desired: set<int32>)
    requires Lists(c)
  {
    && st.attached.Some? && (forall i | 0 <= i < |lbs| :: AtRest(c, st, lbs[i], desired))
    && (st.attached.value - Managed(c, lbs, desired, Still(st, |lbs|), |lbs|))
         + Targets(c, lbs, desired, Still(st, |lbs|), |lbs|) == st.attached.value
  }

  lemma {:induction false} ByPortAny(tgs: map<string, Option<int32>>, listed: seq<string>, n: nat, k: nat)
    requires n <= |listed| && forall t | t in listed :: t in tgs
    requires k < n && tgs[listed[k]].Some?
    ensures tgs[listed[k]].value in ByPort(tgs, listed, n)
  {
    if k < n - 1 {
      ByPortAny(tgs, listed, n - 1, k);
    }
  }

  lemma {:induction false} FoundAny(c: Context, st: CloudState, lb: string, t: string, p: int32)
    requires Lists(c) && t in Associated(st, lb) && st.tgs[t] == Some(p)
    ensures p in Found(c, st, lb)
  {
    var listed := c.order(Associated(st, lb));
    assert t in listed;
    var k :| 0 <= k < |listed| && listed[k] == t;
    ByPortAny(st.tgs, listed, |listed|, k);
  }

  /** The life of a target group: unwanted, gone, then wanted for good. */
  ghost function Stage(st: CloudState, desired: set<int32>, t: string): nat {
    if Wanted(st, desired, t) then 2 else if t in st.tgs then 0 else 1
  }

  ghost predicate SameTg(a: CloudState, b: CloudState, t: string) {
    (t in a.tgs <==> t in b.tgs) && (t in a.tgs ==> a.tgs[t] == b.tgs[t])
  }

  lemma {:induction false} PassStage(c: Context, before: CloudState, l: LoadBalancerSpec, desired: set<int32>,
          after: CloudState, t: string)
    requires Lists(c) && Pass(c, before, l, desired, after)
    ensures Stage(before, desired, t) <= Stage(after, desired, t)
    ensures Stage(before, desired, t) == Stage(after, desired, t) ==> SameTg(before, after, t)
  {
    var s, lb := WithLb(c, before, l), LbOf(c, before, l).arn;
    assert t in after.tgs <==> (t in s.tgs && !Stale(s, lb, desired, t))
                               || exists p :: p in Missing(c, s, lb, desired) && t == c.tgArn(l, p);
  }

  lemma {:induction false} StagesGrow(c: Context, lbs: seq<LoadBalancerSpec>, desired: set<int32>,
          trace: seq<CloudState>, n: nat, i: nat, k: nat, t: string)
    requires Lists(c) && i <= k <= n <= |lbs| && n < |trace| && Steps(c, lbs, desired, trace, n)
    ensures Stage(trace[i], desired, t) <= Stage(trace[k], desired, t)
    decreases k
  {
    if i < k {
      StagesGrow(c, lbs, desired, trace, n, i, k - 1, t);
      StepAt(c, lbs, desired, trace, n, k - 1);
      PassStage(c, trace[k - 1], lbs[k - 1], desired, trace[k], t);
    }
  }

  /** If the target groups are the same in the end, no pass changes one. */
  lemma {:induction false} SameTgAt(c: Context, lbs: seq<LoadBalancerSpec>, desired: set<int32>,
          trace: seq<CloudState>, n: nat, k: nat, t: string)
    requires Lists(c) && k < n <= |lbs| && n < |trace| && Steps(c, lbs, desired, trace, n)
    requires trace[n].tgs == trace[0].tgs
    ensures SameTg(trace[k], trace[k + 1], t)
  {
    StagesGrow(c, lbs, desired, trace, n, 0, k, t);
    StagesGrow(c, lbs, desired, trace, n, k + 1, n, t);
    StepAt(c, lbs, desired, trace, n, k);
    PassStage(c, trace[k], lbs[k], desired, trace[k + 1], t);
  }

  lemma {:induction false} SameTgs(c: Context, lbs: seq<LoadBalancerSpec>, desired: set<int32>, trace: seq<CloudState>,
          n: nat, k: nat)
    requires Lists(c) && k < n <= |lbs| && n < |trace| && Steps(c, lbs, desired, trace, n)
    requires trace[n].tgs == trace[0].tgs
    ensures trace[k + 1].tgs == trace[k].tgs
  {
    var before, after := trace[k], trace[k + 1];
    forall t ensures SameTg(before, after, t) {
      SameTgAt(c, lbs, desired, trace, n, k, t);
    }
    EqualTgs(before, after);
  }

  lemma {:induction false} EqualTgs(a: CloudState, b: CloudState)
    requires forall t :: SameTg(a, b, t)
    ensures a.tgs == b.tgs
  {
    forall t ensures t in a.tgs <==> t in b.tgs
      ensures t in a.tgs ==> t in b.tgs && a.tgs[t] == b.tgs[t]
    {
      assert SameTg(a, b, t);
    }
  }

  lemma {:induction false} SameLb(c: Context, lbs: seq<LoadBalancerSpec>, desired: set<int32>, trace: seq<CloudState>,
          n: nat, k: nat, l: LoadBalancerSpec)
    requires Lists(c) && k <= n <= |lbs| && n < |trace| && Steps(c, lbs, desired, trace, n)
    requires c.lbName(l) in trace[0].lbs
    ensures c.lbName(l) in trace[k].lbs && LbOf(c, trace[k], l) == LbOf(c, trace[0], l)
  {
    if k > 0 {
      SameLb(c, lbs, desired, trace, n, k - 1, l);
      StepAt(c, lbs, desired, trace, n, k - 1);
      PassLbs(c, trace[k - 1], lbs[k - 1], desired, trace[k], l);
    }
  }

  /** Each desired port has a target group associated with the load balancer. */
  ghost predicate FoundEvery(c: Context, st: CloudState, lb: string, desired: set<int32>)
    requires Lists(c)
  {
    forall p | p in desired :: p in Found(c, st, lb)
  }

  lemma {:induction false} SameFound(c: Context, a: CloudState, b: CloudState, lb: string)
    requires Lists(c) && a.tgs == b.tgs && Associated(a, lb) == Associated(b, lb)
    ensures Found(c, a, lb) == Found(c, b, lb)
  {
  }

  /** A pass that changes no target group then associates no other one. */
  lemma {:induction false} PassShrinks(c: Context, before: CloudState, l: LoadBalancerSpec, desired: set<int32>,
          after: CloudState, lb: string)
    requires Lists(c) && Pass(c, before, l, desired, after) && after.tgs == before.tgs
    requires FoundEvery(c, before, lb, desired)
    ensures FoundEvery(c, after, lb, desired) && Associated(after, lb) <= Associated(before, lb)
  {
    if lb != LbOf(c, before, l).arn {
      PassKeepsListeners(c, before, l, desired, after, lb);
      SameFound(c, before, after, lb);
    } else {
      forall p | p in desired ensures p in Found(c, after, lb) {
        ExposedServes(c, WithLb(c, before, l), lb, l, desired, after, p);
        FoundAny(c, after, lb, TargetFor(c, WithLb(c, before, l), lb, l, p), p);
      }
      forall t | t in Associated(after, lb) ensures t in Associated(before, lb) {
        PassAssociates(c, before, l, desired, after, t);
      }
    }
  }

  lemma {:induction false} PassAssociates(c: Context, before: CloudState, l: LoadBalancerSpec, desired: set<int32>,
          after: CloudState, t: string)
    requires Lists(c) && Pass(c, before, l, desired, after) && after.tgs == before.tgs
    requires FoundEvery(c, before, LbOf(c, before, l).arn, desired)
    requires t in Associated(after, LbOf(c, before, l).arn)
    ensures t in Associated(before, LbOf(c, before, l).arn)
  {
    var s, lb := WithLb(c, before, l), LbOf(c, before, l).arn;
    var p :| p in ListenersOf(after, lb) && Forwards(ListenersOf(after, lb)[p], t);
    ForwardedAfter(c, before, l, desired, after, p, t);
    assert ListenersOf(s, lb) == ListenersOf(before, lb);
    assert Associated(s, lb) == Associated(before, lb);
    SameFound(c, s, before, lb);
    FoundSpec(c, before, lb);
  }

  /** A run that ends as it began, but for the attachments. */
  ghost predicate Returns(c: Context, lbs: seq<LoadBalancerSpec>, desired: set<int32>, trace: seq<CloudState>)
    requires Lists(c)
  {
    && |trace| == |lbs| + 1 && Steps(c, lbs, desired, trace, |lbs|)
    && trace[|lbs|] == trace[0].(attached := trace[|lbs|].attached)
  }

  lemma {:induction false} ShrinksOnce(c: Context, lbs: seq<LoadBalancerSpec>, desired: set<int32>,
          trace: seq<CloudState>, k: nat, lb: string)
    requires Lists(c) && Returns(c, lbs, desired, trace) && k < |lbs| && FoundEvery(c, trace[k], lb, desired)
    ensures FoundEvery(c, trace[k + 1], lb, desired) && Associated(trace[k + 1], lb) <= Associated(trace[k], lb)
  {
    SameTgs(c, lbs, desired, trace, |lbs|, k);
    StepAt(c, lbs, desired, trace, |lbs|, k);
    PassShrinks(c, trace[k], lbs[k], desired, trace[k + 1], lb);
  }

  lemma {:induction false} Shrinks(c: Context, lbs: seq<LoadBalancerSpec>, desired: set<int32>, trace: seq<CloudState>,
          i: nat, k: nat, lb: string)
    requires Lists(c) && Returns(c, lbs, desired, trace) && i <= k <= |lbs| && FoundEvery(c, trace[i], lb, desired)
    ensures FoundEvery(c, trace[k], lb, desired) && Associated(trace[k], lb) <= Associated(trace[i], lb)
    decreases k - i
  {
    if i < k {
      ShrinksOnce(c, lbs, desired, trace, i, lb);
      Shrinks(c, lbs, desired, trace, i + 1, k, lb);
    }
  }

  lemma {:induction false} SameAssociated(c: Context, lbs: seq<LoadBalancerSpec>, desired: set<int32>,
          trace: seq<CloudState>, k: nat, lb: string)
    requires Lists(c) && Returns(c, lbs, desired, trace) && k <= |lbs| && FoundEvery(c, trace[0], lb, desired)
    ensures FoundEvery(c, trace[k], lb, desired) && Associated(trace[k], lb) == Associated(trace[0], lb)
  {
    Shrinks(c, lbs, desired, trace, 0, k, lb);
    Shrinks(c, lbs, desired, trace, k, |lbs|, lb);
    assert ListenersOf(trace[|lbs|], lb) == ListenersOf(trace[0], lb);
    assert Associated(trace[|lbs|], lb) == Associated(trace[0], lb);
  }

  lemma {:induction false} PassServes(c: Context, before: CloudState, l: LoadBalancerSpec, desired: set<int32>,
          after: CloudState, lb: string)
    requires Lists(c) && Pass(c, before, l, desired, after) && after.tgs == before.tgs
    requires FoundEvery(c, before, lb, desired) && Associated(after, lb) == Associated(before, lb)
    requires LbOf(c, before, l).arn == lb || AllServed(c, before, lb, desired)
    ensures AllServed(c, after, lb, desired)
  {
    SameFound(c, before, after, lb);
    var s := WithLb(c, before, l);
    if LbOf(c, before, l).arn == lb {
      assert ListenersOf(s, lb) == ListenersOf(before, lb);
      assert Associated(s, lb) == Associated(before, lb);
      SameFound(c, s, before, lb);
      forall p | p in desired ensures ServedAsFound(c, after, lb, p) {
        ExposedServes(c, s, lb, l, desired, after, p);
      }
    } else {
      PassKeepsListeners(c, before, l, desired, after, lb);
      forall p | p in desired ensures ServedAsFound(c, after, lb, p) {
        assert ServedAsFound(c, before, lb, p);
      }
    }
  }

  lemma {:induction false} ServesOnce(c: Context, lbs: seq<LoadBalancerSpec>, desired: set<int32>,
          trace: seq<CloudState>, k: nat, lb: string)
    requires Lists(c) && Returns(c, lbs, desired, trace) && k < |lbs| && FoundEvery(c, trace[0], lb, desired)
    requires LbOf(c, trace[k], lbs[k]).arn == lb || AllServed(c, trace[k], lb, desired)
    ensures AllServed(c, trace[k + 1], lb, desired)
  {
    SameAssociated(c, lbs, desired, trace, k, lb);
    SameAssociated(c, lbs, desired, trace, k + 1, lb);
    SameTgs(c, lbs, desired, trace, |lbs|, k);
    StepAt(c, lbs, desired, trace, |lbs|, k);
    PassServes(c, trace[k], lbs[k], desired, trace[k + 1], lb);
  }

  lemma {:induction false} ServedSince(c: Context, lbs: seq<LoadBalancerSpec>, desired: set<int32>,
          trace: seq<CloudState>, i: nat, k: nat, lb: string)
    requires Lists(c) && Returns(c, lbs, desired, trace) && i < k <= |lbs| && FoundEvery(c, trace[0], lb, desired)
    requires LbOf(c, trace[i], lbs[i]).arn == lb
    ensures AllServed(c, trace[k], lb, desired)
    decreases k
  {
    if i < k - 1 {
      ServedSince(c, lbs, desired, trace, i, k - 1, lb);
    }
    ServesOnce(c, lbs, desired, trace, k - 1, lb);
  }

  /** A pass that changes no target group found nothing stale. */
  lemma {:induction false} NothingStale(c: Context, before: CloudState, l: LoadBalancerSpec, desired: set<int32>,
          after: CloudState, t: string)
    requires Lists(c) && Pass(c, before, l, desired, after) && after.tgs == before.tgs
    requires FoundEvery(c, before, LbOf(c, before, l).arn, desired)
    ensures !Stale(before, LbOf(c, before, l).arn, desired, t)
  {
    var s, lb := WithLb(c, before, l), LbOf(c, before, l).arn;
    assert ListenersOf(s, lb) == ListenersOf(before, lb);
    assert Associated(s, lb) == Associated(before, lb);
    SameFound(c, s, before, lb);
    assert Missing(c, s, lb, desired) == {};
    assert t in after.tgs <==> t in s.tgs && !Stale(s, lb, desired, t);
  }

  lemma {:induction false} BeganUnstale(c: Context, lbs: seq<LoadBalancerSpec>, desired: set<int32>,
          trace: seq<CloudState>, i: nat, lb: string)
    requires Lists(c) && Returns(c, lbs, desired, trace) && i < |lbs| && FoundEvery(c, trace[0], lb, desired)
    requires LbOf(c, trace[i], lbs[i]).arn == lb
    ensures NoneStale(trace[0], lb, desired)
  {
    SameAssociated(c, lbs, desired, trace, i, lb);
    TgsUpTo(c, lbs, desired, trace, i);
    SameTgs(c, lbs, desired, trace, |lbs|, i);
    StepAt(c, lbs, desired, trace, |lbs|, i);
    forall t ensures !Stale(trace[0], lb, desired, t) {
      NothingStale(c, trace[i], lbs[i], desired, trace[i + 1], t);
    }
  }

  /** A run that ends as it began began at rest. */
  lemma {:induction false} BeganAtRest(c: Context, lbs: seq<LoadBalancerSpec>, desired: set<int32>,
          trace: seq<CloudState>, i: nat)
    requires Lists(c) && Returns(c, lbs, desired, trace) && i < |lbs| && c.lbName(lbs[i]) in trace[0].lbs
    requires FoundEvery(c, trace[0], LbOf(c, trace[0], lbs[i]).arn, desired)
    ensures AtRest(c, trace[0], lbs[i], desired)
  {
    var l, n := lbs[i], |lbs|;
    SameLb(c, lbs, desired, trace, n, i, l);
    var lb := LbOf(c, trace[0], l);
    BeganUnstale(c, lbs, desired, trace, i, lb.arn);
    ServedSince(c, lbs, desired, trace, i, n, lb.arn);
    ServedBack(c, trace[0], trace[n], lb.arn, desired);
    StepAt(c, lbs, desired, trace, n, i);
  }

  lemma {:induction false} TgsUpTo(c: Context, lbs: seq<LoadBalancerSpec>, desired: set<int32>,
          trace: seq<CloudState>, k: nat)
    requires Lists(c) && Returns(c, lbs, desired, trace) && k <= |lbs|
    ensures trace[k].tgs == trace[0].tgs
  {
    if k > 0 {
      TgsUpTo(c, lbs, desired, trace, k - 1);
      SameTgs(c, lbs, desired, trace, |lbs|, k - 1);
    }
  }

  lemma {:induction false} FoundAtEnd(c: Context, lbs: seq<LoadBalancerSpec>, desired: set<int32>,
          trace: seq<CloudState>, i: nat)
    requires Lists(c) && Returns(c, lbs, desired, trace) && i < |lbs| && Passes(c, lbs, desired, trace, |lbs|)
    ensures c.lbName(lbs[i]) in trace[0].lbs
    ensures FoundEvery(c, trace[0], LbOf(c, trace[0], lbs[i]).arn, desired)
  {
    var end, l := trace[|lbs|], lbs[i];
    var via := AllConverged(c, lbs, desired, trace, |lbs|, i);
    SameButAttached(c, end, trace[0], l, via);
    var lb := LbOf(c, trace[0], l).arn;
    forall p | p in desired ensures p in Found(c, trace[0], lb) {
      assert ServedBy(trace[0], lb, p, via[p]);
      FoundAny(c, trace[0], lb, via[p], p);
    }
  }

  lemma {:induction false} ServedBack(c: Context, st: CloudState, end: CloudState, lb: string, desired: set<int32>)
    requires Lists(c) && AllServed(c, end, lb, desired) && end == st.(attached := end.attached)
    ensures AllServed(c, st, lb, desired)
  {
    assert ListenersOf(end, lb) == ListenersOf(st, lb);
    assert Associated(end, lb) == Associated(st, lb);
    SameFound(c, st, end, lb);
    forall p | p in desired ensures ServedAsFound(c, st, lb, p) {
      assert ServedAsFound(c, end, lb, p);
    }
  }

  lemma {:induction false} AllStill(c: Context, lbs: seq<LoadBalancerSpec>, desired: set<int32>, trace: seq<CloudState>)
    requires Lists(c) && |trace| == |lbs| + 1 && forall i | 0 <= i <= |lbs| :: trace[i] == trace[0]
    ensures Managed(c, lbs, desired, trace, |lbs|) == Managed(c, lbs, desired, Still(trace[0], |lbs|), |lbs|)
    ensures Targets(c, lbs, desired, trace, |lbs|) == Targets(c, lbs, desired, Still(trace[0], |lbs|), |lbs|)
  {
    EachSame(ManagedIn(c, desired), lbs, trace, Still(trace[0], |lbs|));
    EachSame(TargetsIn(c, desired), lbs, trace, Still(trace[0], |lbs|));
  }

  lemma {:induction false} IdleBefore(c: Context, lbs: seq<LoadBalancerSpec>, desired: set<int32>,
          trace: seq<CloudState>)
    requires Lists(c) && |trace| == |lbs| + 1 && Passes(c, lbs, desired, trace, |lbs|)
    requires trace[|lbs|] == trace[0].(attached := trace[|lbs|].attached)
    ensures forall i | 0 <= i < |lbs| :: AtRest(c, trace[0], lbs[i], desired)
  {
    PassesAreSteps(c, lbs, desired, trace, |lbs|);
    forall i | 0 <= i < |lbs| ensures AtRest(c, trace[0], lbs[i], desired) {
      FoundAtEnd(c, lbs, desired, trace, i);
      BeganAtRest(c, lbs, desired, trace, i);
    }
  }

  /** A run over load balancers at rest only sets the attachments. */
  lemma {:induction false} RestingAttaches(c: Context, lbs: seq<LoadBalancerSpec>, desired: map<int32, string>,
          st: CloudState, trace: seq<CloudState>, after: CloudState, out: Exposure)
    requires Lists(c) && Completed(c, lbs, desired, st, trace, after, out)
    requires forall i | 0 <= i < |lbs| :: AtRest(c, st, lbs[i], desired.Keys)
    ensures after == st.(attached := Some(
      (st.attached.value - Managed(c, lbs, desired.Keys, Still(st, |lbs|), |lbs|))
        + Targets(c, lbs, desired.Keys, Still(st, |lbs|), |lbs|)))
  {
    PassesAreSteps(c, lbs, desired.Keys, trace, |lbs|);
    RestingRun(c, lbs, desired.Keys, trace);
    AllStill(c, lbs, desired.Keys, trace);
  }

  /** A completed run leaves the state as it found it exactly when that was idle. */
  lemma {:induction false} IdleIff(c: Context, lbs: seq<LoadBalancerSpec>, desired: map<int32, string>, st: CloudState,
          trace: seq<CloudState>, after: CloudState, out: Exposure)
    requires Lists(c) && Completed(c, lbs, desired, st, trace, after, out)
    ensures after == st <==> Idle(c, st, lbs, desired.Keys)
  {
    if after == st {
      IdleBefore(c, lbs, desired.Keys, trace);
      RestingAttaches(c, lbs, desired, st, trace, after, out);
    } else if forall i | 0 <= i < |lbs| :: AtRest(c, st, lbs[i], desired.Keys) {
      RestingAttaches(c, lbs, desired, st, trace, after, out);
    }
  }

  // ---------------------------------------------------------------- why the order matters

  /** A listener that forwards to two target groups. */
  function Both(t: string, u: string): Listener {
    Listener("a", true, [Action(true, "", [t, u])])
  }

  /** A load balancer whose listener for port `p` forwards to the target groups `t` and `u` of that
      port, and whose listener for port `q` forwards to `v`. */
  function Three(name: string, lb: LoadBalancer, p: int32, q: int32, t: string, u: string, v: string): CloudState {
    var table: Table := map[p := Both(t, u), q := Listener("b", true, ForwardTo(v))];
    CloudState(map[name := lb], map[lb.arn := table], map[t := Some(p), u := Some(p), v := Some(q)], Some({}))
  }

  /** The same without `q` and `v`, with other attachments. */
  function Two(name: string, lb: LoadBalancer, p: int32, t: string, u: string, attached: set<string>): CloudState {
    var table: Table := map[p := Both(t, u)];
    CloudState(map[name := lb], map[lb.arn := table], map[t := Some(p), u := Some(p)], Some(attached))
  }

  /** Identifiers of different target groups. */
  predicate Distinct3(t: string, u: string, v: string) {
    Distinct2(t, u) && Distinct2(u, v) && Distinct2(t, v)
  }

  predicate Distinct2(t: string, u: string) {
    t != u && t != "" && u != ""
  }

  lemma {:induction false} BothForwards(t: string, u: string, x: string)
    ensures Forwards(Both(t, u), x) <==> x == t || x == u || x == ""
  {
    var action := Both(t, u).actions[0];
    assert action.weighted[0] == t && action.weighted[1] == u;
    assert ActionForwards(action, x) <==> x == t || x == u || x == "";
  }

  lemma {:induction false} ThreeAssociated(name: string, lb: LoadBalancer, p: int32, q: int32, t: string, u: string,
          v: string)
    requires p != q && Distinct3(t, u, v)
    ensures Associated(Three(name, lb, p, q, t, u, v), lb.arn) == {t, u, v}
  {
    var table := ListenersOf(Three(name, lb, p, q, t, u, v), lb.arn);
    forall x ensures (Forwards(table[p], x) <==> x == t || x == u || x == "") && (Forwards(table[q], x) <==> x == v) {
      BothForwards(t, u, x);
      assert ActionForwards(table[q].actions[0], x) <==> x == v;
    }
    assert p in table && q in table;
    assert Forwards(table[p], t) && Forwards(table[p], u) && Forwards(table[q], v);
  }

  lemma {:induction false} TwoAssociated(name: string, lb: LoadBalancer, p: int32, t: string, u: string,
          attached: set<string>)
    requires Distinct2(t, u)
    ensures Associated(Two(name, lb, p, t, u, attached), lb.arn) == {t, u}
  {
    var st := Two(name, lb, p, t, u, attached);
    var table := ListenersOf(st, lb.arn);
    forall x ensures x in Associated(st, lb.arn) <==> x == t || x == u {
      BothForwards(t, u, x);
      assert p in table && (Forwards(table[p], x) <==> x == t || x == u || x == "");
    }
  }

  /** Listed as `t`, `u`, the two make `u` the choice for port `p`. */
  lemma {:induction false} ThreeFound(c: Context, name: string, lb: LoadBalancer, p: int32, q: int32, t: string,
          u: string, v: string)
    requires Lists(c) && p != q && Distinct3(t, u, v) && c.order({t, u, v}) == [v, t, u]
    ensures Found(c, Three(name, lb, p, q, t, u, v), lb.arn) == map[q := v, p := u]
  {
    var tgs := Three(name, lb, p, q, t, u, v).tgs;
    ThreeAssociated(name, lb, p, q, t, u, v);
    assert ByPort(tgs, [v, t, u], 1) == map[q := v];
    assert ByPort(tgs, [v, t, u], 2) == map[q := v, p := t];
  }

  /** Listed as `u`, `t`, they make it `t`. */
  lemma {:induction false} TwoFound(c: Context, name: string, lb: LoadBalancer, p: int32, t: string, u: string,
          attached: set<string>)
    requires Lists(c) && Distinct2(t, u) && c.order({t, u}) == [u, t]
    ensures Found(c, Two(name, lb, p, t, u, attached), lb.arn) == map[p := t]
  {
    var tgs := Two(name, lb, p, t, u, attached).tgs;
    TwoAssociated(name, lb, p, t, u, attached);
    assert ByPort(tgs, [u, t], 1) == map[p := u];
  }

  lemma {:induction false} ThreePass(c: Context, l: LoadBalancerSpec, lb: LoadBalancer, p: int32, q: int32, t: string,
          u: string, v: string)
    requires Lists(c) && p != q && Distinct3(t, u, v) && lb.network && lb.internetFacing == External(l)
    requires c.order({t, u, v}) == [v, t, u]
    ensures var st := Three(c.lbName(l), lb, p, q, t, u, v);
      && Pass(c, st, l, {p}, Two(c.lbName(l), lb, p, t, u, {}))
      && TargetsIn(c, {p})(st, l) == {u}
  {
    var st, after := Three(c.lbName(l), lb, p, q, t, u, v), Two(c.lbName(l), lb, p, t, u, {});
    ThreeAssociated(c.lbName(l), lb, p, q, t, u, v);
    ThreeFound(c, c.lbName(l), lb, p, q, t, u, v);
    BothForwards(t, u, u);
    assert ListenersAfter(c, st, lb.arn, l, {p}) == ListenersOf(after, lb.arn);
    assert Missing(c, st, lb.arn, {p}) == {};
  }

  lemma {:induction false} TwoPass(c: Context, l: LoadBalancerSpec, lb: LoadBalancer, p: int32, t: string, u: string,
          attached: set<string>)
    requires Lists(c) && Distinct2(t, u) && lb.network && lb.internetFacing == External(l) && c.order({t, u}) == [u, t]
    ensures var st := Two(c.lbName(l), lb, p, t, u, attached);
      && Pass(c, st, l, {p}, st)
      && TargetsIn(c, {p})(st, l) == {t} && ManagedIn(c, {p})(st, l) == {t, u}
  {
    var st := Two(c.lbName(l), lb, p, t, u, attached);
    TwoAssociated(c.lbName(l), lb, p, t, u, attached);
    TwoFound(c, c.lbName(l), lb, p, t, u, attached);
    BothForwards(t, u, t);
    assert ListenersAfter(c, st, lb.arn, l, {p}) == ListenersOf(st, lb.arn);
    assert Missing(c, st, lb.arn, {p}) == {};
  }

  /** What a run over one load balancer for one port returns. */
  lemma {:induction false} OneReturned(c: Context, l: LoadBalancerSpec, p: int32, name: string, trace: seq<CloudState>)
    returns (out: Exposure)
    requires Lists(c) && |trace| > 0
    ensures Returned(c, [l], map[p := name], trace, out)
  {
    var desired: map<int32, string> := map[p := name];
    out := Exposure(Sort(LbStatusesUpTo(c, [l], trace, 1), ByLbName),
                    map[name := Sort(EntriesUpTo(c, [l], trace, p, 1), ByEntryName)]);
    assert p in desired;
  }

  /** A run over one load balancer for one port. */
  lemma {:induction false} OneLbRun(c: Context, l: LoadBalancerSpec, p: int32, name: string, st: CloudState,
          after: CloudState)
    returns (out: Exposure)
    requires Lists(c) && Pass(c, st, l, {p}, after) && st.attached.Some?
    ensures var attached := (st.attached.value - ManagedIn(c, {p})(st, l)) + TargetsIn(c, {p})(st, l);
      Completed(c, [l], map[p := name], st, [st, after], after.(attached := Some(attached)), out)
  {
    var desired: map<int32, string> := map[p := name];
    var trace := [st, after];
    out := OneReturned(c, l, p, name, trace);
    assert desired.Keys == {p};
    assert Passes(c, [l], {p}, trace, 0);
    assert Passes(c, [l], {p}, trace, 1);
    UnionOne(Each(ManagedIn(c, {p}), [l], trace, 1));
    UnionOne(Each(TargetsIn(c, {p}), [l], trace, 1));
  }

  lemma {:induction false} UnionOne(sets: seq<set<string>>)
    requires |sets| == 1
    ensures Union(sets) == sets[0]
  {
    assert Union(sets[..0]) == {};
  }

  lemma {:induction false} FirstRun(c: Context, l: LoadBalancerSpec, lb: LoadBalancer, p: int32, q: int32, t: string,
          u: string, v: string, name: string)
    returns (out: Exposure)
    requires Lists(c) && p != q && Distinct3(t, u, v) && lb.network && lb.internetFacing == External(l)
    requires c.order({t, u, v}) == [v, t, u]
    ensures Completed(c, [l], map[p := name], Three(c.lbName(l), lb, p, q, t, u, v),
                      [Three(c.lbName(l), lb, p, q, t, u, v), Two(c.lbName(l), lb, p, t, u, {})],
                      Two(c.lbName(l), lb, p, t, u, {u}), out)
  {
    var st := Three(c.lbName(l), lb, p, q, t, u, v);
    ThreePass(c, l, lb, p, q, t, u, v);
    out := OneLbRun(c, l, p, name, st, Two(c.lbName(l), lb, p, t, u, {}));
    assert ({} - ManagedIn(c, {p})(st, l)) + {u} == {u};
  }

  lemma {:induction false} SecondRun(c: Context, l: LoadBalancerSpec, lb: LoadBalancer, p: int32, t: string, u: string,
          name: string)
    returns (out: Exposure)
    requires Lists(c) && Distinct2(t, u) && lb.network && lb.internetFacing == External(l) && c.order({t, u}) == [u, t]
    ensures var st := Two(c.lbName(l), lb, p, t, u, {u});
      Completed(c, [l], map[p := name], st, [st, st], Two(c.lbName(l), lb, p, t, u, {t}), out)
  {
    var st := Two(c.lbName(l), lb, p, t, u, {u});
    TwoPass(c, l, lb, p, t, u, {u});
    out := OneLbRun(c, l, p, name, st, st);
    assert ({u} - {t, u}) + {t} == {t};
  }

  lemma {:induction false} ThreeOrderly(c: Context, l: LoadBalancerSpec, lb: LoadBalancer, p: int32, q: int32,
          t: string, u: string, v: string)
    requires p != q && Distinct3(t, u, v) && c.tgArn(l, p) != v && forall k, r :: c.tgArn(k, r) != ""
    ensures Orderly(c, Three(c.lbName(l), lb, p, q, t, u, v), [l], {p})
  {
    var st := Three(c.lbName(l), lb, p, q, t, u, v);
    assert LbOf(c, st, l) == lb;
    forall r, x | r in ListenersOf(st, lb.arn) && Forwards(ListenersOf(st, lb.arn)[r], x) && x != ""
      ensures x in st.tgs
    {
      BothForwards(t, u, x);
    }
  }

  /** The order matters. When the cloud lists the two target groups of a port one way in the first
      run and the other way in the second, the attachment moves from one to the other, although all
      else that `SecondRunIdle` asks for is met. */
  lemma {:induction false} OrderMatters(c: Context, l: LoadBalancerSpec, lb: LoadBalancer, p: int32, q: int32,
          t: string, u: string, v: string, name: string)
    returns (st: CloudState, trace: seq<CloudState>, after: CloudState, out: Exposure,
          again: seq<CloudState>, after': CloudState, out': Exposure)
    requires Lists(c) && p != q && Distinct3(t, u, v) && lb.network && lb.internetFacing == External(l)
    requires c.order({t, u, v}) == [v, t, u] && c.order({t, u}) == [u, t]
    requires c.tgArn(l, p) != v && forall k, r :: c.tgArn(k, r) != ""
    ensures Orderly(c, st, [l], {p})
    ensures Completed(c, [l], map[p := name], st, trace, after, out)
    ensures Completed(c, [l], map[p := name], after, again, after', out')
    ensures after.attached == Some({u}) && after'.attached == Some({t})
  {
    st, after := Three(c.lbName(l), lb, p, q, t, u, v), Two(c.lbName(l), lb, p, t, u, {u});
    after' := Two(c.lbName(l), lb, p, t, u, {t});
    trace, again := [st, Two(c.lbName(l), lb, p, t, u, {})], [after, after];
    ThreeOrderly(c, l, lb, p, q, t, u, v);
    out := FirstRun(c, l, lb, p, q, t, u, v, name);
    out' := SecondRun(c, l, lb, p, t, u, name);
  }
}
