/** Load balancer exposure on AWS (internal/cloud/aws/manager.go, ensureLoadBalancerExposure):
    a diff-and-apply pass per load balancer over listeners and target groups, then one over
    the group's target group attachments. The cloud is a mutable object; any of its calls may
    fail, and Go's random map order is an arbitrary choice of the next port. */
module CloudExposure {
  import opened Prelude
  import opened Sorting
  import opened Api
  import PortAllocator
  import LoadBalancerNames

  type Ports = PortAllocator.Ports

  // ---------------------------------------------------------------- cloud objects

  /** A listener action. `target` is empty when the action has no single target group. */
  datatype Action = Action(forward: bool, target: string, weighted: seq<string>)

  datatype Listener = Listener(arn: string, tcp: bool, actions: seq<Action>)

  datatype LoadBalancer = LoadBalancer(arn: string, dns: string, network: bool, internetFacing: bool)

  /** Load balancers by resource name, listeners by load balancer and port, target groups with
      their port if they have one, and what is attached to the auto scaling group, if that
      exists. */
  datatype CloudState = CloudState(
    lbs: map<string, LoadBalancer>,
    listeners: map<string, Table>,
    tgs: map<string, Option<int32>>,
    attached: Option<set<string>>)

  /** What the outside world contributes: how resources are named, which identifiers the cloud
      gives to the ones it creates (a function of the name), and the order in which it lists
      target groups. */
  datatype Context = Context(
    lbName: LoadBalancerSpec -> string,
    lbArn: string -> string,
    lbDns: string -> string,
    tgArn: (LoadBalancerSpec, int32) -> string,
    listenerArn: (string, int32) -> string,
    order: set<string> -> seq<string>)

  /** Listing a set lists each element once. */
  ghost predicate Lists(c: Context) {
    forall s :: NoDuplicates(c.order(s)) && forall x :: x in c.order(s) <==> x in s
  }

  /** Every load balancer has a table of listeners, one per port. */
  predicate WellFormed(st: CloudState) {
    forall n | n in st.lbs :: st.lbs[n].arn in st.listeners
  }

  function ListenersOf(st: CloudState, lb: string): Table {
    if lb in st.listeners then st.listeners[lb] else map[]
  }

  function Put(listeners: map<string, Table>, lb: string, p: int32, l: Listener): map<string, Table> {
    var table: Table := if lb in listeners then listeners[lb] else map[];
    var table': Table := table[p := l];
    listeners[lb := table']
  }

  type Table = map<int32, Listener>

  lemma {:induction false} Retable(m: map<string, Table>, lb: string, a: Table, b: Table)
    ensures m[lb := a][lb := b] == m[lb := b]
    ensures lb in m ==> m[lb := m[lb]] == m
  {
  }

  lemma {:induction false} PutSame(m: map<string, Table>, lb: string, p: int32)
    requires lb in m && p in m[lb]
    ensures Put(m, lb, p, m[lb][p]) == m
  {
    assert m[lb][p := m[lb][p]] == m[lb];
  }

  predicate ActionForwards(a: Action, tg: string) {
    a.forward && (a.target == tg || tg in a.weighted)
  }

  predicate Forwards(l: Listener, tg: string) {
    exists i :: 0 <= i < |l.actions| && ActionForwards(l.actions[i], tg)
  }

  /** The target groups of a load balancer are those its listeners forward to. */
  function Associated(st: CloudState, lb: string): set<string> {
    set t | t in st.tgs && exists p :: p in ListenersOf(st, lb) && Forwards(ListenersOf(st, lb)[p], t)
  }

  // ---------------------------------------------------------------- specification

  /** The last of the first `n` listed target groups with each port. */
  function ByPort(tgs: map<string, Option<int32>>, listed: seq<string>, n: nat): map<int32, string>
    requires n <= |listed| && forall t | t in listed :: t in tgs
  {
    if n == 0 then map[]
    else if tgs[listed[n - 1]].None? then ByPort(tgs, listed, n - 1)
    else ByPort(tgs, listed, n - 1)[tgs[listed[n - 1]].value := listed[n - 1]]
  }

  ghost function Found(c: Context, st: CloudState, lb: string): map<int32, string>
    requires Lists(c)
  {
    var listed := c.order(Associated(st, lb));
    ByPort(st.tgs, listed, |listed|)
  }

  /** The target group that serves port `p`: one found, else the one created. */
  ghost function TargetFor(c: Context, st: CloudState, lb: string, l: LoadBalancerSpec, p: int32): string
    requires Lists(c)
  {
    if p in Found(c, st, lb) then Found(c, st, lb)[p] else c.tgArn(l, p)
  }

  function ForwardTo(tg: string): seq<Action> {
    [Action(true, tg, [])]
  }

  /** ensureListener's effect on the listener of one port. */
  function ListenerAfter(c: Context, lb: string, p: int32, before: Table, tg: string): Listener {
    if p !in before then Listener(c.listenerArn(lb, p), true, ForwardTo(tg))
    else if before[p].tcp && Forwards(before[p], tg) then before[p]
    else Listener(before[p].arn, true, ForwardTo(tg))
  }

  /** Associated target groups whose port is not wanted. */
  ghost predicate Stale(st: CloudState, lb: string, desired: set<int32>, t: string) {
    t in Associated(st, lb) && st.tgs[t].Some? && st.tgs[t].value !in desired
  }

  /** Ports whose target group has to be created. */
  ghost function Missing(c: Context, st: CloudState, lb: string, desired: set<int32>): set<int32>
    requires Lists(c)
  {
    desired - Found(c, st, lb).Keys
  }

  /** The target groups after the pass: the old ones without the stale ones, and one for every
      missing port. */
  ghost predicate TargetGroupsAfter(c: Context, st: CloudState, lb: string, l: LoadBalancerSpec, desired: set<int32>,
          tgs: map<string, Option<int32>>)
    requires Lists(c)
  {
    && (forall t :: t in tgs <==>
         || (t in st.tgs && !Stale(st, lb, desired, t))
         || exists p :: p in Missing(c, st, lb, desired) && t == c.tgArn(l, p))
    && (forall t | t in tgs && t in st.tgs :: tgs[t] == st.tgs[t])
    && (forall p | p in Missing(c, st, lb, desired) :: c.tgArn(l, p) in tgs && tgs[c.tgArn(l, p)] == Some(p))
  }

  ghost function ListenersAfter(c: Context, st: CloudState, lb: string, l: LoadBalancerSpec, desired: set<int32>): Table
    requires Lists(c)
  {
    map p | p in desired :: ListenerAfter(c, lb, p, ListenersOf(st, lb), TargetFor(c, st, lb, l, p))
  }

  /** A complete pass over one load balancer. */
  ghost predicate Exposed(c: Context, st: CloudState, lb: string, l: LoadBalancerSpec, desired: set<int32>,
          after: CloudState)
    requires Lists(c)
  {
    && after.lbs == st.lbs && after.attached == st.attached
    && after.listeners == st.listeners[lb := ListenersAfter(c, st, lb, l, desired)]
    && TargetGroupsAfter(c, st, lb, l, desired, after.tgs)
  }

  /** How far a pass over one load balancer has got: the ports whose target groups it created and
      the target groups then, the ports whose listeners it settled, the ports whose listeners it
      deleted, and the target groups it deleted. */
  datatype Progress = Progress(
    created: set<int32>, tgs: map<string, Option<int32>>,
    settled: set<int32>, dropped: set<int32>, deleted: set<string>)

  /** Target groups after those for `created` have been added to `base`. */
  ghost predicate WithCreated(c: Context, l: LoadBalancerSpec, base: map<string, Option<int32>>, created: set<int32>,
                              tgs: map<string, Option<int32>>) {
    && (forall t :: t in tgs <==> t in base || exists p :: p in created && t == c.tgArn(l, p))
    && (forall t | t in base :: t in tgs && tgs[t] == base[t])
    && (forall p | p in created :: c.tgArn(l, p) in tgs && tgs[c.tgArn(l, p)] == Some(p))
  }

  /** The listeners once the ports of `settled` and `dropped` have been dealt with. */
  ghost function ListenersWhen(c: Context, st: CloudState, lb: string, l: LoadBalancerSpec,
                               settled: set<int32>, dropped: set<int32>): Table
    requires Lists(c)
  {
    var before := ListenersOf(st, lb);
    var after: Table := map p | p in before.Keys + settled ::
      if p in settled then ListenerAfter(c, lb, p, before, TargetFor(c, st, lb, l, p)) else before[p];
    after - dropped
  }

  /** The four stages of a pass: each begins when the one before it is complete. */
  ghost predicate Staged(c: Context, st: CloudState, lb: string, desired: set<int32>, pr: Progress)
    requires Lists(c)
  {
    && pr.created <= Missing(c, st, lb, desired) && pr.settled <= desired
    && pr.dropped <= ListenersOf(st, lb).Keys - desired
    && (forall t | t in pr.deleted :: Stale(st, lb, desired, t))
    && (pr.settled != {} || pr.dropped != {} || pr.deleted != {} ==> pr.created == Missing(c, st, lb, desired))
    && (pr.dropped != {} || pr.deleted != {} ==> pr.settled == desired)
    && (pr.deleted != {} ==> pr.dropped == ListenersOf(st, lb).Keys - desired)
  }

  /** A pass that has got this far, whether it goes on or a call has failed. */
  ghost predicate Partial(c: Context, st: CloudState, lb: string, l: LoadBalancerSpec, desired: set<int32>,
                          pr: Progress, after: CloudState)
    requires Lists(c)
  {
    && after.lbs == st.lbs && after.attached == st.attached && Staged(c, st, lb, desired, pr)
    && after.listeners == st.listeners[lb := ListenersWhen(c, st, lb, l, pr.settled, pr.dropped)]
    && WithCreated(c, l, st.tgs, pr.created, pr.tgs) && after.tgs == pr.tgs - pr.deleted
  }

  // ---------------------------------------------------------------- the cloud's calls

  /** Some listener forwards to the target group. */
  predicate Referenced(listeners: map<string, Table>, t: string) {
    exists lb, p :: lb in listeners && p in listeners[lb] && Forwards(listeners[lb][p], t)
  }

  ghost predicate NoneReferenced(listeners: map<string, Table>, ts: set<string>) {
    forall t | t in ts :: !Referenced(listeners, t)
  }

  class Cloud {
    const c: Context
    /** Every call gets through. */
    const reliable: bool
    var lbs: map<string, LoadBalancer>
    var listeners: map<string, Table>
    var tgs: map<string, Option<int32>>
    var attached: Option<set<string>>

    constructor (c: Context, reliable: bool, st: CloudState)
      ensures this.c == c && this.reliable == reliable && State() == st
    {
      this.c, this.reliable := c, reliable;
      lbs, listeners, tgs, attached := st.lbs, st.listeners, st.tgs, st.attached;
    }

    function State(): CloudState
      reads this
    {
      CloudState(lbs, listeners, tgs, attached)
    }

    /** Whether the next call gets through. */
    method Available() returns (up: bool)
      ensures reliable ==> up
    {
      up := *;
      up := up || reliable;
    }

    method DescribeTargetGroups(lb: string) returns (r: Option<seq<string>>)
      ensures r.Some? ==> r.value == c.order(Associated(State(), lb))
      ensures reliable ==> r.Some?
    {
      var up := Available();
      return if up then Some(c.order(Associated(State(), lb))) else None;
    }

    method DescribeListeners(lb: string) returns (r: Option<Table>)
      ensures r.Some? ==> r.value == ListenersOf(State(), lb)
      ensures reliable ==> r.Some?
    {
      var up := Available();
      return if up then Some(ListenersOf(State(), lb)) else None;
    }

    /** Creating a target group that exists already with the same port returns it; with
        another port it fails. */
    method CreateTargetGroup(l: LoadBalancerSpec, p: int32) returns (r: Option<string>)
      modifies this`tgs
      ensures r.None? ==> tgs == old(tgs)
      ensures r.Some? ==> r.value == c.tgArn(l, p) && tgs == old(tgs)[r.value := Some(p)]
      ensures r.Some? && r.value in old(tgs) ==> old(tgs)[r.value] == Some(p)
      ensures reliable && r.None? ==> c.tgArn(l, p) in tgs && tgs[c.tgArn(l, p)] != Some(p)
    {
      var up := Available();
      var arn := c.tgArn(l, p);
      if !up || (arn in tgs && tgs[arn] != Some(p)) {
        return None;
      }
      tgs := tgs[arn := Some(p)];
      return Some(arn);
    }

    method CreateListener(lb: string, p: int32, tg: string) returns (r: Option<string>)
      requires p !in ListenersOf(State(), lb)
      modifies this`listeners
      ensures r.None? ==> listeners == old(listeners)
      ensures reliable ==> r.Some?
      ensures r.Some? ==> r.value == c.listenerArn(lb, p)
      ensures r.Some? ==> listeners == Put(old(listeners), lb, p, Listener(r.value, true, ForwardTo(tg)))
    {
      var up := Available();
      if !up {
        return None;
      }
      var arn := c.listenerArn(lb, p);
      listeners := Put(listeners, lb, p, Listener(arn, true, ForwardTo(tg)));
      return Some(arn);
    }

    method ModifyListener(lb: string, p: int32, tg: string) returns (ok: bool)
      requires p in ListenersOf(State(), lb)
      modifies this`listeners
      ensures reliable ==> ok
      ensures !ok ==> listeners == old(listeners)
      ensures ok ==>
        listeners == Put(old(listeners), lb, p, Listener(ListenersOf(old(State()), lb)[p].arn, true, ForwardTo(tg)))
    {
      ok := Available();
      if ok {
        listeners := Put(listeners, lb, p, Listener(ListenersOf(State(), lb)[p].arn, true, ForwardTo(tg)));
      }
    }

    method DeleteListener(lb: string, p: int32) returns (ok: bool)
      modifies this`listeners
      ensures reliable ==> ok
      ensures !ok ==> listeners == old(listeners)
      ensures ok ==> listeners == old(listeners)[lb := ListenersOf(old(State()), lb) - {p}]
    {
      ok := Available();
      if ok {
        listeners := listeners[lb := ListenersOf(State(), lb) - {p}];
      }
    }

    /** A target group some listener still forwards to cannot be deleted. */
    method DeleteTargetGroup(t: string) returns (ok: bool)
      modifies this`tgs
      ensures !ok ==> tgs == old(tgs)
      ensures ok ==> tgs == old(tgs) - {t} && !Referenced(listeners, t)
      ensures reliable && !ok ==> Referenced(listeners, t)
    {
      ok := Available();
      if Referenced(listeners, t) {
        ok := false;
      }
      if ok {
        tgs := tgs - {t};
      }
    }

    method DescribeLoadBalancer(name: string) returns (up: bool, r: Option<LoadBalancer>)
      ensures reliable ==> up
      ensures up ==> r == if name in lbs then Some(lbs[name]) else None
    {
      up := Available();
      r := if name in lbs then Some(lbs[name]) else None;
    }

    method CreateLoadBalancer(name: string, internetFacing: bool) returns (r: Option<LoadBalancer>)
      modifies this`lbs, this`listeners
      ensures reliable ==> r.Some?
      ensures r.None? ==> State() == old(State())
      ensures r.Some? ==> r.value == LoadBalancer(c.lbArn(name), c.lbDns(name), true, internetFacing)
      ensures r.Some? ==> lbs == old(lbs)[name := r.value]
      ensures r.Some? ==> listeners == old(listeners)[r.value.arn := ListenersOf(old(State()), r.value.arn)]
    {
      var up := Available();
      if !up {
        return None;
      }
      var lb := LoadBalancer(c.lbArn(name), c.lbDns(name), true, internetFacing);
      listeners := listeners[lb.arn := ListenersOf(State(), lb.arn)];
      lbs := lbs[name := lb];
      return Some(lb);
    }

    method AttachTargetGroups(ts: set<string>) returns (ok: bool)
      requires attached.Some?
      modifies this`attached
      ensures reliable ==> ok
      ensures attached == if ok then Some(old(attached).value + ts) else old(attached)
    {
      ok := Available();
      if ok {
        attached := Some(attached.value + ts);
      }
    }

    method DetachTargetGroups(ts: set<string>) returns (ok: bool)
      requires attached.Some?
      modifies this`attached
      ensures reliable ==> ok
      ensures attached == if ok then Some(old(attached).value - ts) else old(attached)
    {
      ok := Available();
      if ok {
        attached := Some(attached.value - ts);
      }
    }
  }

  // ---------------------------------------------------------------- one load balancer

  lemma {:induction false} ForwardsIff(l: Listener, tg: string)
    ensures Forwards(l, tg) <==> exists a :: a in l.actions && a.forward && (a.target == tg || tg in a.weighted)
  {
    if a :| a in l.actions && a.forward && (a.target == tg || tg in a.weighted) {
      var i :| 0 <= i < |l.actions| && l.actions[i] == a;
      assert ActionForwards(l.actions[i], tg);
    }
  }

  method ListenerForwardsTo(l: Listener, tg: string) returns (b: bool)
    ensures b == Forwards(l, tg)
    ensures b <==> exists a :: a in l.actions && a.forward && (a.target == tg || tg in a.weighted)
  {
    ForwardsIff(l, tg);
    for i := 0 to |l.actions|
      invariant forall k | 0 <= k < i :: !ActionForwards(l.actions[k], tg)
    {
      var a := l.actions[i];
      if a.forward {
        if a.target == tg {
          return true;
        }
        for k := 0 to |a.weighted|
          invariant forall j | 0 <= j < k :: a.weighted[j] != tg
        {
          if a.weighted[k] == tg {
            return true;
          }
        }
      }
    }
    return false;
  }

  /** Target groups by port, and the ones that count as managed. */
  method IndexTargetGroups(tgs: map<string, Option<int32>>, listed: seq<string>)
    returns (tgByPort: map<int32, string>, managed: set<string>)
    requires forall t | t in listed :: t in tgs
    ensures tgByPort == ByPort(tgs, listed, |listed|)
    ensures managed == set t | t in listed && tgs[t].Some?
  {
    tgByPort, managed := map[], {};
    for i := 0 to |listed|
      invariant tgByPort == ByPort(tgs, listed, i)
      invariant managed == set t | t in listed[..i] && tgs[t].Some?
    {
      assert forall t :: t in listed[..i + 1] <==> t in listed[..i] || t == listed[i];
      if tgs[listed[i]].Some? {
        tgByPort := tgByPort[tgs[listed[i]].value := listed[i]];
        managed := managed + {listed[i]};
      }
    }
    assert listed[..|listed|] == listed;
  }

  /** ensureListener. */
  method EnsureListener(cloud: Cloud, lb: string, p: int32, tg: string, snapshot: Table)
    returns (r: Option<string>)
    requires lb in cloud.listeners
    requires p in snapshot <==> p in cloud.listeners[lb]
    requires p in snapshot ==> snapshot[p] == cloud.listeners[lb][p]
    modifies cloud`listeners
    ensures cloud.reliable ==> r.Some?
    ensures r.None? ==> cloud.listeners == old(cloud.listeners)
    ensures r.Some? ==> r.value == ListenerAfter(cloud.c, lb, p, snapshot, tg).arn
    ensures r.Some? ==> cloud.listeners == Put(old(cloud.listeners), lb, p, ListenerAfter(cloud.c, lb, p, snapshot, tg))
  {
    if p !in snapshot {
      r := cloud.CreateListener(lb, p, tg);
      return;
    }
    var existing := snapshot[p];
    var forwards := ListenerForwardsTo(existing, tg);
    if !existing.tcp || !forwards {
      var ok := cloud.ModifyListener(lb, p, tg);
      if !ok {
        return None;
      }
    }
    PutSame(old(cloud.listeners), lb, p);
    return Some(existing.arn);
  }

  ghost function ArnsOf(c: Context, l: LoadBalancerSpec, ports: set<int32>): set<string> {
    set p | p in ports :: c.tgArn(l, p)
  }

  /** Target groups by port once those for `created` exist. */
  ghost function TgTable(c: Context, l: LoadBalancerSpec, found: map<int32, string>,
          created: set<int32>): map<int32, string>
  {
    map p | p in found.Keys + created :: if p in created then c.tgArn(l, p) else found[p]
  }

  /** State of the creation loop. */
  ghost predicate Creating(c: Context, l: LoadBalancerSpec, base: map<string, Option<int32>>, found: map<int32, string>,
          managed: set<string>, created: set<int32>, tgs: map<string, Option<int32>>, tgByPort: map<int32, string>,
          managed': set<string>)
  {
    && WithCreated(c, l, base, created, tgs)
    && tgByPort == TgTable(c, l, found, created)
    && managed' == managed + ArnsOf(c, l, created)
  }

  lemma {:induction false} CreatingStarts(c: Context, l: LoadBalancerSpec, base: map<string, Option<int32>>,
          found: map<int32, string>, managed: set<string>)
    ensures Creating(c, l, base, found, managed, {}, base, found, managed)
  {
    assert TgTable(c, l, found, {}) == found;
    assert ArnsOf(c, l, {}) == {};
  }

  lemma {:induction false} CreatingStep(c: Context, l: LoadBalancerSpec, base: map<string, Option<int32>>,
          found: map<int32, string>, managed: set<string>, created: set<int32>, tgs: map<string, Option<int32>>,
          tgByPort: map<int32, string>, managed': set<string>, p: int32)
    requires Creating(c, l, base, found, managed, created, tgs, tgByPort, managed')
    requires c.tgArn(l, p) in tgs ==> tgs[c.tgArn(l, p)] == Some(p)
    ensures Creating(c, l, base, found, managed, created + {p}, tgs[c.tgArn(l, p) := Some(p)],
                     tgByPort[p := c.tgArn(l, p)], managed' + {c.tgArn(l, p)})
  {
    CreatedOne(c, l, base, created, tgs, p);
    TableOne(c, l, found, created, p);
    ArnsOne(c, l, created, p);
  }

  lemma {:induction false} TableOne(c: Context, l: LoadBalancerSpec, found: map<int32, string>, created: set<int32>,
          p: int32)
    ensures TgTable(c, l, found, created + {p}) == TgTable(c, l, found, created)[p := c.tgArn(l, p)]
  {
  }

  lemma {:induction false} ArnsOne(c: Context, l: LoadBalancerSpec, created: set<int32>, p: int32)
    ensures ArnsOf(c, l, created + {p}) == ArnsOf(c, l, created) + {c.tgArn(l, p)}
  {
  }

  lemma {:induction false} CreatedOne(c: Context, l: LoadBalancerSpec, base: map<string, Option<int32>>,
          created: set<int32>, tgs: map<string, Option<int32>>, p: int32)
    requires WithCreated(c, l, base, created, tgs)
    requires c.tgArn(l, p) in tgs ==> tgs[c.tgArn(l, p)] == Some(p)
    ensures WithCreated(c, l, base, created + {p}, tgs[c.tgArn(l, p) := Some(p)])
  {
  }

  /** The names of the target groups to create are not taken by others, nor by one another. */
  ghost predicate NamesFree(c: Context, l: LoadBalancerSpec, tgs: map<string, Option<int32>>, ports: set<int32>) {
    && (forall p | p in ports && c.tgArn(l, p) in tgs :: tgs[c.tgArn(l, p)] == Some(p))
    && (forall p, q | p in ports && q in ports && c.tgArn(l, p) == c.tgArn(l, q) :: p == q)
  }

  lemma {:induction false} NameTaken(c: Context, l: LoadBalancerSpec, base: map<string, Option<int32>>,
          created: set<int32>, tgs: map<string, Option<int32>>, ports: set<int32>, p: int32)
    requires WithCreated(c, l, base, created, tgs) && created <= ports && p in ports
    requires c.tgArn(l, p) in tgs && tgs[c.tgArn(l, p)] != Some(p)
    ensures !NamesFree(c, l, base, ports)
  {
    var arn := c.tgArn(l, p);
    if arn !in base {
      var q :| q in created && arn == c.tgArn(l, q);
    }
  }

  lemma {:induction false} NamesWereFree(c: Context, l: LoadBalancerSpec, base: map<string, Option<int32>>,
          ports: set<int32>, tgs: map<string, Option<int32>>)
    requires WithCreated(c, l, base, ports, tgs)
    ensures NamesFree(c, l, base, ports)
  {
    forall p, q | p in ports && q in ports && c.tgArn(l, p) == c.tgArn(l, q)
      ensures p == q
    {
      assert tgs[c.tgArn(l, p)] == Some(p) && tgs[c.tgArn(l, q)] == Some(q);
    }
  }

  /** Creates the target group of one port. */
  method CreateOne(cloud: Cloud, l: LoadBalancerSpec, port: int32, tgByPort: map<int32, string>, managed: set<string>,
                   ghost base: map<string, Option<int32>>, ghost found: map<int32, string>, ghost was: set<string>,
                   ghost created: set<int32>)
    returns (ok: bool, tgByPort': map<int32, string>, managed': set<string>)
    requires Creating(cloud.c, l, base, found, was, created, cloud.tgs, tgByPort, managed)
    modifies cloud`tgs
    ensures !ok ==> cloud.tgs == old(cloud.tgs)
    ensures cloud.reliable && !ok ==>
      cloud.c.tgArn(l, port) in cloud.tgs && cloud.tgs[cloud.c.tgArn(l, port)] != Some(port)
    ensures ok ==> Creating(cloud.c, l, base, found, was, created + {port}, cloud.tgs, tgByPort', managed')
    ensures ok ==> tgByPort'.Keys == tgByPort.Keys + {port}
  {
    ghost var before := cloud.tgs;
    var r := cloud.CreateTargetGroup(l, port);
    if r.None? {
      return false, tgByPort, managed;
    }
    CreatingStep(cloud.c, l, base, found, was, created, before, tgByPort, managed, port);
    return true, tgByPort[port := r.value], managed + {r.value};
  }

  /** Creates the missing target groups, in whatever order the ports come up, until one cannot be
      created. */
  method CreateMissing(cloud: Cloud, l: LoadBalancerSpec, desired: set<int32>, found: map<int32, string>,
          managed: set<string>)
    returns (ok: bool, tgByPort: map<int32, string>, managed': set<string>, ghost created: set<int32>)
    modifies cloud`tgs
    ensures created <= desired - found.Keys && WithCreated(cloud.c, l, old(cloud.tgs), created, cloud.tgs)
    ensures ok ==> created == desired - found.Keys
    ensures cloud.reliable && !ok ==> !NamesFree(cloud.c, l, old(cloud.tgs), desired - found.Keys)
    ensures ok ==> tgByPort == TgTable(cloud.c, l, found, created) && managed' == managed + ArnsOf(cloud.c, l, created)
  {
    tgByPort, managed', created := found, managed, {};
    var todo := desired;
    ghost var base := cloud.tgs;
    CreatingStarts(cloud.c, l, base, found, managed);
    while todo != {}
      invariant todo <= desired && created == (desired - todo) - found.Keys
      invariant tgByPort.Keys == found.Keys + created
      invariant Creating(cloud.c, l, base, found, managed, created, cloud.tgs, tgByPort, managed')
      decreases todo
    {
      var port :| port in todo;
      todo := todo - {port};
      if port !in tgByPort {
        ok, tgByPort, managed' := CreateOne(cloud, l, port, tgByPort, managed', base, found, managed, created);
        if !ok {
          if cloud.reliable {
            NameTaken(cloud.c, l, base, created, cloud.tgs, desired - found.Keys, port);
          }
          return;
        }
        created := created + {port};
      }
    }
    ok := true;
  }

  /** Listeners when the ports in `done` have been dealt with. */
  ghost function ListenersSoFar(c: Context, lb: string, before: Table, tgByPort: map<int32, string>,
          done: set<int32>): Table
    requires done <= tgByPort.Keys
  {
    map p | p in before.Keys + done :: if p in done then ListenerAfter(c, lb, p, before, tgByPort[p]) else before[p]
  }

  /** An entry of a machine port's cloud status. */
  datatype PortStatus = PortStatus(
    name: string, scope: string, lbID: string, address: string, listenerID: string, backendID: string)

  type Statuses = map<string, seq<PortStatus>>

  function StatusOf(m: Statuses, uid: string): seq<PortStatus> {
    if uid in m then m[uid] else []
  }

  /** `uid` is the UID of a port in `done`. */
  ghost predicate IsDone(desired: map<int32, string>, done: set<int32>, uid: string) {
    exists p :: p in done && p in desired && desired[p] == uid
  }

  /** Each port in `done` has had its entry appended under its UID. */
  ghost predicate Appended(before: Statuses, after: Statuses, desired: map<int32, string>, done: set<int32>,
          entries: map<int32, PortStatus>)
    requires done <= desired.Keys && desired.Keys <= entries.Keys
  {
    && (forall u :: u in after <==> u in before || IsDone(desired, done, u))
    && (forall p | p in done :: StatusOf(after, desired[p]) == StatusOf(before, desired[p]) + [entries[p]])
    && (forall u | !IsDone(desired, done, u) :: StatusOf(after, u) == StatusOf(before, u))
  }

  ghost predicate OnePortEach(desired: map<int32, string>) {
    forall p, q | p in desired && q in desired && desired[p] == desired[q] :: p == q
  }

  ghost function EntriesFor(c: Context, lb: LoadBalancer, l: LoadBalancerSpec, before: Table,
          tgByPort: map<int32, string>): map<int32, PortStatus>
  {
    map p | p in tgByPort ::
      PortStatus(l.name, l.scope, lb.arn, lb.dns, ListenerAfter(c, lb.arn, p, before, tgByPort[p]).arn, tgByPort[p])
  }

  /** State of the listener loop when the ports in `done` have been dealt with. */
  ghost predicate Settling(c: Context, lb: LoadBalancer, l: LoadBalancerSpec, desired: map<int32, string>,
          tgByPort: map<int32, string>, before: Table, base: map<string, Table>, statuses: Statuses, done: set<int32>,
          listeners: map<string, Table>, statuses': Statuses)
    requires desired.Keys <= tgByPort.Keys && done <= desired.Keys
  {
    && listeners == base[lb.arn := ListenersSoFar(c, lb.arn, before, tgByPort, done)]
    && Appended(statuses, statuses', desired, done, EntriesFor(c, lb, l, before, tgByPort))
  }

  lemma {:induction false} SettlingStarts(c: Context, lb: LoadBalancer, l: LoadBalancerSpec,
          desired: map<int32, string>, tgByPort: map<int32, string>, base: map<string, Table>, statuses: Statuses)
    requires desired.Keys <= tgByPort.Keys && lb.arn in base
    ensures Settling(c, lb, l, desired, tgByPort, base[lb.arn], base, statuses, {}, base, statuses)
  {
    NothingDone(c, lb.arn, base[lb.arn], tgByPort);
    Retable(base, lb.arn, base[lb.arn], base[lb.arn]);
  }

  lemma {:induction false} SettlingStep(c: Context, lb: LoadBalancer, l: LoadBalancerSpec, desired: map<int32, string>,
          tgByPort: map<int32, string>, before: Table, base: map<string, Table>, statuses: Statuses, done: set<int32>,
          listeners: map<string, Table>, statuses': Statuses, p: int32)
    requires desired.Keys <= tgByPort.Keys && done <= desired.Keys && OnePortEach(desired)
    requires Settling(c, lb, l, desired, tgByPort, before, base, statuses, done, listeners, statuses')
    requires p in desired && p !in done
    ensures var after := ListenerAfter(c, lb.arn, p, before, tgByPort[p]);
      Settling(c, lb, l, desired, tgByPort, before, base, statuses, done + {p}, Put(listeners, lb.arn, p, after),
               statuses'[desired[p] := StatusOf(statuses', desired[p])
                 + [PortStatus(l.name, l.scope, lb.arn, lb.dns, after.arn, tgByPort[p])]])
  {
    AppendOne(statuses, statuses', desired, done, EntriesFor(c, lb, l, before, tgByPort), p);
    OneMoreDone(c, lb.arn, before, tgByPort, done, p);
    var sofar := ListenersSoFar(c, lb.arn, before, tgByPort, done);
    Retable(base, lb.arn, sofar, ListenersSoFar(c, lb.arn, before, tgByPort, done + {p}));
  }

  /** A port the listener loop has not come to still has its old listener. */
  lemma {:induction false} UnsettledPort(c: Context, lb: string, before: Table, tgByPort: map<int32, string>,
          done: set<int32>, p: int32)
    requires done <= tgByPort.Keys && p !in done
    ensures p in ListenersSoFar(c, lb, before, tgByPort, done) <==> p in before
    ensures p in before ==> ListenersSoFar(c, lb, before, tgByPort, done)[p] == before[p]
  {
  }

  /** The listener and the status entry of one port. */
  method SettleOne(cloud: Cloud, lb: LoadBalancer, l: LoadBalancerSpec, desired: map<int32, string>,
          tgByPort: map<int32, string>, snapshot: Table, statuses: Statuses, port: int32,
          ghost base: map<string, Table>, ghost was: Statuses, ghost done: set<int32>)
    returns (ok: bool, statuses': Statuses)
    requires desired.Keys <= tgByPort.Keys && done <= desired.Keys && OnePortEach(desired)
    requires port in desired && port !in done
    requires Settling(cloud.c, lb, l, desired, tgByPort, snapshot, base, was, done, cloud.listeners, statuses)
    modifies cloud`listeners
    ensures cloud.reliable ==> ok
    ensures !ok ==> cloud.listeners == old(cloud.listeners) && statuses' == statuses
    ensures ok ==>
      Settling(cloud.c, lb, l, desired, tgByPort, snapshot, base, was, done + {port}, cloud.listeners, statuses')
  {
    var tgArn := tgByPort[port];
    UnsettledPort(cloud.c, lb.arn, snapshot, tgByPort, done, port);
    SettlingStep(cloud.c, lb, l, desired, tgByPort, snapshot, base, was, done, cloud.listeners, statuses, port);
    var listenerArn := EnsureListener(cloud, lb.arn, port, tgArn, snapshot);
    if listenerArn.None? {
      return false, statuses;
    }
    var entry := PortStatus(l.name, l.scope, lb.arn, lb.dns, listenerArn.value, tgArn);
    return true, statuses[desired[port] := StatusOf(statuses, desired[port]) + [entry]];
  }

  /** Ensures the listener of every desired port, in whatever order the ports come up. */
  method EnsureListeners(cloud: Cloud, lb: LoadBalancer, l: LoadBalancerSpec, desired: map<int32, string>,
          tgByPort: map<int32, string>, snapshot: Table, statuses: Statuses)
    returns (ok: bool, statuses': Statuses, ghost done: set<int32>)
    requires lb.arn in cloud.listeners && snapshot == cloud.listeners[lb.arn]
    requires desired.Keys <= tgByPort.Keys && OnePortEach(desired)
    modifies cloud`listeners
    ensures cloud.reliable ==> ok
    ensures done <= desired.Keys && (ok ==> done == desired.Keys)
    ensures Settling(cloud.c, lb, l, desired, tgByPort, snapshot, old(cloud.listeners), statuses, done,
                     cloud.listeners, statuses')
  {
    statuses', done := statuses, {};
    var todo := desired.Keys;
    ghost var base := cloud.listeners;
    SettlingStarts(cloud.c, lb, l, desired, tgByPort, base, statuses);
    while todo != {}
      invariant done !! todo && done + todo == desired.Keys
      invariant Settling(cloud.c, lb, l, desired, tgByPort, snapshot, base, statuses, done, cloud.listeners, statuses')
      decreases todo
    {
      var port :| port in todo;
      todo := todo - {port};
      ok, statuses' := SettleOne(cloud, lb, l, desired, tgByPort, snapshot, statuses', port, base, statuses, done);
      if !ok {
        return;
      }
      done := done + {port};
    }
    ok := true;
  }

  lemma {:induction false} NothingDone(c: Context, lb: string, before: Table, tgByPort: map<int32, string>)
    ensures ListenersSoFar(c, lb, before, tgByPort, {}) == before
  {
  }

  lemma {:induction false} OneMoreDone(c: Context, lb: string, before: Table, tgByPort: map<int32, string>,
          done: set<int32>, p: int32)
    requires done <= tgByPort.Keys && p in tgByPort
    ensures ListenersSoFar(c, lb, before, tgByPort, done + {p})
      == ListenersSoFar(c, lb, before, tgByPort, done)[p := ListenerAfter(c, lb, p, before, tgByPort[p])]
  {
  }

  lemma {:induction false} AppendOne(before: Statuses, after: Statuses, desired: map<int32, string>, done: set<int32>,
          entries: map<int32, PortStatus>, p: int32)
    requires done <= desired.Keys && desired.Keys <= entries.Keys && OnePortEach(desired)
    requires Appended(before, after, desired, done, entries) && p in desired && p !in done
    ensures Appended(before, after[desired[p] := StatusOf(after, desired[p]) + [entries[p]]],
                     desired, done + {p}, entries)
  {
    var u := desired[p];
    assert !IsDone(desired, done, u);
    DoneOne(desired, done, p);
    var after' := after[u := StatusOf(after, u) + [entries[p]]];
    assert forall v | v != u :: StatusOf(after', v) == StatusOf(after, v);
    forall q | q in done + {p}
      ensures StatusOf(after', desired[q]) == StatusOf(before, desired[q]) + [entries[q]]
    {
      if q != p {
        assert desired[q] != u;
      }
    }
  }

  lemma {:induction false} DoneOne(desired: map<int32, string>, done: set<int32>, p: int32)
    requires p in desired
    ensures forall u :: IsDone(desired, done + {p}, u) <==> IsDone(desired, done, u) || u == desired[p]
  {
    forall u ensures IsDone(desired, done + {p}, u) <==> IsDone(desired, done, u) || u == desired[p] {
      if u == desired[p] {
        assert p in done + {p};
      }
    }
  }

  /** Deletes the listeners of unwanted ports. */
  method DeleteStaleListeners(cloud: Cloud, lb: string, unwanted: set<int32>) returns (ok: bool, ghost gone: set<int32>)
    requires lb in cloud.listeners
    modifies cloud`listeners
    ensures cloud.reliable ==> ok
    ensures gone <= unwanted && (ok ==> gone == unwanted)
    ensures cloud.listeners == old(cloud.listeners)[lb := old(cloud.listeners)[lb] - gone]
  {
    gone := {};
    var todo := unwanted;
    assert cloud.listeners[lb] - {} == cloud.listeners[lb];
    Retable(cloud.listeners, lb, cloud.listeners[lb], cloud.listeners[lb]);
    while todo != {}
      invariant todo <= unwanted && gone == unwanted - todo
      invariant cloud.listeners == old(cloud.listeners)[lb := old(cloud.listeners)[lb] - gone]
      decreases todo
    {
      var port :| port in todo;
      todo := todo - {port};
      ok := cloud.DeleteListener(lb, port);
      if !ok {
        return false, gone;
      }
      assert old(cloud.listeners)[lb] - gone - {port} == old(cloud.listeners)[lb] - (gone + {port});
      Retable(old(cloud.listeners), lb, old(cloud.listeners)[lb] - gone, old(cloud.listeners)[lb] - (gone + {port}));
      gone := gone + {port};
    }
    ok := true;
  }

  /** Deletes the listed target groups whose port is not wanted. */
  method DeleteStaleTargetGroups(cloud: Cloud, listed: seq<string>, known: map<string, Option<int32>>,
          desired: set<int32>)
    returns (ok: bool, ghost gone: set<string>)
    requires forall t | t in listed :: t in known
    modifies cloud`tgs
    ensures cloud.tgs == old(cloud.tgs) - gone
    ensures gone <= set t | t in listed && known[t].Some? && known[t].value !in desired
    ensures ok ==> NoneReferenced(cloud.listeners, gone)
    ensures cloud.reliable && !ok ==> !NoneReferenced(
      cloud.listeners, set t | t in listed && known[t].Some? && known[t].value !in desired)
    ensures ok ==> gone == set t | t in listed && known[t].Some? && known[t].value !in desired
  {
    gone := {};
    for i := 0 to |listed|
      invariant cloud.tgs == old(cloud.tgs) - gone
      invariant gone == set t | t in listed[..i] && known[t].Some? && known[t].value !in desired
      invariant NoneReferenced(cloud.listeners, gone)
    {
      assert forall t :: t in listed[..i + 1] <==> t in listed[..i] || t == listed[i];
      assert forall t | t in listed[..i] :: t in listed;
      var port := known[listed[i]];
      if port.Some? && port.value !in desired {
        ok := cloud.DeleteTargetGroup(listed[i]);
        if !ok {
          assert listed[i] in set t | t in listed && known[t].Some? && known[t].value !in desired;
          return false, gone;
        }
        gone := gone + {listed[i]};
      }
    }
    assert listed[..|listed|] == listed;
    ok := true;
  }

  // ---------------------------------------------------------------- one pass

  /** Target groups of load balancer `lb` that the pass counts as its own. */
  ghost function ManagedBy(c: Context, st: CloudState, lb: string, l: LoadBalancerSpec,
          desired: set<int32>): set<string>
    requires Lists(c)
  {
    (set t | t in Associated(st, lb) && st.tgs[t].Some?) + ArnsOf(c, l, Missing(c, st, lb, desired))
  }

  ghost function TargetsOf(c: Context, st: CloudState, lb: string, l: LoadBalancerSpec,
          desired: set<int32>): set<string>
    requires Lists(c)
  {
    set p | p in desired :: TargetFor(c, st, lb, l, p)
  }

  /** The status entry of port `p` on this load balancer. */
  ghost function EntryOf(c: Context, st: CloudState, lb: LoadBalancer, l: LoadBalancerSpec, p: int32): PortStatus
    requires Lists(c)
  {
    var tg := TargetFor(c, st, lb.arn, l, p);
    PortStatus(l.name, l.scope, lb.arn, lb.dns, ListenerAfter(c, lb.arn, p, ListenersOf(st, lb.arn), tg).arn, tg)
  }

  ghost function EntriesOf(c: Context, st: CloudState, lb: LoadBalancer, l: LoadBalancerSpec,
          desired: set<int32>): map<int32, PortStatus>
    requires Lists(c)
  {
    map p | p in desired :: EntryOf(c, st, lb, l, p)
  }

  /** The target groups of the desired ports, in whatever order the ports come up. */
  method CollectTargets(desired: set<int32>, tgByPort: map<int32, string>, targets: seq<string>)
    returns (targets': seq<string>)
    requires desired <= tgByPort.Keys
    ensures forall t :: t in targets' <==> t in targets || exists p :: p in desired && tgByPort[p] == t
  {
    targets' := targets;
    var todo := desired;
    while todo != {}
      invariant todo <= desired
      invariant forall t :: t in targets' <==> t in targets || exists p :: p in desired - todo && tgByPort[p] == t
      decreases todo
    {
      var port :| port in todo;
      todo := todo - {port};
      targets' := targets' + [tgByPort[port]];
    }
  }

  lemma {:induction false} TableServes(c: Context, st: CloudState, lb: string, l: LoadBalancerSpec, desired: set<int32>)
    requires Lists(c)
    ensures var table := TgTable(c, l, Found(c, st, lb), Missing(c, st, lb, desired));
      desired <= table.Keys && forall p | p in desired :: table[p] == TargetFor(c, st, lb, l, p)
  {
  }

  lemma {:induction false} TargetGroupsComplete(c: Context, st: CloudState, lb: string, l: LoadBalancerSpec,
          desired: set<int32>, tgs: map<string, Option<int32>>, gone: set<string>)
    requires Lists(c) && WithCreated(c, l, st.tgs, Missing(c, st, lb, desired), tgs)
    requires gone == set t | t in c.order(Associated(st, lb)) && st.tgs[t].Some? && st.tgs[t].value !in desired
    ensures TargetGroupsAfter(c, st, lb, l, desired, tgs - gone)
  {
    assert forall t :: t in gone <==> Stale(st, lb, desired, t);
  }

  lemma {:induction false} EntriesAgree(c: Context, st: CloudState, lb: LoadBalancer, l: LoadBalancerSpec,
          desired: map<int32, string>, before: Statuses, after: Statuses)
    requires Lists(c)
    requires var table := TgTable(c, l, Found(c, st, lb.arn), Missing(c, st, lb.arn, desired.Keys));
      desired.Keys <= table.Keys
      && Appended(before, after, desired, desired.Keys, EntriesFor(c, lb, l, ListenersOf(st, lb.arn), table))
    ensures Appended(before, after, desired, desired.Keys, EntriesOf(c, st, lb, l, desired.Keys))
  {
    TableServes(c, st, lb.arn, l, desired.Keys);
  }

  /** First half of the loop body: target groups. */
  method PrepareTargetGroups(cloud: Cloud, lb: string, l: LoadBalancerSpec, desired: set<int32>, managed: set<string>,
          targets: seq<string>)
    returns (ok: bool, listed: seq<string>, tgByPort: map<int32, string>, managed': set<string>, targets': seq<string>,
             ghost created: set<int32>)
    requires Lists(cloud.c)
    modifies cloud`tgs
    ensures created <= Missing(cloud.c, old(cloud.State()), lb, desired)
    ensures ok ==> created == Missing(cloud.c, old(cloud.State()), lb, desired)
    ensures cloud.reliable && !ok ==>
      !NamesFree(cloud.c, l, old(cloud.tgs), Missing(cloud.c, old(cloud.State()), lb, desired))
    ensures WithCreated(cloud.c, l, old(cloud.tgs), created, cloud.tgs)
    ensures ok ==> listed == cloud.c.order(Associated(old(cloud.State()), lb))
    ensures ok ==> tgByPort == TgTable(
      cloud.c, l, Found(cloud.c, old(cloud.State()), lb), Missing(cloud.c, old(cloud.State()), lb, desired))
    ensures ok ==> managed' == managed + ManagedBy(cloud.c, old(cloud.State()), lb, l, desired)
    ensures ok ==>
      StringSet(targets') == StringSet(targets) + TargetsOf(cloud.c, old(cloud.State()), lb, l, desired)
  {
    ok, listed, tgByPort, managed', targets', created := false, [], map[], managed, targets, {};
    ghost var st := cloud.State();
    var described := cloud.DescribeTargetGroups(lb);
    if described.None? {
      return;
    }
    listed := described.value;
    var own;
    tgByPort, own := IndexTargetGroups(cloud.tgs, listed);
    assert own == set t | t in Associated(st, lb) && st.tgs[t].Some?;
    ok, tgByPort, managed', created := CreateMissing(cloud, l, desired, tgByPort, managed + own);
    if !ok {
      return;
    }
    TableServes(cloud.c, st, lb, l, desired);
    targets' := CollectTargets(desired, tgByPort, targets);
    TargetsCollected(cloud.c, st, lb, l, desired, tgByPort);
  }

  lemma {:induction false} TargetsCollected(c: Context, st: CloudState, lb: string, l: LoadBalancerSpec,
          desired: set<int32>, tgByPort: map<int32, string>)
    requires Lists(c) && desired <= tgByPort.Keys
    requires forall p | p in desired :: tgByPort[p] == TargetFor(c, st, lb, l, p)
    ensures forall t :: t in TargetsOf(c, st, lb, l, desired) <==> exists p :: p in desired && tgByPort[p] == t
  {
  }

  /** Second half: listeners. `st` is the state before the pass. */
  method SettleListeners(cloud: Cloud, lb: LoadBalancer, l: LoadBalancerSpec, desired: map<int32, string>,
          tgByPort: map<int32, string>, statuses: Statuses, ghost st: CloudState)
    returns (ok: bool, statuses': Statuses, ghost settled: set<int32>, ghost dropped: set<int32>)
    requires Lists(cloud.c) && lb.arn in cloud.listeners && OnePortEach(desired)
    requires cloud.listeners == st.listeners
    requires tgByPort == TgTable(cloud.c, l, Found(cloud.c, st, lb.arn), Missing(cloud.c, st, lb.arn, desired.Keys))
    modifies cloud`listeners
    ensures cloud.reliable ==> ok
    ensures cloud.listeners == st.listeners[lb.arn := ListenersWhen(cloud.c, st, lb.arn, l, settled, dropped)]
    ensures settled <= desired.Keys && dropped <= ListenersOf(st, lb.arn).Keys - desired.Keys
    ensures dropped != {} ==> settled == desired.Keys
    ensures ok ==> settled == desired.Keys && dropped == ListenersOf(st, lb.arn).Keys - desired.Keys
    ensures ok ==> cloud.listeners == st.listeners[lb.arn := ListenersAfter(cloud.c, st, lb.arn, l, desired.Keys)]
    ensures ok ==> Appended(statuses, statuses', desired, desired.Keys, EntriesOf(cloud.c, st, lb, l, desired.Keys))
  {
    TableServes(cloud.c, st, lb.arn, l, desired.Keys);
    settled, dropped := {}, {};
    SoFarWhen(cloud.c, st, lb.arn, l, desired.Keys, settled);
    Retable(st.listeners, lb.arn, ListenersOf(st, lb.arn), ListenersOf(st, lb.arn));
    var snapshot := cloud.DescribeListeners(lb.arn);
    if snapshot.None? {
      return false, statuses, settled, dropped;
    }
    ok, statuses', settled := EnsureListeners(cloud, lb, l, desired, tgByPort, snapshot.value, statuses);
    SoFarWhen(cloud.c, st, lb.arn, l, desired.Keys, settled);
    if !ok {
      return;
    }
    EntriesAgree(cloud.c, st, lb, l, desired, statuses, statuses');
    ghost var mid := cloud.listeners[lb.arn];
    ok, dropped := DeleteStaleListeners(cloud, lb.arn, snapshot.value.Keys - desired.Keys);
    WhenDropped(cloud.c, st, lb.arn, l, settled, dropped);
    Retable(st.listeners, lb.arn, mid, cloud.listeners[lb.arn]);
    WhenComplete(cloud.c, st, lb.arn, l, desired.Keys);
  }

  /** The loop's own view of the listeners agrees with the specification's. */
  lemma {:induction false} SoFarWhen(c: Context, st: CloudState, lb: string, l: LoadBalancerSpec, desired: set<int32>,
          settled: set<int32>)
    requires Lists(c) && settled <= desired
    ensures var table := TgTable(c, l, Found(c, st, lb), Missing(c, st, lb, desired));
      desired <= table.Keys
      && ListenersSoFar(c, lb, ListenersOf(st, lb), table, settled) == ListenersWhen(c, st, lb, l, settled, {})
    ensures settled == {} ==> ListenersWhen(c, st, lb, l, settled, {}) == ListenersOf(st, lb)
  {
    TableServes(c, st, lb, l, desired);
  }

  lemma {:induction false} WhenDropped(c: Context, st: CloudState, lb: string, l: LoadBalancerSpec, settled: set<int32>,
          dropped: set<int32>)
    requires Lists(c)
    ensures ListenersWhen(c, st, lb, l, settled, {}) - dropped == ListenersWhen(c, st, lb, l, settled, dropped)
  {
  }

  lemma {:induction false} WhenComplete(c: Context, st: CloudState, lb: string, l: LoadBalancerSpec,
          desired: set<int32>)
    requires Lists(c)
    ensures ListenersWhen(c, st, lb, l, desired, ListenersOf(st, lb).Keys - desired)
      == ListenersAfter(c, st, lb, l, desired)
  {
  }

  ghost function StaleGroups(st: CloudState, lb: string, desired: set<int32>): set<string> {
    set t | t in Associated(st, lb) && st.tgs[t].Some? && st.tgs[t].value !in desired
  }

  /** Nothing in the cloud stands in the way of a pass: the target groups to create have free names,
      and no listener it leaves forwards to one it has to delete. */
  ghost predicate Doable(c: Context, st: CloudState, lb: string, l: LoadBalancerSpec, desired: set<int32>)
    requires Lists(c)
  {
    && NamesFree(c, l, st.tgs, Missing(c, st, lb, desired))
    && NoneReferenced(st.listeners[lb := ListenersAfter(c, st, lb, l, desired)], StaleGroups(st, lb, desired))
  }

  lemma {:induction false} StaleListed(c: Context, st: CloudState, lb: string, desired: set<int32>)
    requires Lists(c)
    ensures StaleGroups(st, lb, desired)
      == set t | t in c.order(Associated(st, lb)) && st.tgs[t].Some? && st.tgs[t].value !in desired
  {
  }

  /** The loop body of ensureLoadBalancerExposure after the load balancer exists. */
  method ExposeOne(cloud: Cloud, lb: LoadBalancer, l: LoadBalancerSpec, desired: map<int32, string>,
                   statuses: Statuses, managed: set<string>, targets: seq<string>)
    returns (ok: bool, statuses': Statuses, managed': set<string>, targets': seq<string>, ghost pr: Progress)
    requires Lists(cloud.c) && lb.arn in cloud.listeners && OnePortEach(desired)
    modifies cloud`tgs, cloud`listeners
    ensures Partial(cloud.c, old(cloud.State()), lb.arn, l, desired.Keys, pr, cloud.State())
    ensures ok ==> Exposed(cloud.c, old(cloud.State()), lb.arn, l, desired.Keys, cloud.State())
    ensures ok ==> Doable(cloud.c, old(cloud.State()), lb.arn, l, desired.Keys)
    ensures cloud.reliable && !ok ==> !Doable(cloud.c, old(cloud.State()), lb.arn, l, desired.Keys)
    ensures ok ==>
      Appended(statuses, statuses', desired, desired.Keys, EntriesOf(cloud.c, old(cloud.State()), lb, l, desired.Keys))
    ensures ok ==> managed' == managed + ManagedBy(cloud.c, old(cloud.State()), lb.arn, l, desired.Keys)
    ensures ok ==>
      StringSet(targets') == StringSet(targets) + TargetsOf(cloud.c, old(cloud.State()), lb.arn, l, desired.Keys)
  {
    ghost var st := cloud.State();
    statuses' := statuses;
    var known := cloud.tgs;
    var listed, tgByPort;
    ghost var created, settled, dropped, gone;
    SoFarWhen(cloud.c, st, lb.arn, l, desired.Keys, {});
    Retable(st.listeners, lb.arn, ListenersOf(st, lb.arn), ListenersOf(st, lb.arn));
    ok, listed, tgByPort, managed', targets', created :=
      PrepareTargetGroups(cloud, lb.arn, l, desired.Keys, managed, targets);
    ghost var tgs := cloud.tgs;
    pr := Progress(created, tgs, {}, {}, {});
    assert tgs - {} == tgs;
    if !ok {
      return;
    }
    NamesWereFree(cloud.c, l, st.tgs, created, cloud.tgs);
    ok, statuses', settled, dropped := SettleListeners(cloud, lb, l, desired, tgByPort, statuses, st);
    pr := Progress(created, tgs, settled, dropped, {});
    if !ok {
      return;
    }
    StaleListed(cloud.c, st, lb.arn, desired.Keys);
    ok, gone := DeleteStaleTargetGroups(cloud, listed, known, desired.Keys);
    pr := Progress(created, tgs, settled, dropped, gone);
    if ok {
      TargetGroupsComplete(cloud.c, st, lb.arn, l, desired.Keys, tgs, gone);
    }
  }

  // ---------------------------------------------------------------- all load balancers

  function External(l: LoadBalancerSpec): bool {
    ToLower(LoadBalancerNames.EffectiveScope(l.scope)) == "external"
  }

  /** The state once the load balancer of `l` exists. */
  ghost function WithLb(c: Context, st: CloudState, l: LoadBalancerSpec): CloudState {
    var name := c.lbName(l);
    if name in st.lbs then st
    else
      var lb := LoadBalancer(c.lbArn(name), c.lbDns(name), true, External(l));
      st.(lbs := st.lbs[name := lb], listeners := st.listeners[lb.arn := ListenersOf(st, lb.arn)])
  }

  /** The load balancer a spec entry stands for. */
  ghost function LbOf(c: Context, st: CloudState, l: LoadBalancerSpec): LoadBalancer {
    var name := c.lbName(l);
    if name in st.lbs then st.lbs[name] else LoadBalancer(c.lbArn(name), c.lbDns(name), true, External(l))
  }

  /** The load balancer is of the right type and scheme, or will be created so. */
  ghost predicate LbFits(c: Context, st: CloudState, l: LoadBalancerSpec) {
    LbOf(c, st, l).network && LbOf(c, st, l).internetFacing == External(l)
  }

  datatype ExposureError =
    | NoSubnets | UnsupportedProtocol(uid: string) | PortConflict(port: int32) | CallFailed
    | NotNetwork(name: string) | SchemeMismatch(name: string) | NoAutoScalingGroup

  lemma {:induction false} ExternalIff(l: LoadBalancerSpec)
    ensures External(l) <==> ToLower(TrimSpace(l.scope)) == "external"
  {
    var blank, inside := ToLower(""), ToLower("internal");
    assert |blank| != |"external"| && Lower("internal"[0]) != 'e';
    ToLowerAt("internal", 0);
    assert inside[0] == Lower("internal"[0]);
  }

  /** The error of an iteration names its cause: a load balancer that exists and is of the wrong type
      or, being of the right type, of the wrong scheme. */
  ghost predicate Blames(c: Context, st: CloudState, l: LoadBalancerSpec, error: ExposureError) {
    match error
    case CallFailed => true
    case NotNetwork(name) => name == c.lbName(l) && name in st.lbs && !st.lbs[name].network
    case SchemeMismatch(name) =>
      && name == c.lbName(l) && name in st.lbs && st.lbs[name].network
      && (st.lbs[name].internetFacing <==> ToLower(TrimSpace(l.scope)) != "external")
    case _ => false
  }

  /** ensureNetworkLoadBalancer. */
  method EnsureNetworkLoadBalancer(cloud: Cloud, l: LoadBalancerSpec) returns (r: Result<LoadBalancer, ExposureError>)
    requires WellFormed(cloud.State())
    modifies cloud`lbs, cloud`listeners
    ensures r.Err? ==> cloud.State() == old(cloud.State())
    ensures r.Ok? ==>
      cloud.State() == WithLb(cloud.c, old(cloud.State()), l) && r.value == LbOf(cloud.c, old(cloud.State()), l)
    ensures r.Ok? ==> r.value.network && LbFits(cloud.c, old(cloud.State()), l)
    ensures r.Ok? ==> (r.value.internetFacing <==> ToLower(TrimSpace(l.scope)) == "external")
    ensures r.Err? ==> Blames(cloud.c, old(cloud.State()), l, r.error)
    ensures cloud.reliable && r.Err? ==> !LbFits(cloud.c, old(cloud.State()), l)
  {
    ExternalIff(l);
    var name := cloud.c.lbName(l);
    var up, existing := cloud.DescribeLoadBalancer(name);
    if !up {
      return Err(CallFailed);
    }
    if existing.Some? {
      if !existing.value.network {
        return Err(NotNetwork(name));
      }
      if existing.value.internetFacing != External(l) {
        return Err(SchemeMismatch(name));
      }
      return Ok(existing.value);
    }
    var created := cloud.CreateLoadBalancer(name, External(l));
    return if created.Some? then Ok(created.value) else Err(CallFailed);
  }

  /** dedupeStrings. */
  method DedupeStrings(values: seq<string>) returns (out: seq<string>)
    ensures NoDuplicates(out) && forall t :: t in out <==> t in values
  {
    var seen: set<string> := {};
    out := [];
    for i := 0 to |values|
      invariant NoDuplicates(out)
      invariant forall t :: t in out <==> t in values[..i]
      invariant forall t :: t in seen <==> t in out
    {
      assert values[..i + 1] == values[..i] + [values[i]];
      if values[i] !in seen {
        seen := seen + {values[i]};
        out := out + [values[i]];
      }
    }
    assert values[..|values|] == values;
  }

  ghost function StringSet(s: seq<string>): set<string> {
    set t | t in s
  }

  /** The attachments when a call failed: as before, or with the wanted ones added. */
  ghost predicate AttachProgress(before: Option<set<string>>, wanted: set<string>, now: Option<set<string>>) {
    now == before || (before.Some? && now == Some(before.value + wanted))
  }

  /** reconcileASGTargetGroups: attach what is missing, then detach what is ours and unwanted. */
  method ReconcileASGTargetGroups(cloud: Cloud, desired: seq<string>, managed: set<string>)
    returns (r: Result<(), ExposureError>)
    modifies cloud`attached
    ensures r.Ok? ==> old(cloud.attached).Some?
    ensures r.Err? ==> r.error == CallFailed || (r.error == NoAutoScalingGroup && old(cloud.attached).None?)
    ensures cloud.reliable && r.Err? ==> old(cloud.attached).None?
    ensures r.Ok? ==> cloud.attached == Some((old(cloud.attached).value - managed) + set t | t in desired)
    ensures r.Err? ==> AttachProgress(old(cloud.attached), StringSet(desired), cloud.attached)
  {
    var up := cloud.Available();
    if !up {
      return Err(CallFailed);
    }
    if cloud.attached.None? {
      return Err(NoAutoScalingGroup);
    }
    var current := cloud.attached.value;
    var desiredSet := set t | t in desired;
    var toAttach: set<string> := {};
    for i := 0 to |desired|
      invariant toAttach == set t | t in desired[..i] && t !in current
    {
      assert desired[..i + 1] == desired[..i] + [desired[i]];
      if desired[i] !in current {
        toAttach := toAttach + {desired[i]};
      }
    }
    assert desired[..|desired|] == desired;
    assert toAttach == desiredSet - current;
    if toAttach != {} {
      var ok := cloud.AttachTargetGroups(toAttach);
      if !ok {
        return Err(CallFailed);
      }
    }
    var toDetach := set t | t in current && t in managed && t !in desiredSet;
    assert toDetach == current * managed - desiredSet;
    AttachDetach(current, desiredSet, managed);
    if toDetach != {} {
      var ok := cloud.DetachTargetGroups(toDetach);
      if !ok {
        return Err(CallFailed);
      }
    }
    return Ok(());
  }

  lemma {:induction false} AttachDetach(current: set<string>, desired: set<string>, managed: set<string>)
    ensures (current + (desired - current)) - (current * managed - desired) == (current - managed) + desired
    ensures desired - current == {} ==> current + (desired - current) == current
    ensures current + (desired - current) == current + desired
    ensures current * managed - desired == {} ==> current + (desired - current) == (current - managed) + desired
  {
  }

  /** The desired ports, each with the UID of its machine port, from the first `n` of them. */
  ghost function Desired(machinePorts: seq<MachinePort>, ports: Ports,
          n: nat): Result<map<int32, string>, ExposureError>
    requires n <= |machinePorts|
  {
    if n == 0 then Ok(map[])
    else
      match Desired(machinePorts, ports, n - 1)
      case Err(e) => Err(e)
      case Ok(m) =>
        var mp := machinePorts[n - 1];
        if mp.uid !in ports || ports[mp.uid] <= 0 then Ok(m)
        else if !IsTcp(mp.protocol) then Err(UnsupportedProtocol(mp.uid))
        else if ports[mp.uid] in m then Err(PortConflict(ports[mp.uid]))
        else Ok(m[ports[mp.uid] := mp.uid])
  }

  function Upper(c: char): char {
    if 'a' <= c <= 'z' then c - 'a' + 'A' else c
  }

  /** Blank or "tcp" in any case. */
  predicate IsTcp(protocol: string) {
    var p := TrimSpace(protocol);
    p == "" || (|p| == 3 && Upper(p[0]) == 'T' && Upper(p[1]) == 'C' && Upper(p[2]) == 'P')
  }

  method CollectDesired(machinePorts: seq<MachinePort>, ports: Ports)
    returns (r: Result<map<int32, string>, ExposureError>)
    ensures r == Desired(machinePorts, ports, |machinePorts|)
  {
    var desiredByPort: map<int32, string> := map[];
    for i := 0 to |machinePorts|
      invariant Desired(machinePorts, ports, i) == Ok(desiredByPort)
    {
      var mp := machinePorts[i];
      if mp.uid in ports && ports[mp.uid] > 0 {
        var port := ports[mp.uid];
        if !IsTcp(mp.protocol) {
          DesiredFailsEarly(machinePorts, ports, i + 1);
          return Err(UnsupportedProtocol(mp.uid));
        }
        if port in desiredByPort {
          DesiredFailsEarly(machinePorts, ports, i + 1);
          return Err(PortConflict(port));
        }
        desiredByPort := desiredByPort[port := mp.uid];
      }
    }
    return Ok(desiredByPort);
  }

  lemma {:induction false} DesiredFailsEarly(machinePorts: seq<MachinePort>, ports: Ports, n: nat)
    requires n <= |machinePorts| && Desired(machinePorts, ports, n).Err?
    ensures Desired(machinePorts, ports, |machinePorts|) == Desired(machinePorts, ports, n)
    decreases |machinePorts| - n
  {
    if n < |machinePorts| {
      DesiredFailsEarly(machinePorts, ports, n + 1);
    }
  }

  /** A desired port is the port of its machine port, so no two ports share a UID. */
  lemma {:induction false} DesiredSpec(machinePorts: seq<MachinePort>, ports: Ports, n: nat)
    requires n <= |machinePorts| && Desired(machinePorts, ports, n).Ok?
    ensures var m := Desired(machinePorts, ports, n).value;
      && (forall p | p in m :: m[p] in ports && ports[m[p]] == p && p > 0)
      && OnePortEach(m)
      && (forall i | 0 <= i < n && machinePorts[i].uid in ports && ports[machinePorts[i].uid] > 0 ::
           ports[machinePorts[i].uid] in m && m[ports[machinePorts[i].uid]] == machinePorts[i].uid)
  {
    if n > 0 {
      DesiredSpec(machinePorts, ports, n - 1);
    }
  }

  /** What it takes for an iteration in which no call is lost. */
  ghost predicate Possible(c: Context, st: CloudState, l: LoadBalancerSpec, desired: set<int32>)
    requires Lists(c)
  {
    LbFits(c, st, l) && Doable(c, WithLb(c, st, l), LbOf(c, st, l).arn, l, desired)
  }

  /** One iteration: the load balancer, then the pass over it. */
  ghost predicate Pass(c: Context, st: CloudState, l: LoadBalancerSpec, desired: set<int32>, after: CloudState)
    requires Lists(c)
  {
    Possible(c, st, l, desired) && Exposed(c, WithLb(c, st, l), LbOf(c, st, l).arn, l, desired, after)
  }

  /** `trace` holds the states between the first `n` iterations. */
  ghost predicate Passes(c: Context, lbs: seq<LoadBalancerSpec>, desired: set<int32>, trace: seq<CloudState>, n: nat)
    requires Lists(c) && n <= |lbs| && n < |trace|
  {
    n == 0 || (Passes(c, lbs, desired, trace, n - 1) && Pass(c, trace[n - 1], lbs[n - 1], desired, trace[n]))
  }

  /** `f` of the first `n` iterations: the state before each and its spec entry. */
  ghost function Each<T>(f: (CloudState, LoadBalancerSpec) -> T, lbs: seq<LoadBalancerSpec>, trace: seq<CloudState>,
          n: nat): seq<T>
    requires n <= |lbs| && n <= |trace|
  {
    seq(n, i requires 0 <= i < n => f(trace[i], lbs[i]))
  }

  ghost function Union(sets: seq<set<string>>): set<string> {
    if |sets| == 0 then {} else Union(sets[..|sets| - 1]) + sets[|sets| - 1]
  }

  ghost function ManagedIn(c: Context, desired: set<int32>): (CloudState, LoadBalancerSpec) -> set<string>
    requires Lists(c)
  {
    (st, l) => ManagedBy(c, WithLb(c, st, l), LbOf(c, st, l).arn, l, desired)
  }

  ghost function TargetsIn(c: Context, desired: set<int32>): (CloudState, LoadBalancerSpec) -> set<string>
    requires Lists(c)
  {
    (st, l) => TargetsOf(c, WithLb(c, st, l), LbOf(c, st, l).arn, l, desired)
  }

  ghost function EntryIn(c: Context, p: int32): (CloudState, LoadBalancerSpec) -> PortStatus
    requires Lists(c)
  {
    (st, l) => EntryOf(c, WithLb(c, st, l), LbOf(c, st, l), l, p)
  }

  /** Target groups the first `n` iterations counted as their own, and the ones they want. */
  ghost function Managed(c: Context, lbs: seq<LoadBalancerSpec>, desired: set<int32>, trace: seq<CloudState>,
          n: nat): set<string>
    requires Lists(c) && n <= |lbs| && n <= |trace|
  {
    Union(Each(ManagedIn(c, desired), lbs, trace, n))
  }

  ghost function Targets(c: Context, lbs: seq<LoadBalancerSpec>, desired: set<int32>, trace: seq<CloudState>,
          n: nat): set<string>
    requires Lists(c) && n <= |lbs| && n <= |trace|
  {
    Union(Each(TargetsIn(c, desired), lbs, trace, n))
  }

  /** The status entries of port `p` on the first `n` load balancers. */
  ghost function EntriesUpTo(c: Context, lbs: seq<LoadBalancerSpec>, trace: seq<CloudState>, p: int32,
          n: nat): seq<PortStatus>
    requires Lists(c) && n <= |lbs| && n <= |trace|
  {
    Each(EntryIn(c, p), lbs, trace, n)
  }

  /** An entry of the group's cloud status. */
  datatype LbStatus = LbStatus(name: string, scope: string, lbID: string, address: string)

  ghost function LbStatusIn(c: Context): (CloudState, LoadBalancerSpec) -> LbStatus {
    (st: CloudState, l: LoadBalancerSpec) => LbStatus(l.name, l.scope, LbOf(c, st, l).arn, LbOf(c, st, l).dns)
  }

  ghost function LbStatusesUpTo(c: Context, lbs: seq<LoadBalancerSpec>, trace: seq<CloudState>, n: nat): seq<LbStatus>
    requires n <= |lbs| && n <= |trace|
  {
    Each(LbStatusIn(c), lbs, trace, n)
  }

  predicate ByLbName(a: LbStatus, b: LbStatus) { StrLeq(a.name, b.name) }

  predicate ByEntryName(a: PortStatus, b: PortStatus) { StrLeq(a.name, b.name) }

  datatype Exposure = Exposure(lbStatuses: seq<LbStatus>, ports: Statuses)

  /** What has been gathered after `n` iterations. */
  ghost predicate Gathered(c: Context, lbs: seq<LoadBalancerSpec>, desired: set<int32>, trace: seq<CloudState>, n: nat,
                           managed: set<string>, targets: set<string>, lbStatuses: seq<LbStatus>)
    requires Lists(c)
  {
    && n <= |lbs| && |trace| == n + 1 && Passes(c, lbs, desired, trace, n)
    && managed == Managed(c, lbs, desired, trace, n)
    && targets == Targets(c, lbs, desired, trace, n)
    && lbStatuses == LbStatusesUpTo(c, lbs, trace, n)
  }

  /** The statuses after `n` iterations: one entry per load balancer for every desired port. */
  ghost predicate StatusesUpTo(c: Context, lbs: seq<LoadBalancerSpec>, desired: map<int32, string>,
          trace: seq<CloudState>, n: nat, statuses: Statuses)
    requires Lists(c) && n <= |lbs| && n <= |trace|
  {
    && (forall u :: u in statuses <==> n > 0 && IsDone(desired, desired.Keys, u))
    && (forall p | p in desired :: StatusOf(statuses, desired[p]) == EntriesUpTo(c, lbs, trace, p, n))
  }

  /** Growing the trace adds what belongs to the new iteration and changes nothing before. */
  lemma {:induction false} EachOne<T>(f: (CloudState, LoadBalancerSpec) -> T, lbs: seq<LoadBalancerSpec>,
          trace: seq<CloudState>, more: seq<CloudState>, n: nat)
    requires n < |lbs| && n < |trace|
    ensures Each(f, lbs, trace + more, n + 1) == Each(f, lbs, trace, n) + [f(trace[n], lbs[n])]
  {
  }

  lemma {:induction false} UnionOne(sets: seq<set<string>>, s: set<string>)
    ensures Union(sets + [s]) == Union(sets) + s
  {
    assert (sets + [s])[..|sets|] == sets;
  }

  lemma {:induction false} PassesPrefix(c: Context, lbs: seq<LoadBalancerSpec>, desired: set<int32>,
          trace: seq<CloudState>, after: CloudState, n: nat)
    requires Lists(c) && n <= |lbs| && n < |trace|
    ensures Passes(c, lbs, desired, trace + [after], n) == Passes(c, lbs, desired, trace, n)
  {
    if n > 0 {
      PassesPrefix(c, lbs, desired, trace, after, n - 1);
      assert (trace + [after])[n - 1] == trace[n - 1];
    }
  }

  /** One more iteration gathers what belongs to it. */
  lemma {:induction false} GatherOne(c: Context, lbs: seq<LoadBalancerSpec>, desired: set<int32>,
          trace: seq<CloudState>, n: nat, managed: set<string>, targets: set<string>, lbStatuses: seq<LbStatus>,
          after: CloudState)
    requires Lists(c) && n < |lbs| && Gathered(c, lbs, desired, trace, n, managed, targets, lbStatuses)
    requires Pass(c, trace[n], lbs[n], desired, after)
    ensures var st, lb := WithLb(c, trace[n], lbs[n]), LbOf(c, trace[n], lbs[n]);
      Gathered(c, lbs, desired, trace + [after], n + 1,
               managed + ManagedBy(c, st, lb.arn, lbs[n], desired), targets + TargetsOf(c, st, lb.arn, lbs[n], desired),
               lbStatuses + [LbStatus(lbs[n].name, lbs[n].scope, lb.arn, lb.dns)])
  {
    PassesOne(c, lbs, desired, trace, after, n);
    ManagedOne(c, lbs, desired, trace, [after], n);
    TargetsOne(c, lbs, desired, trace, [after], n);
    EachOne(LbStatusIn(c), lbs, trace, [after], n);
  }

  lemma {:induction false} PassesOne(c: Context, lbs: seq<LoadBalancerSpec>, desired: set<int32>,
          trace: seq<CloudState>, after: CloudState, n: nat)
    requires Lists(c) && n < |lbs| && |trace| == n + 1 && Passes(c, lbs, desired, trace, n)
    requires Pass(c, trace[n], lbs[n], desired, after)
    ensures Passes(c, lbs, desired, trace + [after], n + 1)
  {
    PassesPrefix(c, lbs, desired, trace, after, n);
  }

  lemma {:induction false} ManagedOne(c: Context, lbs: seq<LoadBalancerSpec>, desired: set<int32>,
          trace: seq<CloudState>, more: seq<CloudState>, n: nat)
    requires Lists(c) && n < |lbs| && n < |trace|
    ensures Managed(c, lbs, desired, trace + more, n + 1)
      == Managed(c, lbs, desired, trace, n) + ManagedIn(c, desired)(trace[n], lbs[n])
  {
    var f := ManagedIn(c, desired);
    EachOne(f, lbs, trace, more, n);
    UnionOne(Each(f, lbs, trace, n), f(trace[n], lbs[n]));
  }

  lemma {:induction false} TargetsOne(c: Context, lbs: seq<LoadBalancerSpec>, desired: set<int32>,
          trace: seq<CloudState>, more: seq<CloudState>, n: nat)
    requires Lists(c) && n < |lbs| && n < |trace|
    ensures Targets(c, lbs, desired, trace + more, n + 1)
      == Targets(c, lbs, desired, trace, n) + TargetsIn(c, desired)(trace[n], lbs[n])
  {
    var f := TargetsIn(c, desired);
    EachOne(f, lbs, trace, more, n);
    UnionOne(Each(f, lbs, trace, n), f(trace[n], lbs[n]));
  }

  lemma {:induction false} EntriesAre(c: Context, st: CloudState, l: LoadBalancerSpec, desired: set<int32>, p: int32)
    requires Lists(c) && p in desired
    ensures EntriesOf(c, WithLb(c, st, l), LbOf(c, st, l), l, desired)[p] == EntryIn(c, p)(st, l)
  {
  }

  lemma {:induction false} GatherStatuses(c: Context, lbs: seq<LoadBalancerSpec>, desired: map<int32, string>,
          trace: seq<CloudState>, n: nat, statuses: Statuses, after: CloudState, statuses': Statuses,
          entries: map<int32, PortStatus>)
    requires Lists(c) && n < |lbs| && |trace| == n + 1 && desired.Keys <= entries.Keys
    requires StatusesUpTo(c, lbs, desired, trace, n, statuses)
    requires entries == EntriesOf(c, WithLb(c, trace[n], lbs[n]), LbOf(c, trace[n], lbs[n]), lbs[n], desired.Keys)
    requires Appended(statuses, statuses', desired, desired.Keys, entries)
    ensures StatusesUpTo(c, lbs, desired, trace + [after], n + 1, statuses')
  {
    forall p | p in desired
      ensures StatusOf(statuses', desired[p]) == EntriesUpTo(c, lbs, trace + [after], p, n + 1)
    {
      EachOne(EntryIn(c, p), lbs, trace, [after], n);
      EntriesAre(c, trace[n], lbs[n], desired.Keys, p);
    }
  }

  /** Sorts every machine port's entries by load balancer name, in whatever order they come up. */
  method SortStatuses(statuses: Statuses) returns (sorted: Statuses)
    ensures sorted == map u | u in statuses :: Sort(statuses[u], ByEntryName)
  {
    sorted := map[];
    var todo := statuses.Keys;
    while todo != {}
      invariant todo <= statuses.Keys
      invariant sorted == map u | u in statuses.Keys - todo :: Sort(statuses[u], ByEntryName)
      decreases todo
    {
      var uid :| uid in todo;
      todo := todo - {uid};
      sorted := sorted[uid := Sort(statuses[uid], ByEntryName)];
    }
  }

  /** One iteration as far as it got: not even the load balancer, or part of the pass over it. */
  ghost predicate Interrupted(c: Context, st: CloudState, l: LoadBalancerSpec, desired: set<int32>, pr: Progress,
          after: CloudState)
    requires Lists(c)
  {
    after == st || Partial(c, WithLb(c, st, l), LbOf(c, st, l).arn, l, desired, pr, after)
  }

  /** One iteration of the outer loop. */
  method Iterate(cloud: Cloud, l: LoadBalancerSpec, desired: map<int32, string>, statuses: Statuses,
          managed: set<string>, targets: seq<string>)
    returns (r: Result<LoadBalancer, ExposureError>, statuses': Statuses, managed': set<string>, targets': seq<string>,
             ghost pr: Progress)
    requires Lists(cloud.c) && WellFormed(cloud.State()) && OnePortEach(desired)
    modifies cloud`lbs, cloud`listeners, cloud`tgs
    ensures WellFormed(cloud.State()) && Interrupted(cloud.c, old(cloud.State()), l, desired.Keys, pr, cloud.State())
    ensures r.Err? ==> Blames(cloud.c, old(cloud.State()), l, r.error)
    ensures r.Ok? ==> r.value == LbOf(cloud.c, old(cloud.State()), l)
    ensures r.Ok? ==> Pass(cloud.c, old(cloud.State()), l, desired.Keys, cloud.State())
    ensures cloud.reliable && r.Err? ==> !Possible(cloud.c, old(cloud.State()), l, desired.Keys)
    ensures r.Ok? ==> Appended(statuses, statuses', desired, desired.Keys,
      EntriesOf(cloud.c, WithLb(cloud.c, old(cloud.State()), l), r.value, l, desired.Keys))
    ensures r.Ok? ==>
      managed' == managed + ManagedBy(cloud.c, WithLb(cloud.c, old(cloud.State()), l), r.value.arn, l, desired.Keys)
    ensures r.Ok? ==> StringSet(targets') == StringSet(targets) + TargetsOf(
      cloud.c, WithLb(cloud.c, old(cloud.State()), l), r.value.arn, l, desired.Keys)
  {
    statuses', managed', targets', pr := statuses, managed, targets, Progress({}, map[], {}, {}, {});
    var placed := cloud.Available();
    if !placed {
      return Err(CallFailed), statuses', managed', targets', pr;
    }
    r := EnsureNetworkLoadBalancer(cloud, l);
    if r.Err? {
      return;
    }
    StillWellFormed(cloud.c, old(cloud.State()), l);
    var ok;
    ok, statuses', managed', targets', pr := ExposeOne(cloud, r.value, l, desired, statuses, managed, targets);
    if !ok {
      r := Err(CallFailed);
    }
  }

  lemma {:induction false} StillWellFormed(c: Context, st: CloudState, l: LoadBalancerSpec)
    requires WellFormed(st)
    ensures WellFormed(WithLb(c, st, l)) && LbOf(c, st, l).arn in WithLb(c, st, l).listeners
  {
  }

  /** Some iterations completed and the next one did not. */
  ghost predicate StoppedIn(c: Context, lbs: seq<LoadBalancerSpec>, desired: set<int32>, trace: seq<CloudState>,
                            pr: Progress, after: CloudState)
    requires Lists(c)
  {
    && 0 < |trace| <= |lbs| && Passes(c, lbs, desired, trace, |trace| - 1)
    && Interrupted(c, trace[|trace| - 1], lbs[|trace| - 1], desired, pr, after)
  }

  /** The iteration that comes next is not possible. */
  ghost predicate Stuck(c: Context, lbs: seq<LoadBalancerSpec>, desired: set<int32>, trace: seq<CloudState>)
    requires Lists(c)
  {
    0 < |trace| <= |lbs| && !Possible(c, trace[|trace| - 1], lbs[|trace| - 1], desired)
  }

  lemma {:induction false} StuckNow(c: Context, lbs: seq<LoadBalancerSpec>, desired: set<int32>, trace: seq<CloudState>,
          i: nat, st: CloudState)
    requires Lists(c) && i < |lbs| && |trace| == i + 1 && trace[i] == st && !Possible(c, st, lbs[i], desired)
    ensures Stuck(c, lbs, desired, trace)
  {
  }

  /** The error names its cause in the iteration the run stopped in. */
  ghost predicate BlamesLast(c: Context, lbs: seq<LoadBalancerSpec>, trace: seq<CloudState>, error: ExposureError) {
    0 < |trace| <= |lbs| && Blames(c, trace[|trace| - 1], lbs[|trace| - 1], error)
  }

  /** All load balancers in turn. `trace` records the state between iterations. */
  method ExposeAll(cloud: Cloud, lbs: seq<LoadBalancerSpec>, desired: map<int32, string>)
    returns (r: Result<Exposure, ExposureError>, managed: set<string>, targets: seq<string>,
             ghost trace: seq<CloudState>, ghost pr: Progress)
    requires Lists(cloud.c) && WellFormed(cloud.State()) && OnePortEach(desired)
    modifies cloud`lbs, cloud`listeners, cloud`tgs
    ensures |trace| > 0 && trace[0] == old(cloud.State()) && WellFormed(cloud.State())
    ensures r.Err? ==> StoppedIn(cloud.c, lbs, desired.Keys, trace, pr, cloud.State())
    ensures r.Err? ==> BlamesLast(cloud.c, lbs, trace, r.error)
    ensures r.Ok? ==> |trace| == |lbs| + 1 && cloud.State() == trace[|lbs|]
    ensures cloud.reliable && r.Err? ==> Stuck(cloud.c, lbs, desired.Keys, trace)
    ensures r.Ok? ==>
      Gathered(cloud.c, lbs, desired.Keys, trace, |lbs|, managed, StringSet(targets), r.value.lbStatuses)
    ensures r.Ok? ==> StatusesUpTo(cloud.c, lbs, desired, trace, |lbs|, r.value.ports)
  {
    managed, targets, trace, pr := {}, [], [cloud.State()], Progress({}, map[], {}, {}, {});
    var cloudStatuses: Statuses := map[];
    var lbStatuses: seq<LbStatus> := [];
    for i := 0 to |lbs|
      invariant Gathered(cloud.c, lbs, desired.Keys, trace, i, managed, StringSet(targets), lbStatuses)
      invariant StatusesUpTo(cloud.c, lbs, desired, trace, i, cloudStatuses)
      invariant cloud.State() == trace[i] && trace[0] == old(cloud.State()) && WellFormed(trace[i])
    {
      ghost var before, mine, was, done := cloudStatuses, managed, StringSet(targets), lbStatuses;
      ghost var st := cloud.State();
      var lb;
      lb, cloudStatuses, managed, targets, pr := Iterate(cloud, lbs[i], desired, cloudStatuses, managed, targets);
      if lb.Err? {
        if cloud.reliable {
          StuckNow(cloud.c, lbs, desired.Keys, trace, i, st);
        }
        return Err(lb.error), managed, targets, trace, pr;
      }
      lbStatuses := lbStatuses + [LbStatus(lbs[i].name, lbs[i].scope, lb.value.arn, lb.value.dns)];
      GatherOne(cloud.c, lbs, desired.Keys, trace, i, mine, was, done, cloud.State());
      GatherStatuses(cloud.c, lbs, desired, trace, i, before, cloud.State(), cloudStatuses,
                     EntriesOf(cloud.c, WithLb(cloud.c, trace[i], lbs[i]), lb.value, lbs[i], desired.Keys));
      trace := trace + [cloud.State()];
    }
    return Ok(Exposure(lbStatuses, cloudStatuses)), managed, targets, trace, pr;
  }

  /** What a completed run returns. */
  ghost predicate Returned(c: Context, lbs: seq<LoadBalancerSpec>, desired: map<int32, string>, trace: seq<CloudState>,
          out: Exposure)
    requires Lists(c) && |lbs| <= |trace|
  {
    && out.lbStatuses == Sort(LbStatusesUpTo(c, lbs, trace, |lbs|), ByLbName)
    && (forall u :: u in out.ports <==> |lbs| > 0 && IsDone(desired, desired.Keys, u))
    && (forall p | p in desired && |lbs| > 0 ::
         desired[p] in out.ports && out.ports[desired[p]] == Sort(EntriesUpTo(c, lbs, trace, p, |lbs|), ByEntryName))
  }

  /** A run that completed from `st`: the state it left and what it returned. */
  ghost predicate Completed(c: Context, lbs: seq<LoadBalancerSpec>, desired: map<int32, string>, st: CloudState,
                            trace: seq<CloudState>, after: CloudState, out: Exposure)
    requires Lists(c)
  {
    && |trace| == |lbs| + 1 && trace[0] == st && Passes(c, lbs, desired.Keys, trace, |lbs|)
    && st.attached.Some?
    && after == trace[|lbs|].(attached :=
         Some((st.attached.value - Managed(c, lbs, desired.Keys, trace, |lbs|))
              + Targets(c, lbs, desired.Keys, trace, |lbs|)))
    && Returned(c, lbs, desired, trace, out)
  }

  /** All iterations completed and attaching or detaching failed. */
  ghost predicate StoppedAttaching(c: Context, lbs: seq<LoadBalancerSpec>, desired: set<int32>, trace: seq<CloudState>,
          after: CloudState)
    requires Lists(c)
  {
    && |trace| == |lbs| + 1 && Passes(c, lbs, desired, trace, |lbs|)
    && after == trace[|lbs|].(attached := after.attached)
    && AttachProgress(trace[0].attached, Targets(c, lbs, desired, trace, |lbs|), after.attached)
  }

  /** A run that failed from `st`, with what it left behind. */
  ghost predicate Failed(c: Context, lbs: seq<LoadBalancerSpec>, desired: set<int32>, st: CloudState,
          trace: seq<CloudState>, pr: Progress, after: CloudState)
    requires Lists(c)
  {
    && |trace| > 0 && trace[0] == st
    && (StoppedIn(c, lbs, desired, trace, pr, after) || StoppedAttaching(c, lbs, desired, trace, after))
  }

  /** A run on a reliable cloud: every iteration was possible, or the last one was not, or there is
      no group to attach target groups to. */
  ghost predicate NothingLost(c: Context, lbs: seq<LoadBalancerSpec>, desired: set<int32>, trace: seq<CloudState>,
          ok: bool)
    requires Lists(c)
  {
    && 0 < |trace| <= |lbs| + 1 && Passes(c, lbs, desired, trace, |trace| - 1)
    && if |trace| <= |lbs| then !ok && Stuck(c, lbs, desired, trace)
       else ok == trace[0].attached.Some?
  }

  /** Why a run on some load balancers failed. */
  ghost predicate Explained(c: Context, lbs: seq<LoadBalancerSpec>, st: CloudState, trace: seq<CloudState>,
          error: ExposureError)
  {
    || error == CallFailed || BlamesLast(c, lbs, trace, error)
    || (error == NoAutoScalingGroup && |trace| == |lbs| + 1 && st.attached.None?)
  }

  /** ensureLoadBalancerExposure. Runs can be chained: the cloud stays well-formed, and a run that
      fails has got through some of the iterations and stages of a complete one. */
  method EnsureLoadBalancerExposure(cloud: Cloud, machinePorts: seq<MachinePort>, ports: Ports,
          lbs: seq<LoadBalancerSpec>, hasSubnets: bool)
    returns (r: Result<Exposure, ExposureError>, ghost trace: seq<CloudState>, ghost pr: Progress)
    requires Lists(cloud.c) && WellFormed(cloud.State())
    modifies cloud
    ensures WellFormed(cloud.State())
    ensures var desired := Desired(machinePorts, ports, |machinePorts|);
      && (r.Ok? ==> desired.Ok? && Completed(
            cloud.c, lbs, desired.value, old(cloud.State()), trace, cloud.State(), r.value))
      && (desired.Err? && hasSubnets ==> r == Err(desired.error))
      && (r.Err? && (!hasSubnets || desired.Err?) ==> cloud.State() == old(cloud.State()))
      && (r.Err? && hasSubnets && desired.Ok? ==> Failed(
            cloud.c, lbs, desired.value.Keys, old(cloud.State()), trace, pr, cloud.State()))
      && (!hasSubnets ==> r == Err(NoSubnets))
      && (r.Err? && hasSubnets && desired.Ok? ==> Explained(cloud.c, lbs, old(cloud.State()), trace, r.error))
      && (cloud.reliable && hasSubnets && desired.Ok? ==>
            NothingLost(cloud.c, lbs, desired.value.Keys, trace, r.Ok?) && trace[0] == old(cloud.State()))
  {
    trace, pr := [], Progress({}, map[], {}, {}, {});
    if !hasSubnets {
      return Err(NoSubnets), trace, pr;
    }
    var desired := CollectDesired(machinePorts, ports);
    if desired.Err? {
      return Err(desired.error), trace, pr;
    }
    DesiredSpec(machinePorts, ports, |machinePorts|);
    var managed, targets;
    r, managed, targets, trace, pr := ExposeAll(cloud, lbs, desired.value);
    if r.Err? {
      return;
    }
    var wanted := DedupeStrings(targets);
    wanted := SortNames(wanted);
    assert StringSet(wanted) == StringSet(targets);
    var ok := ReconcileASGTargetGroups(cloud, wanted, managed);
    AttachedAllAlong(cloud.c, lbs, desired.value.Keys, trace, |lbs|);
    if ok.Err? {
      return Err(ok.error), trace, pr;
    }
    var sorted := SortStatuses(r.value.ports);
    CompleteRun(cloud.c, lbs, desired.value, trace, r.value, sorted);
    r := Ok(Exposure(Sort(r.value.lbStatuses, ByLbName), sorted));
  }

  lemma {:induction false} AttachedAllAlong(c: Context, lbs: seq<LoadBalancerSpec>, desired: set<int32>,
          trace: seq<CloudState>, n: nat)
    requires Lists(c) && n <= |lbs| && n < |trace| && Passes(c, lbs, desired, trace, n)
    ensures trace[n].attached == trace[0].attached
  {
    if n > 0 {
      AttachedAllAlong(c, lbs, desired, trace, n - 1);
    }
  }

  lemma {:induction false} CompleteRun(c: Context, lbs: seq<LoadBalancerSpec>, desired: map<int32, string>,
          trace: seq<CloudState>, raw: Exposure, sorted: Statuses)
    requires Lists(c) && |lbs| <= |trace| && raw.lbStatuses == LbStatusesUpTo(c, lbs, trace, |lbs|)
    requires StatusesUpTo(c, lbs, desired, trace, |lbs|, raw.ports)
    requires sorted == map u | u in raw.ports :: Sort(raw.ports[u], ByEntryName)
    ensures Returned(c, lbs, desired, trace, Exposure(Sort(raw.lbStatuses, ByLbName), sorted))
  {
    forall p | p in desired && |lbs| > 0
      ensures desired[p] in sorted && sorted[desired[p]] == Sort(EntriesUpTo(c, lbs, trace, p, |lbs|), ByEntryName)
    {
      assert IsDone(desired, desired.Keys, desired[p]);
    }
  }

  lemma {:induction false} StrLeqOrders()
    ensures TotalPreorder(StrLeq)
  {
    forall a, b ensures StrLeq(a, b) || StrLeq(b, a) {
      StrLeqTotal(a, b);
    }
    forall a, b, c | StrLeq(a, b) && StrLeq(b, c) ensures StrLeq(a, c) {
      StrLeqTransitive(a, b, c);
    }
  }

  method SortNames(names: seq<string>) returns (sorted: seq<string>)
    ensures Sorted(sorted, StrLeq) && multiset(sorted) == multiset(names)
    ensures forall t :: t in sorted <==> t in names
  {
    StrLeqOrders();
    SortSorts(names, StrLeq);
    return Sort(names, StrLeq);
  }
}
