/** The agent's TiProxy configuration (internal/agent/config/render.go), kept as lines. */
module Render {
  import opened Prelude
  import opened Sorting
  import opened Api

  /** `Quoted` is a `key = "value"` line; quoting itself is not modelled. */
  datatype Line = Raw(text: string) | Quoted(key: string, value: string) | PortRange(lo: int32, hi: int32)

  datatype Cluster = Cluster(name: string, pdAddrs: string, nsServers: string)

  datatype Options = Options(
    links: seq<ResolvedLink>, apiPort: int32, listenHost: string,
    rangeStart: int32, rangeEnd: int32, defaultListenPort: int32)

  datatype RenderError =
    | InvalidApiPort(port: int32)
    | InvalidPort(namespace: string, name: string, port: int32)
    | DuplicateCluster(name: string)
    | EmptyPDAddresses(cluster: string)

  // ---------------------------------------------------------------- specification

  function DefaultClusterName(l: ResolvedLink): string {
    if l.namespace == "" then l.name else l.namespace + "." + l.name
  }

  function ClusterName(l: ResolvedLink): string {
    if TrimSpace(l.clusterName) == "" then DefaultClusterName(l) else TrimSpace(l.clusterName)
  }

  /** The non-blank ones of the first `n` addresses, trimmed. */
  ghost function Addresses(addrs: seq<string>, n: nat): seq<string>
    requires n <= |addrs|
  {
    if n == 0 then []
    else if TrimSpace(addrs[n - 1]) == "" then Addresses(addrs, n - 1)
    else Addresses(addrs, n - 1) + [TrimSpace(addrs[n - 1])]
  }

  ghost function ClusterOf(l: ResolvedLink): Cluster {
    Cluster(ClusterName(l), Join(Addresses(l.pdAddresses, |l.pdAddresses|), ","), TrimSpace(l.nsServerAddr))
  }

  ghost function Names(s: seq<ResolvedLink>): set<string> {
    set l | l in s :: ClusterName(l)
  }

  /** Clusters of the first `n` links, or the first error. */
  ghost function Clusters(links: seq<ResolvedLink>, n: nat): Result<seq<Cluster>, RenderError>
    requires n <= |links|
  {
    if n == 0 then Ok([])
    else
      match Clusters(links, n - 1)
      case Err(e) => Err(e)
      case Ok(s) =>
        var l := links[n - 1];
        if l.port <= 0 then Err(InvalidPort(l.namespace, l.name, l.port))
        else if ClusterName(l) in Names(links[..n - 1]) then Err(DuplicateCluster(ClusterName(l)))
        else if Addresses(l.pdAddresses, |l.pdAddresses|) == [] then Err(EmptyPDAddresses(ClusterName(l)))
        else Ok(s + [ClusterOf(l)])
  }

  predicate ByClusterName(a: Cluster, b: Cluster) {
    StrLeq(a.name, b.name)
  }

  ghost function BackendClusters(links: seq<ResolvedLink>): Result<seq<Cluster>, RenderError> {
    match Clusters(links, |links|)
    case Err(e) => Err(e)
    case Ok(s) => Ok(Sort(s, ByClusterName))
  }

  /** Smallest and largest positive port of the first `n` links, 0 and 0 if there is none. */
  ghost function Inferred(links: seq<ResolvedLink>, n: nat): (int32, int32)
    requires n <= |links|
  {
    if n == 0 then (0, 0)
    else
      var (lo, hi) := Inferred(links, n - 1);
      var p := links[n - 1].port;
      if p <= 0 then (lo, hi)
      else (if lo == 0 || p < lo then p else lo, if hi == 0 || p > hi then p else hi)
  }

  /** The port range written: the configured one, else the links' own, else one port. */
  ghost function EffectiveRange(o: Options): (int32, int32) {
    var (lo, hi) := Inferred(o.links, |o.links|);
    if ValidRange(o.rangeStart, o.rangeEnd) then (o.rangeStart, o.rangeEnd)
    else if ValidRange(lo, hi) then (lo, hi)
    else if o.defaultListenPort > 0 then (o.defaultListenPort, o.defaultListenPort)
    else (6000, 6000)
  }

  function EffectiveApiPort(p: int32): int32 {
    if p == 0 then 3080 else p
  }

  function EffectiveHost(host: string): string {
    if TrimSpace(host) == "" then "0.0.0.0" else TrimSpace(host)
  }

  function ClusterLines(c: Cluster): seq<Line> {
    [Raw(""), Raw("[[proxy.backend-clusters]]"), Quoted("name", c.name), Quoted("pd-addrs", c.pdAddrs)]
    + if c.nsServers != "" then [Quoted("ns-servers", c.nsServers)] else []
  }

  ghost function AllClusterLines(s: seq<Cluster>, n: nat): seq<Line>
    requires n <= |s|
  {
    if n == 0 then [] else AllClusterLines(s, n - 1) + ClusterLines(s[n - 1])
  }

  ghost function Body(s: seq<Cluster>): seq<Line> {
    if s == [] then [Raw("backend-clusters = []")] else AllClusterLines(s, |s|)
  }

  ghost function Head(host: string, lo: int32, hi: int32): seq<Line> {
    [Raw("[proxy]"), Quoted("addr", host + ":" + Itoa(lo)), PortRange(lo, hi)]
  }

  ghost function Tail(apiPort: int32): seq<Line> {
    [Raw(""), Raw("[balance]"), Quoted("routing-rule", "port"),
     Raw(""), Raw("[api]"), Quoted("addr", "0.0.0.0:" + Itoa(apiPort))]
  }

  ghost function Rendered(o: Options): Result<seq<Line>, RenderError> {
    if EffectiveApiPort(o.apiPort) <= 0 then Err(InvalidApiPort(EffectiveApiPort(o.apiPort)))
    else
      match BackendClusters(o.links)
      case Err(e) => Err(e)
      case Ok(s) =>
        var (lo, hi) := EffectiveRange(o);
        Ok(Head(EffectiveHost(o.listenHost), lo, hi) + Body(s) + Tail(EffectiveApiPort(o.apiPort)))
  }

  // ---------------------------------------------------------------- the algorithm

  method TrimAddresses(addrs: seq<string>) returns (pdAddrs: seq<string>)
    ensures pdAddrs == Addresses(addrs, |addrs|)
  {
    pdAddrs := [];
    for k := 0 to |addrs|
      invariant pdAddrs == Addresses(addrs, k)
    {
      var addr := TrimSpace(addrs[k]);
      if addr != "" {
        pdAddrs := pdAddrs + [addr];
      }
    }
  }

  method BuildBackendClusters(links: seq<ResolvedLink>) returns (r: Result<seq<Cluster>, RenderError>)
    ensures r == BackendClusters(links)
  {
    var clusters: seq<Cluster> := [];
    var names: set<string> := {};
    for i := 0 to |links|
      invariant Clusters(links, i) == Ok(clusters)
      invariant names == Names(links[..i])
    {
      var link := links[i];
      if link.port <= 0 {
        ClustersFailEarly(links, i + 1);
        return Err(InvalidPort(link.namespace, link.name, link.port));
      }
      var clusterName := TrimSpace(link.clusterName);
      if clusterName == "" {
        clusterName := DefaultClusterName(link);
      }
      if clusterName in names {
        ClustersFailEarly(links, i + 1);
        return Err(DuplicateCluster(clusterName));
      }
      NamesAppend(links, i + 1);
      names := names + {clusterName};
      var pdAddrs := TrimAddresses(link.pdAddresses);
      if |pdAddrs| == 0 {
        ClustersFailEarly(links, i + 1);
        return Err(EmptyPDAddresses(clusterName));
      }
      clusters := clusters + [Cluster(clusterName, Join(pdAddrs, ","), TrimSpace(link.nsServerAddr))];
    }
    return Ok(Sort(clusters, ByClusterName));
  }

  method InferPortRange(links: seq<ResolvedLink>) returns (start: int32, end: int32)
    ensures (start, end) == Inferred(links, |links|)
  {
    start, end := 0, 0;
    for i := 0 to |links|
      invariant (start, end) == Inferred(links, i)
    {
      var port := links[i].port;
      if port > 0 {
        if start == 0 || port < start {
          start := port;
        }
        if end == 0 || port > end {
          end := port;
        }
      }
    }
  }

  method ChooseRange(o: Options) returns (rangeStart: int32, rangeEnd: int32)
    ensures (rangeStart, rangeEnd) == EffectiveRange(o)
  {
    rangeStart, rangeEnd := o.rangeStart, o.rangeEnd;
    if rangeStart <= 0 || rangeEnd < rangeStart {
      rangeStart, rangeEnd := InferPortRange(o.links);
    }
    if rangeStart <= 0 || rangeEnd < rangeStart {
      var defaultListenPort := o.defaultListenPort;
      if defaultListenPort <= 0 {
        defaultListenPort := 6000;
      }
      rangeStart, rangeEnd := defaultListenPort, defaultListenPort;
    }
  }

  method WriteClusters(head: seq<Line>, clusters: seq<Cluster>) returns (b: seq<Line>)
    ensures b == head + Body(clusters)
  {
    b := head;
    if |clusters| == 0 {
      b := b + [Raw("backend-clusters = []")];
      return;
    }
    for i := 0 to |clusters|
      invariant b == head + AllClusterLines(clusters, i)
    {
      var cluster := clusters[i];
      ghost var before := b;
      b := b + [Raw(""), Raw("[[proxy.backend-clusters]]")];
      b := b + [Quoted("name", cluster.name)];
      b := b + [Quoted("pd-addrs", cluster.pdAddrs)];
      if cluster.nsServers != "" {
        b := b + [Quoted("ns-servers", cluster.nsServers)];
      }
      assert b == before + ClusterLines(cluster);
    }
  }

  method BuildTiProxyConfig(o: Options) returns (r: Result<seq<Line>, RenderError>)
    ensures r == Rendered(o)
  {
    var apiPort := o.apiPort;
    if apiPort == 0 {
      apiPort := 3080;
    }
    if apiPort <= 0 {
      return Err(InvalidApiPort(apiPort));
    }
    var listenHost := TrimSpace(o.listenHost);
    if listenHost == "" {
      listenHost := "0.0.0.0";
    }
    var built := BuildBackendClusters(o.links);
    if built.Err? {
      return Err(built.error);
    }
    var clusters := built.value;

    var rangeStart, rangeEnd := ChooseRange(o);

    var b := [Raw("[proxy]")];
    b := b + [Quoted("addr", listenHost + ":" + Itoa(rangeStart))];
    b := b + [PortRange(rangeStart, rangeEnd)];
    assert b == Head(listenHost, rangeStart, rangeEnd);
    b := WriteClusters(b, clusters);
    ghost var before := b;
    b := b + [Raw(""), Raw("[balance]")];
    b := b + [Quoted("routing-rule", "port")];
    b := b + [Raw(""), Raw("[api]")];
    b := b + [Quoted("addr", "0.0.0.0:" + Itoa(apiPort))];
    assert b == before + Tail(apiPort);
    return Ok(b);
  }

  lemma {:induction false} ClustersFailEarly(links: seq<ResolvedLink>, n: nat)
    requires n <= |links| && Clusters(links, n).Err?
    ensures Clusters(links, |links|) == Clusters(links, n)
    decreases |links| - n
  {
    if n < |links| {
      ClustersFailEarly(links, n + 1);
    }
  }

  lemma {:induction false} NamesAppend(links: seq<ResolvedLink>, n: nat)
    requires 0 < n <= |links|
    ensures Names(links[..n]) == Names(links[..n - 1]) + {ClusterName(links[n - 1])}
  {
    assert links[..n] == links[..n - 1] + [links[n - 1]];
    assert forall l :: l in links[..n] <==> l in links[..n - 1] || l == links[n - 1];
  }

  // ---------------------------------------------------------------- properties

  /** A link that can be rendered: positive port, some non-blank PD address. */
  ghost predicate Usable(l: ResolvedLink) {
    l.port > 0 && exists i :: 0 <= i < |l.pdAddresses| && TrimSpace(l.pdAddresses[i]) != ""
  }

  ghost predicate DistinctNames(links: seq<ResolvedLink>) {
    forall i, j | 0 <= i < j < |links| :: ClusterName(links[i]) != ClusterName(links[j])
  }

  ghost predicate Renderable(links: seq<ResolvedLink>) {
    (forall l | l in links :: Usable(l)) && DistinctNames(links)
  }

  lemma {:induction false} NoAddresses(addrs: seq<string>, n: nat)
    requires n <= |addrs|
    ensures Addresses(addrs, n) == [] <==> forall i | 0 <= i < n :: TrimSpace(addrs[i]) == ""
  {
    if n > 0 {
      NoAddresses(addrs, n - 1);
    }
  }

  lemma {:induction false} ClustersAre(links: seq<ResolvedLink>, n: nat)
    requires n <= |links| && Clusters(links, n).Ok?
    ensures |Clusters(links, n).value| == n
    ensures forall i | 0 <= i < n :: Clusters(links, n).value[i] == ClusterOf(links[i])
  {
    if n > 0 {
      ClustersAre(links, n - 1);
    }
  }

  ghost predicate RenderableUpTo(links: seq<ResolvedLink>, n: nat)
    requires n <= |links|
  {
    && (forall i | 0 <= i < n :: Usable(links[i]))
    && (forall i, j | 0 <= i < j < n :: ClusterName(links[i]) != ClusterName(links[j]))
  }

  lemma {:induction false} ClustersStep(links: seq<ResolvedLink>, n: nat)
    requires 0 < n <= |links|
    ensures Clusters(links, n).Ok? <==>
      Clusters(links, n - 1).Ok? && Usable(links[n - 1])
      && forall i | 0 <= i < n - 1 :: ClusterName(links[i]) != ClusterName(links[n - 1])
  {
    var l := links[n - 1];
    NoAddresses(l.pdAddresses, |l.pdAddresses|);
    NameTaken(links, n - 1, ClusterName(l));
  }

  lemma {:induction false} ClustersSucceedIff(links: seq<ResolvedLink>, n: nat)
    requires n <= |links|
    ensures Clusters(links, n).Ok? <==> RenderableUpTo(links, n)
  {
    if n > 0 {
      ClustersSucceedIff(links, n - 1);
      ClustersStep(links, n);
      RenderableStep(links, n);
    }
  }

  lemma {:induction false} RenderableStep(links: seq<ResolvedLink>, n: nat)
    requires 0 < n <= |links|
    ensures RenderableUpTo(links, n)
      <==> RenderableUpTo(links, n - 1) && Usable(links[n - 1])
           && forall i | 0 <= i < n - 1 :: ClusterName(links[i]) != ClusterName(links[n - 1])
  {
  }

  lemma {:induction false} NameTaken(links: seq<ResolvedLink>, n: nat, name: string)
    requires n <= |links|
    ensures name in Names(links[..n]) <==> exists i :: 0 <= i < n && ClusterName(links[i]) == name
  {
    if i :| 0 <= i < n && ClusterName(links[i]) == name {
      assert links[i] in links[..n];
    }
  }

  /** Rendering succeeds exactly when the API port is not negative, every link is usable and no
      two links share a cluster name. */
  lemma {:induction false} RenderSucceedsIff(o: Options)
    ensures Rendered(o).Ok? <==> o.apiPort >= 0 && Renderable(o.links)
  {
    ClustersSucceedIff(o.links, |o.links|);
    assert forall i | 0 <= i < |o.links| :: o.links[i] in o.links;
  }

  lemma {:induction false} ByClusterNameOrders()
    ensures TotalPreorder(ByClusterName)
    ensures forall a, b | ByClusterName(a, b) && ByClusterName(b, a) :: a.name == b.name
  {
    forall a, b
      ensures ByClusterName(a, b) || ByClusterName(b, a)
      ensures ByClusterName(a, b) && ByClusterName(b, a) ==> a.name == b.name
    {
      StrLeqTotal(a.name, b.name);
    }
    forall a, b, c | ByClusterName(a, b) && ByClusterName(b, c)
      ensures ByClusterName(a, c)
    {
      StrLeqTransitive(a.name, b.name, c.name);
    }
  }

  /** `s` consists of the clusters of `links`. */
  ghost predicate ClustersFor(links: seq<ResolvedLink>, s: seq<Cluster>) {
    && (forall l | l in links :: ClusterOf(l) in s)
    && (forall c | c in s :: exists l :: l in links && c == ClusterOf(l))
  }

  lemma {:induction false} UnsortedClusters(links: seq<ResolvedLink>)
    requires Clusters(links, |links|).Ok?
    ensures ClustersFor(links, Clusters(links, |links|).value)
  {
    ClustersAre(links, |links|);
    var u := Clusters(links, |links|).value;
    forall l | l in links ensures ClusterOf(l) in u {
      var i :| 0 <= i < |links| && links[i] == l;
      assert u[i] in u;
    }
    forall c | c in u ensures exists l :: l in links && c == ClusterOf(l) {
      var i :| 0 <= i < |u| && u[i] == c;
      assert links[i] in links;
    }
  }

  /** One cluster per link, in strictly increasing order of name. */
  lemma {:induction false} ClustersOfLinks(links: seq<ResolvedLink>)
    requires Renderable(links)
    ensures BackendClusters(links).Ok?
    ensures var s := BackendClusters(links).value;
      && |s| == |links| && ClustersFor(links, s)
      && (forall i, j | 0 <= i < j < |s| :: StrLeq(s[i].name, s[j].name) && s[i].name != s[j].name)
  {
    UnsortedNames(links);
    UnsortedClusters(links);
    var u := Clusters(links, |links|).value;
    ByClusterNameOrders();
    SortSorts(u, ByClusterName);
    SameClustersFor(links, u, Sort(u, ByClusterName));
    StrictlyByName(u, Sort(u, ByClusterName));
  }

  lemma {:induction false} UnsortedNames(links: seq<ResolvedLink>)
    requires Renderable(links)
    ensures Clusters(links, |links|).Ok?
    ensures var u := Clusters(links, |links|).value;
      |u| == |links| && forall i, j | 0 <= i < j < |u| :: u[i].name != u[j].name
  {
    ClustersSucceedIff(links, |links|);
    assert forall i | 0 <= i < |links| :: links[i] in links;
    ClustersAre(links, |links|);
  }

  lemma {:induction false} SameClustersFor(links: seq<ResolvedLink>, u: seq<Cluster>, s: seq<Cluster>)
    requires ClustersFor(links, u) && forall c :: c in s <==> c in u
    ensures ClustersFor(links, s)
  {
  }

  lemma {:induction false} StrictlyByName(u: seq<Cluster>, s: seq<Cluster>)
    requires multiset(u) == multiset(s) && Sorted(s, ByClusterName)
    requires forall i, j | 0 <= i < j < |u| :: u[i].name != u[j].name
    ensures forall i, j | 0 <= i < j < |s| :: StrLeq(s[i].name, s[j].name) && s[i].name != s[j].name
  {
    SameMultiset(u, s);
    PermutedNoDuplicates(u, s);
    forall i, j | 0 <= i < j < |s|
      ensures StrLeq(s[i].name, s[j].name) && s[i].name != s[j].name
    {
      assert s[i] in u && s[j] in u && s[i] != s[j];
      assert ByClusterName(s[i], s[j]);
    }
  }

  /** A permutation of the links is rendered alike: same success or failure, and on success the
      same lines. */
  lemma {:induction false} RenderIgnoresLinkOrder(o: Options, links: seq<ResolvedLink>)
    requires multiset(o.links) == multiset(links)
    ensures Rendered(o).Ok? <==> Rendered(o.(links := links)).Ok?
    ensures Rendered(o).Ok? ==> Rendered(o) == Rendered(o.(links := links))
  {
    SameMultiset(o.links, links);
    RenderSucceedsIff(o);
    RenderSucceedsIff(o.(links := links));
    if DistinctNames(o.links) {
      PermutedNames(o.links, links);
    }
    if DistinctNames(links) {
      PermutedNames(links, o.links);
    }
    if Rendered(o).Ok? {
      SameClusters(o.links, links);
      InferredSame(o.links, links);
    }
  }

  lemma {:induction false} PermutedNames(a: seq<ResolvedLink>, b: seq<ResolvedLink>)
    requires multiset(a) == multiset(b) && DistinctNames(a)
    ensures DistinctNames(b)
  {
    SameMultiset(a, b);
    PermutedNoDuplicates(a, b);
    forall i, j | 0 <= i < j < |b|
      ensures ClusterName(b[i]) != ClusterName(b[j])
    {
      assert b[i] in a && b[j] in a && b[i] != b[j];
    }
  }

  lemma {:induction false} SameClusters(a: seq<ResolvedLink>, b: seq<ResolvedLink>)
    requires multiset(a) == multiset(b) && Renderable(a) && Renderable(b)
    ensures BackendClusters(a) == BackendClusters(b)
  {
    SameMultiset(a, b);
    ClustersOfLinks(a);
    ClustersOfLinks(b);
    var s, t := BackendClusters(a).value, BackendClusters(b).value;
    assert forall c | c in s :: c in t;
    assert forall c | c in t :: c in s;
    SameElements(s, t);
    ByClusterNameOrders();
    forall i, j | 0 <= i < j < |s| ensures ByClusterName(s[i], s[j]) {
    }
    SortedUnique(s, t, ByClusterName);
  }

  // ---------------------------------------------------------------- port range

  /** `lo` and `hi` are the least and greatest positive ports of the first `n` links. */
  ghost predicate Tightest(links: seq<ResolvedLink>, n: nat, lo: int32, hi: int32)
    requires n <= |links|
  {
    && (exists i :: 0 <= i < n && links[i].port == lo)
    && (exists i :: 0 <= i < n && links[i].port == hi)
    && (forall i | 0 <= i < n && links[i].port > 0 :: 0 < lo <= links[i].port <= hi)
  }

  lemma {:induction false} InferredSpec(links: seq<ResolvedLink>, n: nat)
    requires n <= |links|
    ensures var (lo, hi) := Inferred(links, n);
      && (lo == 0 <==> hi == 0) && lo >= 0 && hi >= lo
      && (lo == 0 <==> forall i | 0 <= i < n :: links[i].port <= 0)
      && (lo > 0 ==> Tightest(links, n, lo, hi))
  {
    if n > 0 {
      InferredSpec(links, n - 1);
    }
  }

  lemma {:induction false} InferredBounds(a: seq<ResolvedLink>, b: seq<ResolvedLink>)
    requires forall l | l in a :: l in b
    ensures var (alo, ahi) := Inferred(a, |a|);
      var (blo, bhi) := Inferred(b, |b|);
      alo > 0 ==> 0 < blo <= alo && ahi <= bhi
  {
    InferredSpec(a, |a|);
    InferredSpec(b, |b|);
    var (alo, ahi) := Inferred(a, |a|);
    if alo > 0 {
      var i :| 0 <= i < |a| && a[i].port == alo;
      var j :| 0 <= j < |a| && a[j].port == ahi;
      assert a[i] in b && a[j] in b;
    }
  }

  lemma {:induction false} InferredSame(a: seq<ResolvedLink>, b: seq<ResolvedLink>)
    requires forall l :: l in a <==> l in b
    ensures Inferred(a, |a|) == Inferred(b, |b|)
  {
    InferredBounds(a, b);
    InferredBounds(b, a);
    InferredSpec(a, |a|);
    InferredSpec(b, |b|);
  }

  ghost predicate PortsWithin(links: seq<ResolvedLink>, lo: int32, hi: int32) {
    forall l | l in links :: lo <= l.port <= hi
  }

  /** The rendered range holds the port of every link, except when a valid range is configured
      and some link lies outside it. */
  lemma {:induction false} RangeCovers(o: Options)
    requires Rendered(o).Ok?
    ensures var (lo, hi) := EffectiveRange(o);
      && Rendered(o).value[2] == PortRange(lo, hi)
      && (PortsWithin(o.links, lo, hi)
          <==> (ValidRange(o.rangeStart, o.rangeEnd) ==> PortsWithin(o.links, o.rangeStart, o.rangeEnd)))
  {
    RenderSucceedsIff(o);
    InferredSpec(o.links, |o.links|);
    if !ValidRange(o.rangeStart, o.rangeEnd) && o.links != [] {
      assert o.links[0] in o.links && Usable(o.links[0]);
    }
  }

  // ---------------------------------------------------------------- nothing is lost

  /** Two equal configurations announce the same range, clusters and API port. */
  lemma {:induction false} RenderFaithful(a: Options, b: Options)
    requires Rendered(a).Ok? && Rendered(a) == Rendered(b)
    ensures EffectiveRange(a) == EffectiveRange(b)
    ensures BackendClusters(a.links) == BackendClusters(b.links)
    ensures EffectiveApiPort(a.apiPort) == EffectiveApiPort(b.apiPort)
  {
    var s, t := BackendClusters(a.links).value, BackendClusters(b.links).value;
    var p, q := EffectiveApiPort(a.apiPort), EffectiveApiPort(b.apiPort);
    var (alo, ahi) := EffectiveRange(a);
    var (blo, bhi) := EffectiveRange(b);
    var ha, hb := Head(EffectiveHost(a.listenHost), alo, ahi), Head(EffectiveHost(b.listenHost), blo, bhi);
    var x := Rendered(a).value;
    assert x == ha + Body(s) + Tail(p) == hb + Body(t) + Tail(q);
    assert x[2] == PortRange(alo, ahi) == PortRange(blo, bhi);
    assert |Body(s)| == |Body(t)|;
    assert x[3..|x| - 6] == Body(s) == Body(t);
    BodyInjective(s, t);
    assert x[|x| - 1] == Quoted("addr", "0.0.0.0:" + Itoa(p)) == Quoted("addr", "0.0.0.0:" + Itoa(q));
    assert ("0.0.0.0:" + Itoa(p))[8..] == Itoa(p) && ("0.0.0.0:" + Itoa(q))[8..] == Itoa(q);
    ItoaInjective(p, q);
  }

  lemma {:induction false} BodyInjective(s: seq<Cluster>, t: seq<Cluster>)
    requires Body(s) == Body(t)
    ensures s == t
  {
    if s != [] {
      FirstClusterLine(s);
    }
    if t != [] {
      FirstClusterLine(t);
    }
    if s != [] && t != [] {
      ClusterLinesInjective(s, |s|, t, |t|);
    }
  }

  lemma {:induction false} FirstClusterLine(s: seq<Cluster>)
    requires s != []
    ensures |AllClusterLines(s, |s|)| > 1
  {
  }

  /** The lines are read back from the end: the last line tells whether the last cluster has
      name servers. */
  lemma {:induction false} ClusterLinesInjective(s: seq<Cluster>, m: nat, t: seq<Cluster>, n: nat)
    requires m <= |s| && n <= |t| && AllClusterLines(s, m) == AllClusterLines(t, n)
    ensures s[..m] == t[..n]
  {
    if m > 0 && n > 0 {
      var a, b := s[m - 1], t[n - 1];
      var x := AllClusterLines(s, m);
      assert x == AllClusterLines(s, m - 1) + ClusterLines(a) == AllClusterLines(t, n - 1) + ClusterLines(b);
      assert x[|x| - 1] == ClusterLines(a)[|ClusterLines(a)| - 1] == ClusterLines(b)[|ClusterLines(b)| - 1];
      assert |ClusterLines(a)| == |ClusterLines(b)|;
      var k := |AllClusterLines(s, m - 1)|;
      assert x[k..] == ClusterLines(a) == ClusterLines(b);
      assert x[..k] == AllClusterLines(s, m - 1) == AllClusterLines(t, n - 1);
      assert ClusterLines(a)[2] == ClusterLines(b)[2] && ClusterLines(a)[3] == ClusterLines(b)[3];
      assert a == b;
      ClusterLinesInjective(s, m - 1, t, n - 1);
      assert s[..m] == s[..m - 1] + [a] && t[..n] == t[..n - 1] + [b];
    } else {
      assert m == 0 && n == 0;
    }
  }
}
