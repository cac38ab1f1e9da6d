/** What stands in the rendered configuration, line by line (internal/agent/config/render.go), read
    off the options. */
module RenderedLines {
  import opened Prelude
  import opened Sorting
  import opened Api
  import opened Render

  const CLUSTER := Raw("[[proxy.backend-clusters]]")

  // ---------------------------------------------------------------- what is to be written

  /** The trimmed addresses that are not blank. */
  function NonBlank(addrs: seq<string>): seq<string> {
    if |addrs| == 0 then []
    else (if TrimSpace(addrs[0]) == "" then [] else [TrimSpace(addrs[0])]) + NonBlank(addrs[1..])
  }

  /** A link without cluster name is called by its namespace, if it has one, and its name. */
  ghost predicate CalledAs(l: ResolvedLink, name: string) {
    && (TrimSpace(l.clusterName) != "" ==> name == TrimSpace(l.clusterName))
    && (TrimSpace(l.clusterName) == "" && l.namespace == "" ==> name == l.name)
    && (TrimSpace(l.clusterName) == "" && l.namespace != "" ==> name == l.namespace + "." + l.name)
  }

  /** At line `k` starts the cluster of `l`: a heading, its name, its addresses joined by commas,
      and its name servers exactly when they are not blank; then comes an empty line. */
  ghost predicate WrittenAt(cfg: seq<Line>, k: int, l: ResolvedLink) {
    var servers := TrimSpace(l.nsServerAddr);
    && 0 < k && k + 3 < |cfg| && cfg[k - 1] == Raw("") && cfg[k] == CLUSTER
    && cfg[k + 1].Quoted? && cfg[k + 1].key == "name" && CalledAs(l, cfg[k + 1].value)
    && cfg[k + 2] == Quoted("pd-addrs", Join(NonBlank(l.pdAddresses), ","))
    && (servers == "" ==> cfg[k + 3] == Raw(""))
    && (servers != "" ==> k + 4 < |cfg| && cfg[k + 3] == Quoted("ns-servers", servers) && cfg[k + 4] == Raw(""))
  }

  /** The last lines: ports decide the routing, and the API listens everywhere on its port. */
  ghost predicate EndsWith(cfg: seq<Line>, apiPort: int32) {
    && |cfg| >= 9
    && cfg[|cfg| - 6..] == [Raw(""), Raw("[balance]"), Quoted("routing-rule", "port"), Raw(""), Raw("[api]"),
                            Quoted("addr", "0.0.0.0:" + Itoa(if apiPort == 0 then 3080 else apiPort))]
  }

  /** The first lines: the proxy listens on the first port of the range, by default everywhere. */
  ghost predicate StartsWith(cfg: seq<Line>, listenHost: string, lo: int32, hi: int32) {
    var host := if TrimSpace(listenHost) == "" then "0.0.0.0" else TrimSpace(listenHost);
    |cfg| >= 9 && cfg[..3] == [Raw("[proxy]"), Quoted("addr", host + ":" + Itoa(lo)), PortRange(lo, hi)]
  }

  ghost predicate HeadingAt(cfg: seq<Line>, k: int) {
    0 <= k < |cfg| && cfg[k] == CLUSTER
  }

  /** All clusters, and no others. */
  ghost predicate ListsClusters(cfg: seq<Line>, links: seq<ResolvedLink>) {
    && (forall l | l in links :: exists k :: WrittenAt(cfg, k, l))
    && (forall k | HeadingAt(cfg, k) :: exists l :: l in links && WrittenAt(cfg, k, l))
    && (forall i, k | HeadingAt(cfg, i) && HeadingAt(cfg, k) && i < k :: NamesAscend(cfg, i, k))
    && (links == [] ==> |cfg| > 3 && cfg[3] == Raw("backend-clusters = []"))
  }

  /** The names after two headings are in strictly increasing order. */
  ghost predicate NamesAscend(cfg: seq<Line>, i: int, k: int) {
    && 0 <= i < |cfg| - 1 && 0 <= k < |cfg| - 1 && cfg[i + 1].Quoted? && cfg[k + 1].Quoted?
    && StrLeq(cfg[i + 1].value, cfg[k + 1].value) && cfg[i + 1].value != cfg[k + 1].value
  }

  // ---------------------------------------------------------------- addresses

  lemma {:induction false} NonBlankAppend(a: seq<string>, x: string)
    ensures NonBlank(a + [x]) == NonBlank(a) + if TrimSpace(x) == "" then [] else [TrimSpace(x)]
  {
    if |a| == 0 {
      assert a + [x] == [x];
    } else {
      assert (a + [x])[1..] == a[1..] + [x];
      NonBlankAppend(a[1..], x);
    }
  }

  lemma {:induction false} AddressesAre(addrs: seq<string>, n: nat)
    requires n <= |addrs|
    ensures Addresses(addrs, n) == NonBlank(addrs[..n])
  {
    if n > 0 {
      AddressesAre(addrs, n - 1);
      assert addrs[..n] == addrs[..n - 1] + [addrs[n - 1]];
      NonBlankAppend(addrs[..n - 1], addrs[n - 1]);
    }
  }

  lemma {:induction false} ClusterReads(l: ResolvedLink)
    ensures CalledAs(l, ClusterOf(l).name) && ClusterOf(l).pdAddrs == Join(NonBlank(l.pdAddresses), ",")
    ensures ClusterOf(l).nsServers == TrimSpace(l.nsServerAddr)
  {
    AddressesAre(l.pdAddresses, |l.pdAddresses|);
    assert l.pdAddresses[..|l.pdAddresses|] == l.pdAddresses;
  }

  // ---------------------------------------------------------------- positions of the clusters

  /** Where the lines of cluster `i` start in the body. */
  ghost function Offset(s: seq<Cluster>, i: nat): nat
    requires i <= |s|
  {
    |AllClusterLines(s, i)|
  }

  /** Line `j` of cluster `i`. */
  lemma {:induction false} LineOf(s: seq<Cluster>, n: nat, i: nat, j: nat)
    requires i < n <= |s| && j < |ClusterLines(s[i])|
    ensures Offset(s, i) + j < Offset(s, i + 1) <= Offset(s, n)
    ensures AllClusterLines(s, n)[Offset(s, i) + j] == ClusterLines(s[i])[j]
    decreases n
  {
    if i < n - 1 {
      LineOf(s, n - 1, i, j);
    }
  }

  lemma {:induction false} OffsetsGrow(s: seq<Cluster>, i: nat, j: nat)
    requires i < j <= |s|
    ensures Offset(s, i) + 4 <= Offset(s, j)
    decreases j
  {
    if i < j - 1 {
      OffsetsGrow(s, i, j - 1);
    }
  }

  /** Every line of the body belongs to a cluster. */
  lemma {:induction false} ClusterOfLine(s: seq<Cluster>, n: nat, k: nat) returns (i: nat)
    requires n <= |s| && k < Offset(s, n)
    ensures i < n && Offset(s, i) <= k < Offset(s, i + 1)
  {
    if k >= Offset(s, n - 1) {
      i := n - 1;
    } else {
      i := ClusterOfLine(s, n - 1, k);
    }
  }

  /** What the lines of a configuration are made of. */
  ghost predicate MadeOf(cfg: seq<Line>, head: seq<Line>, s: seq<Cluster>, tail: seq<Line>) {
    && cfg == head + Body(s) + tail && |head| == 3 && |tail| == 6 && tail[0] == Raw("")
    && CLUSTER !in head && CLUSTER !in tail
  }

  lemma {:induction false} BodyLine(cfg: seq<Line>, head: seq<Line>, s: seq<Cluster>, tail: seq<Line>, k: nat)
    requires MadeOf(cfg, head, s, tail) && k < Offset(s, |s|)
    ensures 3 + Offset(s, |s|) == |cfg| - 6 && cfg[3 + k] == AllClusterLines(s, |s|)[k]
  {
    assert s != [];
  }

  /** Line `j` of cluster `i` in the configuration. */
  lemma {:induction false} ClusterLine(cfg: seq<Line>, head: seq<Line>, s: seq<Cluster>, tail: seq<Line>,
          i: nat, j: nat)
    requires MadeOf(cfg, head, s, tail) && i < |s| && j < |ClusterLines(s[i])|
    ensures 3 + Offset(s, i) + j < |cfg| - 6 && cfg[3 + Offset(s, i) + j] == ClusterLines(s[i])[j]
  {
    LineOf(s, |s|, i, j);
    BodyLine(cfg, head, s, tail, Offset(s, i) + j);
  }

  /** After a cluster comes an empty line. */
  lemma {:induction false} LineAfter(cfg: seq<Line>, head: seq<Line>, s: seq<Cluster>, tail: seq<Line>, i: nat)
    requires MadeOf(cfg, head, s, tail) && i < |s|
    ensures Offset(s, i + 1) == Offset(s, i) + |ClusterLines(s[i])|
    ensures 3 + Offset(s, i + 1) < |cfg| && cfg[3 + Offset(s, i + 1)] == Raw("")
  {
    if i + 1 < |s| {
      ClusterLine(cfg, head, s, tail, i + 1, 0);
    } else {
      assert cfg[|cfg| - 6] == tail[0];
      ClusterLine(cfg, head, s, tail, i, 0);
      BodyLine(cfg, head, s, tail, 0);
    }
  }

  /** The lines of cluster `c` start at `k`. */
  ghost predicate BlockAt(cfg: seq<Line>, k: nat, c: Cluster) {
    && k + 4 < |cfg| && cfg[k] == Raw("") && cfg[k + 1] == CLUSTER
    && cfg[k + 2] == Quoted("name", c.name) && cfg[k + 3] == Quoted("pd-addrs", c.pdAddrs)
    && if c.nsServers == "" then cfg[k + 4] == Raw("")
       else k + 5 < |cfg| && cfg[k + 4] == Quoted("ns-servers", c.nsServers) && cfg[k + 5] == Raw("")
  }

  lemma {:induction false} ClusterBlock(cfg: seq<Line>, head: seq<Line>, s: seq<Cluster>, tail: seq<Line>, i: nat)
    requires MadeOf(cfg, head, s, tail) && i < |s|
    ensures BlockAt(cfg, 3 + Offset(s, i), s[i])
  {
    var lines := ClusterLines(s[i]);
    var k := 3 + Offset(s, i);
    LineAfter(cfg, head, s, tail, i);
    var block := cfg[k..k + |lines|];
    forall j | 0 <= j < |lines| ensures block[j] == lines[j] {
      ClusterLine(cfg, head, s, tail, i, j);
    }
    assert block == lines;
    BlockLines(cfg, k, s[i]);
  }

  lemma {:induction false} BlockLines(cfg: seq<Line>, k: nat, c: Cluster)
    requires k + |ClusterLines(c)| < |cfg| && cfg[k + |ClusterLines(c)|] == Raw("")
    requires cfg[k..k + |ClusterLines(c)|] == ClusterLines(c)
    ensures BlockAt(cfg, k, c)
  {
    var lines := ClusterLines(c);
    assert lines[0] == Raw("") && lines[1] == CLUSTER && lines[2] == Quoted("name", c.name);
    assert lines[3] == Quoted("pd-addrs", c.pdAddrs);
    if c.nsServers != "" {
      assert lines[4] == Quoted("ns-servers", c.nsServers);
    }
  }

  lemma {:induction false} ClusterWritten(cfg: seq<Line>, head: seq<Line>, s: seq<Cluster>, tail: seq<Line>, i: nat,
          l: ResolvedLink)
    requires MadeOf(cfg, head, s, tail) && i < |s| && s[i] == ClusterOf(l)
    ensures WrittenAt(cfg, 3 + Offset(s, i) + 1, l)
    ensures cfg[3 + Offset(s, i) + 2] == Quoted("name", s[i].name)
  {
    ClusterBlock(cfg, head, s, tail, i);
    BlockWritten(cfg, 3 + Offset(s, i), s[i], l);
  }

  lemma {:induction false} BlockWritten(cfg: seq<Line>, k: nat, c: Cluster, l: ResolvedLink)
    requires BlockAt(cfg, k, c) && c == ClusterOf(l)
    ensures WrittenAt(cfg, k + 1, l)
  {
    ClusterReads(l);
  }

  lemma {:induction false} OutsideBody(cfg: seq<Line>, head: seq<Line>, s: seq<Cluster>, tail: seq<Line>, k: nat)
    requires MadeOf(cfg, head, s, tail) && k < |cfg| && (k < 3 || k >= |cfg| - 6)
    ensures cfg[k] != CLUSTER
  {
    if k < 3 {
      assert cfg[k] == head[k];
    } else {
      assert cfg[k] == tail[k - (|cfg| - 6)];
    }
  }

  lemma {:induction false} BodyHeading(cfg: seq<Line>, head: seq<Line>, s: seq<Cluster>, tail: seq<Line>, k: nat)
    requires MadeOf(cfg, head, s, tail) && k < |cfg| && cfg[k] == CLUSTER
    ensures s != [] && 3 <= k < 3 + Offset(s, |s|)
  {
    if k < 3 || k >= |cfg| - 6 {
      OutsideBody(cfg, head, s, tail, k);
    }
  }

  /** A heading is the second line of its cluster. */
  lemma {:induction false} HeadingOf(cfg: seq<Line>, head: seq<Line>, s: seq<Cluster>, tail: seq<Line>, k: nat)
    returns (i: nat)
    requires MadeOf(cfg, head, s, tail) && k < |cfg| && cfg[k] == CLUSTER
    ensures i < |s| && k == 3 + Offset(s, i) + 1
  {
    BodyHeading(cfg, head, s, tail, k);
    i := ClusterOfLine(s, |s|, k - 3);
    LineAfter(cfg, head, s, tail, i);
    ClusterLine(cfg, head, s, tail, i, k - 3 - Offset(s, i));
    HeadingSecond(s[i], k - 3 - Offset(s, i));
  }

  lemma {:induction false} HeadingSecond(c: Cluster, j: nat)
    requires j < |ClusterLines(c)| && ClusterLines(c)[j] == CLUSTER
    ensures j == 1
  {
  }

  lemma {:induction false} ClustersListed(cfg: seq<Line>, head: seq<Line>, s: seq<Cluster>, tail: seq<Line>,
          links: seq<ResolvedLink>)
    requires MadeOf(cfg, head, s, tail) && |s| == |links| && ClustersFor(links, s)
    requires forall i, j | 0 <= i < j < |s| :: StrLeq(s[i].name, s[j].name) && s[i].name != s[j].name
    ensures ListsClusters(cfg, links)
  {
    forall l | l in links ensures exists k :: WrittenAt(cfg, k, l) {
      assert ClusterOf(l) in s;
      var i :| 0 <= i < |s| && s[i] == ClusterOf(l);
      ClusterWritten(cfg, head, s, tail, i, l);
    }
    forall k | HeadingAt(cfg, k) ensures exists l :: l in links && WrittenAt(cfg, k, l) {
      var i := HeadingOf(cfg, head, s, tail, k);
      var l := LinkOf(links, s, i);
      ClusterWritten(cfg, head, s, tail, i, l);
    }
    forall i, k | HeadingAt(cfg, i) && HeadingAt(cfg, k) && i < k ensures NamesAscend(cfg, i, k) {
      HeadingsAscend(cfg, head, s, tail, i, k);
    }
    if links == [] {
      assert cfg == head + [Raw("backend-clusters = []")] + tail;
    }
  }

  lemma {:induction false} LinkOf(links: seq<ResolvedLink>, s: seq<Cluster>, i: nat) returns (l: ResolvedLink)
    requires ClustersFor(links, s) && i < |s|
    ensures l in links && s[i] == ClusterOf(l)
  {
    assert s[i] in s;
    l :| l in links && s[i] == ClusterOf(l);
  }

  lemma {:induction false} HeadingsAscend(cfg: seq<Line>, head: seq<Line>, s: seq<Cluster>, tail: seq<Line>,
          i: nat, k: nat)
    requires MadeOf(cfg, head, s, tail)
    requires forall a, b | 0 <= a < b < |s| :: StrLeq(s[a].name, s[b].name) && s[a].name != s[b].name
    requires i < k < |cfg| && cfg[i] == cfg[k] == CLUSTER
    ensures NamesAscend(cfg, i, k)
  {
    var a := NameAfter(cfg, head, s, tail, i);
    var b := NameAfter(cfg, head, s, tail, k);
    if b < a {
      OffsetsGrow(s, b, a);
    }
  }

  lemma {:induction false} NameAfter(cfg: seq<Line>, head: seq<Line>, s: seq<Cluster>, tail: seq<Line>, k: nat)
    returns (i: nat)
    requires MadeOf(cfg, head, s, tail) && k < |cfg| && cfg[k] == CLUSTER
    ensures i < |s| && k == 3 + Offset(s, i) + 1 && k + 1 < |cfg| && cfg[k + 1] == Quoted("name", s[i].name)
  {
    i := HeadingOf(cfg, head, s, tail, k);
    ClusterLine(cfg, head, s, tail, i, 2);
  }

  // ---------------------------------------------------------------- the whole configuration

  /** The range written: the configured one if it is valid, else from the least to the greatest
      port of the links, else the default port, else 6000. */
  ghost predicate RangeWritten(o: Options, lo: int32, hi: int32) {
    if 0 < o.rangeStart <= o.rangeEnd then lo == o.rangeStart && hi == o.rangeEnd
    else if o.links != [] then
      && (exists l :: l in o.links && l.port == lo) && (exists l :: l in o.links && l.port == hi)
      && (forall l | l in o.links :: lo <= l.port <= hi)
    else lo == hi == if o.defaultListenPort > 0 then o.defaultListenPort else 6000
  }

  lemma {:induction false} RangeIs(o: Options)
    requires forall l | l in o.links :: l.port > 0
    ensures var (lo, hi) := EffectiveRange(o); RangeWritten(o, lo, hi)
  {
    InferredSpec(o.links, |o.links|);
    if o.links != [] {
      assert o.links[0] in o.links;
    }
  }

  lemma {:induction false} LinesMadeOf(o: Options)
    requires Rendered(o).Ok?
    ensures var (lo, hi) := EffectiveRange(o);
      MadeOf(Rendered(o).value, Head(EffectiveHost(o.listenHost), lo, hi), BackendClusters(o.links).value,
             Tail(EffectiveApiPort(o.apiPort)))
  {
  }

  /** Every rendered configuration. */
  lemma {:induction false} LinesRead(o: Options) returns (lo: int32, hi: int32)
    requires Rendered(o).Ok?
    ensures var cfg := Rendered(o).value;
      && StartsWith(cfg, o.listenHost, lo, hi) && RangeWritten(o, lo, hi)
      && ListsClusters(cfg, o.links) && EndsWith(cfg, o.apiPort)
  {
    var cfg := Rendered(o).value;
    RenderSucceedsIff(o);
    ClustersOfLinks(o.links);
    LinesMadeOf(o);
    RangeIs(o);
    lo, hi := EffectiveRange(o).0, EffectiveRange(o).1;
    var head, tail := Head(EffectiveHost(o.listenHost), lo, hi), Tail(EffectiveApiPort(o.apiPort));
    ClustersListed(cfg, head, BackendClusters(o.links).value, tail, o.links);
    assert cfg[..3] == head && cfg[|cfg| - 6..] == tail;
  }

  // ---------------------------------------------------------------- errors

  /** Link `i` is the first that cannot be rendered, and `e` says why. */
  ghost predicate FirstBad(links: seq<ResolvedLink>, i: nat, e: RenderError)
    requires i < |links|
  {
    && RenderableUpTo(links, i)
    && match e
       case InvalidPort(namespace, name, p) =>
         namespace == links[i].namespace && name == links[i].name && p == links[i].port <= 0
       case DuplicateCluster(name) =>
         links[i].port > 0 && CalledAs(links[i], name) && exists j :: 0 <= j < i && CalledAs(links[j], name)
       case EmptyPDAddresses(name) =>
         links[i].port > 0 && CalledAs(links[i], name) && NonBlank(links[i].pdAddresses) == []
       case _ => false
  }

  lemma {:induction false} ClustersFailure(links: seq<ResolvedLink>, n: nat)
    requires n <= |links| && Clusters(links, n).Err?
    ensures exists i :: 0 <= i < n && FirstBad(links, i, Clusters(links, n).error)
  {
    ClustersSucceedIff(links, n - 1);
    if Clusters(links, n - 1).Err? {
      ClustersFailure(links, n - 1);
    } else {
      var l := links[n - 1];
      AddressesAre(l.pdAddresses, |l.pdAddresses|);
      assert l.pdAddresses[..|l.pdAddresses|] == l.pdAddresses;
      NameTaken(links, n - 1, ClusterName(l));
      assert FirstBad(links, n - 1, Clusters(links, n).error);
    }
  }

  /** A negative API port is the first thing to be reported, then the first link that cannot be
      rendered. */
  lemma {:induction false} RenderFailure(o: Options)
    requires Rendered(o).Err?
    ensures o.apiPort < 0 ==> Rendered(o).error == InvalidApiPort(o.apiPort)
    ensures o.apiPort >= 0 ==> exists i :: 0 <= i < |o.links| && FirstBad(o.links, i, Rendered(o).error)
  {
    if o.apiPort >= 0 {
      ClustersFailure(o.links, |o.links|);
    }
  }
}
