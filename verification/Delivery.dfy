/** From the specification to the container: what a reconcile writes, and what the machine runs
    once its agent has synced. */
module Delivery {
  import opened Prelude
  import opened Api
  import Agent
  import Controller
  import LinkMatching
  import Render
  import RenderedLines

  /** The group's status still is what reconcile `i` wrote when it is read before reconcile `m`. */
  ghost predicate StillStored(st: Controller.Status, xs: seq<Controller.Input>, i: nat, m: nat)
    requires i < m <= |xs|
  {
    Controller.Writes(Controller.Run(st, xs, i), xs[i]) && Controller.NothingWritten(st, xs, i + 1, m)
  }

  /** The lines of `cfg` open the ports `start` to `end`, which are those of the links, list the
      clusters of exactly these links by name, route by port and serve the API. */
  ghost predicate Serves(cfg: Agent.Config, links: seq<ResolvedLink>, start: int32, end: int32, apiPort: int32) {
    && RenderedLines.StartsWith(cfg, "0.0.0.0", start, end) && RenderedLines.EndsWith(cfg, apiPort)
    && RenderedLines.ListsClusters(cfg, links)
    && (forall l | l in links :: start <= l.port <= end)
  }

  /** The entries can be rendered. */
  ghost predicate Deliverable(links: seq<ResolvedLink>, apiPort: int32) {
    apiPort >= 0 && Render.DistinctNames(links) && forall l | l in links :: Controller.HasAddress(l)
  }

  lemma {:induction false} RenderedServes(o: Render.Options)
    requires Render.Rendered(o).Ok? && o.listenHost == "0.0.0.0" && ValidRange(o.rangeStart, o.rangeEnd)
    requires forall l | l in o.links :: o.rangeStart <= l.port <= o.rangeEnd
    ensures Serves(Render.Rendered(o).value, o.links, o.rangeStart, o.rangeEnd, o.apiPort)
  {
    var lo, hi := RenderedLines.LinesRead(o);
  }

  lemma {:induction false} RenderedAfterWrite(st: Controller.Status, x: Controller.Input, apiPort: int32)
    requires Controller.Writes(st, x)
    requires LinkMatching.DistinctLinks(x.links) && LinkMatching.DistinctMachinePorts(x.machinePorts)
    ensures var resolved := Controller.Step(st, x).resolvedLinks;
      var r := Render.Rendered(Controller.AgentOptions(Controller.Step(st, x), x, apiPort));
      && (r.Ok? <==> Deliverable(resolved, apiPort))
      && (r.Ok? ==> Serves(r.value, resolved, x.start, x.end, apiPort))
  {
    Controller.EndToEnd(st, x, apiPort);
    var o := Controller.AgentOptions(Controller.Step(st, x), x, apiPort);
    if Render.Rendered(o).Ok? {
      RenderedServes(o);
    }
  }

  lemma {:induction false} SameOptions(st: Controller.Status, xs: seq<Controller.Input>, i: nat, m: nat, apiPort: int32)
    requires i < m <= |xs| && StillStored(st, xs, i, m)
    ensures Controller.AgentOptions(Controller.Run(st, xs, m), xs[i], apiPort)
      == Controller.AgentOptions(Controller.Run(st, xs, i + 1), xs[i], apiPort)
  {
    Controller.UnchangedByFailures(st, xs, i + 1, m);
  }

  /** What the agent renders from the status that reconcile `i` wrote. */
  lemma {:induction false} RenderedFromStored(st: Controller.Status, xs: seq<Controller.Input>, i: nat, m: nat,
          apiPort: int32)
    requires i < m <= |xs| && StillStored(st, xs, i, m)
    requires LinkMatching.DistinctLinks(xs[i].links) && LinkMatching.DistinctMachinePorts(xs[i].machinePorts)
    ensures var resolved := Controller.Run(st, xs, i + 1).resolvedLinks;
      var r := Render.Rendered(Controller.AgentOptions(Controller.Run(st, xs, m), xs[i], apiPort));
      && (r.Ok? <==> Deliverable(resolved, apiPort))
      && (r.Ok? ==> Serves(r.value, resolved, xs[i].start, xs[i].end, apiPort))
  {
    SameOptions(st, xs, i, m, apiPort);
    RenderedAfterWrite(Controller.Run(st, xs, i), xs[i], apiPort);
  }

  /** Delivery. Reconcile `i` goes through and none after it does before `m`. Whatever failures,
      agent restarts and container stops a machine has seen, once its agent reads that status and
      its sync succeeds, the container runs a configuration with the group's port range and one
      cluster for each of the links that reconcile resolved, as many as there are links or usable
      ports, and that is the configuration the agent reports. */
  lemma {:induction false} Delivered(st: Controller.Status, xs: seq<Controller.Input>, i: nat, m: nat, apiPort: int32,
          hash: Agent.Config -> string, machine: Agent.State, es: seq<Agent.Event>, n: nat)
    requires i < m <= |xs| && StillStored(st, xs, i, m)
    requires LinkMatching.DistinctLinks(xs[i].links) && LinkMatching.DistinctMachinePorts(xs[i].machinePorts)
    requires Agent.CollisionFree(hash) && Agent.Coherent(hash, machine)
    requires n < |es| && Agent.HarmlessRun(hash, machine, es, n) && es[n].SyncOnce?
    requires es[n].x.group == Some(Controller.AgentOptions(Controller.Run(st, xs, m), xs[i], apiPort))
    requires Agent.Synced(hash, Agent.Run(hash, machine, es, n), es[n].x).1
    ensures var resolved := Controller.Run(st, xs, i + 1).resolvedLinks;
      var (links, usable) := (|xs[i].links|, Controller.UsablePorts(xs[i]));
      var after := Agent.Run(hash, machine, es, n + 1);
      && |resolved| == (if links <= usable then links else usable)
      && after.running.Some? && Serves(after.running.value, resolved, xs[i].start, xs[i].end, apiPort)
      && after.report.Some? && after.report.value.hash == hash(after.running.value)
  {
    Controller.ResolvedAfterWrite(Controller.Run(st, xs, i), xs[i]);
    RenderedFromStored(st, xs, i, m, apiPort);
    Agent.SyncConverges(hash, machine, es, n);
  }

  lemma {:induction false} GoodSyncSucceedsIff(hash: Agent.Config -> string, machine: Agent.State, o: Render.Options)
    ensures Agent.Synced(hash, machine, Agent.Good(o)).1 <==> Render.Rendered(o).Ok?
  {
  }

  /** A sync with that status in which no step fails succeeds exactly when the entries can be
      rendered. */
  lemma {:induction false} DeliveredIff(st: Controller.Status, xs: seq<Controller.Input>, i: nat, m: nat,
          apiPort: int32, hash: Agent.Config -> string, machine: Agent.State)
    requires i < m <= |xs| && StillStored(st, xs, i, m)
    requires LinkMatching.DistinctLinks(xs[i].links) && LinkMatching.DistinctMachinePorts(xs[i].machinePorts)
    ensures var x := Agent.Good(Controller.AgentOptions(Controller.Run(st, xs, m), xs[i], apiPort));
      Agent.Synced(hash, machine, x).1 <==> Deliverable(Controller.Run(st, xs, i + 1).resolvedLinks, apiPort)
  {
    var o := Controller.AgentOptions(Controller.Run(st, xs, m), xs[i], apiPort);
    GoodSyncSucceedsIff(hash, machine, o);
    RenderedFromStored(st, xs, i, m, apiPort);
  }
}
