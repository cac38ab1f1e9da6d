/** The agent on one machine (internal/agent/agent.go, syncOnce): it renders the configuration,
    writes the file, starts the container or pushes to it, and remembers in `lastConfigHash`
    what it believes the container runs. */
module Agent {
  import opened Prelude
  import Render

  type Config = seq<Render.Line>

  datatype Phase = Failed | Starting | Running

  /** What the agent last reported about this machine. */
  datatype Report = Report(phase: Phase, hash: string)

  /** The file, the configuration the container runs (None when it is down), the agent's memory
      and its last report. */
  datatype State = State(lastHash: string, file: Option<Config>, running: Option<Config>, report: Option<Report>)

  /** A failed write leaves some file behind. */
  datatype WriteResult = Written | Torn(left: Option<Config>)

  /** A push can also be applied although the agent sees it fail. */
  datatype PushResult = Pushed | Refused | Unnoticed

  /** What one sync meets: the group it reads (None when that fails) and how its steps end. */
  datatype Sync = Sync(
    group: Option<Render.Options>, write: WriteResult, inspected: bool, started: bool, push: PushResult, reported: bool)

  datatype Event =
    | SyncOnce(x: Sync)
    | AgentRestarts
    | ContainerStops
    | ContainerRestarts

  /** Distinct configurations have distinct hashes, none of them empty. */
  ghost predicate CollisionFree(hash: Config -> string) {
    && (forall c :: hash(c) != "")
    && (forall c, d | hash(c) == hash(d) :: c == d)
  }

  // ---------------------------------------------------------------- one sync

  function Reported(st: State, x: Sync, phase: Phase, hash: string): State {
    if x.reported then st.(report := Some(Report(phase, hash))) else st
  }

  /** Writing is skipped when the file holds the content already. */
  ghost predicate Writes(st: State, x: Sync, cfg: Config) {
    st.file == Some(cfg) || x.write.Written?
  }

  ghost function FileAfter(st: State, x: Sync, cfg: Config): State {
    st.(file := if Writes(st, x, cfg) then Some(cfg) else x.write.left)
  }

  /** Starting the container or pushing to it, once the file holds `cfg`. */
  ghost predicate Applies(hash: Config -> string, st: State, x: Sync, cfg: Config) {
    if st.running.None? then x.started else hash(cfg) == st.lastHash || x.push.Pushed?
  }

  ghost function Applied(hash: Config -> string, st: State, x: Sync, cfg: Config): State {
    if st.running.None? then (if x.started then st.(running := st.file) else st)
    else if hash(cfg) == st.lastHash || x.push.Refused? then st
    else st.(running := Some(cfg))
  }

  /** The state after a sync that renders `cfg`, and whether it succeeded. */
  ghost function SyncedWith(hash: Config -> string, st: State, x: Sync, cfg: Config): (State, bool) {
    var written := FileAfter(st, x, cfg);
    if !Writes(st, x, cfg) || !x.inspected then (Reported(written, x, Failed, hash(cfg)), false)
    else
      var applied := Applied(hash, written, x, cfg);
      if !Applies(hash, written, x, cfg) then (Reported(applied, x, Failed, hash(cfg)), false)
      else
        var phase := if st.running.None? then Starting else Running;
        (Reported(applied.(lastHash := hash(cfg)), x, phase, hash(cfg)), x.reported)
  }

  ghost function Synced(hash: Config -> string, st: State, x: Sync): (State, bool) {
    if x.group.None? then (st, false)
    else
      match Render.Rendered(x.group.value)
      case Err(_) => (Reported(st, x, Failed, ""), false)
      case Ok(cfg) => SyncedWith(hash, st, x, cfg)
  }

  ghost function Step(hash: Config -> string, st: State, e: Event): State {
    match e
    case SyncOnce(x) => Synced(hash, st, x).0
    case AgentRestarts => st.(lastHash := "")
    case ContainerStops => st.(running := None)
    case ContainerRestarts => st.(running := st.file)
  }

  class Machine {
    const hash: Config -> string
    var lastConfigHash: string
    var file: Option<Config>
    var running: Option<Config>
    var report: Option<Report>

    constructor (hash: Config -> string, st: State)
      ensures this.hash == hash && Current() == st
    {
      this.hash := hash;
      lastConfigHash, file, running, report := st.lastHash, st.file, st.running, st.report;
    }

    ghost function Current(): State
      reads this
    {
      State(lastConfigHash, file, running, report)
    }

    method UpsertMachineStatus(x: Sync, phase: Phase, h: string) returns (ok: bool)
      modifies this`report
      ensures ok == x.reported && Current() == Reported(old(Current()), x, phase, h)
    {
      ok := x.reported;
      if ok {
        report := Some(Report(phase, h));
      }
    }

    method WriteConfigFile(x: Sync, content: Config) returns (ok: bool)
      modifies this`file
      ensures ok == Writes(old(Current()), x, content)
      ensures Current() == FileAfter(old(Current()), x, content)
    {
      if file == Some(content) {
        return true;
      }
      ok := x.write.Written?;
      file := if ok then Some(content) else x.write.left;
    }

    method PushConfig(x: Sync, cfg: Config) returns (ok: bool)
      requires running.Some?
      modifies this`running
      ensures ok == x.push.Pushed? && running == if x.push.Refused? then old(running) else Some(cfg)
    {
      ok := x.push.Pushed?;
      if !x.push.Refused? {
        running := Some(cfg);
      }
    }

    /** syncOnce. */
    method SyncOnce(x: Sync) returns (ok: bool)
      modifies this
      ensures (Current(), ok) == Synced(hash, old(Current()), x)
      ensures ok && CollisionFree(hash) && Coherent(hash, old(Current())) ==>
        && x.group.Some? && Render.Rendered(x.group.value).Ok?
        && Converged(hash, Current(), Render.Rendered(x.group.value).value)
    {
      if x.group.None? {
        return false;
      }
      var rendered := Render.BuildTiProxyConfig(x.group.value);
      if rendered.Err? {
        var _ := UpsertMachineStatus(x, Failed, "");
        return false;
      }
      ok := Bring(x, rendered.value);
    }

    /** The part of syncOnce after rendering. */
    method Bring(x: Sync, cfg: Config) returns (ok: bool)
      modifies this
      ensures (Current(), ok) == SyncedWith(hash, old(Current()), x, cfg)
    {
      var cfgHash := hash(cfg);
      ok := WriteConfigFile(x, cfg);
      if !ok || !x.inspected {
        var _ := UpsertMachineStatus(x, Failed, cfgHash);
        return false;
      }
      var justStarted := false;
      if running.None? {
        if !x.started {
          var _ := UpsertMachineStatus(x, Failed, cfgHash);
          return false;
        }
        running := file;
        justStarted := true;
      }
      if !justStarted && cfgHash != lastConfigHash {
        ok := PushConfig(x, cfg);
        if !ok {
          var _ := UpsertMachineStatus(x, Failed, cfgHash);
          return;
        }
      }
      lastConfigHash := cfgHash;
      ok := UpsertMachineStatus(x, if justStarted then Starting else Running, cfgHash);
    }
  }

  // ---------------------------------------------------------------- what a sync reports and touches

  /** When a sync succeeds: the group can be read and rendered, the file holds the configuration or
      can be written, the container is found out about and can be started, or can be pushed to
      unless the agent takes it to run the configuration already, and the report gets through. */
  lemma {:induction false} SyncSucceedsIff(hash: Config -> string, st: State, x: Sync)
    ensures Synced(hash, st, x).1
      <==> && x.group.Some? && Render.Rendered(x.group.value).Ok?
           && var cfg := Render.Rendered(x.group.value).value;
              && (st.file == Some(cfg) || x.write == Written) && x.inspected
              && (st.running.None? ==> x.started)
              && (st.running.Some? && st.lastHash != hash(cfg) ==> x.push == Pushed)
              && x.reported
  {
  }

  /** What is reported tells whether the sync succeeded, and a failure is never reported as anything
      else: Failed with an empty hash when there is no configuration, else with the hash of what was
      to be applied. On success the phase says whether the container was down before. */
  lemma {:induction false} ReportTells(hash: Config -> string, st: State, x: Sync)
    ensures var (after, ok) := Synced(hash, st, x);
      && (x.group.None? || !x.reported ==> !ok && after.report == st.report)
      && (x.group.Some? && x.reported ==> after.report.Some? && (ok <==> after.report.value.phase != Failed))
      && (ok ==> after.report.value.phase == if st.running.None? then Starting else Running)
      && (x.group.Some? && x.reported && Render.Rendered(x.group.value).Err? ==>
            after.report == Some(Report(Failed, "")))
      && (x.group.Some? && x.reported && Render.Rendered(x.group.value).Ok? ==>
            after.report.value.hash == hash(Render.Rendered(x.group.value).value))
  {
  }

  /** Whatever fails, file, container and memory only ever move to the rendered configuration: the
      container not before the file holds it, and the memory not before the container runs it or
      is taken to. A torn write leaves the container and the memory alone. */
  lemma {:induction false} SyncTouches(hash: Config -> string, st: State, x: Sync)
    ensures var after := Synced(hash, st, x).0;
      if x.group.None? || Render.Rendered(x.group.value).Err? then after == st.(report := after.report)
      else
        var cfg := Render.Rendered(x.group.value).value;
        && (x.write == Written || st.file == Some(cfg) ==> after.file == Some(cfg))
        && (after.file == Some(cfg) || after.file == x.write.left)
        && (after.running != st.running ==> after.running == Some(cfg) == after.file)
        && (after.lastHash != st.lastHash ==> after.lastHash == hash(cfg) && after.running == Some(cfg))
        && (after.file != Some(cfg) ==> after.running == st.running && after.lastHash == st.lastHash)
        && (st.running.Some? && x.push == Refused ==> after.running == st.running)
  {
  }

  // ---------------------------------------------------------------- convergence

  /** The agent's memory is right, or it remembers nothing. */
  ghost predicate Coherent(hash: Config -> string, st: State) {
    st.lastHash == "" || st.running.None? || st.lastHash == hash(st.running.value)
  }

  /** File, container, memory and report all stand for `cfg`. */
  ghost predicate Converged(hash: Config -> string, st: State, cfg: Config) {
    && st.file == Some(cfg) && st.running == Some(cfg) && st.lastHash == hash(cfg)
    && st.report.Some? && st.report.value.hash == hash(cfg) && !st.report.value.phase.Failed?
  }

  /** What the agent cannot notice does not happen: no push is applied behind a failure, and the
      container restarts by itself only on a file the agent knows to be running. */
  ghost predicate Harmless(hash: Config -> string, st: State, e: Event) {
    match e
    case SyncOnce(x) => !x.push.Unnoticed?
    case ContainerRestarts => st.lastHash == "" || (st.file.Some? && st.lastHash == hash(st.file.value))
    case _ => true
  }

  lemma {:induction false} StepCoherent(hash: Config -> string, st: State, e: Event)
    requires Coherent(hash, st) && Harmless(hash, st, e)
    ensures Coherent(hash, Step(hash, st, e))
  {
  }

  /** What a successful sync leaves, from any state: the container ends up with the rendered
      configuration unless it was running another one that the agent took for this one. */
  lemma {:induction false} SyncLeaves(hash: Config -> string, st: State, x: Sync)
    requires Synced(hash, st, x).1
    ensures x.group.Some? && Render.Rendered(x.group.value).Ok?
    ensures var cfg := Render.Rendered(x.group.value).value;
      Converged(hash, Synced(hash, st, x).0, cfg)
      <==> !(st.running.Some? && st.running.value != cfg && st.lastHash == hash(cfg))
  {
  }

  /** The states of a run. */
  ghost function Run(hash: Config -> string, st: State, es: seq<Event>, n: nat): State
    requires n <= |es|
  {
    if n == 0 then st else Step(hash, Run(hash, st, es, n - 1), es[n - 1])
  }

  ghost predicate HarmlessRun(hash: Config -> string, st: State, es: seq<Event>, n: nat)
    requires n <= |es|
  {
    forall i | 0 <= i < n :: Harmless(hash, Run(hash, st, es, i), es[i])
  }

  lemma {:induction false} RunCoherent(hash: Config -> string, st: State, es: seq<Event>, n: nat)
    requires n <= |es| && Coherent(hash, st) && HarmlessRun(hash, st, es, n)
    ensures Coherent(hash, Run(hash, st, es, n))
  {
    if n > 0 {
      RunCoherent(hash, st, es, n - 1);
      assert Harmless(hash, Run(hash, st, es, n - 1), es[n - 1]);
      StepCoherent(hash, Run(hash, st, es, n - 1), es[n - 1]);
    }
  }

  /** Convergence. Whatever failures, agent restarts and container stops came before, a
      successful sync leaves file, container, memory and report equal to what it rendered. */
  lemma {:induction false} SyncConverges(hash: Config -> string, st: State, es: seq<Event>, n: nat)
    requires CollisionFree(hash) && n < |es| && Coherent(hash, st) && HarmlessRun(hash, st, es, n)
    requires es[n].SyncOnce? && Synced(hash, Run(hash, st, es, n), es[n].x).1
    ensures es[n].x.group.Some? && Render.Rendered(es[n].x.group.value).Ok?
    ensures Converged(hash, Run(hash, st, es, n + 1), Render.Rendered(es[n].x.group.value).value)
  {
    RunCoherent(hash, st, es, n);
    SyncLeaves(hash, Run(hash, st, es, n), es[n].x);
  }

  // ---------------------------------------------------------------- what the agent cannot notice

  ghost function Good(o: Render.Options): Sync {
    Sync(Some(o), Written, true, true, Pushed, true)
  }

  /** Without those assumptions the agent can be fooled: the group changes from `a` to `b` and
      back while the push of `b` fails. If the push was applied all the same, or the container
      restarted meanwhile on the file with `b`, the last sync succeeds, reports the hash of `a`,
      and the container runs `b`. */
  lemma {:induction false} AgentFooled(hash: Config -> string, a: Render.Options, b: Render.Options, c: Config,
          d: Config, st: State, fooling: Event)
    requires CollisionFree(hash) && c != d
    requires Render.Rendered(a) == Ok(c) && Render.Rendered(b) == Ok(d)
    requires Converged(hash, st, c)
    requires fooling == ContainerRestarts || fooling == SyncOnce(Good(b).(push := Unnoticed))
    ensures var es := [SyncOnce(Good(b).(push := Refused)), fooling, SyncOnce(Good(a))];
      && !Harmless(hash, Run(hash, st, es, 1), fooling)
      && Synced(hash, Run(hash, st, es, 2), Good(a)).1
      && Run(hash, st, es, 3).running == Some(d)
      && Run(hash, st, es, 3).report == Some(Report(Running, hash(c)))
  {
    var es := [SyncOnce(Good(b).(push := Refused)), fooling, SyncOnce(Good(a))];
    var s1 := Run(hash, st, es, 1);
    assert Run(hash, st, es, 0) == st;
    PushFails(hash, st, Good(b).(push := Refused), d);
    var s2 := Run(hash, st, es, 2);
    if fooling != ContainerRestarts {
      PushFails(hash, s1, Good(b).(push := Unnoticed), d);
    }
    Fooled(hash, s2, Good(a), c, d);
  }

  lemma {:induction false} PushFails(hash: Config -> string, st: State, x: Sync, d: Config)
    requires CollisionFree(hash) && st.running.Some? && st.lastHash != hash(d)
    requires x.write.Written? && x.inspected && !x.push.Pushed?
    ensures var after := SyncedWith(hash, st, x, d).0;
      && after.file == Some(d) && after.lastHash == st.lastHash
      && after.running == if x.push.Refused? then st.running else Some(d)
  {
  }

  lemma {:induction false} Fooled(hash: Config -> string, st: State, x: Sync, c: Config, d: Config)
    requires st.running == Some(d) && st.lastHash == hash(c) && x.write.Written? && x.inspected && x.reported
    ensures var (after, ok) := SyncedWith(hash, st, x, c);
      ok && after.running == Some(d) && after.report == Some(Report(Running, hash(c)))
  {
  }
}
