/** The controller reads the group through a cache, so the allocation it starts from may be an old
    one. What its merge patch makes of the stored allocation then
    (internal/controller/machinegroup_controller.go, Reconcile). */
module StaleCache {
  import opened Prelude
  import opened Api
  import opened MergePatch
  import PortAllocator
  import AllocatorProperties
  import Controller

  type Ports = PortAllocator.Ports

  const ALLOCATED := "allocatedPorts"

  function PortsJson(ports: Ports): Json {
    Obj(map u | u in ports :: Atom(Itoa(ports[u])))
  }

  /** A status with these allocated ports, as the controller encodes it: an empty map is omitted. */
  function WithPorts(status: Fields, ports: Ports): Fields {
    if ports == map[] then status - {ALLOCATED} else status[ALLOCATED := PortsJson(ports)]
  }

  /** What a reader finds in a stored status. */
  ghost predicate Holds(status: Fields, ports: Ports) {
    if ALLOCATED in status then status[ALLOCATED] == PortsJson(ports) else ports == map[]
  }

  /** The stored status after the patch of a controller that has seen the ports `seen` in its copy
      and computed `ports`. */
  function AfterPatch(stored: Fields, copy: Fields, seen: Ports, modified: Fields, ports: Ports): Fields {
    PatchedFields(stored, Diff(WithPorts(copy, seen), WithPorts(modified, ports)))
  }

  // ---------------------------------------------------------------- what the patch does

  /** The patch sends a port for `u`. */
  predicate Sent(seen: Ports, ports: Ports, u: string) {
    u in ports && !(u in seen && seen[u] == ports[u])
  }

  /** The patch removes `u`. */
  predicate Removed(seen: Ports, ports: Ports, u: string) {
    u in seen && u !in ports
  }

  /** The stored ports after the patch. */
  function Merged(stored: Ports, seen: Ports, ports: Ports): Ports {
    if ports == map[] && seen != map[] then map[]
    else
      map u | u in stored.Keys + ports.Keys && !Removed(seen, ports, u) && (u in stored || Sent(seen, ports, u)) ::
        if Sent(seen, ports, u) then ports[u] else stored[u]
  }

  /** The fields of a merged object and of the ports they stand for, at one UID. */
  ghost predicate Reads(f: Fields, ports: Ports, u: string) {
    (u in f <==> u in ports) && (u in ports ==> f[u] == Atom(Itoa(ports[u])))
  }

  lemma {:induction false} ReadsEverywhere(f: Fields, ports: Ports)
    requires forall u :: Reads(f, ports, u)
    ensures Obj(f) == PortsJson(ports)
  {
    forall u ensures SameAt(f, PortsJson(ports).fields, u) {
      assert Reads(f, ports, u);
    }
    SameEverywhere(f, PortsJson(ports).fields);
  }

  /** Both the copy and the new status have ports: the patch goes UID by UID. */
  lemma {:induction false} NestedReads(stored: Ports, seen: Ports, ports: Ports, u: string)
    requires ports != map[]
    ensures var x, y := PortsJson(seen).fields, PortsJson(ports).fields;
      Reads(PatchedFields(PortsJson(stored).fields, Diff(x, y)), Merged(stored, seen, ports), u)
  {
    var x, y := PortsJson(seen).fields, PortsJson(ports).fields;
    DiffAt(x, y, u);
    ChangedIff(x, y, u);
    PatchedKey(PortsJson(stored).fields, Diff(x, y), u);
    if u in seen && u in ports {
      ItoaDistinct(seen[u], ports[u]);
    }
  }

  lemma {:induction false} NestedMerge(stored: Ports, seen: Ports, ports: Ports)
    requires ports != map[]
    ensures var x, y := PortsJson(seen).fields, PortsJson(ports).fields;
      Obj(PatchedFields(PortsJson(stored).fields, Diff(x, y))) == PortsJson(Merged(stored, seen, ports))
  {
    var x, y := PortsJson(seen).fields, PortsJson(ports).fields;
    var f, merged := PatchedFields(PortsJson(stored).fields, Diff(x, y)), Merged(stored, seen, ports);
    forall u ensures Reads(f, merged, u) {
      NestedReads(stored, seen, ports, u);
    }
    ReadsEverywhere(f, merged);
  }

  /** A patch that starts from no ports sends all of them. */
  lemma {:induction false} DiffFromNone(ports: Ports)
    ensures Diff(map[], PortsJson(ports).fields) == PortsJson(ports).fields
  {
    var y := PortsJson(ports).fields;
    forall u ensures SameAt(Diff(map[], y), y, u) {
      DiffAt(map[], y, u);
    }
    SameEverywhere(Diff(map[], y), y);
  }

  lemma {:induction false} PortsJsonInjective(a: Ports, b: Ports)
    requires PortsJson(a) == PortsJson(b)
    ensures a == b
  {
    assert PortsJson(a).fields.Keys == a.Keys && PortsJson(b).fields.Keys == b.Keys;
    forall u | u in a ensures a[u] == b[u] {
      assert PortsJson(a).fields[u] == PortsJson(b).fields[u];
      ItoaDistinct(a[u], b[u]);
    }
  }

  /** What the store holds after the patch, whatever else the patch changes. */
  lemma {:induction false} MergeSpec(status: Fields, stored: Ports, copy: Fields, seen: Ports, modified: Fields,
          ports: Ports)
    requires Holds(status, stored)
    ensures Holds(AfterPatch(status, copy, seen, modified, ports), Merged(stored, seen, ports))
  {
    var a, b := WithPorts(copy, seen), WithPorts(modified, ports);
    DiffAt(a, b, ALLOCATED);
    ChangedIff(a, b, ALLOCATED);
    PatchedKey(status, Diff(a, b), ALLOCATED);
    if seen == ports {
      Unchanged(stored, seen);
    } else if ports != map[] {
      if PortsJson(seen) == PortsJson(ports) {
        PortsJsonInjective(seen, ports);
      }
      NestedMerge(stored, seen, ports);
      DiffFromNone(ports);
      EmptyTarget();
    }
  }

  lemma {:induction false} Unchanged(stored: Ports, seen: Ports)
    ensures seen != map[] ==> Merged(stored, seen, seen) == stored
    ensures Merged(stored, map[], map[]) == stored
  {
  }

  lemma {:induction false} EmptyTarget()
    ensures PortsJson(map[]).fields == map[]
  {
  }

  // ---------------------------------------------------------------- when it is what was computed

  ghost predicate AgreeAt(a: Ports, b: Ports, u: string) {
    (u in a <==> u in b) && (u in a ==> a[u] == b[u])
  }

  /** The store holds what the controller computed exactly when it agrees with it on every UID for
      which the patch says nothing, or the patch drops the whole map. */
  lemma {:induction false} StoredAsComputedIff(stored: Ports, seen: Ports, ports: Ports)
    ensures Merged(stored, seen, ports) == ports
      <==> (ports == map[] && seen != map[]) || forall u | AgreeAt(seen, ports, u) :: AgreeAt(stored, ports, u)
  {
    if !(ports == map[] && seen != map[]) {
      var merged := Merged(stored, seen, ports);
      forall u ensures AgreeAt(merged, ports, u) <==> !AgreeAt(seen, ports, u) || AgreeAt(stored, ports, u) {
        assert AgreeAt(seen, ports, u) <==> !Sent(seen, ports, u) && !Removed(seen, ports, u);
      }
      if forall u | AgreeAt(seen, ports, u) :: AgreeAt(stored, ports, u) {
        forall u ensures AgreeAt(merged, ports, u) {
        }
        SamePorts(merged, ports);
      } else {
        var u :| AgreeAt(seen, ports, u) && !AgreeAt(stored, ports, u);
        assert !AgreeAt(merged, ports, u);
      }
    }
  }

  lemma {:induction false} SamePorts(a: Ports, b: Ports)
    requires forall u :: AgreeAt(a, b, u)
    ensures a == b
  {
    forall u ensures u in a <==> u in b
      ensures u in a ==> a[u] == b[u]
    {
      assert AgreeAt(a, b, u);
    }
  }

  /** It does when the copy was not an old one, as far as the ports go. */
  lemma {:induction false} FreshCopy(stored: Ports, ports: Ports)
    ensures Merged(stored, stored, ports) == ports
  {
    StoredAsComputedIff(stored, stored, ports);
  }

  /** The patch leaves `u` its stored port. */
  predicate LeftAlone(stored: Ports, seen: Ports, ports: Ports, u: string) {
    u in stored && !Sent(seen, ports, u) && !Removed(seen, ports, u)
  }

  /** Exactly when two machine ports end up with one port: a port that is sent to one UID is stored
      for another one that the patch leaves alone. */
  lemma {:induction false} SharedIff(stored: Ports, seen: Ports, ports: Ports)
    requires PortAllocator.Injective(stored) && PortAllocator.Injective(ports) && ports != map[]
    ensures PortAllocator.Injective(Merged(stored, seen, ports))
      <==> forall u, v | LeftAlone(stored, seen, ports, u) && Sent(seen, ports, v) :: stored[u] != ports[v]
  {
    var merged := Merged(stored, seen, ports);
    assert forall u | LeftAlone(stored, seen, ports, u) :: u in merged && merged[u] == stored[u];
    assert forall v | Sent(seen, ports, v) :: v in merged && merged[v] == ports[v];
    assert forall u | u in merged :: LeftAlone(stored, seen, ports, u) || Sent(seen, ports, u);
  }

  // ---------------------------------------------------------------- runs with a cache

  /** A reconcile and the version of the stored ports its copy shows. */
  datatype Read = Read(x: Controller.Input, version: nat)

  ghost function StatusOf(ports: Ports): Controller.Status {
    Controller.Status(ports, [], Controller.Unset)
  }

  ghost predicate Writes(seen: Ports, x: Controller.Input) {
    Controller.Writes(StatusOf(seen), x)
  }

  /** The stored ports after a reconcile that has seen `seen`. */
  ghost function Stored(stored: Ports, seen: Ports, x: Controller.Input): Ports {
    if Writes(seen, x) then Merged(stored, seen, Controller.Step(StatusOf(seen), x).allocatedPorts) else stored
  }

  ghost predicate Earlier(rs: seq<Read>) {
    forall i | 0 <= i < |rs| :: rs[i].version <= i
  }

  /** The stored ports before reconcile `n`. */
  ghost function Version(start: Ports, rs: seq<Read>, n: nat): Ports
    requires n <= |rs| && Earlier(rs)
  {
    if n == 0 then start
    else Stored(Version(start, rs, n - 1), Version(start, rs, rs[n - 1].version), rs[n - 1].x)
  }

  /** Reconcile `i` goes through only with a copy that shows the stored ports. */
  ghost predicate FreshAt(start: Ports, rs: seq<Read>, i: nat)
    requires i < |rs| && Earlier(rs)
  {
    var seen := Version(start, rs, rs[i].version);
    Writes(seen, rs[i].x) ==> seen == Version(start, rs, i)
  }

  /** A reconcile with a fresh copy leaves no shared port, whatever was stored. */
  lemma {:induction false} FreshWrite(stored: Ports, x: Controller.Input)
    requires Writes(stored, x)
    ensures PortAllocator.Injective(Stored(stored, stored, x))
    ensures Stored(stored, stored, x) == Controller.Step(StatusOf(stored), x).allocatedPorts
  {
    Controller.AllocationChangesOnlyByWrites(StatusOf(stored), x);
    AllocatorProperties.AllocationSound(stored, Controller.Requests(x.machinePorts), x.start, x.end);
    FreshCopy(stored, Controller.Step(StatusOf(stored), x).allocatedPorts);
  }

  /** Old copies do no harm to runs in which no reconcile goes through with one. */
  lemma {:induction false} NeverSharedThroughCache(start: Ports, rs: seq<Read>, n: nat)
    requires n <= |rs| && Earlier(rs) && PortAllocator.Injective(start)
    requires forall i | 0 <= i < n :: FreshAt(start, rs, i)
    ensures PortAllocator.Injective(Version(start, rs, n))
  {
    if n > 0 {
      NeverSharedThroughCache(start, rs, n - 1);
      assert FreshAt(start, rs, n - 1);
      var stored := Version(start, rs, n - 1);
      if Writes(stored, rs[n - 1].x) {
        FreshWrite(stored, rs[n - 1].x);
      }
    }
  }

  // ---------------------------------------------------------------- a shared port

  function Port(uid: string, pin: Option<int32>): MachinePort {
    MachinePort(uid, "n", uid, pin, "")
  }

  /** A group with two ports, `start` and the next one. */
  ghost function Group(start: int32, machinePorts: seq<MachinePort>): Controller.Input
    requires start < MAX_INT32
  {
    Controller.Input(true, start, start + 1, None, true, [], true, machinePorts, true, true, true, true)
  }

  /** A request for both ports, or one that pins one of them, is granted. */
  lemma {:induction false} GroupAllocates(seen: Ports, start: int32, rs: seq<PortAllocator.Request>)
    requires 0 < start < MAX_INT32
    requires |rs| == 1 || (|rs| == 2 && rs[0].pin.None? && rs[1].pin.None?)
    requires PortAllocator.DistinctUids(rs)
    requires |rs| == 1 && rs[0].pin.Some? ==> start <= rs[0].pin.value <= start + 1
    ensures PortAllocator.Allocate(seen, rs, start, start + 1).Ok?
  {
    Controller.FewUids(rs);
    AllocatorProperties.DedupeOfDistinct(rs, |rs|);
    PinsFit(AllocatorProperties.Deduped(rs), start);
    AllocatorProperties.ExactSuccess(seen, rs, start, start + 1);
  }

  lemma {:induction false} PinsFit(s: seq<PortAllocator.Request>, start: int32)
    requires start < MAX_INT32 && PortAllocator.DistinctUids(s) && (|s| == 1 || forall r | r in s :: r.pin.None?)
    requires forall r | r in s && r.pin.Some? :: start <= r.pin.value <= start + 1
    ensures AllocatorProperties.PinsUsable(s, start, start + 1)
  {
  }

  lemma {:induction false} GroupWrites(seen: Ports, start: int32, machinePorts: seq<MachinePort>)
    requires 0 < start < MAX_INT32 && |machinePorts| <= 2
    requires PortAllocator.Allocate(seen, Controller.Requests(machinePorts), start, start + 1).Ok?
    ensures Writes(seen, Group(start, machinePorts))
    ensures PortAllocator.Allocate(seen, Controller.Requests(machinePorts), start, start + 1)
      == Ok(Controller.Step(StatusOf(seen), Group(start, machinePorts)).allocatedPorts)
  {
    Controller.AllocationChangesOnlyByWrites(StatusOf(seen), Group(start, machinePorts));
  }

  lemma {:induction false} OneRequest(seen: Ports, r: PortAllocator.Request, start: int32, m: Ports)
    requires 0 < start < MAX_INT32 && r.pin == Some(start + 1)
    requires PortAllocator.Allocate(seen, [r], start, start + 1) == Ok(m)
    ensures m == map[r.uid := start + 1]
  {
    AllocatorProperties.AllocationSound(seen, [r], start, start + 1);
    AllocatorProperties.DedupeOfDistinct([r], 1);
    assert AllocatorProperties.Deduped([r])[0] in AllocatorProperties.Deduped([r]);
    assert PortAllocator.Uids([r]) == {r.uid};
  }

  /** The machine port gets the port it pins. */
  lemma {:induction false} PinnedAlone(seen: Ports, start: int32)
    requires 0 < start < MAX_INT32
    ensures var x := Group(start, [Port("a", Some(start + 1))]);
      Writes(seen, x) && Controller.Step(StatusOf(seen), x).allocatedPorts == map["a" := start + 1]
  {
    var mps := [Port("a", Some(start + 1))];
    var rs := Controller.Requests(mps);
    assert rs == [Controller.RequestOf(mps[0])];
    GroupAllocates(seen, start, rs);
    GroupWrites(seen, start, mps);
    OneRequest(seen, rs[0], start, Controller.Step(StatusOf(seen), Group(start, mps)).allocatedPorts);
  }

  lemma {:induction false} TwoUids(rs: seq<PortAllocator.Request>)
    requires |rs| == 2 && rs[0].uid == "a" && rs[1].uid == "b"
    ensures PortAllocator.Uids(rs) == {"a", "b"} && PortAllocator.DistinctUids(rs)
  {
    assert rs[0] in rs && rs[1] in rs;
  }

  lemma {:induction false} TwoKept(rs: seq<PortAllocator.Request>, start: int32, m: Ports)
    requires 0 < start < MAX_INT32 && |rs| == 2 && rs[0].uid == "a" && rs[1].uid == "b"
    requires rs[0].pin.None? && rs[1].pin.None?
    requires PortAllocator.Allocate(map["a" := start], rs, start, start + 1) == Ok(m)
    ensures "a" in m && m["a"] == start
  {
    TwoUids(rs);
    AllocatorProperties.PortKept(map["a" := start], rs, start, start + 1, 0);
  }

  /** One keeps its port and the other gets the next. */
  lemma {:induction false} TwoRequests(rs: seq<PortAllocator.Request>, start: int32, m: Ports)
    requires 0 < start < MAX_INT32 && |rs| == 2 && rs[0].uid == "a" && rs[1].uid == "b"
    requires rs[0].pin.None? && rs[1].pin.None?
    requires PortAllocator.Allocate(map["a" := start], rs, start, start + 1) == Ok(m)
    ensures m == map["a" := start, "b" := start + 1]
  {
    TwoKept(rs, start, m);
    TwoUids(rs);
    AllocatorProperties.AllocationSound(map["a" := start], rs, start, start + 1);
    TwoPorts(start, m);
  }

  lemma {:induction false} TwoPorts(start: int32, m: Ports)
    requires start < MAX_INT32 && m.Keys == {"a", "b"} && m["a"] == start
    requires PortAllocator.Injective(m) && PortAllocator.InRange(m, start, start + 1)
    ensures m == map["a" := start, "b" := start + 1]
  {
    assert "b" in m && m["a"] != m["b"];
  }

  lemma {:induction false} BothUnpinned(start: int32)
    requires 0 < start < MAX_INT32
    ensures var x := Group(start, [Port("a", None), Port("b", None)]);
      var seen: Ports := map["a" := start];
      Writes(seen, x) && Controller.Step(StatusOf(seen), x).allocatedPorts == map["a" := start, "b" := start + 1]
  {
    var mps := [Port("a", None), Port("b", None)];
    var rs := Controller.Requests(mps);
    TwoUids(rs);
    GroupAllocates(map["a" := start], start, rs);
    GroupWrites(map["a" := start], start, mps);
    TwoRequests(rs, start, Controller.Step(StatusOf(map["a" := start]), Group(start, mps)).allocatedPorts);
  }

  /** Machine port "a" holds the first port, is pinned to the second, and loses the pin again when
      "b" joins. A reconcile that meets this with a copy from before the pin sends a port for "b"
      alone, which the store already has for "a". */
  lemma {:induction false} OldCopyShares(start: int32)
    requires 0 < start < MAX_INT32
    ensures var rs := [Read(Group(start, [Port("a", Some(start + 1))]), 0),
                       Read(Group(start, [Port("a", None), Port("b", None)]), 0)];
      && Earlier(rs) && !FreshAt(map["a" := start], rs, 1)
      && Version(map["a" := start], rs, 2) == map["a" := start + 1, "b" := start + 1]
  {
    var rs := [Read(Group(start, [Port("a", Some(start + 1))]), 0),
               Read(Group(start, [Port("a", None), Port("b", None)]), 0)];
    var first: Ports := map["a" := start];
    PinnedAlone(first, start);
    BothUnpinned(start);
    FirstVersion(first, rs);
    FreshCopy(first, map["a" := start + 1]);
    MergedShared(start);
  }

  lemma {:induction false} MergedShared(start: int32)
    requires 0 < start < MAX_INT32
    ensures Merged(map["a" := start + 1], map["a" := start], map["a" := start, "b" := start + 1])
      == map["a" := start + 1, "b" := start + 1]
  {
  }

  lemma {:induction false} FirstVersion(start: Ports, rs: seq<Read>)
    requires Earlier(rs) && |rs| == 2 && rs[0].version == rs[1].version == 0
    ensures Version(start, rs, 0) == start && Version(start, rs, 1) == Stored(start, start, rs[0].x)
    ensures Version(start, rs, 2) == Stored(Version(start, rs, 1), start, rs[1].x)
  {
  }
}
