/** The controller and the agents share one status object without locks: each reads it, changes
    its own part and sends the difference as a merge patch (internal/agent/agent.go,
    upsertMachineStatus and removeMachineStatus; internal/controller/machinegroup_controller.go,
    the status patches of Reconcile). Steps of different writers interleave freely. */
module StatusProtocol {
  import opened Prelude
  import opened MergePatch

  const MACHINES := "machines"

  /** The status: what the controller writes, and the machine records by machine ID. */
  datatype Doc = Doc(own: Fields, machines: Fields)

  ghost predicate Valid(d: Doc) {
    MACHINES !in d.own && NullFree(Obj(d.own)) && NullFree(Obj(d.machines))
  }

  /** An empty map of machines is omitted. */
  function Encode(d: Doc): Fields {
    if d.machines == map[] then d.own else d.own[MACHINES := Obj(d.machines)]
  }

  function Decode(f: Fields): Doc {
    Doc(f - {MACHINES}, if MACHINES in f && f[MACHINES].Obj? then f[MACHINES].fields else map[])
  }

  /** The stored document after the patch from `base` to `modified` arrives. */
  function Applied(store: Doc, base: Doc, modified: Doc): Doc {
    Decode(PatchedFields(Encode(store), Diff(Encode(base), Encode(modified))))
  }

  datatype Actor = Controller | Agent(id: string)

  /** The part of the stored document a writer owns is still what its copy says. */
  ghost predicate Current(store: Doc, who: Actor, seen: Doc) {
    && Valid(store) && Valid(seen)
    && match who
       case Controller => seen.own == store.own
       case Agent(id) => SameAt(store.machines, seen.machines, id)
  }

  // ---------------------------------------------------------------- the writers

  function WithOwn(store: Doc, seen: Doc, own: Fields, stale: set<string>): Doc {
    var base := seen.(machines := seen.machines - stale);
    Applied(store, base, base.(own := own))
  }

  function Upserted(store: Doc, seen: Doc, id: string, rec: Json): Doc {
    var machines: Fields := seen.machines[id := rec];
    Applied(store, seen, seen.(machines := machines))
  }

  function Removed(store: Doc, seen: Doc, id: string): Doc {
    if id !in seen.machines then store else Applied(store, seen, seen.(machines := seen.machines - {id}))
  }

  class StatusServer {
    var doc: Doc

    constructor (doc: Doc)
      ensures this.doc == doc
    {
      this.doc := doc;
    }

    method Patch(base: Doc, modified: Doc)
      modifies this
      ensures doc == Applied(old(doc), base, modified)
    {
      var patch := Diff(Encode(base), Encode(modified));
      doc := Decode(PatchedFields(Encode(doc), patch));
    }
  }

  /** The second half of upsertMachineStatus: `seen` is what its read returned. */
  method UpsertMachineStatus(server: StatusServer, seen: Doc, id: string, rec: Json)
    modifies server
    ensures server.doc == Upserted(old(server.doc), seen, id, rec)
    ensures NullFree(rec) && old(Current(server.doc, Agent(id), seen)) ==>
      server.doc == old(server.doc).(machines := old(server.doc).machines[id := rec])
  {
    if NullFree(rec) && Current(server.doc, Agent(id), seen) {
      UpsertIsAtomic(server.doc, seen, id, rec);
    }
    var machines: Fields := seen.machines;
    machines := machines[id := rec];
    server.Patch(seen, seen.(machines := machines));
  }

  /** The second half of removeMachineStatus. */
  method RemoveMachineStatus(server: StatusServer, seen: Doc, id: string)
    modifies server
    ensures server.doc == Removed(old(server.doc), seen, id)
    ensures old(Current(server.doc, Agent(id), seen)) ==>
      (server.doc == old(server.doc).(machines := old(server.doc).machines - {id})
       <==> LeavesOthers(old(server.doc), seen, id))
  {
    if Current(server.doc, Agent(id), seen) {
      RemoveIsAtomicIff(server.doc, seen, id);
    }
    if id !in seen.machines {
      return;
    }
    server.Patch(seen, seen.(machines := seen.machines - {id}));
  }

  /** pruneStaleMachineStatuses, with its clock and its threshold as a predicate. */
  method PruneStaleMachineStatuses(machines: Fields, isStale: Json -> bool) returns (kept: Fields, stale: set<string>)
    ensures kept == machines - stale
    ensures forall id :: id in stale <==> id in machines && isStale(machines[id])
  {
    kept, stale := machines, {};
    var todo := machines.Keys;
    while todo != {}
      invariant todo <= machines.Keys
      invariant kept == machines - stale
      invariant forall id :: id in stale <==> id in machines.Keys - todo && isStale(machines[id])
      decreases todo
    {
      var id :| id in todo;
      todo := todo - {id};
      if isStale(machines[id]) {
        kept, stale := kept - {id}, stale + {id};
      }
    }
  }

  /** The controller's status patch: stale machines are dropped before the base is copied. */
  method PatchControllerFields(server: StatusServer, seen: Doc, own: Fields, isStale: Json -> bool)
    returns (stale: set<string>)
    modifies server
    ensures server.doc == WithOwn(old(server.doc), seen, own, stale)
    ensures MACHINES !in own && NullFree(Obj(own)) && old(Current(server.doc, Controller, seen)) ==>
      server.doc == old(server.doc).(own := own)
    ensures forall id :: id in stale <==> id in seen.machines && isStale(seen.machines[id])
  {
    var kept;
    kept, stale := PruneStaleMachineStatuses(seen.machines, isStale);
    if MACHINES !in own && NullFree(Obj(own)) && Current(server.doc, Controller, seen) {
      OwnPatchIsAtomic(server.doc, seen, own, stale);
    }
    var base := seen.(machines := kept);
    server.Patch(base, base.(own := own));
  }

  // ---------------------------------------------------------------- one patch

  /** Apart from the machines each key is patched by itself. */
  lemma {:induction false} OwnAt(store: Doc, base: Doc, modified: Doc, k: string)
    requires MACHINES !in store.own && MACHINES !in base.own && MACHINES !in modified.own && k != MACHINES
    ensures var patched := PatchedFields(Encode(store), Diff(Encode(base), Encode(modified)));
      SameAt(Applied(store, base, modified).own, patched, k)
    ensures SameAt(Encode(store), store.own, k) && SameAt(Encode(base), base.own, k)
    ensures SameAt(Encode(modified), modified.own, k)
  {
  }

  lemma {:induction false} OwnUntouched(store: Doc, base: Doc, modified: Doc)
    requires MACHINES !in store.own && MACHINES !in base.own && base.own == modified.own
    ensures Applied(store, base, modified).own == store.own
  {
    forall k ensures SameAt(Applied(store, base, modified).own, store.own, k) {
      if k != MACHINES {
        OwnAt(store, base, modified, k);
        PatchLeaves(Encode(store), Encode(base), Encode(modified), k);
      }
    }
    SameEverywhere(Applied(store, base, modified).own, store.own);
  }

  lemma {:induction false} OwnReplaced(store: Doc, base: Doc, modified: Doc)
    requires MACHINES !in store.own && MACHINES !in modified.own && NullFree(Obj(modified.own)) && base.own == store.own
    ensures Applied(store, base, modified).own == modified.own
  {
    forall k ensures SameAt(Applied(store, base, modified).own, modified.own, k) {
      if k != MACHINES {
        OwnAt(store, base, modified, k);
        PatchAt(Encode(store), Encode(base), Encode(modified), k);
      }
    }
    SameEverywhere(Applied(store, base, modified).own, modified.own);
  }

  lemma {:induction false} DiffFromNothing(b: Fields)
    ensures Diff(map[], b) == b
  {
    forall k ensures SameAt(Diff(map[], b), b, k) {
      DiffAt(map[], b, k);
    }
    SameEverywhere(Diff(map[], b), b);
  }

  /** The machines are patched one level down, except that emptying the map removes it whole. */
  lemma {:induction false} MachinesPatched(store: Doc, base: Doc, modified: Doc)
    requires MACHINES !in store.own && MACHINES !in base.own && MACHINES !in modified.own
    ensures Applied(store, base, modified).machines ==
      if modified.machines == map[] then (if base.machines == map[] then store.machines else map[])
      else PatchedFields(store.machines, Diff(base.machines, modified.machines))
  {
    var s, a, b := Encode(store), Encode(base), Encode(modified);
    DiffAt(a, b, MACHINES);
    PatchedKey(s, Diff(a, b), MACHINES);
    DiffFromNothing(modified.machines);
    PatchNothing(store.machines);
    if base.machines != map[] && modified.machines != map[] {
      assert NestedDiff(a, b, MACHINES) == Diff(base.machines, modified.machines);
    }
  }

  /** A patch that does not touch the machines leaves them. */
  lemma {:induction false} MachinesUntouched(store: Doc, base: Doc, modified: Doc)
    requires MACHINES !in store.own && MACHINES !in base.own && MACHINES !in modified.own
    requires base.machines == modified.machines
    ensures Applied(store, base, modified).machines == store.machines
  {
    MachinesPatched(store, base, modified);
    forall k ensures SameAt(PatchedFields(store.machines, Diff(base.machines, modified.machines)), store.machines, k) {
      PatchLeaves(store.machines, base.machines, modified.machines, k);
    }
    SameEverywhere(PatchedFields(store.machines, Diff(base.machines, modified.machines)), store.machines);
  }

  // ---------------------------------------------------------------- each writer's patch

  /** A heartbeat has the effect of writing the record into the stored document, however old
      everything else in the agent's copy is. */
  lemma {:induction false} UpsertIsAtomic(store: Doc, seen: Doc, id: string, rec: Json)
    requires Valid(store) && Valid(seen) && NullFree(rec) && SameAt(store.machines, seen.machines, id)
    ensures Upserted(store, seen, id, rec) == store.(machines := store.machines[id := rec])
  {
    var before, after := seen.machines, seen.machines[id := rec];
    var modified := seen.(machines := after);
    OwnUntouched(store, seen, modified);
    MachinesPatched(store, seen, modified);
    assert id in after;
    var goal: Fields := store.machines[id := rec];
    forall k ensures SameAt(PatchedFields(store.machines, Diff(before, after)), goal, k) {
      if k == id {
        PatchAt(store.machines, before, after, id);
      } else {
        PatchLeaves(store.machines, before, after, k);
      }
    }
    SameEverywhere(PatchedFields(store.machines, Diff(before, after)), goal);
  }

  /** The controller's patch replaces its own fields and nothing else; what it pruned is not
      persisted. */
  lemma {:induction false} OwnPatchIsAtomic(store: Doc, seen: Doc, own: Fields, stale: set<string>)
    requires Valid(store) && Valid(seen) && seen.own == store.own && MACHINES !in own && NullFree(Obj(own))
    ensures WithOwn(store, seen, own, stale) == store.(own := own)
  {
    var base := seen.(machines := seen.machines - stale);
    OwnReplaced(store, base, base.(own := own));
    MachinesUntouched(store, base, base.(own := own));
  }

  /** So the machines it prunes are gone from the stored document exactly when they had been gone
      before. */
  lemma {:induction false} PruningPersistsIff(store: Doc, seen: Doc, own: Fields, stale: set<string>)
    requires Valid(store) && Valid(seen) && seen.own == store.own && MACHINES !in own && NullFree(Obj(own))
    ensures WithOwn(store, seen, own, stale).machines == store.machines - stale <==> stale !! store.machines.Keys
  {
    OwnPatchIsAtomic(store, seen, own, stale);
    assert (store.machines - stale).Keys == store.machines.Keys - stale;
    if stale !! store.machines.Keys {
      assert store.machines - stale == store.machines;
    }
  }

  /** Whether a removal leaves the other machines alone: the agent's copy holds another one, or
      there is no other. */
  ghost predicate LeavesOthers(store: Doc, seen: Doc, id: string) {
    id in seen.machines && seen.machines.Keys == {id} ==> store.machines.Keys <= {id}
  }

  /** A removal on shutdown removes the agent's own record and nothing else exactly then: an agent
      that saw only itself sends null for the whole map. */
  lemma {:induction false} RemoveIsAtomicIff(store: Doc, seen: Doc, id: string)
    requires Valid(store) && Valid(seen) && SameAt(store.machines, seen.machines, id)
    ensures Removed(store, seen, id) == store.(machines := store.machines - {id}) <==> LeavesOthers(store, seen, id)
  {
    if id in seen.machines {
      var before, after := seen.machines, seen.machines - {id};
      var modified := seen.(machines := after);
      OwnUntouched(store, seen, modified);
      MachinesPatched(store, seen, modified);
      RemoveMachine(store.machines, before, id);
      assert after == map[] <==> before.Keys == {id} by {
        assert after.Keys == before.Keys - {id};
      }
      assert (store.machines - {id}).Keys == store.machines.Keys - {id};
    } else {
      assert store.machines - {id} == store.machines;
    }
  }

  lemma {:induction false} RemoveMachine(store: Fields, before: Fields, id: string)
    requires SameAt(store, before, id)
    ensures PatchedFields(store, Diff(before, before - {id})) == store - {id}
  {
    forall k ensures SameAt(PatchedFields(store, Diff(before, before - {id})), store - {id}, k) {
      if k == id {
        PatchAt(store, before, before - {id}, id);
      } else {
        PatchLeaves(store, before, before - {id}, k);
      }
    }
    SameEverywhere(PatchedFields(store, Diff(before, before - {id})), store - {id});
  }

  // ---------------------------------------------------------------- runs

  datatype Event =
    | Get(who: Actor)
    | PatchOwn(own: Fields, stale: set<string>)
    | Upsert(id: string, rec: Json)
    | Remove(id: string)

  /** The stored document and the copies the writers have read and not yet used. */
  datatype State = State(store: Doc, seen: map<Actor, Doc>)

  function Writer(e: Event): Actor {
    match e
    case Get(who) => who
    case PatchOwn(_, _) => Controller
    case Upsert(id, _) => Agent(id)
    case Remove(id) => Agent(id)
  }

  /** A writer reads before it writes, and what it writes is null-free. */
  ghost predicate Enabled(st: State, e: Event) {
    && (!e.Get? ==> Writer(e) in st.seen)
    && (e.PatchOwn? ==> MACHINES !in e.own && NullFree(Obj(e.own)))
    && (e.Upsert? ==> NullFree(e.rec))
  }

  ghost predicate Benign(st: State, e: Event)
    requires Enabled(st, e)
  {
    e.Remove? ==> LeavesOthers(st.store, st.seen[Agent(e.id)], e.id)
  }

  ghost function Stored(st: State, e: Event): Doc
    requires Enabled(st, e)
  {
    match e
    case Get(_) => st.store
    case PatchOwn(own, stale) => WithOwn(st.store, st.seen[Controller], own, stale)
    case Upsert(id, rec) => Upserted(st.store, st.seen[Agent(id)], id, rec)
    case Remove(id) => Removed(st.store, st.seen[Agent(id)], id)
  }

  ghost function Step(st: State, e: Event): State
    requires Enabled(st, e)
  {
    State(Stored(st, e), if e.Get? then st.seen[e.who := st.store] else st.seen - {Writer(e)})
  }

  /** The same event on a document that is read and written in one step. */
  ghost function Atomic(d: Doc, e: Event): Doc {
    match e
    case Get(_) => d
    case PatchOwn(own, _) => d.(own := own)
    case Upsert(id, rec) => d.(machines := d.machines[id := rec])
    case Remove(id) => d.(machines := d.machines - {id})
  }

  ghost predicate Consistent(st: State) {
    Valid(st.store) && forall who | who in st.seen :: Current(st.store, who, st.seen[who])
  }

  lemma {:induction false} StepIsAtomic(st: State, e: Event)
    requires Consistent(st) && Enabled(st, e) && Benign(st, e)
    ensures Step(st, e).store == Atomic(st.store, e)
  {
    if !e.Get? {
      assert Current(st.store, Writer(e), st.seen[Writer(e)]);
    }
    match e
    case Get(_) =>
    case PatchOwn(own, stale) => OwnPatchIsAtomic(st.store, st.seen[Controller], own, stale);
    case Upsert(id, rec) => UpsertIsAtomic(st.store, st.seen[Agent(id)], id, rec);
    case Remove(id) => RemoveIsAtomicIff(st.store, st.seen[Agent(id)], id);
  }

  /** Nobody else writes what a writer owns. */
  lemma {:induction false} OthersStayCurrent(store: Doc, e: Event, who: Actor, seen: Doc)
    requires Current(store, who, seen) && who != Writer(e) && Valid(Atomic(store, e))
    ensures Current(Atomic(store, e), who, seen)
  {
  }

  lemma {:induction false} StepKeepsConsistent(st: State, e: Event)
    requires Consistent(st) && Enabled(st, e) && Benign(st, e)
    ensures Consistent(Step(st, e))
  {
    StepIsAtomic(st, e);
    var after := Step(st, e);
    forall who | who in after.seen
      ensures Current(after.store, who, after.seen[who])
    {
      if e.Get? && who == e.who {
      } else {
        assert Current(st.store, who, st.seen[who]);
        if who != Writer(e) {
          OthersStayCurrent(st.store, e, who, st.seen[who]);
        }
      }
    }
  }

  /** The first `n` events of a run, every one enabled and benign. */
  ghost predicate Possible(st: State, es: seq<Event>, n: nat)
    requires n <= |es|
    decreases n, 0
  {
    n == 0 || (Possible(st, es, n - 1)
               && Enabled(Run(st, es, n - 1), es[n - 1]) && Benign(Run(st, es, n - 1), es[n - 1]))
  }

  ghost function Run(st: State, es: seq<Event>, n: nat): State
    requires n <= |es| && Possible(st, es, n)
    decreases n, 1
  {
    if n == 0 then st else Step(Run(st, es, n - 1), es[n - 1])
  }

  ghost function AtomicRun(d: Doc, es: seq<Event>, n: nat): Doc
    requires n <= |es|
  {
    if n == 0 then d else Atomic(AtomicRun(d, es, n - 1), es[n - 1])
  }

  /** Lock-free safety: any interleaving of reads and patches by the controller and agents with
      distinct IDs has the effect of atomic writes in the order of the patches. */
  lemma {:induction false} RunIsAtomic(st: State, es: seq<Event>, n: nat)
    requires n <= |es| && Consistent(st) && Possible(st, es, n)
    ensures Run(st, es, n).store == AtomicRun(st.store, es, n)
    ensures Consistent(Run(st, es, n))
  {
    if n > 0 {
      RunIsAtomic(st, es, n - 1);
      var before := Run(st, es, n - 1);
      StepIsAtomic(before, es[n - 1]);
      StepKeepsConsistent(before, es[n - 1]);
    }
  }

  /** The bad removal can happen: an agent that read the status while it was alone removes the
      record of one that has reported since. */
  lemma {:induction false} RemovalWipes(store: Doc, id: string, other: string, rec: Json)
    requires Valid(store) && store.machines.Keys == {id} && other != id && NullFree(rec)
    ensures var seen := map[Agent(id) := store, Agent(other) := store];
      var st := State(store, seen);
      var st' := Step(st, Upsert(other, rec));
      && Consistent(st) && st'.store.machines.Keys == {id, other}
      && Enabled(st', Remove(id)) && Step(st', Remove(id)).store.machines == map[]
  {
    UpsertIsAtomic(store, store, other, rec);
    var store' := store.(machines := store.machines[other := rec]);
    var modified := store.(machines := store.machines - {id});
    assert modified.machines == map[];
    MachinesPatched(store', store, modified);
  }

  /** A stale record in plain sight: the controller reads the status, prunes the only machine,
      patches, and the machine is still stored. */
  lemma {:induction false} PrunedSurvives(store: Doc, id: string, own: Fields)
    requires Valid(store) && id in store.machines && MACHINES !in own && NullFree(Obj(own))
    ensures var st := State(store, map[Controller := store]);
      && Consistent(st) && Enabled(st, PatchOwn(own, {id}))
      && Step(st, PatchOwn(own, {id})).store == store.(own := own)
      && id in Step(st, PatchOwn(own, {id})).store.machines
  {
    OwnPatchIsAtomic(store, store, own, {id});
  }

  // ---------------------------------------------------------------- last writes

  /** The last record agent `id` wrote, or the one it started from. */
  ghost function LastRecord(d: Doc, es: seq<Event>, n: nat, id: string): Option<Json>
    requires n <= |es|
  {
    if n == 0 then (if id in d.machines then Some(d.machines[id]) else None)
    else if es[n - 1].Upsert? && es[n - 1].id == id then Some(es[n - 1].rec)
    else if es[n - 1].Remove? && es[n - 1].id == id then None
    else LastRecord(d, es, n - 1, id)
  }

  ghost function LastOwn(d: Doc, es: seq<Event>, n: nat): Fields
    requires n <= |es|
  {
    if n == 0 then d.own else if es[n - 1].PatchOwn? then es[n - 1].own else LastOwn(d, es, n - 1)
  }

  lemma {:induction false} AtomicLastWrites(d: Doc, es: seq<Event>, n: nat, id: string)
    requires n <= |es|
    ensures var after := AtomicRun(d, es, n);
      && after.own == LastOwn(d, es, n)
      && LastRecord(d, es, n, id) == if id in after.machines then Some(after.machines[id]) else None
  {
    if n > 0 {
      AtomicLastWrites(d, es, n - 1, id);
    }
  }

  /** The stored record of a machine is always the last one its agent wrote, and the controller's
      fields are the ones it wrote last; pruning has no lasting effect. */
  lemma {:induction false} LastWritesWin(st: State, es: seq<Event>, n: nat, id: string)
    requires n <= |es| && Consistent(st) && Possible(st, es, n)
    ensures var after := Run(st, es, n).store;
      && after.own == LastOwn(st.store, es, n)
      && LastRecord(st.store, es, n, id) == if id in after.machines then Some(after.machines[id]) else None
  {
    RunIsAtomic(st, es, n);
    AtomicLastWrites(st.store, es, n, id);
  }
}
