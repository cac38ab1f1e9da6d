/** JSON merge patches: how `client.MergeFrom` computes one and how the API server applies it
    (section 2 of RFC 7396). */
module MergePatch {

  /** Strings, numbers, booleans and arrays are compared and replaced as a whole. */
  datatype Json = Null | Atom(text: string) | Obj(fields: Fields)

  type Fields = map<string, Json>

  ghost predicate NullFree(j: Json) {
    match j
    case Null => false
    case Atom(_) => true
    case Obj(f) => forall k | k in f :: NullFree(f[k])
  }

  /** Section 2 of RFC 7396. An absent target counts as one that is no object. */
  function Patched(target: Json, patch: Json): Json
    decreases patch
  {
    match patch
    case Obj(p) =>
      var t := if target.Obj? then target.fields else map[];
      Obj(map k | k in t.Keys + p.Keys && !(k in p && p[k].Null?) ::
        if k in p then Patched(if k in t then t[k] else Null, p[k]) else t[k])
    case _ => patch
  }

  /** The patch from `a` to `b`: removed keys become null, nested objects are compared key by key
      and left out when nothing in them changes. */
  function Diff(a: Fields, b: Fields): Fields
    decreases Obj(b), 0
  {
    map k | k in a.Keys + b.Keys && Changed(a, b, k) ::
      if k !in b then Null
      else if k in a && a[k].Obj? && b[k].Obj? then Obj(NestedDiff(a, b, k))
      else b[k]
  }

  predicate Changed(a: Fields, b: Fields, k: string)
    decreases Obj(b), 0, k in b
  {
    if k !in a then k in b
    else if k !in b then true
    else if a[k].Obj? && b[k].Obj? then NestedDiff(a, b, k) != map[]
    else a[k] != b[k]
  }

  function NestedDiff(a: Fields, b: Fields, k: string): Fields
    requires k in a && k in b && a[k].Obj? && b[k].Obj?
    decreases Obj(b), 0, false
  {
    assert b[k] < Obj(b);
    Diff(a[k].fields, b[k].fields)
  }

  function PatchedFields(target: Fields, patch: Fields): Fields {
    Patched(Obj(target), Obj(patch)).fields
  }

  /** Two documents agree on a key. */
  ghost predicate SameAt(a: Fields, b: Fields, k: string) {
    ((k in a) <==> (k in b)) && (k in a ==> a[k] == b[k])
  }

  lemma {:induction false} SameEverywhere(a: Fields, b: Fields)
    requires forall k :: SameAt(a, b, k)
    ensures a == b
  {
    assert forall k :: k in a <==> k in b by {
      forall k ensures k in a <==> k in b {
        assert SameAt(a, b, k);
      }
    }
    forall k | k in a ensures a[k] == b[k] {
      assert SameAt(a, b, k);
    }
  }

  /** Both sides hold an object at `k`. */
  predicate Nested(a: Fields, b: Fields, k: string) {
    k in a && k in b && a[k].Obj? && b[k].Obj?
  }

  lemma {:induction false} DiffAt(a: Fields, b: Fields, k: string)
    ensures k in Diff(a, b) <==> Changed(a, b, k)
    ensures k in Diff(a, b) ==>
      Diff(a, b)[k] == if k !in b then Null else if Nested(a, b, k) then Obj(NestedDiff(a, b, k)) else b[k]
  {
  }

  lemma {:induction false} PatchedKey(target: Fields, patch: Fields, k: string)
    ensures var after := PatchedFields(target, patch);
      && (k !in patch ==> SameAt(after, target, k))
      && (k in patch && patch[k].Null? ==> k !in after)
      && (k in patch && !patch[k].Null? ==>
           k in after && after[k] == Patched(if k in target then target[k] else Null, patch[k]))
  {
  }

  /** A key counts as changed exactly when its value, or its presence, differs. */
  lemma {:induction false} ChangedIff(a: Fields, b: Fields, k: string)
    ensures Changed(a, b, k) <==> !SameAt(a, b, k)
    decreases Obj(b)
  {
    if Nested(a, b, k) {
      var x, y := a[k].fields, b[k].fields;
      assert b[k] < Obj(b);
      forall i ensures i in Diff(x, y) <==> !SameAt(x, y, i) {
        DiffAt(x, y, i);
        ChangedIff(x, y, i);
      }
      if Diff(x, y) == map[] {
        SameEverywhere(x, y);
      } else {
        var i :| i in Diff(x, y);
        assert !SameAt(x, y, i);
      }
    }
  }

  /** Patching a null-free value onto nothing gives that value. */
  lemma {:induction false} PatchedFresh(target: Json, j: Json)
    requires NullFree(j) && (j.Obj? ==> !target.Obj?)
    ensures Patched(target, j) == j
    decreases j
  {
    if j.Obj? {
      forall k | k in j.fields
        ensures Patched(Null, j.fields[k]) == j.fields[k]
      {
        PatchedFresh(Null, j.fields[k]);
      }
    }
  }

  /** Round trip at one key, on a target that may have changed elsewhere: where it still agrees
      with `a`, the patch from `a` to `b` leaves what `b` has there. */
  lemma {:induction false} PatchAt(target: Fields, a: Fields, b: Fields, k: string)
    requires SameAt(target, a, k) && (k in b ==> NullFree(b[k]))
    ensures SameAt(PatchedFields(target, Diff(a, b)), b, k)
    decreases Obj(b)
  {
    DiffAt(a, b, k);
    PatchedKey(target, Diff(a, b), k);
    ChangedIff(a, b, k);
    if k in b && Changed(a, b, k) {
      if Nested(a, b, k) {
        var x, y := a[k].fields, b[k].fields;
        assert b[k] < Obj(b);
        forall i ensures SameAt(PatchedFields(x, Diff(x, y)), y, i) {
          PatchAt(x, x, y, i);
        }
        SameEverywhere(PatchedFields(x, Diff(x, y)), y);
        assert Patched(target[k], Obj(Diff(x, y))).Obj?;
      } else {
        PatchedFresh(if k in target then target[k] else Null, b[k]);
      }
    }
  }

  /** Locality: where `a` and `b` agree, the patch changes nothing, whatever it is applied to. */
  lemma {:induction false} PatchLeaves(target: Fields, a: Fields, b: Fields, k: string)
    requires SameAt(a, b, k)
    ensures SameAt(PatchedFields(target, Diff(a, b)), target, k)
  {
    DiffAt(a, b, k);
    PatchedKey(target, Diff(a, b), k);
    ChangedIff(a, b, k);
  }

  /** Round trip: patching `a` with the difference to a null-free `b` gives `b`. */
  lemma {:induction false} RoundTrip(a: Fields, b: Fields)
    requires NullFree(Obj(b))
    ensures PatchedFields(a, Diff(a, b)) == b
  {
    forall k ensures SameAt(PatchedFields(a, Diff(a, b)), b, k) {
      PatchAt(a, a, b, k);
    }
    SameEverywhere(PatchedFields(a, Diff(a, b)), b);
  }

  /** What a merge patch can carry: values that change are free of nulls. */
  ghost predicate Carries(a: Fields, b: Fields)
    decreases Obj(b), 1
  {
    forall k | k in b && !SameAt(a, b, k) :: CarriesAt(a, b, k)
  }

  ghost predicate CarriesAt(a: Fields, b: Fields, k: string)
    requires k in b
    decreases Obj(b), 0
  {
    if Nested(a, b, k) then assert b[k] < Obj(b); Carries(a[k].fields, b[k].fields) else NullFree(b[k])
  }

  lemma {:induction false} FreshNeedsNullFree(target: Json, j: Json)
    requires !j.Null? && (j.Obj? ==> !target.Obj?) && Patched(target, j) == j
    ensures NullFree(j)
    decreases j
  {
    if j.Obj? {
      forall k | k in j.fields
        ensures NullFree(j.fields[k])
      {
        assert k in Patched(target, j).fields;
        FreshNeedsNullFree(Null, j.fields[k]);
      }
    }
  }

  lemma {:induction false} RoundTripAt(a: Fields, b: Fields, k: string)
    requires k in b
    ensures SameAt(PatchedFields(a, Diff(a, b)), b, k) <==> SameAt(a, b, k) || CarriesAt(a, b, k)
    decreases Obj(b), 0
  {
    DiffAt(a, b, k);
    PatchedKey(a, Diff(a, b), k);
    ChangedIff(a, b, k);
    if Changed(a, b, k) {
      if Nested(a, b, k) {
        assert b[k] < Obj(b);
        RoundTripIff(a[k].fields, b[k].fields);
        assert Patched(a[k], Obj(NestedDiff(a, b, k))) == Obj(PatchedFields(a[k].fields, NestedDiff(a, b, k)));
      } else if NullFree(b[k]) {
        PatchAt(a, a, b, k);
      } else if SameAt(PatchedFields(a, Diff(a, b)), b, k) {
        FreshNeedsNullFree(if k in a then a[k] else Null, b[k]);
      }
    }
  }

  /** Exactly when patching with a difference reaches its goal, nulls included. */
  lemma {:induction false} RoundTripIff(a: Fields, b: Fields)
    ensures PatchedFields(a, Diff(a, b)) == b <==> Carries(a, b)
    decreases Obj(b), 1
  {
    var after := PatchedFields(a, Diff(a, b));
    forall k | k in b
      ensures SameAt(after, b, k) <==> SameAt(a, b, k) || CarriesAt(a, b, k)
    {
      RoundTripAt(a, b, k);
    }
    forall k | k !in b
      ensures SameAt(after, b, k)
    {
      PatchAt(a, a, b, k);
    }
    if Carries(a, b) {
      SameEverywhere(after, b);
    }
  }

  lemma {:induction false} PatchNothing(target: Fields)
    ensures PatchedFields(target, map[]) == target
  {
  }
}
