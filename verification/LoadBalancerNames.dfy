/** Naming of exposure load balancers (api/v1alpha1/types_common.go, NormalizeLoadBalancers). */
module LoadBalancerNames {
  import opened Prelude
  import opened Api

  datatype NameError = DuplicateName(name: string) | UnsupportedScope(index: nat, scope: string)

  type Specs = seq<LoadBalancerSpec>

  // ---------------------------------------------------------------- specification

  function EffectiveScope(scope: string): string {
    if TrimSpace(scope) == "" then "internal" else TrimSpace(scope)
  }

  /** What naming looks at in an entry: its name as written, whether that is more than blanks,
      the name it claims (its own trimmed one, or its scope), and its scope. */
  datatype Entry = Entry(raw: string, explicit: bool, claim: string, scope: string)

  function EntryOf(l: LoadBalancerSpec): Entry {
    var name := TrimSpace(l.name);
    Entry(l.name, name != "", if name != "" then name else EffectiveScope(l.scope), EffectiveScope(l.scope))
  }

  ghost function Entries(s: Specs): (e: seq<Entry>)
    ensures |e| == |s|
  {
    if |s| == 0 then [] else [EntryOf(s[0])] + Entries(s[1..])
  }

  lemma {:induction false} EntryAt(s: Specs, i: nat)
    requires i < |s|
    ensures Entries(s)[i] == EntryOf(s[i])
  {
    if i > 0 {
      EntryAt(s[1..], i - 1);
    }
  }

  /** How many of the first `n` entries claim `base`. */
  ghost function Claims(e: seq<Entry>, n: nat, base: string): nat
    requires n <= |e|
  {
    if n == 0 then 0 else Claims(e, n - 1, base) + if e[n - 1].claim == base then 1 else 0
  }

  function Numbered(base: string, earlier: nat): string {
    if earlier == 0 then base else base + "-" + Itoa(earlier + 1)
  }

  /** The name entry `i` ends up with, read off the input: an explicit name as written,
      otherwise the scope, numbered when earlier entries claim it. */
  ghost function FinalName(e: seq<Entry>, i: nat): string
    requires i < |e|
  {
    if e[i].explicit then e[i].raw else Numbered(e[i].scope, Claims(e, i, e[i].scope))
  }

  predicate SupportedScope(scope: string) {
    ToLower(TrimSpace(scope)) == "internal" || ToLower(TrimSpace(scope)) == "external"
  }

  /** The explicit names among the first `n` entries. */
  ghost function ExplicitNames(e: seq<Entry>, n: nat): set<string>
    requires n <= |e|
  {
    if n == 0 then {}
    else ExplicitNames(e, n - 1) + if e[n - 1].explicit then {e[n - 1].claim} else {}
  }

  /** Entry `i` repeats the explicit name of an earlier entry. */
  ghost predicate Repeats(e: seq<Entry>, i: nat)
    requires i < |e|
  {
    e[i].explicit && e[i].claim in ExplicitNames(e, i)
  }

  ghost predicate NoRepeats(e: seq<Entry>, n: nat)
    requires n <= |e|
  {
    forall k | 0 <= k < n :: !Repeats(e, k)
  }

  ghost predicate ScopesSupported(e: seq<Entry>, n: nat)
    requires n <= |e|
  {
    forall k | 0 <= k < n :: SupportedScope(e[k].scope)
  }

  /** The first `n` entries of `s` with their final names and scopes. */
  ghost predicate Named(s: Specs, e: seq<Entry>, out: Specs, n: nat)
    requires n <= |s| == |e|
  {
    |out| == n && forall k | 0 <= k < n :: out[k] == s[k].(name := FinalName(e, k), scope := e[k].scope)
  }

  /** `name` is the first explicit name to repeat. */
  ghost predicate RepeatedFirst(e: seq<Entry>, name: string) {
    exists i :: 0 <= i < |e| && Repeats(e, i) && e[i].claim == name && NoRepeats(e, i)
  }

  ghost predicate IsNormalized(s: Specs, r: Result<Specs, NameError>) {
    var e := Entries(s);
    match r
    case Ok(out) => NoRepeats(e, |e|) && ScopesSupported(e, |e|) && Named(s, e, out, |s|)
    case Err(DuplicateName(name)) => RepeatedFirst(e, name)
    case Err(UnsupportedScope(i, scope)) =>
      NoRepeats(e, |e|) && i < |e| && scope == e[i].scope && !SupportedScope(scope) && ScopesSupported(e, i)
  }

  const DEFAULT: Specs := [LoadBalancerSpec("internal", "internal", "", [])]

  // ---------------------------------------------------------------- the algorithm

  /** Reading an absent key of a Go map gives zero. */
  function Count(m: map<string, int>, x: string): int {
    if x in m then m[x] else 0
  }

  /** `usedNames` after `n` entries. */
  ghost predicate Counted(e: seq<Entry>, n: nat, usedNames: map<string, int>)
    requires n <= |e|
  {
    forall x :: Count(usedNames, x) == Claims(e, n, x)
  }

  lemma {:induction false} OneMoreClaim(e: seq<Entry>, i: nat, usedNames: map<string, int>)
    requires i < |e| && Counted(e, i, usedNames)
    ensures Counted(e, i + 1, usedNames[e[i].claim := Count(usedNames, e[i].claim) + 1])
    ensures Count(usedNames, e[i].claim) == Claims(e, i, e[i].claim)
  {
    var c := e[i].claim;
    var used := usedNames[c := Count(usedNames, c) + 1];
    forall x ensures Count(used, x) == Claims(e, i + 1, x) {
      assert Claims(e, i + 1, x) == Claims(e, i, x) + if c == x then 1 else 0;
    }
  }

  /** The name of one entry, and the counters after it. */
  method NameEntry(entry: Entry, usedNames: map<string, int>) returns (name: string, used: map<string, int>)
    requires Count(usedNames, entry.claim) >= 0
    requires !entry.explicit ==> entry.claim == TrimSpace(entry.scope) != ""
    ensures used == usedNames[entry.claim := Count(usedNames, entry.claim) + 1]
    ensures name == if entry.explicit then entry.raw else Numbered(entry.claim, Count(usedNames, entry.claim))
  {
    if entry.explicit {
      used := usedNames[entry.claim := Count(usedNames, entry.claim) + 1];
      return entry.raw, used;
    }
    var base := TrimSpace(entry.scope);
    if base == "" {
      base := "load-balancer";
    }
    if Count(usedNames, base) == 0 {
      return base, usedNames[base := 1];
    }
    used := usedNames[base := Count(usedNames, base) + 1];
    return base + "-" + Itoa(used[base]), used;
  }

  lemma {:induction false} NamedOne(s: Specs, e: seq<Entry>, out: Specs, i: nat, name: string)
    requires i < |s| == |e| && Named(s, e, out, i) && name == FinalName(e, i)
    ensures Named(s, e, out + [s[i].(name := name, scope := e[i].scope)], i + 1)
  {
  }

  /** First loop: names, or the first repeated explicit one. */
  method AssignNames(s: Specs) returns (r: Result<Specs, string>)
    ensures r.Ok? ==> NoRepeats(Entries(s), |s|) && Named(s, Entries(s), r.value, |s|)
    ensures r.Err? ==> RepeatedFirst(Entries(s), r.error)
  {
    ghost var e := Entries(s);
    var out: Specs := [];
    var usedExplicit: set<string> := {};
    var usedNames: map<string, int> := map[];
    for i := 0 to |s|
      invariant NoRepeats(e, i) && Named(s, e, out, i)
      invariant usedExplicit == ExplicitNames(e, i)
      invariant Counted(e, i, usedNames)
    {
      var entry := ReadEntry(s[i]);
      EntryAt(s, i);
      OneMoreClaim(e, i, usedNames);
      if entry.explicit {
        if entry.claim in usedExplicit {
          assert Repeats(e, i);
          return Err(entry.claim);
        }
        usedExplicit := usedExplicit + {entry.claim};
      }
      var name;
      name, usedNames := NameEntry(entry, usedNames);
      NamedOne(s, e, out, i, name);
      out := out + [s[i].(name := name, scope := entry.scope)];
    }
    return Ok(out);
  }

  method ReadEntry(l: LoadBalancerSpec) returns (entry: Entry)
    ensures entry == EntryOf(l)
    ensures TrimSpace(entry.scope) == entry.scope != "" && (!entry.explicit ==> entry.claim == entry.scope)
  {
    EntryScope(l);
    return EntryOf(l);
  }

  /** Second loop: scopes. */
  method CheckScopes(out: Specs) returns (bad: Option<nat>)
    ensures bad.None? ==> forall k | 0 <= k < |out| :: SupportedScope(out[k].scope)
    ensures bad.Some? ==> bad.value < |out| && !SupportedScope(out[bad.value].scope)
    ensures bad.Some? ==> forall k | 0 <= k < bad.value && k < |out| :: SupportedScope(out[k].scope)
  {
    for i := 0 to |out|
      invariant forall k | 0 <= k < i :: SupportedScope(out[k].scope)
    {
      if !SupportedScope(out[i].scope) {
        return Some(i);
      }
    }
    return None;
  }

  /** NormalizeLoadBalancers. `None` is the absent list, which stands for one internal load
      balancer; the empty list switches exposure off. */
  method NormalizeLoadBalancers(loadBalancers: Option<Specs>) returns (r: Result<Specs, NameError>)
    ensures loadBalancers.None? ==> r == Ok(DEFAULT)
    ensures loadBalancers.Some? ==> IsNormalized(loadBalancers.value, r)
  {
    if loadBalancers.None? {
      return Ok(DEFAULT);
    }
    var named := AssignNames(loadBalancers.value);
    if named.Err? {
      return Err(DuplicateName(named.error));
    }
    var out := named.value;
    var bad := CheckScopes(out);
    if bad.Some? {
      return Err(UnsupportedScope(bad.value, out[bad.value].scope));
    }
    return Ok(out);
  }

  /** A scope is trimmed once and for all. */
  lemma {:induction false} EntryScope(l: LoadBalancerSpec)
    ensures var e := EntryOf(l);
      TrimSpace(e.scope) == e.scope != "" && (!e.explicit ==> e.claim == e.scope)
  {
    TrimEnds(l.scope);
    TrimFixed(TrimSpace(l.scope));
    TrimFixed("internal");
  }

  // ---------------------------------------------------------------- properties

  lemma {:induction false} ClaimsGrow(e: seq<Entry>, i: nat, j: nat, base: string)
    requires i < j <= |e|
    ensures Claims(e, i, base) + (if e[i].claim == base then 1 else 0) <= Claims(e, j, base)
    decreases j
  {
    if i < j - 1 {
      ClaimsGrow(e, i, j - 1, base);
    }
  }

  lemma {:induction false} ExplicitNamesHave(e: seq<Entry>, n: nat, k: nat)
    requires k < n <= |e| && e[k].explicit
    ensures e[k].claim in ExplicitNames(e, n)
  {
    if k < n - 1 {
      ExplicitNamesHave(e, n - 1, k);
    }
  }

  /** Entries as they come from a list that is accepted: scopes have eight characters and a
      nameless entry claims its scope. */
  ghost predicate Accepted(e: seq<Entry>) {
    && NoRepeats(e, |e|)
    && (forall k | 0 <= k < |e| :: |e[k].scope| == 8 && (!e[k].explicit ==> e[k].claim == e[k].scope))
  }

  lemma {:induction false} AcceptedEntries(s: Specs, out: Specs)
    requires IsNormalized(s, Ok(out))
    ensures Accepted(Entries(s))
  {
    var e := Entries(s);
    forall k | 0 <= k < |e|
      ensures |e[k].scope| == 8 && (!e[k].explicit ==> e[k].claim == e[k].scope)
    {
      EntryAt(s, k);
      EntryScope(s[k]);
      assert SupportedScope(e[k].scope);
    }
  }

  lemma {:induction false} NumberedInjective(a: string, m: nat, b: string, n: nat)
    requires |a| == |b| && Numbered(a, m) == Numbered(b, n)
    ensures a == b && m == n
  {
    assert a == Numbered(a, m)[..|a|] && b == Numbered(b, n)[..|b|];
    if m > 0 && n > 0 {
      var stem := a + "-";
      assert Numbered(a, m)[|stem|..] == Itoa(m + 1) && Numbered(b, n)[|stem|..] == Itoa(n + 1);
      ItoaInjective(m + 1, n + 1);
    }
  }

  /** Names generated by a successful call are pairwise distinct. */
  lemma {:induction false} GeneratedNamesDistinct(e: seq<Entry>, i: nat, j: nat)
    requires Accepted(e) && i < j < |e| && !e[i].explicit && !e[j].explicit
    ensures FinalName(e, i) != FinalName(e, j)
  {
    ClaimsGrow(e, i, j, e[i].scope);
    if FinalName(e, i) == FinalName(e, j) {
      NumberedInjective(e[i].scope, Claims(e, i, e[i].scope), e[j].scope, Claims(e, j, e[j].scope));
    }
  }

  /** No explicit name is the one generated for a nameless entry. */
  ghost predicate NoClash(e: seq<Entry>) {
    forall i, j | 0 <= i < |e| && 0 <= j < |e| && e[i].explicit && !e[j].explicit :: e[i].raw != FinalName(e, j)
  }

  ghost predicate FinalNamesDistinct(e: seq<Entry>) {
    forall i, j | 0 <= i < j < |e| :: FinalName(e, i) != FinalName(e, j)
  }

  lemma {:induction false} FinalNamesDistinctIff(e: seq<Entry>)
    requires Accepted(e)
    requires forall i, j | 0 <= i < |e| && 0 <= j < |e| && e[i].explicit && e[j].explicit && e[i].raw == e[j].raw ::
      e[i].claim == e[j].claim
    ensures FinalNamesDistinct(e) <==> NoClash(e)
  {
    if NoClash(e) {
      forall i, j | 0 <= i < j < |e|
        ensures FinalName(e, i) != FinalName(e, j)
      {
        if !e[i].explicit && !e[j].explicit {
          GeneratedNamesDistinct(e, i, j);
        } else if e[i].explicit && e[j].explicit {
          ExplicitNamesHave(e, j, i);
          assert !Repeats(e, j);
        }
      }
    }
    if FinalNamesDistinct(e) {
      forall i, j | 0 <= i < |e| && 0 <= j < |e| && e[i].explicit && !e[j].explicit
        ensures e[i].raw != FinalName(e, j)
      {
        assert FinalName(e, i) != FinalName(e, j);
      }
    }
  }

  ghost predicate DistinctNames(out: Specs) {
    forall i, j | 0 <= i < j < |out| :: out[i].name != out[j].name
  }

  /** Uniqueness of the output names is not unconditional. They are pairwise distinct exactly
      when no entry's explicit name is the one generated for a nameless entry. */
  lemma {:induction false} NamesDistinctIff(s: Specs, out: Specs)
    requires IsNormalized(s, Ok(out))
    ensures DistinctNames(out) <==> NoClash(Entries(s))
  {
    var e := Entries(s);
    AcceptedEntries(s, out);
    assert forall i | 0 <= i < |s| :: out[i].name == FinalName(e, i);
    assert DistinctNames(out) <==> FinalNamesDistinct(e);
    forall i, j | 0 <= i < |e| && 0 <= j < |e| && e[i].explicit && e[j].explicit && e[i].raw == e[j].raw
      ensures e[i].claim == e[j].claim
    {
      EntryAt(s, i);
      EntryAt(s, j);
    }
    FinalNamesDistinctIff(e);
  }

  /** A scope word, possibly numbered. */
  ghost predicate LooksGenerated(name: string) {
    exists base, n: nat :: SupportedScope(base) && name == Numbered(base, n)
  }

  /** So it suffices that no explicit name looks like a generated one. */
  lemma {:induction false} DistinctUnlessLooksGenerated(s: Specs, out: Specs)
    requires IsNormalized(s, Ok(out))
    requires forall i | 0 <= i < |s| && Entries(s)[i].explicit :: !LooksGenerated(s[i].name)
    ensures DistinctNames(out)
  {
    var e := Entries(s);
    NamesDistinctIff(s, out);
    forall i, j | 0 <= i < |e| && 0 <= j < |e| && e[i].explicit && !e[j].explicit
      ensures e[i].raw != FinalName(e, j)
    {
      EntryAt(s, i);
      assert SupportedScope(e[j].scope);
      assert LooksGenerated(Numbered(e[j].scope, Claims(e, j, e[j].scope)));
    }
  }

  lemma {:induction false} InternalIsSupported()
    ensures TrimSpace("internal") == "internal" && TrimSpace("") == "" && SupportedScope("internal")
  {
    TrimFixed("internal");
    assert ToLower("internal") == "internal";
  }

  lemma {:induction false} SameNameEntries(nameless: LoadBalancerSpec, named: LoadBalancerSpec)
    requires nameless == LoadBalancerSpec("", "internal", "", [])
    requires named == LoadBalancerSpec("internal", "internal", "", [])
    ensures Entries([nameless, named])
      == [Entry("", false, "internal", "internal"), Entry("internal", true, "internal", "internal")]
  {
    InternalIsSupported();
  }

  /** A nameless internal entry followed by one named "internal" is accepted, and both end up
      with the same name. */
  lemma {:induction false} SameNameAccepted(nameless: LoadBalancerSpec, named: LoadBalancerSpec)
    requires nameless == LoadBalancerSpec("", "internal", "", [])
    requires named == LoadBalancerSpec("internal", "internal", "", [])
    ensures IsNormalized([nameless, named], Ok([named, named]))
    ensures !DistinctNames([named, named])
  {
    SameNameEntries(nameless, named);
    SameNameFinal(Entries([nameless, named]));
    var out := [named, named];
    assert out[0].name == out[1].name;
  }

  lemma {:induction false} SameNameFinal(e: seq<Entry>)
    requires e == [Entry("", false, "internal", "internal"), Entry("internal", true, "internal", "internal")]
    ensures FinalName(e, 0) == FinalName(e, 1) == "internal"
    ensures NoRepeats(e, 2) && ScopesSupported(e, 2)
  {
    assert Claims(e, 0, "internal") == 0;
    NothingExplicitFirst(e);
    InternalIsSupported();
  }

  lemma {:induction false} NothingExplicitFirst(e: seq<Entry>)
    requires |e| == 2 && !e[0].explicit
    ensures NoRepeats(e, 2)
  {
    assert ExplicitNames(e, 1) == {};
  }

  // ---------------------------------------------------------------- read off the list itself

  /** The default list is one internal load balancer called so. */
  lemma {:induction false} DefaultIsInternal()
    ensures |DEFAULT| == 1 && DEFAULT[0] == LoadBalancerSpec("internal", "internal", "", [])
    ensures ToLower(TrimSpace(DEFAULT[0].scope)) == "internal"
  {
    InternalIsSupported();
  }

  /** A blank scope means "internal". */
  function WrittenScope(l: LoadBalancerSpec): string {
    if TrimSpace(l.scope) != "" then TrimSpace(l.scope) else "internal"
  }

  /** The name an entry lays claim to: its own, or its scope. */
  function ClaimedName(l: LoadBalancerSpec): string {
    if TrimSpace(l.name) != "" then TrimSpace(l.name) else WrittenScope(l)
  }

  ghost function EarlierClaims(s: Specs, i: nat): set<int>
    requires i < |s|
  {
    set j | 0 <= j < i && ClaimedName(s[j]) == WrittenScope(s[i])
  }

  lemma {:induction false} ClaimsCount(e: seq<Entry>, n: nat, base: string)
    requires n <= |e|
    ensures Claims(e, n, base) == |Claimants(e, n, base)|
  {
    if n > 0 {
      ClaimsCount(e, n - 1, base);
      ClaimantsGrow(e, n, base);
    }
  }

  ghost function Claimants(e: seq<Entry>, n: nat, base: string): set<int>
    requires n <= |e|
  {
    set j | 0 <= j < n && e[j].claim == base
  }

  lemma {:induction false} ClaimantsGrow(e: seq<Entry>, n: nat, base: string)
    requires 0 < n <= |e|
    ensures var before := Claimants(e, n - 1, base);
      Claimants(e, n, base) == (if e[n - 1].claim == base then before + {n - 1} else before) && n - 1 !in before
  {
  }

  /** Scopes are trimmed, blank ones are internal; names are kept as written, and a missing one is
      the scope, numbered from 2 on when earlier entries claim it. */
  lemma {:induction false} NamedAsWritten(s: Specs, out: Specs, i: nat)
    requires IsNormalized(s, Ok(out)) && i < |s|
    ensures |out| == |s| && out[i].scope == WrittenScope(s[i])
    ensures out[i].loadBalancerName == s[i].loadBalancerName && out[i].subnetIDs == s[i].subnetIDs
    ensures TrimSpace(s[i].name) != "" ==> out[i].name == s[i].name
    ensures TrimSpace(s[i].name) == "" ==>
      out[i].name == if EarlierClaims(s, i) == {} then WrittenScope(s[i])
                     else WrittenScope(s[i]) + "-" + Itoa(|EarlierClaims(s, i)| + 1)
  {
    var e := Entries(s);
    EntryAt(s, i);
    ClaimsCount(e, i, e[i].scope);
    forall j | 0 <= j < i ensures e[j].claim == ClaimedName(s[j]) {
      EntryAt(s, j);
    }
    assert EarlierClaims(s, i) == Claimants(e, i, e[i].scope);
  }

  /** No two entries have the same name. */
  ghost predicate NamedOnce(s: Specs) {
    forall i, j | 0 <= i < j < |s| && TrimSpace(s[i].name) != "" :: TrimSpace(s[i].name) != TrimSpace(s[j].name)
  }

  predicate ScopeIsKnown(l: LoadBalancerSpec) {
    ToLower(WrittenScope(l)) in ["internal", "external"]
  }

  lemma {:induction false} ExplicitNamesAre(e: seq<Entry>, n: nat, name: string)
    requires n <= |e|
    ensures name in ExplicitNames(e, n) <==> exists j :: 0 <= j < n && e[j].explicit && e[j].claim == name
  {
    if n > 0 {
      ExplicitNamesAre(e, n - 1, name);
    }
  }

  lemma {:induction false} NamedOnceIff(s: Specs)
    ensures NamedOnce(s) <==> NoRepeats(Entries(s), |s|)
  {
    var e := Entries(s);
    forall k | 0 <= k < |s|
      ensures e[k] == EntryOf(s[k])
      ensures Repeats(e, k)
        <==> TrimSpace(s[k].name) != "" && exists j :: 0 <= j < k && TrimSpace(s[j].name) == TrimSpace(s[k].name)
    {
      RepeatsIff(s, k);
    }
    if i, j :| 0 <= i < j < |s| && TrimSpace(s[i].name) != "" && TrimSpace(s[i].name) == TrimSpace(s[j].name) {
      assert Repeats(e, j);
    }
  }

  lemma {:induction false} RepeatsIff(s: Specs, k: nat)
    requires k < |s|
    ensures Entries(s)[k] == EntryOf(s[k])
    ensures Repeats(Entries(s), k)
      <==> TrimSpace(s[k].name) != "" && exists j :: 0 <= j < k && TrimSpace(s[j].name) == TrimSpace(s[k].name)
  {
    var e := Entries(s);
    EntryAt(s, k);
    ExplicitNamesAre(e, k, e[k].claim);
    forall j | 0 <= j < k ensures e[j] == EntryOf(s[j]) {
      EntryAt(s, j);
    }
    if j :| 0 <= j < k && TrimSpace(s[j].name) == TrimSpace(s[k].name) {
      assert e[j].explicit == e[k].explicit && (e[k].explicit ==> e[j].claim == e[k].claim);
    }
  }

  lemma {:induction false} ScopeKnownIff(s: Specs, k: nat)
    requires k < |s|
    ensures SupportedScope(Entries(s)[k].scope) <==> ScopeIsKnown(s[k])
  {
    EntryAt(s, k);
    EntryScope(s[k]);
  }

  /** A list is accepted exactly when no name repeats and every scope is internal or external, in
      any case. */
  lemma {:induction false} AcceptedIff(s: Specs)
    ensures (exists out :: IsNormalized(s, Ok(out)))
      <==> NamedOnce(s) && forall k | 0 <= k < |s| :: ScopeIsKnown(s[k])
  {
    var e := Entries(s);
    NamedOnceIff(s);
    forall k | 0 <= k < |s| ensures SupportedScope(e[k].scope) <==> ScopeIsKnown(s[k]) {
      ScopeKnownIff(s, k);
    }
    var out := seq(|s|, k requires 0 <= k < |s| => s[k].(name := FinalName(e, k), scope := e[k].scope));
    assert Named(s, e, out, |s|);
    if NamedOnce(s) && forall k | 0 <= k < |s| :: ScopeIsKnown(s[k]) {
      assert IsNormalized(s, Ok(out));
    }
  }

  /** A repeated name is reported before an unknown scope. */
  lemma {:induction false} RejectedBecause(s: Specs, error: NameError)
    requires IsNormalized(s, Err(error))
    ensures match error
      case DuplicateName(name) =>
        name != "" && exists i, j :: 0 <= i < j < |s| && TrimSpace(s[i].name) == TrimSpace(s[j].name) == name
      case UnsupportedScope(i, scope) =>
        && NamedOnce(s) && i < |s| && scope == TrimSpace(s[i].scope) && !ScopeIsKnown(s[i])
        && forall k | 0 <= k < i :: ScopeIsKnown(s[k])
  {
    match error
    case DuplicateName(name) =>
      var e := Entries(s);
      var j :| 0 <= j < |e| && Repeats(e, j) && e[j].claim == name;
      RepeatsIff(s, j);
    case UnsupportedScope(i, scope) =>
      NamedOnceIff(s);
      InternalIsSupported();
      EntryAt(s, i);
      forall k | 0 <= k <= i ensures SupportedScope(Entries(s)[k].scope) <==> ScopeIsKnown(s[k]) {
        ScopeKnownIff(s, k);
      }
  }
}
