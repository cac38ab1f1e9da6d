/** Choice of subnets for a machine group (internal/cloud/aws/manager.go,
    selectPlacementSubnets). */
module Placement {
  import opened Prelude
  import opened Sorting

  datatype Subnet = Subnet(id: string, vpc: string, zone: string)

  datatype Selection = Selection(subnetIDs: seq<string>, vpc: string, zones: seq<string>)

  datatype SelectError =
    | NothingRequested | NothingDescribed
    | NotFound(id: string) | BlankVpc(id: string) | DifferentVpcs(first: string, other: string)
    | NoneUsable | NoneInDomains | MissingDomains(zones: set<string>)

  type Directory = map<string, Subnet>

  // ---------------------------------------------------------------- specification

  /** The first `n` described subnets by identifier; blank ones are skipped and later ones win. */
  function ById(subnets: seq<Subnet>, n: nat): Directory
    requires n <= |subnets|
  {
    if n == 0 then map[]
    else if TrimSpace(subnets[n - 1].id) == "" then ById(subnets, n - 1)
    else ById(subnets, n - 1)[TrimSpace(subnets[n - 1].id) := subnets[n - 1]]
  }

  /** The failure domains asked for, blank ones ignored. */
  ghost function Allowed(failureDomains: seq<string>, n: nat): set<string>
    requires n <= |failureDomains|
  {
    set i | 0 <= i < n && TrimSpace(failureDomains[i]) != "" :: TrimSpace(failureDomains[i])
  }

  ghost predicate Known(byID: Directory, requested: seq<string>, n: nat)
    requires n <= |requested|
  {
    forall i | 0 <= i < n :: requested[i] in byID
  }

  function VpcOf(byID: Directory, id: string): string
    requires id in byID
  {
    TrimSpace(byID[id].vpc)
  }

  function ZoneOf(byID: Directory, id: string): string
    requires id in byID
  {
    TrimSpace(byID[id].zone)
  }

  /** What stops the scan at the `i`-th requested subnet, if anything. */
  ghost function Problem(byID: Directory, requested: seq<string>, i: nat): Option<SelectError>
    requires i < |requested| && (i > 0 ==> requested[0] in byID)
  {
    var id := requested[i];
    if id !in byID then Some(NotFound(id))
    else if VpcOf(byID, id) == "" then Some(BlankVpc(id))
    else
      var vpc := VpcOf(byID, requested[0]);
      if VpcOf(byID, id) != vpc then Some(DifferentVpcs(vpc, VpcOf(byID, id))) else None
  }

  /** The first `n` requested subnets are known and share one VPC. */
  ghost predicate OneVpc(byID: Directory, requested: seq<string>, n: nat)
    requires n <= |requested|
  {
    && Known(byID, requested, n)
    && forall i | 0 <= i < n :: VpcOf(byID, requested[i]) == VpcOf(byID, requested[0]) != ""
  }

  /** Those of the first `n` requested subnets that lie in an allowed zone, in order. */
  ghost function Chosen(byID: Directory, requested: seq<string>, allowed: set<string>, n: nat): seq<string>
    requires n <= |requested| && Known(byID, requested, n)
  {
    if n == 0 then []
    else if allowed == {} || ZoneOf(byID, requested[n - 1]) in allowed
    then Chosen(byID, requested, allowed, n - 1) + [requested[n - 1]]
    else Chosen(byID, requested, allowed, n - 1)
  }

  /** The zones of the first `n` requested subnets. */
  ghost function ZonesOf(byID: Directory, requested: seq<string>, n: nat): set<string>
    requires n <= |requested| && Known(byID, requested, n)
  {
    set i | 0 <= i < n :: ZoneOf(byID, requested[i])
  }

  /** `zones` are the non-blank zones of `ids`, each once, in the order in which they first
      occur. */
  ghost predicate FirstOccurrences(byID: Directory, ids: seq<string>, zones: seq<string>) {
    && Known(byID, ids, |ids|)
    && NoDuplicates(zones)
    && (forall z :: z in zones <==> z != "" && z in ZonesOf(byID, ids, |ids|))
    && (forall a, b, j | 0 <= a < b < |zones| && 0 <= j < |ids| && ZoneOf(byID, ids[j]) == zones[b] ::
         Earlier(byID, ids, zones[a], j))
  }

  ghost predicate Earlier(byID: Directory, ids: seq<string>, zone: string, j: nat)
    requires j <= |ids| && Known(byID, ids, |ids|)
  {
    exists i :: 0 <= i < j && ZoneOf(byID, ids[i]) == zone
  }

  /** A selection exists: something is requested, all of it is known and in one VPC, and every
      failure domain asked for has a requested subnet. */
  ghost predicate Achievable(requested: seq<string>, subnets: seq<Subnet>, failureDomains: seq<string>) {
    var byID := ById(subnets, |subnets|);
    && |requested| > 0 && |subnets| > 0
    && OneVpc(byID, requested, |requested|)
    && Allowed(failureDomains, |failureDomains|) <= ZonesOf(byID, requested, |requested|)
  }

  /** The selection: the requested subnets in allowed zones, their VPC, and their zones, which
      are the failure domains if any were asked for. */
  ghost predicate IsSelection(requested: seq<string>, subnets: seq<Subnet>, failureDomains: seq<string>, s: Selection)
    requires Achievable(requested, subnets, failureDomains)
  {
    var byID := ById(subnets, |subnets|);
    var allowed := Allowed(failureDomains, |failureDomains|);
    && s.subnetIDs == Chosen(byID, requested, allowed, |requested|)
    && s.vpc == VpcOf(byID, requested[0])
    && FirstOccurrences(byID, s.subnetIDs, s.zones)
    && (allowed != {} ==> StringsOf(s.zones) == allowed)
  }

  ghost function StringsOf(s: seq<string>): set<string> {
    set z | z in s
  }

  // ---------------------------------------------------------------- the algorithm

  method IndexSubnets(subnets: seq<Subnet>) returns (byID: Directory)
    ensures byID == ById(subnets, |subnets|)
  {
    byID := map[];
    for i := 0 to |subnets|
      invariant byID == ById(subnets, i)
    {
      var id := TrimSpace(subnets[i].id);
      if id != "" {
        byID := byID[id := subnets[i]];
      }
    }
  }

  method CollectDomains(failureDomains: seq<string>) returns (allowed: set<string>)
    ensures allowed == Allowed(failureDomains, |failureDomains|)
  {
    allowed := {};
    for i := 0 to |failureDomains|
      invariant allowed == Allowed(failureDomains, i)
    {
      var zone := TrimSpace(failureDomains[i]);
      AllowedOne(failureDomains, i);
      if zone != "" {
        allowed := allowed + {zone};
      }
    }
  }

  /** Scans the requested subnets in order and stops at the first problem. */
  method Scan(byID: Directory, requested: seq<string>, allowed: set<string>)
    returns (r: Result<Selection, SelectError>, missing: set<string>, ghost at: nat)
    ensures at <= |requested| && OneVpc(byID, requested, at)
    ensures r.Err? ==> at < |requested| && Problem(byID, requested, at) == Some(r.error)
    ensures r.Ok? ==> at == |requested|
    ensures r.Ok? ==> r.value.subnetIDs == Chosen(byID, requested, allowed, |requested|)
    ensures r.Ok? && |requested| > 0 ==> r.value.vpc == VpcOf(byID, requested[0])
    ensures r.Ok? ==> FirstOccurrences(byID, r.value.subnetIDs, r.value.zones)
    ensures r.Ok? ==> missing == allowed - ZonesOf(byID, requested, |requested|)
  {
    var selected := Selection([], "", []);
    var selectedZones: set<string> := {};
    missing := allowed;
    at := 0;
    for i := 0 to |requested|
      invariant at == i && OneVpc(byID, requested, i)
      invariant selected.vpc == if i == 0 then "" else VpcOf(byID, requested[0])
      invariant selected.subnetIDs == Chosen(byID, requested, allowed, i)
      invariant FirstOccurrences(byID, selected.subnetIDs, selected.zones)
      invariant forall z :: z in selectedZones <==> z in selected.zones
      invariant missing == allowed - ZonesOf(byID, requested, i)
    {
      var subnetID := requested[i];
      if subnetID !in byID {
        return Err(NotFound(subnetID)), missing, at;
      }
      var vpcID := TrimSpace(byID[subnetID].vpc);
      if vpcID == "" {
        return Err(BlankVpc(subnetID)), missing, at;
      }
      if selected.vpc == "" {
        selected := selected.(vpc := vpcID);
      } else if selected.vpc != vpcID {
        return Err(DifferentVpcs(selected.vpc, vpcID)), missing, at;
      }
      at := i + 1;
      var zone := TrimSpace(byID[subnetID].zone);
      ZonesOne(byID, requested, i);
      if allowed != {} {
        if zone !in allowed {
          continue;
        }
        missing := missing - {zone};
      }
      OneMoreZone(byID, selected.subnetIDs, selected.zones, subnetID);
      selected := selected.(subnetIDs := selected.subnetIDs + [subnetID]);
      if zone != "" {
        if zone !in selectedZones {
          selectedZones := selectedZones + {zone};
          selected := selected.(zones := selected.zones + [zone]);
        }
      }
    }
    r := Ok(selected);
  }

  /** selectPlacementSubnets. */
  method SelectPlacementSubnets(requested: seq<string>, subnets: seq<Subnet>, failureDomains: seq<string>)
    returns (r: Result<Selection, SelectError>, ghost at: nat)
    ensures r.Ok? <==> Achievable(requested, subnets, failureDomains)
    ensures r.Ok? ==> IsSelection(requested, subnets, failureDomains, r.value)
    ensures r.Err? ==> IsError(requested, subnets, failureDomains, at, r.error)
  {
    at := 0;
    if |requested| == 0 {
      return Err(NothingRequested), at;
    }
    if |subnets| == 0 {
      return Err(NothingDescribed), at;
    }
    var byID := IndexSubnets(subnets);
    var allowed := CollectDomains(failureDomains);
    var missing;
    r, missing, at := Scan(byID, requested, allowed);
    if r.Err? {
      return;
    }
    ChosenSome(byID, requested, allowed, |requested|);
    if |r.value.subnetIDs| == 0 {
      return Err(if |allowed| > 0 then NoneInDomains else NoneUsable), at;
    }
    if missing != {} {
      return Err(MissingDomains(missing)), at;
    }
    assert allowed <= missing + ZonesOf(byID, requested, |requested|);
    ZonesCovered(byID, requested, allowed, r.value.zones);
  }

  // ---------------------------------------------------------------- what goes wrong

  /** The error names what actually stands in the way: the first requested subnet that does not
      fit, or the failure domains nobody serves. `NoneUsable` is never reported. */
  ghost predicate IsError(requested: seq<string>, subnets: seq<Subnet>, failureDomains: seq<string>, at: nat,
          e: SelectError)
  {
    var byID := ById(subnets, |subnets|);
    var allowed := Allowed(failureDomains, |failureDomains|);
    if |requested| == 0 then e == NothingRequested
    else if |subnets| == 0 then e == NothingDescribed
    else if at < |requested| then OneVpc(byID, requested, at) && Problem(byID, requested, at) == Some(e)
    else
      && at == |requested| && OneVpc(byID, requested, at)
      && var missing := allowed - ZonesOf(byID, requested, at);
         missing != {} && e == if missing == allowed then NoneInDomains else MissingDomains(missing)
  }

  lemma {:induction false} AllowedOne(failureDomains: seq<string>, n: nat)
    requires n < |failureDomains|
    ensures var zone := TrimSpace(failureDomains[n]);
      Allowed(failureDomains, n + 1) == Allowed(failureDomains, n) + if zone == "" then {} else {zone}
  {
  }

  lemma {:induction false} ZonesOne(byID: Directory, requested: seq<string>, n: nat)
    requires n < |requested| && Known(byID, requested, n + 1)
    ensures ZonesOf(byID, requested, n + 1) == ZonesOf(byID, requested, n) + {ZoneOf(byID, requested[n])}
  {
  }

  lemma {:induction false} ZonesAppend(byID: Directory, ids: seq<string>, id: string)
    requires Known(byID, ids, |ids|) && id in byID
    ensures Known(byID, ids + [id], |ids| + 1)
    ensures ZonesOf(byID, ids + [id], |ids| + 1) == ZonesOf(byID, ids, |ids|) + {ZoneOf(byID, id)}
  {
    var ids' := ids + [id];
    ZonesOne(byID, ids', |ids|);
    forall z ensures z in ZonesOf(byID, ids', |ids|) <==> z in ZonesOf(byID, ids, |ids|) {
      if z in ZonesOf(byID, ids, |ids|) {
        var i :| 0 <= i < |ids| && ZoneOf(byID, ids[i]) == z;
        assert ids'[i] == ids[i];
      }
    }
  }

  /** One more subnet: its zone is appended if it is new and not blank. */
  lemma {:induction false} OneMoreZone(byID: Directory, ids: seq<string>, zones: seq<string>, id: string)
    requires FirstOccurrences(byID, ids, zones) && id in byID
    ensures var zone := ZoneOf(byID, id);
      FirstOccurrences(byID, ids + [id], if zone == "" || zone in zones then zones else zones + [zone])
  {
    var zone := ZoneOf(byID, id);
    var ids' := ids + [id];
    var zones' := if zone == "" || zone in zones then zones else zones + [zone];
    assert Known(byID, ids', |ids'|);
    ZonesAppend(byID, ids, id);
    forall a, b, j | 0 <= a < b < |zones'| && 0 <= j < |ids'| && ZoneOf(byID, ids'[j]) == zones'[b]
      ensures Earlier(byID, ids', zones'[a], j)
    {
      assert zones'[a] == zones[a];
      if j < |ids| {
        assert b < |zones|;
        assert Earlier(byID, ids, zones[a], j);
        var i :| 0 <= i < j && ZoneOf(byID, ids[i]) == zones[a];
        assert ids'[i] == ids[i];
      } else {
        assert zones[a] in ZonesOf(byID, ids, |ids|);
        var i :| 0 <= i < |ids| && ZoneOf(byID, ids[i]) == zones[a];
        assert ids'[i] == ids[i];
      }
    }
  }

  /** Something is chosen exactly when no zone was asked for or one asked for occurs. */
  lemma {:induction false} ChosenSome(byID: Directory, requested: seq<string>, allowed: set<string>, n: nat)
    requires n <= |requested| && Known(byID, requested, n)
    ensures |Chosen(byID, requested, allowed, n)| == 0
      <==> n == 0 || (allowed != {} && allowed !! ZonesOf(byID, requested, n))
    ensures Known(byID, Chosen(byID, requested, allowed, n), |Chosen(byID, requested, allowed, n)|)
    ensures var c := Chosen(byID, requested, allowed, n);
      allowed != {} ==> ZonesOf(byID, c, |c|) == allowed * ZonesOf(byID, requested, n)
  {
    if n > 0 {
      ChosenSome(byID, requested, allowed, n - 1);
      ZonesOne(byID, requested, n - 1);
      var c, c' := Chosen(byID, requested, allowed, n - 1), Chosen(byID, requested, allowed, n);
      if allowed == {} || ZoneOf(byID, requested[n - 1]) in allowed {
        ZonesAppend(byID, c, requested[n - 1]);
      }
    }
  }

  /** A requested subnet is chosen as often as it is requested, or not at all when its zone is
      not allowed. */
  lemma {:induction false} ChosenOccurs(byID: Directory, requested: seq<string>, allowed: set<string>, n: nat,
          id: string)
    requires n <= |requested| && Known(byID, requested, n) && id in byID
    ensures multiset(Chosen(byID, requested, allowed, n))[id]
      == if allowed == {} || ZoneOf(byID, id) in allowed then multiset(requested[..n])[id] else 0
  {
    if n > 0 {
      ChosenOccurs(byID, requested, allowed, n - 1, id);
      assert requested[..n] == requested[..n - 1] + [requested[n - 1]];
      assert multiset(requested[..n]) == multiset(requested[..n - 1]) + multiset{requested[n - 1]};
    }
  }

  /** With failure domains asked for and none missing, the zones are exactly those. */
  lemma {:induction false} ZonesCovered(byID: Directory, requested: seq<string>, allowed: set<string>,
          zones: seq<string>)
    requires Known(byID, requested, |requested|) && "" !in allowed && allowed <= ZonesOf(byID, requested, |requested|)
    requires FirstOccurrences(byID, Chosen(byID, requested, allowed, |requested|), zones)
    ensures allowed != {} ==> StringsOf(zones) == allowed
  {
    ChosenSome(byID, requested, allowed, |requested|);
    assert allowed * ZonesOf(byID, requested, |requested|) == allowed;
  }

  // ---------------------------------------------------------------- read off the lists

  /** Of the described subnets the last one called `id` lies in this VPC and zone. */
  ghost predicate DescribedAs(subnets: seq<Subnet>, id: string, vpc: string, zone: string) {
    && id != ""
    && exists i :: 0 <= i < |subnets| && LastOf(subnets, id, i)
                   && vpc == TrimSpace(subnets[i].vpc) && zone == TrimSpace(subnets[i].zone)
  }

  ghost predicate LastOf(subnets: seq<Subnet>, id: string, i: nat)
    requires i < |subnets|
  {
    TrimSpace(subnets[i].id) == id && forall j | i < j < |subnets| :: TrimSpace(subnets[j].id) != id
  }

  lemma {:induction false} ByIdIs(subnets: seq<Subnet>, n: nat, id: string)
    requires n <= |subnets|
    ensures id in ById(subnets, n) <==> id != "" && exists i :: 0 <= i < n && TrimSpace(subnets[i].id) == id
  {
    if n > 0 {
      ByIdIs(subnets, n - 1, id);
    }
  }

  lemma {:induction false} LastWins(subnets: seq<Subnet>, n: nat, id: string, i: nat)
    requires i < n <= |subnets| && TrimSpace(subnets[i].id) == id != ""
    requires forall j | i < j < n :: TrimSpace(subnets[j].id) != id
    ensures id in ById(subnets, n) && ById(subnets, n)[id] == subnets[i]
    decreases n
  {
    if i < n - 1 {
      LastWins(subnets, n - 1, id, i);
    }
  }

  lemma {:induction false} LastCalled(subnets: seq<Subnet>, id: string, n: nat) returns (i: nat)
    requires n <= |subnets| && exists i :: 0 <= i < n && TrimSpace(subnets[i].id) == id
    ensures i < n && TrimSpace(subnets[i].id) == id && forall j | i < j < n :: TrimSpace(subnets[j].id) != id
  {
    i := n - 1;
    if TrimSpace(subnets[n - 1].id) != id {
      i := LastCalled(subnets, id, n - 1);
    }
  }

  lemma {:induction false} DescribedIff(subnets: seq<Subnet>, id: string, vpc: string, zone: string)
    ensures var byID := ById(subnets, |subnets|);
      DescribedAs(subnets, id, vpc, zone) <==> id in byID && vpc == VpcOf(byID, id) && zone == ZoneOf(byID, id)
  {
    ByIdIs(subnets, |subnets|, id);
    if id in ById(subnets, |subnets|) {
      var i := LastCalled(subnets, id, |subnets|);
      assert LastOf(subnets, id, i);
    }
    forall i | 0 <= i < |subnets| && LastOf(subnets, id, i) && id != ""
      ensures id in ById(subnets, |subnets|) && ById(subnets, |subnets|)[id] == subnets[i]
    {
      LastWins(subnets, |subnets|, id, i);
    }
  }

  lemma {:induction false} UnknownIff(subnets: seq<Subnet>, id: string)
    ensures id !in ById(subnets, |subnets|) <==> id == "" || forall d | d in subnets :: TrimSpace(d.id) != id
  {
    ByIdIs(subnets, |subnets|, id);
    if i :| 0 <= i < |subnets| && TrimSpace(subnets[i].id) == id {
      assert subnets[i] in subnets;
    }
  }

  /** Some failure domain asked for is called `zone`. */
  ghost predicate AskedFor(failureDomains: seq<string>, zone: string) {
    zone != "" && exists d :: d in failureDomains && TrimSpace(d) == zone
  }

  lemma {:induction false} AllowedIff(failureDomains: seq<string>, zone: string)
    ensures zone in Allowed(failureDomains, |failureDomains|) <==> AskedFor(failureDomains, zone)
  {
    if AskedFor(failureDomains, zone) {
      var d :| d in failureDomains && TrimSpace(d) == zone;
      var i :| 0 <= i < |failureDomains| && failureDomains[i] == d;
    }
  }

  /** A subnet in this zone may be chosen. */
  ghost predicate Admitted(failureDomains: seq<string>, zone: string) {
    AskedFor(failureDomains, zone) || forall d | d in failureDomains :: TrimSpace(d) == ""
  }

  lemma {:induction false} AdmittedIff(failureDomains: seq<string>, zone: string)
    ensures var allowed := Allowed(failureDomains, |failureDomains|);
      Admitted(failureDomains, zone) <==> allowed == {} || zone in allowed
  {
    var allowed := Allowed(failureDomains, |failureDomains|);
    AllowedIff(failureDomains, zone);
    if d :| d in failureDomains && TrimSpace(d) != "" {
      AllowedIff(failureDomains, TrimSpace(d));
    }
    if z :| z in allowed {
      AllowedIff(failureDomains, z);
    }
  }

  /** Requested subnet `i` lies in this VPC and zone. */
  ghost predicate LiesIn(requested: seq<string>, subnets: seq<Subnet>, i: nat, vpc: string, zone: string) {
    i < |requested| && DescribedAs(subnets, requested[i], vpc, zone)
  }

  ghost predicate InVpc(requested: seq<string>, subnets: seq<Subnet>, i: nat, vpc: string) {
    exists zone :: LiesIn(requested, subnets, i, vpc, zone)
  }

  /** Requested subnet `i` is selected exactly if its zone is admitted. */
  ghost predicate SelectedIff(requested: seq<string>, subnets: seq<Subnet>, failureDomains: seq<string>, vpc: string,
          i: nat, selected: bool)
  {
    exists zone :: LiesIn(requested, subnets, i, vpc, zone) && (selected <==> Admitted(failureDomains, zone))
  }

  lemma {:induction false} ChosenAt(byID: Directory, requested: seq<string>, allowed: set<string>, n: nat)
    returns (at: seq<nat>)
    requires n <= |requested| && Known(byID, requested, n)
    ensures |at| == |Chosen(byID, requested, allowed, n)|
    ensures forall k | 0 <= k < |at| :: at[k] < n && Chosen(byID, requested, allowed, n)[k] == requested[at[k]]
    ensures forall k, l | 0 <= k < l < |at| :: at[k] < at[l]
    ensures forall i: nat | i < n :: i in at <==> allowed == {} || ZoneOf(byID, requested[i]) in allowed
  {
    at := [];
    if n > 0 {
      at := ChosenAt(byID, requested, allowed, n - 1);
      if allowed == {} || ZoneOf(byID, requested[n - 1]) in allowed {
        assert forall i: nat :: i in at + [n - 1] <==> i in at || i == n - 1;
        at := at + [n - 1];
      }
    }
  }

  /** What is selected: the requested subnets whose zone is admitted, in order (`at` says which), the
      VPC they all lie in, and the zones of those selected. */
  lemma {:induction false} SelectionIs(requested: seq<string>, subnets: seq<Subnet>, failureDomains: seq<string>,
          s: Selection)
    returns (at: seq<nat>)
    requires Achievable(requested, subnets, failureDomains) && IsSelection(requested, subnets, failureDomains, s)
    ensures |at| == |s.subnetIDs| && s.vpc != ""
    ensures forall k | 0 <= k < |at| :: at[k] < |requested| && s.subnetIDs[k] == requested[at[k]]
    ensures forall k, l | 0 <= k < l < |at| :: at[k] < at[l]
    ensures forall i: nat | i < |requested| :: SelectedIff(requested, subnets, failureDomains, s.vpc, i, i in at)
    ensures forall z :: z in s.zones <==> z != "" && ZoneOfSome(requested, subnets, at, s.vpc, z)
  {
    var byID := ById(subnets, |subnets|);
    var allowed := Allowed(failureDomains, |failureDomains|);
    at := ChosenAt(byID, requested, allowed, |requested|);
    forall i: nat | i < |requested| ensures SelectedIff(requested, subnets, failureDomains, s.vpc, i, i in at) {
      OneSelected(requested, subnets, failureDomains, s.vpc, i);
    }
    forall z ensures z in s.zones <==> z != "" && ZoneOfSome(requested, subnets, at, s.vpc, z) {
      ZoneSelected(requested, subnets, s, at, z);
    }
  }

  /** One of the requested subnets in `at` lies in this zone. */
  ghost predicate ZoneOfSome(requested: seq<string>, subnets: seq<Subnet>, at: seq<nat>, vpc: string, z: string) {
    exists i: nat :: LiesIn(requested, subnets, i, vpc, z) && i in at
  }

  lemma {:induction false} OneSelected(requested: seq<string>, subnets: seq<Subnet>, failureDomains: seq<string>,
          vpc: string, i: nat)
    requires i < |requested| && requested[i] in ById(subnets, |subnets|)
    requires VpcOf(ById(subnets, |subnets|), requested[i]) == vpc
    ensures var allowed := Allowed(failureDomains, |failureDomains|);
      var zone := ZoneOf(ById(subnets, |subnets|), requested[i]);
      SelectedIff(requested, subnets, failureDomains, vpc, i, allowed == {} || zone in allowed)
  {
    var zone := ZoneOf(ById(subnets, |subnets|), requested[i]);
    DescribedIff(subnets, requested[i], vpc, zone);
    AdmittedIff(failureDomains, zone);
    assert LiesIn(requested, subnets, i, vpc, zone);
  }

  lemma {:induction false} ZoneSelected(requested: seq<string>, subnets: seq<Subnet>, s: Selection, at: seq<nat>,
          z: string)
    requires OneVpc(ById(subnets, |subnets|), requested, |requested|) && |requested| > 0
    requires s.vpc == VpcOf(ById(subnets, |subnets|), requested[0])
    requires FirstOccurrences(ById(subnets, |subnets|), s.subnetIDs, s.zones) && |at| == |s.subnetIDs|
    requires forall k | 0 <= k < |at| :: at[k] < |requested| && s.subnetIDs[k] == requested[at[k]]
    ensures z in s.zones <==> z != "" && ZoneOfSome(requested, subnets, at, s.vpc, z)
  {
    var byID := ById(subnets, |subnets|);
    if z in s.zones {
      var k :| 0 <= k < |s.subnetIDs| && ZoneOf(byID, s.subnetIDs[k]) == z;
      DescribedIff(subnets, requested[at[k]], s.vpc, z);
      assert LiesIn(requested, subnets, at[k], s.vpc, z) && at[k] in at;
    }
    if i: nat :| LiesIn(requested, subnets, i, s.vpc, z) && i in at {
      var k :| 0 <= k < |at| && at[k] == i;
      DescribedIff(subnets, requested[i], s.vpc, z);
      assert ZoneOf(byID, s.subnetIDs[k]) == z;
    }
  }

  /** When a selection exists: all requested subnets are described in one VPC, and each failure domain
      asked for is the zone of one. */
  lemma {:induction false} AchievableIff(requested: seq<string>, subnets: seq<Subnet>, failureDomains: seq<string>)
    ensures Achievable(requested, subnets, failureDomains)
      <==> exists vpc :: Together(requested, subnets, vpc) && AllServed(requested, subnets, failureDomains, vpc)
  {
    var byID := ById(subnets, |subnets|);
    if vpc :| Together(requested, subnets, vpc) && AllServed(requested, subnets, failureDomains, vpc) {
      TogetherIff(requested, subnets, vpc);
      forall z | z in Allowed(failureDomains, |failureDomains|) ensures z in ZonesOf(byID, requested, |requested|) {
        AllowedIff(failureDomains, z);
        ServedIff(requested, subnets, vpc, z);
      }
    }
    if Achievable(requested, subnets, failureDomains) {
      var vpc := VpcOf(byID, requested[0]);
      TogetherIff(requested, subnets, vpc);
      forall z | AskedFor(failureDomains, z) ensures Served(requested, subnets, vpc, z) {
        AllowedIff(failureDomains, z);
        ServedIff(requested, subnets, vpc, z);
      }
    }
  }

  /** Each failure domain asked for is the zone of a requested subnet. */
  ghost predicate AllServed(requested: seq<string>, subnets: seq<Subnet>, failureDomains: seq<string>, vpc: string) {
    forall z | AskedFor(failureDomains, z) :: Served(requested, subnets, vpc, z)
  }

  ghost predicate NoneServed(requested: seq<string>, subnets: seq<Subnet>, failureDomains: seq<string>, vpc: string) {
    && (exists z :: AskedFor(failureDomains, z))
    && forall z | AskedFor(failureDomains, z) :: !Served(requested, subnets, vpc, z)
  }

  /** `zones` are the failure domains asked for that no requested subnet lies in. */
  ghost predicate Unserved(requested: seq<string>, subnets: seq<Subnet>, failureDomains: seq<string>, vpc: string,
          zones: set<string>)
  {
    forall z :: z in zones <==> AskedFor(failureDomains, z) && !Served(requested, subnets, vpc, z)
  }

  /** There are requested subnets, and all lie in this VPC. */
  ghost predicate Together(requested: seq<string>, subnets: seq<Subnet>, vpc: string) {
    && |requested| > 0 && vpc != ""
    && forall i: nat | i < |requested| :: InVpc(requested, subnets, i, vpc)
  }

  /** A requested subnet lies in this zone. */
  ghost predicate Served(requested: seq<string>, subnets: seq<Subnet>, vpc: string, zone: string) {
    exists i: nat :: LiesIn(requested, subnets, i, vpc, zone)
  }

  lemma {:induction false} TogetherIff(requested: seq<string>, subnets: seq<Subnet>, vpc: string)
    ensures var byID := ById(subnets, |subnets|);
      Together(requested, subnets, vpc)
      <==> |requested| > 0 && OneVpc(byID, requested, |requested|) && VpcOf(byID, requested[0]) == vpc
    ensures Together(requested, subnets, vpc) ==> |subnets| > 0
  {
    var byID := ById(subnets, |subnets|);
    forall i: nat | i < |requested|
      ensures InVpc(requested, subnets, i, vpc) <==> requested[i] in byID && vpc == VpcOf(byID, requested[i])
    {
      InVpcIff(requested, subnets, i, vpc);
    }
    if Together(requested, subnets, vpc) {
      assert InVpc(requested, subnets, 0, vpc);
    }
  }

  lemma {:induction false} InVpcIff(requested: seq<string>, subnets: seq<Subnet>, i: nat, vpc: string)
    requires i < |requested|
    ensures var byID := ById(subnets, |subnets|);
      InVpc(requested, subnets, i, vpc) <==> requested[i] in byID && vpc == VpcOf(byID, requested[i])
  {
    var byID := ById(subnets, |subnets|);
    if zone :| LiesIn(requested, subnets, i, vpc, zone) {
      DescribedIff(subnets, requested[i], vpc, zone);
    }
    if requested[i] in byID && vpc == VpcOf(byID, requested[i]) {
      DescribedIff(subnets, requested[i], vpc, ZoneOf(byID, requested[i]));
      assert LiesIn(requested, subnets, i, vpc, ZoneOf(byID, requested[i]));
    }
  }

  lemma {:induction false} ServedIff(requested: seq<string>, subnets: seq<Subnet>, vpc: string, zone: string)
    requires Together(requested, subnets, vpc)
    ensures var byID := ById(subnets, |subnets|);
      Known(byID, requested, |requested|)
      && (Served(requested, subnets, vpc, zone) <==> zone in ZonesOf(byID, requested, |requested|))
  {
    TogetherIff(requested, subnets, vpc);
    forall i: nat | i < |requested|
      ensures LiesIn(requested, subnets, i, vpc, zone) <==> ZoneOf(ById(subnets, |subnets|), requested[i]) == zone
    {
      DescribedIff(subnets, requested[i], vpc, zone);
    }
  }

  /** Subnet `id` is requested, and no described subnet goes by it. */
  ghost predicate Undescribed(subnets: seq<Subnet>, id: string) {
    id == "" || forall d | d in subnets :: TrimSpace(d.id) != id
  }

  /** What each error says about the lists. */
  ghost predicate Justified(requested: seq<string>, subnets: seq<Subnet>, failureDomains: seq<string>, e: SelectError) {
    match e
    case NothingRequested => requested == []
    case NothingDescribed => requested != [] && subnets == []
    case NotFound(id) => id in requested && Undescribed(subnets, id)
    case BlankVpc(id) => exists i: nat :: InVpc(requested, subnets, i, "") && requested[i] == id
    case DifferentVpcs(first, other) =>
      && first != other && first != "" && other != ""
      && InVpc(requested, subnets, 0, first) && exists i: nat :: InVpc(requested, subnets, i, other)
    case NoneUsable => false
    case NoneInDomains =>
      exists vpc :: Together(requested, subnets, vpc) && NoneServed(requested, subnets, failureDomains, vpc)
    case MissingDomains(zones) =>
      zones != {} && exists vpc :: Together(requested, subnets, vpc)
                                   && Unserved(requested, subnets, failureDomains, vpc, zones)
  }

  /** Why there is no selection. */
  lemma {:induction false} ErrorIs(requested: seq<string>, subnets: seq<Subnet>, failureDomains: seq<string>, at: nat,
          e: SelectError)
    requires IsError(requested, subnets, failureDomains, at, e)
    ensures Justified(requested, subnets, failureDomains, e)
  {
    if |requested| > 0 && |subnets| > 0 {
      if at < |requested| {
        UnknownIff(subnets, requested[at]);
        InVpcIff(requested, subnets, 0, VpcFound(subnets, requested[0]));
        InVpcIff(requested, subnets, at, VpcFound(subnets, requested[at]));
      } else {
        DomainsMissing(requested, subnets, failureDomains, e);
      }
    }
  }

  ghost function VpcFound(subnets: seq<Subnet>, id: string): string {
    var byID := ById(subnets, |subnets|);
    if id in byID then VpcOf(byID, id) else ""
  }

  lemma {:induction false} DomainsMissing(requested: seq<string>, subnets: seq<Subnet>, failureDomains: seq<string>,
          e: SelectError)
    requires |requested| > 0 && |subnets| > 0 && IsError(requested, subnets, failureDomains, |requested|, e)
    ensures Justified(requested, subnets, failureDomains, e)
  {
    var byID := ById(subnets, |subnets|);
    var vpc := VpcOf(byID, requested[0]);
    TogetherIff(requested, subnets, vpc);
    forall z
      ensures z in Allowed(failureDomains, |failureDomains|) <==> AskedFor(failureDomains, z)
      ensures z in ZonesOf(byID, requested, |requested|) <==> Served(requested, subnets, vpc, z)
    {
      AllowedIff(failureDomains, z);
      ServedIff(requested, subnets, vpc, z);
    }
    if e.MissingDomains? {
      assert Unserved(requested, subnets, failureDomains, vpc, e.zones);
    } else {
      assert NoneServed(requested, subnets, failureDomains, vpc);
    }
  }
}
