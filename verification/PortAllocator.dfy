/** The frontend port allocator (internal/portallocator/allocator.go): its specification
    as three folds over the ordered requests, and the loops that compute it. */
module PortAllocator {
  import opened Prelude
  import opened Sorting

  datatype Request = Request(uid: string, name: string, pin: Option<int32>)

  /** The five ways a call fails. `PinConflict` names the earlier and the later claimant. */
  datatype AllocError =
    | InvalidStart(start: int32)
    | InvalidRange(start: int32, end: int32)
    | PinOutOfRange(name: string, port: int32)
    | PinConflict(port: int32, first: string, second: string)
    | Insufficient(links: nat)

  type Ports = map<string, int32>

  type Allocation = Result<Ports, AllocError>

  // ---------------------------------------------------------------- specification

  ghost function Uids(s: seq<Request>): set<string> {
    set r | r in s :: r.uid
  }

  function Named(r: Request): Request {
    if r.name == "" then r.(name := r.uid) else r
  }

  /** The first `n` requests, keeping only the first one of every UID. */
  ghost function Dedupe(s: seq<Request>, n: nat): seq<Request>
    requires n <= |s|
  {
    if n == 0 then []
    else if s[n - 1].uid in Uids(Dedupe(s, n - 1)) then Dedupe(s, n - 1)
    else Dedupe(s, n - 1) + [Named(s[n - 1])]
  }

  /** The order in which requests are served: by name, then by UID. */
  predicate ByNameUid(a: Request, b: Request) {
    if a.name == b.name then StrLeq(a.uid, b.uid) else StrLeq(a.name, b.name)
  }

  ghost function Ordered(s: seq<Request>): seq<Request> {
    Sort(Dedupe(s, |s|), ByNameUid)
  }

  /** Name of the first request pinning `port`. */
  ghost function FirstPinner(s: seq<Request>, port: int32): string {
    if |s| == 0 then ""
    else if s[0].pin == Some(port) then s[0].name
    else FirstPinner(s[1..], port)
  }

  /** Phase 1: pinned requests take their port or fail the call. */
  ghost function Pins(s: seq<Request>, start: int32, end: int32, n: nat): Allocation
    requires n <= |s|
  {
    if n == 0 then Ok(map[])
    else
      match Pins(s, start, end, n - 1)
      case Err(e) => Err(e)
      case Ok(m) =>
        match s[n - 1].pin
        case None => Ok(m)
        case Some(p) =>
          if !(start <= p <= end) then Err(PinOutOfRange(s[n - 1].name, p))
          else if p in m.Values then Err(PinConflict(p, FirstPinner(s, p), s[n - 1].name))
          else Ok(m[s[n - 1].uid := p])
  }

  /** Whether phase 2 lets `uid` keep its previous port when `m` is taken already. */
  ghost predicate MayKeep(existing: Ports, m: Ports, start: int32, end: int32, uid: string) {
    uid !in m && uid in existing && start <= existing[uid] <= end && existing[uid] !in m.Values
  }

  /** Phase 2: previous ports that are still usable are kept, first come first served. */
  ghost function Keeps(existing: Ports, s: seq<Request>, pins: Ports, start: int32, end: int32, n: nat): Ports
    requires n <= |s|
  {
    if n == 0 then pins
    else
      var m := Keeps(existing, s, pins, start, end, n - 1);
      var uid := s[n - 1].uid;
      if MayKeep(existing, m, start, end, uid) then m[uid := existing[uid]] else m
  }

  /** Last position the scan may visit. Positions are unbounded integers and position `q`
      denotes port `Wrap32(q)`; below the largest int32 the two coincide. When `end` is the
      largest int32 the cursor overflows and the scan goes on around the 32-bit circle. */
  function Limit(start: int32, end: int32): int {
    if end < MAX_INT32 then end else start + TWO_TO_32 - 1
  }

  function Capacity(start: int32, end: int32): int {
    Limit(start, end) - start + 1
  }

  /** First position in lo..hi whose port is not in use, searched afresh. */
  ghost function LeastFree(used: set<int32>, lo: int, hi: int): Option<int>
    decreases hi + 1 - lo
  {
    if lo > hi then None
    else if Wrap32(lo) !in used then Some(lo)
    else LeastFree(used, lo + 1, hi)
  }

  /** Phase 3, naively: every request without a port searches the least free one from the
      start of the range. */
  ghost function Fills(s: seq<Request>, kept: Ports, start: int32, end: int32, n: nat): Option<Ports>
    requires n <= |s|
  {
    if n == 0 then Some(kept)
    else
      match Fills(s, kept, start, end, n - 1)
      case None => None
      case Some(m) =>
        if s[n - 1].uid in m then Some(m)
        else
          match LeastFree(m.Values, start, Limit(start, end))
          case None => None
          case Some(q) => Some(m[s[n - 1].uid := Wrap32(q)])
  }

  /** What one call returns. */
  ghost function Allocate(existing: Ports, requests: seq<Request>, start: int32, end: int32): Allocation {
    if start <= 0 then Err(InvalidStart(start))
    else if end < start then Err(InvalidRange(start, end))
    else
      var s := Ordered(requests);
      match Pins(s, start, end, |s|)
      case Err(e) => Err(e)
      case Ok(pins) =>
        match Fills(s, Keeps(existing, s, pins, start, end, |s|), start, end, |s|)
        case None => Err(Insufficient(|s|))
        case Some(m) => Ok(m)
  }

  // ---------------------------------------------------------------- facts about the parts

  ghost predicate DistinctUids(s: seq<Request>) {
    forall i, j | 0 <= i < j < |s| :: s[i].uid != s[j].uid
  }

  ghost predicate Injective(m: Ports) {
    forall a, b | a in m && b in m && m[a] == m[b] :: a == b
  }

  ghost predicate InRange(m: Ports, start: int, end: int) {
    forall u | u in m :: start <= m[u] <= end
  }

  ghost predicate Extends(m: Ports, base: Ports) {
    forall u | u in base :: u in m && m[u] == base[u]
  }

  lemma {:induction false} ByNameUidOrders()
    ensures TotalPreorder(ByNameUid)
    ensures forall a, b | ByNameUid(a, b) && ByNameUid(b, a) :: a.uid == b.uid
  {
    forall a, b
      ensures ByNameUid(a, b) || ByNameUid(b, a)
      ensures ByNameUid(a, b) && ByNameUid(b, a) ==> a.uid == b.uid
    {
      StrLeqTotal(a.name, b.name);
      StrLeqTotal(a.uid, b.uid);
    }
    forall a, b, c | ByNameUid(a, b) && ByNameUid(b, c)
      ensures ByNameUid(a, c)
    {
      if a.name == b.name && b.name == c.name {
        StrLeqTransitive(a.uid, b.uid, c.uid);
      } else if a.name != b.name && b.name != c.name {
        StrLeqTransitive(a.name, b.name, c.name);
        if a.name == c.name {
          StrLeqTotal(a.name, b.name);
        }
      }
    }
  }

  lemma {:induction false} UidsAppend(s: seq<Request>, r: Request)
    ensures Uids(s + [r]) == Uids(s) + {r.uid}
    ensures DistinctUids(s) && r.uid !in Uids(s) ==> DistinctUids(s + [r])
  {
    assert forall x :: x in s + [r] <==> x in s || x == r;
    forall i | 0 <= i < |s| ensures s[i].uid in Uids(s) {
      assert s[i] in s;
    }
  }

  lemma {:induction false} OneMoreUid(s: seq<Request>, r: Request)
    requires DistinctUids(s) && |s| == |Uids(s)| && r.uid !in Uids(s)
    ensures DistinctUids(s + [r]) && |s + [r]| == |Uids(s + [r])|
  {
    UidsAppend(s, r);
  }

  lemma {:induction false} DedupeUids(s: seq<Request>, n: nat)
    requires n <= |s|
    ensures Uids(Dedupe(s, n)) == Uids(s[..n])
  {
    if n > 0 {
      DedupeUids(s, n - 1);
      assert s[..n] == s[..n - 1] + [s[n - 1]];
      UidsAppend(s[..n - 1], s[n - 1]);
      UidsAppend(Dedupe(s, n - 1), Named(s[n - 1]));
    }
  }

  lemma {:induction false} DedupeDistinct(s: seq<Request>, n: nat)
    requires n <= |s|
    ensures DistinctUids(Dedupe(s, n))
    ensures Uids(Dedupe(s, n)) == Uids(s[..n])
    ensures |Dedupe(s, n)| == |Uids(s[..n])|
  {
    DedupeUids(s, n);
    if n > 0 {
      DedupeDistinct(s, n - 1);
      DedupeUids(s, n - 1);
      if s[n - 1].uid !in Uids(Dedupe(s, n - 1)) {
        OneMoreUid(Dedupe(s, n - 1), Named(s[n - 1]));
      }
    }
  }

  /** The requests served are the deduplicated ones, in an order that depends on nothing
      but their names and UIDs. */
  lemma {:induction false} OrderedRequests(requests: seq<Request>)
    ensures var s := Ordered(requests);
      && DistinctUids(s) && Uids(s) == Uids(requests) && |s| == |Uids(requests)|
      && multiset(s) == multiset(Dedupe(requests, |requests|))
      && Sorted(s, ByNameUid)
  {
    var d := Dedupe(requests, |requests|);
    DedupeDistinct(requests, |requests|);
    assert requests[..|requests|] == requests;
    ByNameUidOrders();
    SortSorts(d, ByNameUid);
    PermutedDistinct(d, Ordered(requests));
  }

  lemma {:induction false} PermutedDistinct(a: seq<Request>, b: seq<Request>)
    requires multiset(a) == multiset(b) && DistinctUids(a)
    ensures DistinctUids(b)
    ensures Uids(a) == Uids(b)
  {
    SameMultiset(a, b);
    PermutedNoDuplicates(a, b);
    forall i, j | 0 <= i < j < |b|
      ensures b[i].uid != b[j].uid
    {
      assert b[i] in a && b[j] in a && b[i] != b[j];
    }
  }

  lemma {:induction false} ValuesOfUpdate(m: Ports, k: string, v: int32)
    requires k !in m
    ensures m[k := v].Values == m.Values + {v}
    ensures m[k := v].Keys == m.Keys + {k}
    ensures Injective(m) && v !in m.Values ==> Injective(m[k := v])
  {
    var u := m[k := v];
    assert forall x | x in m.Values + {v} :: x in u.Values by {
      assert u[k] == v;
      forall x | x in m.Values ensures x in u.Values {
        var a :| a in m && m[a] == x;
        assert u[a] == x;
      }
    }
  }

  lemma {:induction false} ValuesOfExtension(m: Ports, base: Ports)
    requires Extends(m, base)
    ensures base.Values <= m.Values
  {
    forall p | p in base.Values ensures p in m.Values {
      var u :| u in base && base[u] == p;
      assert m[u] == p;
    }
  }

  lemma {:induction false} LeastFreeSpec(used: set<int32>, lo: int, hi: int)
    ensures match LeastFree(used, lo, hi)
      case None => forall q | lo <= q <= hi :: Wrap32(q) in used
      case Some(p) => lo <= p <= hi && Wrap32(p) !in used && forall q | lo <= q < p :: Wrap32(q) in used
    decreases hi + 1 - lo
  {
    if lo <= hi && Wrap32(lo) in used {
      LeastFreeSpec(used, lo + 1, hi);
    }
  }

  lemma {:induction false} LeastFreeIsFree(used: set<int32>, lo: int, hi: int)
    ensures LeastFree(used, lo, hi).Some? ==> Wrap32(LeastFree(used, lo, hi).value) !in used
    decreases hi + 1 - lo
  {
    if lo <= hi && Wrap32(lo) in used {
      LeastFreeIsFree(used, lo + 1, hi);
    }
  }

  // ---------------------------------------------------------------- the algorithm

  /** The cursor closure. `pos` is the position the cursor stands for. It is never rewound;
      at the top of the int32 range the increment wraps around. */
  method FindNext(used: set<int32>, next: int32, end: int32, ghost pos: int, ghost limit: int)
    returns (port: int32, found: bool, next': int32, ghost pos': int)
    requires next == Wrap32(pos)
    requires end < MAX_INT32 ==> limit == end && MIN_INT32 <= pos <= end + 1
    requires end == MAX_INT32 ==> LeastFree(used, pos, limit).Some?
    ensures found == LeastFree(used, pos, limit).Some?
    ensures found ==> LeastFree(used, pos, limit) == Some(pos' - 1) && port == Wrap32(pos' - 1)
    ensures next' == Wrap32(pos') && pos <= pos'
    ensures end < MAX_INT32 ==> pos' <= end + 1 && next' == pos'
  {
    next', pos' := next, pos;
    while next' <= end
      invariant next' == Wrap32(pos') && pos <= pos'
      invariant end < MAX_INT32 ==> pos' <= end + 1
      invariant LeastFree(used, pos, limit) == LeastFree(used, pos', limit)
      invariant end == MAX_INT32 ==> pos' <= limit
      decreases limit + 1 - pos'
    {
      WrapNext(pos');
      if next' !in used {
        port, found := next', true;
        next', pos' := Wrap32(next' + 1), pos' + 1;
        return;
      }
      next', pos' := Wrap32(next' + 1), pos' + 1;
    }
    return 0, false, next', pos';
  }

  /** First loop: drop repeated UIDs and name the nameless. */
  method CollectRequests(linkRequests: seq<Request>) returns (requests: seq<Request>)
    ensures requests == Dedupe(linkRequests, |linkRequests|)
  {
    requests := [];
    var want: set<string> := {};
    for i := 0 to |linkRequests|
      invariant requests == Dedupe(linkRequests, i)
      invariant want == Uids(requests)
    {
      var req := linkRequests[i];
      if req.uid !in want {
        if req.name == "" {
          req := req.(name := req.uid);
        }
        UidsAppend(requests, req);
        want := want + {req.uid};
        requests := requests + [req];
      }
    }
  }

  /** Second loop: pinned ports. */
  method ApplyPins(requests: seq<Request>, start: int32, end: int32)
    returns (r: Allocation, used: set<int32>)
    requires DistinctUids(requests)
    ensures r == Pins(requests, start, end, |requests|)
    ensures r.Ok? ==> used == r.value.Values
  {
    var result: Ports := map[];
    used := {};
    var requestedByPort: map<int32, Request> := map[];
    for i := 0 to |requests|
      invariant Pins(requests, start, end, i) == Ok(result)
      invariant used == result.Values == requestedByPort.Keys
      invariant forall k | i <= k < |requests| :: requests[k].uid !in result
      invariant forall p | p in requestedByPort :: requestedByPort[p].name == FirstPinner(requests, p)
      invariant forall k | 0 <= k < i && requests[k].pin.Some? :: requests[k].pin.value in used
    {
      var req := requests[i];
      if req.pin.Some? {
        var port := req.pin.value;
        if port < start || port > end {
          PinsFailEarly(requests, start, end, i + 1);
          return Err(PinOutOfRange(req.name, port)), used;
        }
        if port in requestedByPort {
          PinsFailEarly(requests, start, end, i + 1);
          return Err(PinConflict(port, requestedByPort[port].name, req.name)), used;
        }
        FirstPinnerAt(requests, i, port);
        ValuesOfUpdate(result, req.uid, port);
        requestedByPort := requestedByPort[port := req];
        result := result[req.uid := port];
        used := used + {port};
      }
    }
    return Ok(result), used;
  }

  /** Third loop: previous ports. */
  method KeepExisting(existing: Ports, requests: seq<Request>, pins: Ports, pinnedPorts: set<int32>, start: int32,
          end: int32)
    returns (result: Ports, used: set<int32>)
    requires pinnedPorts == pins.Values
    ensures result == Keeps(existing, requests, pins, start, end, |requests|)
    ensures used == result.Values
  {
    result, used := pins, pinnedPorts;
    for i := 0 to |requests|
      invariant result == Keeps(existing, requests, pins, start, end, i)
      invariant used == result.Values
    {
      var uid := requests[i].uid;
      if uid !in result && uid in existing {
        var port := existing[uid];
        if start <= port <= end && port !in used {
          ValuesOfUpdate(result, uid, port);
          result := result[uid := port];
          used := used + {port};
        }
      }
    }
  }

  /** The cursor's next port for request `i`. */
  method Serve(requests: seq<Request>, ghost kept: Ports, ghost start: int32, end: int32, i: nat, ghost result: Ports,
          used: set<int32>, next: int32, ghost pos: int)
    returns (port: int32, found: bool, next': int32, ghost pos': int)
    requires i < |requests| && Scanning(requests, kept, start, end, i, result, used, pos)
    requires 0 < start <= end && next == Wrap32(pos) && requests[i].uid !in result
    requires end == MAX_INT32 ==> |Uids(requests)| <= TWO_TO_32
    ensures !found ==> Fills(requests, kept, start, end, |requests|).None?
    ensures found ==>
      Scanning(requests, kept, start, end, i + 1, result[requests[i].uid := port], used + {port}, pos')
    ensures next' == Wrap32(pos')
  {
    ScanReady(requests, kept, start, end, i, result, used, pos);
    port, found, next', pos' := FindNext(used, next, end, pos, Limit(start, end));
    if found {
      ScanFound(requests, kept, start, end, i, result, used, pos, pos' - 1);
    }
  }

  /** Last loop: the cursor scan, which agrees with searching afresh for every request. */
  method FillFree(requests: seq<Request>, kept: Ports, keptPorts: set<int32>, start: int32, end: int32)
    returns (r: Allocation)
    requires 0 < start <= end
    requires keptPorts == kept.Values && Injective(kept) && kept.Keys <= Uids(requests)
    requires end == MAX_INT32 ==> |Uids(requests)| <= TWO_TO_32
    ensures match Fills(requests, kept, start, end, |requests|)
      case None => r == Err(Insufficient(|requests|))
      case Some(m) => r == Ok(m)
  {
    var result: Ports := kept;
    var used: set<int32> := keptPorts;
    var next: int32 := start;
    ghost var pos: int := start;
    ScanStarts(requests, kept, start, end);
    for i := 0 to |requests|
      invariant Scanning(requests, kept, start, end, i, result, used, pos)
      invariant next == Wrap32(pos)
    {
      var uid := requests[i].uid;
      if uid in result {
        ScanServed(requests, kept, start, end, i, result, used, pos);
        continue;
      }
      var port, found;
      port, found, next, pos := Serve(requests, kept, start, end, i, result, used, next, pos);
      if !found {
        return Err(Insufficient(|requests|));
      }
      result := result[uid := port];
      used := used + {port};
    }
    return Ok(result);
  }

  /** ReconcilePorts. With more than 2^32 distinct UIDs and `end` at the largest int32 the
      source's scan finds no free value and does not return; no caller can hold that many. */
  method ReconcilePorts(existing: Ports, linkRequests: seq<Request>, start: int32, end: int32)
    returns (r: Allocation)
    requires end == MAX_INT32 ==> |Uids(linkRequests)| <= TWO_TO_32
    ensures r == Allocate(existing, linkRequests, start, end)
  {
    if start <= 0 {
      return Err(InvalidStart(start));
    }
    if end < start {
      return Err(InvalidRange(start, end));
    }
    var requests := CollectRequests(linkRequests);
    requests := Sort(requests, ByNameUid);
    OrderedRequests(linkRequests);
    var pinned, used := ApplyPins(requests, start, end);
    if pinned.Err? {
      return pinned;
    }
    KeptIsPartial(existing, requests, pinned.value, start, end);
    var kept;
    kept, used := KeepExisting(existing, requests, pinned.value, used, start, end);
    r := FillFree(requests, kept, used, start, end);
  }

  // ---------------------------------------------------------------- lemmas of the loops

  lemma {:induction false} PinsFailEarly(s: seq<Request>, start: int32, end: int32, n: nat)
    requires n <= |s| && Pins(s, start, end, n).Err?
    ensures Pins(s, start, end, |s|) == Pins(s, start, end, n)
    decreases |s| - n
  {
    if n < |s| {
      PinsFailEarly(s, start, end, n + 1);
    }
  }

  lemma {:induction false} FillsFailEarly(s: seq<Request>, kept: Ports, start: int32, end: int32, n: nat)
    requires n <= |s| && Fills(s, kept, start, end, n).None?
    ensures Fills(s, kept, start, end, |s|).None?
    decreases |s| - n
  {
    if n < |s| {
      FillsFailEarly(s, kept, start, end, n + 1);
    }
  }

  lemma {:induction false} FirstPinnerAt(s: seq<Request>, i: nat, p: int32)
    requires i < |s| && s[i].pin == Some(p) && forall k | 0 <= k < i :: s[k].pin != Some(p)
    ensures FirstPinner(s, p) == s[i].name
  {
    if i > 0 {
      FirstPinnerAt(s[1..], i - 1, p);
    }
  }

  /** Phase 1 yields an injective map into the range over the pinned UIDs. */
  lemma {:induction false} PinsSpec(s: seq<Request>, start: int32, end: int32, n: nat)
    requires n <= |s| && DistinctUids(s)
    requires Pins(s, start, end, n).Ok?
    ensures var m := Pins(s, start, end, n).value;
      && Injective(m) && InRange(m, start, end)
      && (forall u | u in m :: exists k :: 0 <= k < n && s[k].uid == u && s[k].pin == Some(m[u]))
      && (forall k | 0 <= k < n && s[k].pin.Some? :: s[k].uid in m && m[s[k].uid] == s[k].pin.value)
  {
    if n > 0 {
      PinsSpec(s, start, end, n - 1);
      var m := Pins(s, start, end, n - 1).value;
      if s[n - 1].pin.Some? {
        assert s[n - 1].uid !in m;
        ValuesOfUpdate(m, s[n - 1].uid, s[n - 1].pin.value);
      }
    }
  }

  /** Phase 2 only adds, stays injective and in range, and what it adds is a previous port
      of a UID of `s`. */
  lemma {:induction false} KeepsSpec(existing: Ports, s: seq<Request>, pins: Ports, start: int32, end: int32, n: nat)
    requires n <= |s| && Injective(pins) && InRange(pins, start, end)
    ensures var m := Keeps(existing, s, pins, start, end, n);
      && Injective(m) && InRange(m, start, end) && Extends(m, pins)
      && (forall u | u in m && u !in pins :: u in existing && m[u] == existing[u] && u in Uids(s))
  {
    if n > 0 {
      KeepsSpec(existing, s, pins, start, end, n - 1);
      var m := Keeps(existing, s, pins, start, end, n - 1);
      var uid := s[n - 1].uid;
      if MayKeep(existing, m, start, end, uid) {
        ValuesOfUpdate(m, uid, existing[uid]);
        assert s[n - 1] in s;
      }
    }
  }

  lemma {:induction false} KeptIsPartial(existing: Ports, s: seq<Request>, pins: Ports, start: int32, end: int32)
    requires DistinctUids(s) && Pins(s, start, end, |s|) == Ok(pins)
    ensures Injective(pins) && InRange(pins, start, end) && pins.Keys <= Uids(s)
    ensures var m := Keeps(existing, s, pins, start, end, |s|);
      && Injective(m) && InRange(m, start, end) && Extends(m, pins) && m.Keys <= Uids(s)
      && (forall u | u in m && u !in pins :: u in existing && m[u] == existing[u])
  {
    PinsSpec(s, start, end, |s|);
    forall u | u in pins ensures u in Uids(s) {
      var k :| 0 <= k < |s| && s[k].uid == u && s[k].pin == Some(pins[u]);
      assert s[k] in s;
    }
    KeepsSpec(existing, s, pins, start, end, |s|);
  }

  /** Every position in lo..hi-1 denotes a used port. */
  ghost predicate AllUsed(used: set<int32>, lo: int, hi: int) {
    forall q | lo <= q < hi :: Wrap32(q) in used
  }

  /** Searching from the start and from behind the used positions comes to the same. */
  lemma {:induction false} SkipUsed(used: set<int32>, start: int, pos: int, hi: int)
    requires start <= pos && AllUsed(used, start, pos)
    ensures LeastFree(used, start, hi) == LeastFree(used, pos, hi)
    decreases pos - start
  {
    if start < pos {
      SkipUsed(used, start + 1, pos, hi);
    }
  }

  /** After position `p` is handed out everything up to it is used. */
  lemma {:induction false} AllUsedBehind(used: set<int32>, start: int, pos: int, p: int, hi: int)
    requires AllUsed(used, start, pos) && LeastFree(used, pos, hi) == Some(p)
    ensures AllUsed(used + {Wrap32(p)}, start, p + 1)
    ensures pos <= p <= hi && Wrap32(p) !in used
  {
    LeastFreeSpec(used, pos, hi);
  }

  /** State of the last loop before request `i`: nothing behind the cursor is free. */
  ghost predicate Scanning(s: seq<Request>, kept: Ports, start: int32, end: int32, i: nat, m: Ports, used: set<int32>,
          pos: int)
    requires i <= |s|
  {
    && Fills(s, kept, start, end, i) == Some(m)
    && used == m.Values && Injective(m) && m.Keys <= Uids(s)
    && start <= pos && (end < MAX_INT32 ==> pos <= end + 1)
    && AllUsed(used, start, pos)
  }

  lemma {:induction false} ScanStarts(s: seq<Request>, kept: Ports, start: int32, end: int32)
    requires 0 < start <= end && Injective(kept) && kept.Keys <= Uids(s)
    ensures Scanning(s, kept, start, end, 0, kept, kept.Values, start) && Wrap32(start) == start
  {
  }

  lemma {:induction false} ScanReady(s: seq<Request>, kept: Ports, start: int32, end: int32, i: nat, m: Ports,
          used: set<int32>, pos: int)
    requires i < |s| && Scanning(s, kept, start, end, i, m, used, pos)
    requires s[i].uid !in m
    requires end == MAX_INT32 ==> |Uids(s)| <= TWO_TO_32
    ensures end == MAX_INT32 ==> LeastFree(used, pos, Limit(start, end)).Some?
    ensures LeastFree(used, start, Limit(start, end)) == LeastFree(used, pos, Limit(start, end))
    ensures LeastFree(used, pos, Limit(start, end)).None? ==> Fills(s, kept, start, end, |s|).None?
  {
    SkipUsed(used, start, pos, Limit(start, end));
    if LeastFree(used, pos, Limit(start, end)).None? {
      FillsFailEarly(s, kept, start, end, i + 1);
    }
    if end == MAX_INT32 {
      assert s[i] in s;
      RoomLeft(s, m, s[i].uid, start, Limit(start, end));
    }
  }

  lemma {:induction false} ScanServed(s: seq<Request>, kept: Ports, start: int32, end: int32, i: nat, m: Ports,
          used: set<int32>, pos: int)
    requires i < |s| && Scanning(s, kept, start, end, i, m, used, pos) && s[i].uid in m
    ensures Scanning(s, kept, start, end, i + 1, m, used, pos)
  {
  }

  lemma {:induction false} ScanFound(s: seq<Request>, kept: Ports, start: int32, end: int32, i: nat, m: Ports,
          used: set<int32>, pos: int, p: int)
    requires i < |s| && Scanning(s, kept, start, end, i, m, used, pos)
    requires s[i].uid !in m
    requires LeastFree(used, pos, Limit(start, end)) == Some(p)
    ensures Scanning(s, kept, start, end, i + 1, m[s[i].uid := Wrap32(p)], used + {Wrap32(p)}, p + 1)
  {
    assert s[i] in s;
    SkipUsed(used, start, pos, Limit(start, end));
    AllUsedBehind(used, start, pos, p, Limit(start, end));
    ValuesOfUpdate(m, s[i].uid, Wrap32(p));
  }

  // ---------------------------------------------------------------- counting

  lemma {:induction false} SubsetCard<T>(a: set<T>, b: set<T>)
    requires a <= b
    ensures |a| <= |b|
    ensures |a| == |b| ==> a == b
  {
    if a != {} {
      var x :| x in a;
      SubsetCard(a - {x}, b - {x});
      assert a == a - {x} + {x} && b == b - {x} + {x};
    }
  }

  lemma {:induction false} ImageCard(m: Ports, keys: set<string>)
    requires Injective(m) && keys <= m.Keys
    ensures |set k | k in keys :: m[k]| == |keys|
    decreases keys
  {
    if keys != {} {
      var k :| k in keys;
      ImageCard(m, keys - {k});
      var rest := set x | x in keys - {k} :: m[x];
      assert (set x | x in keys :: m[x]) == rest + {m[k]};
      assert m[k] !in rest;
    }
  }

  lemma {:induction false} InjectiveCard(m: Ports)
    requires Injective(m)
    ensures |m.Values| == |m.Keys|
  {
    ImageCard(m, m.Keys);
    assert m.Values == set k | k in m.Keys :: m[k];
  }

  /** The ports of the positions lo..hi. */
  ghost function Window(lo: int, hi: int): set<int32> {
    set q | lo <= q <= hi :: Wrap32(q)
  }

  lemma {:induction false} WindowCard(lo: int, hi: int)
    requires lo - 1 <= hi < lo + TWO_TO_32
    ensures |Window(lo, hi)| == hi - lo + 1
    decreases hi + 1 - lo
  {
    if lo <= hi {
      WindowCard(lo, hi - 1);
      forall q | lo <= q < hi ensures Wrap32(q) != Wrap32(hi) {
        Wrap32Injective(q, hi);
      }
      assert Window(lo, hi) == Window(lo, hi - 1) + {Wrap32(hi)};
    }
  }

  /** Pigeonhole: a full window needs as many users as it has ports. */
  lemma {:induction false} FullWindow(m: Ports, lo: int, hi: int)
    requires Injective(m) && lo - 1 <= hi < lo + TWO_TO_32
    requires forall q | lo <= q <= hi :: Wrap32(q) in m.Values
    ensures hi - lo + 1 <= |m|
  {
    WindowCard(lo, hi);
    InjectiveCard(m);
    SubsetCard(Window(lo, hi), m.Values);
  }

  lemma {:induction false} RoomLeft(s: seq<Request>, m: Ports, uid: string, start: int32, limit: int)
    requires Injective(m) && m.Keys <= Uids(s) && uid in Uids(s) && uid !in m
    requires |Uids(s)| <= limit - start + 1 <= TWO_TO_32
    ensures LeastFree(m.Values, start, limit).Some?
  {
    SubsetCard(m.Keys, Uids(s) - {uid});
    LeastFreeSpec(m.Values, start, limit);
    if LeastFree(m.Values, start, limit).None? {
      FullWindow(m, start, limit);
    }
  }
}
