/** In which order the allocator serves its requests, and why it fails, read off the requests
    themselves (internal/portallocator/allocator.go). */
module ServingOrder {
  import opened Prelude
  import opened Sorting
  import opened PortAllocator
  import opened AllocatorProperties

  /** Request `i` is the first of its UID. */
  ghost predicate FirstOfUid(requests: seq<Request>, i: nat) {
    i < |requests| && forall k | 0 <= k < i :: requests[k].uid != requests[i].uid
  }

  /** A blank name counts as the UID. */
  function CalledName(r: Request): string {
    if r.name == "" then r.uid else r.name
  }

  /** `a` has the smaller name, or the same one and the smaller UID. */
  ghost predicate ComesFirst(a: Request, b: Request) {
    if CalledName(a) == CalledName(b) then StrLeq(a.uid, b.uid) && a.uid != b.uid
    else StrLeq(CalledName(a), CalledName(b))
  }

  /** `r` stands for request `i`. */
  ghost predicate StandsFor(requests: seq<Request>, i: nat, r: Request) {
    FirstOfUid(requests, i) && r == requests[i].(name := CalledName(requests[i]))
  }

  lemma {:induction false} UidSeen(requests: seq<Request>, n: nat, u: string)
    requires n <= |requests|
    ensures u in Uids(Dedupe(requests, n)) <==> exists k :: 0 <= k < n && requests[k].uid == u
  {
    DedupeUids(requests, n);
    if k :| 0 <= k < n && requests[k].uid == u {
      assert requests[..n][k] in requests[..n];
    }
  }

  lemma {:induction false} DedupeStep(requests: seq<Request>, n: nat, r: Request)
    requires 0 < n <= |requests|
    ensures r in Dedupe(requests, n) <==> r in Dedupe(requests, n - 1) || StandsFor(requests, n - 1, r)
  {
    UidSeen(requests, n - 1, requests[n - 1].uid);
  }

  lemma {:induction false} DedupeIs(requests: seq<Request>, n: nat, r: Request)
    requires n <= |requests|
    ensures r in Dedupe(requests, n) <==> exists i :: 0 <= i < n && StandsFor(requests, i, r)
  {
    if n > 0 {
      DedupeIs(requests, n - 1, r);
      DedupeStep(requests, n, r);
    }
  }

  /** Served are the first requests of each UID, by the names they are called. */
  lemma {:induction false} ServedAre(requests: seq<Request>, r: Request)
    ensures r in Ordered(requests) <==> exists i :: 0 <= i < |requests| && StandsFor(requests, i, r)
  {
    DedupeIs(requests, |requests|, r);
    OrderedRequests(requests);
    SameMultiset(Ordered(requests), Dedupe(requests, |requests|));
  }

  /** They are served by name, and by UID where names agree. */
  lemma {:induction false} ServedInOrder(requests: seq<Request>, i: nat, j: nat)
    requires i < j < |Ordered(requests)|
    ensures var a, b := Ordered(requests)[i], Ordered(requests)[j];
      && a.uid != b.uid && StrLeq(a.name, b.name)
      && (a.name == b.name ==> StrLeq(a.uid, b.uid))
  {
    OrderedRequests(requests);
    var a, b := Ordered(requests)[i], Ordered(requests)[j];
    assert ByNameUid(a, b);
    StrLeqTotal(a.name, b.name);
  }

  lemma {:induction false} ServedAt(requests: seq<Request>, i: nat) returns (k: nat)
    requires DistinctUids(requests) && i < |requests|
    ensures k < |Ordered(requests)| && StandsFor(requests, i, Ordered(requests)[k])
  {
    var r := requests[i].(name := CalledName(requests[i]));
    assert StandsFor(requests, i, r);
    ServedAre(requests, r);
    k :| 0 <= k < |Ordered(requests)| && Ordered(requests)[k] == r;
  }

  /** So of two requests the one that comes first is served first. */
  lemma {:induction false} FirstIsServedFirst(requests: seq<Request>, i: nat, j: nat, k: nat, l: nat)
    requires DistinctUids(requests) && i < |requests| && j < |requests| && i != j
    requires ComesFirst(requests[i], requests[j])
    requires k < |Ordered(requests)| && StandsFor(requests, i, Ordered(requests)[k])
    requires l < |Ordered(requests)| && StandsFor(requests, j, Ordered(requests)[l])
    ensures k < l
  {
    var a, b := requests[i], requests[j];
    assert a.uid != b.uid;
    if l < k {
      ServedInOrder(requests, l, k);
      StrLeqTotal(CalledName(a), CalledName(b));
      StrLeqTotal(a.uid, b.uid);
    }
  }

  // ---------------------------------------------------------------- whose port is smaller

  lemma {:induction false} UnsatisfiedGrows(s: seq<Request>, kept: Ports, k: nat, l: nat)
    requires k < l <= |s| && s[k].uid !in kept
    ensures Unsatisfied(s, kept, k) < Unsatisfied(s, kept, l)
    decreases l
  {
    if k < l - 1 {
      UnsatisfiedGrows(s, kept, k, l - 1);
    }
  }

  /** The turns that come later are at later positions. */
  lemma {:induction false} LaterTurn(s: seq<Request>, kept: Ports, start: int32, end: int32, m: Ports, k: nat, l: nat)
    returns (p: int, q: int)
    requires k < l < |s| && s[k].uid !in kept
    requires GetsItsTurn(s, kept, start, end, m, k) && GetsItsTurn(s, kept, start, end, m, l)
    ensures start <= p < q <= Limit(start, end) && m[s[k].uid] == Wrap32(p) && m[s[l].uid] == Wrap32(q)
  {
    UnsatisfiedGrows(s, kept, k, l);
    p :| start <= p <= Limit(start, end) && m[s[k].uid] == Wrap32(p) && Wrap32(p) !in kept.Values
         && |FreeBelow(kept.Values, start, p)| == Unsatisfied(s, kept, k);
    q :| start <= q <= Limit(start, end) && m[s[l].uid] == Wrap32(q) && Wrap32(q) !in kept.Values
         && |FreeBelow(kept.Values, start, q)| == Unsatisfied(s, kept, l);
    if q <= p {
      SubsetCard(FreeBelow(kept.Values, start, q), FreeBelow(kept.Values, start, p));
    }
  }

  lemma {:induction false} NeverHadAPort(existing: Ports, requests: seq<Request>, start: int32, end: int32, k: nat)
    requires Allocate(existing, requests, start, end).Ok? && k < |Ordered(requests)|
    requires Ordered(requests)[k].pin.None? && Ordered(requests)[k].uid !in existing
    ensures var s := Ordered(requests);
      s[k].uid !in Keeps(existing, s, Pins(s, start, end, |s|).value, start, end, |s|)
  {
    var s, pins, kept, m := Phases(existing, requests, start, end);
    KeptUids(existing, s, pins, start, end, |s|, k);
  }

  /** Of two requests without pin and previous port the one that comes first gets the smaller
      position, and so the smaller port as long as the range holds all UIDs. */
  lemma {:induction false} FirstGetsSmallerPort(existing: Ports, requests: seq<Request>, start: int32, end: int32,
          i: nat, j: nat)
    returns (p: int, q: int)
    requires Allocate(existing, requests, start, end).Ok? && DistinctUids(requests)
    requires i < |requests| && j < |requests| && i != j && ComesFirst(requests[i], requests[j])
    requires requests[i].pin.None? && requests[i].uid !in existing
    requires requests[j].pin.None? && requests[j].uid !in existing
    ensures var m := Allocate(existing, requests, start, end).value;
      && requests[i].uid in m && requests[j].uid in m
      && start <= p < q && m[requests[i].uid] == Wrap32(p) && m[requests[j].uid] == Wrap32(q)
      && (|Uids(requests)| <= end - start + 1 ==> m[requests[i].uid] < m[requests[j].uid])
  {
    var s := Ordered(requests);
    var kept := Keeps(existing, s, Pins(s, start, end, |s|).value, start, end, |s|);
    var m := Allocate(existing, requests, start, end).value;
    var k := ServedAt(requests, i);
    var l := ServedAt(requests, j);
    FirstIsServedFirst(requests, i, j, k, l);
    NeverHadAPort(existing, requests, start, end, k);
    NeverHadAPort(existing, requests, start, end, l);
    FreshPortsInOrder(existing, requests, start, end, k);
    FreshPortsInOrder(existing, requests, start, end, l);
    p, q := LaterTurn(s, kept, start, end, m, k, l);
    AllocationSound(existing, requests, start, end);
    if |Uids(requests)| <= end - start + 1 {
      UnwrappedInRange(start, end, p);
      UnwrappedInRange(start, end, q);
    }
  }

  lemma {:induction false} UnwrappedInRange(start: int32, end: int32, p: int)
    requires 0 < start <= end && start <= p <= Limit(start, end) && start <= Wrap32(p) <= end
    ensures Wrap32(p) == p
  {
  }

  // ---------------------------------------------------------------- when a call succeeds

  ghost predicate PinsInRange(requests: seq<Request>, start: int32, end: int32) {
    forall i: nat | FirstOfUid(requests, i) && requests[i].pin.Some? :: start <= requests[i].pin.value <= end
  }

  ghost predicate PinsDiffer(requests: seq<Request>) {
    forall i: nat, j: nat | i < j && FirstOfUid(requests, i) && FirstOfUid(requests, j) && requests[i].pin.Some? ::
      requests[i].pin != requests[j].pin
  }

  /** The first requests of each UID pin different ports of the range, and the range holds all UIDs,
      or ends where the cursor wraps around the 32-bit circle. */
  ghost predicate Satisfiable(requests: seq<Request>, start: int32, end: int32) {
    && PinsInRange(requests, start, end) && PinsDiffer(requests)
    && |Uids(requests)| <= if end == 0x7fff_ffff then 0x1_0000_0000 else end - start + 1
  }

  lemma {:induction false} FirstIsDeduped(requests: seq<Request>, i: nat)
    requires FirstOfUid(requests, i)
    ensures requests[i].(name := CalledName(requests[i])) in Deduped(requests)
  {
    var r := requests[i].(name := CalledName(requests[i]));
    assert StandsFor(requests, i, r);
    DedupeIs(requests, |requests|, r);
  }

  lemma {:induction false} DedupedIsFirst(requests: seq<Request>, r: Request) returns (i: nat)
    requires r in Deduped(requests)
    ensures StandsFor(requests, i, r)
  {
    DedupeIs(requests, |requests|, r);
    i :| 0 <= i < |requests| && StandsFor(requests, i, r);
  }

  lemma {:induction false} UsableIfSatisfiable(requests: seq<Request>, start: int32, end: int32)
    requires Satisfiable(requests, start, end)
    ensures PinsUsable(Deduped(requests), start, end)
  {
    forall r | r in Deduped(requests) && r.pin.Some? ensures start <= r.pin.value <= end {
      var i := DedupedIsFirst(requests, r);
    }
    forall a, b | a in Deduped(requests) && b in Deduped(requests) && a.pin.Some? && a.pin == b.pin
      ensures a.uid == b.uid
    {
      SamePinSameUid(requests, a, b);
    }
  }

  lemma {:induction false} SamePinSameUid(requests: seq<Request>, a: Request, b: Request)
    requires PinsDiffer(requests) && a in Deduped(requests) && b in Deduped(requests)
    requires a.pin.Some? && a.pin == b.pin
    ensures a.uid == b.uid
  {
    var i := DedupedIsFirst(requests, a);
    var j := DedupedIsFirst(requests, b);
    assert !(i < j) && !(j < i);
  }

  lemma {:induction false} PinsOfUsable(requests: seq<Request>, start: int32, end: int32)
    requires PinsUsable(Deduped(requests), start, end)
    ensures PinsInRange(requests, start, end) && PinsDiffer(requests)
  {
    forall i: nat | FirstOfUid(requests, i) ensures requests[i].(name := CalledName(requests[i])) in Deduped(requests) {
      FirstIsDeduped(requests, i);
    }
  }

  lemma {:induction false} SucceedsIff(existing: Ports, requests: seq<Request>, start: int32, end: int32)
    ensures Allocate(existing, requests, start, end).Ok? <==> 0 < start <= end && Satisfiable(requests, start, end)
  {
    if 0 < start <= end {
      ExactSuccess(existing, requests, start, end);
      if PinsUsable(Deduped(requests), start, end) {
        PinsOfUsable(requests, start, end);
      }
      if Satisfiable(requests, start, end) {
        UsableIfSatisfiable(requests, start, end);
      }
    }
  }

  // ---------------------------------------------------------------- why a call fails

  lemma {:induction false} PinnerOf(s: seq<Request>, p: int32, n: nat) returns (a: nat)
    requires n <= |s| && exists k :: 0 <= k < n && s[k].pin == Some(p)
    ensures a < n && s[a].pin == Some(p) && FirstPinner(s, p) == s[a].name
  {
    a := 0;
    while s[a].pin != Some(p)
      invariant a < n && forall k | 0 <= k < a :: s[k].pin != Some(p)
      decreases n - a
    {
      a := a + 1;
    }
    FirstPinnerAt(s, a, p);
  }

  /** What the first phase complains about: a pin outside the range, or two that collide. */
  ghost predicate PinProblem(s: seq<Request>, start: int32, end: int32, e: AllocError) {
    match e
    case PinOutOfRange(name, p) =>
      exists k :: 0 <= k < |s| && s[k].pin == Some(p) && s[k].name == name && !(start <= p <= end)
    case PinConflict(p, first, second) =>
      exists a, b :: 0 <= a < b < |s| && s[a].pin == s[b].pin == Some(p) && s[a].name == first && s[b].name == second
    case _ => false
  }

  lemma {:induction false} PinsFailure(s: seq<Request>, start: int32, end: int32, n: nat)
    requires n <= |s| && DistinctUids(s) && Pins(s, start, end, n).Err?
    ensures PinProblem(s, start, end, Pins(s, start, end, n).error)
  {
    if Pins(s, start, end, n - 1).Err? {
      PinsFailure(s, start, end, n - 1);
    } else {
      PinsSpec(s, start, end, n - 1);
      var p, m := s[n - 1].pin.value, Pins(s, start, end, n - 1).value;
      if start <= p <= end {
        var u :| u in m && m[u] == p;
        var a := PinnerOf(s, p, n - 1);
      }
    }
  }

  /** A request that is served stands for one that was made. */
  lemma {:induction false} Made(requests: seq<Request>, k: nat) returns (i: nat)
    requires k < |Ordered(requests)|
    ensures i < |requests| && StandsFor(requests, i, Ordered(requests)[k])
  {
    var r := Ordered(requests)[k];
    assert r in Ordered(requests);
    ServedAre(requests, r);
    i :| 0 <= i < |requests| && StandsFor(requests, i, r);
  }

  /** The pin of request `i` and what that request is called. */
  ghost predicate Pinned(requests: seq<Request>, i: nat, p: int32, name: string) {
    FirstOfUid(requests, i) && requests[i].pin == Some(p) && CalledName(requests[i]) == name
  }

  /** The error of a call names its cause, conflicting requests in the order they are served. */
  ghost predicate Explains(requests: seq<Request>, start: int32, end: int32, e: AllocError) {
    match e
    case InvalidStart(s) => s == start && start <= 0
    case InvalidRange(s, t) => s == start && t == end && end < start && 0 < start
    case PinOutOfRange(name, p) =>
      0 < start <= end && !(start <= p <= end) && exists i: nat :: Pinned(requests, i, p, name)
    case PinConflict(p, first, second) =>
      && 0 < start <= end
      && exists i: nat, j: nat :: Pinned(requests, i, p, first) && Pinned(requests, j, p, second)
                                && ComesFirst(requests[i], requests[j])
    case Insufficient(n) => 0 < start <= end && n == |Uids(requests)| && n > end - start + 1
  }

  lemma {:induction false} FailureExplained(existing: Ports, requests: seq<Request>, start: int32, end: int32)
    requires Allocate(existing, requests, start, end).Err?
    ensures Explains(requests, start, end, Allocate(existing, requests, start, end).error)
  {
    if 0 < start <= end {
      var s := Ordered(requests);
      OrderedRequests(requests);
      if Pins(s, start, end, |s|).Err? {
        PinsFailure(s, start, end, |s|);
        PinExplained(requests, start, end, Pins(s, start, end, |s|).error);
      } else {
        TooFewPorts(existing, requests, start, end);
      }
    }
  }

  lemma {:induction false} PinExplained(requests: seq<Request>, start: int32, end: int32, e: AllocError)
    requires 0 < start <= end && PinProblem(Ordered(requests), start, end, e)
    ensures Explains(requests, start, end, e)
  {
    var s := Ordered(requests);
    match e
    case PinOutOfRange(name, p) =>
      var k :| 0 <= k < |s| && s[k].pin == Some(p) && s[k].name == name;
      var i := Made(requests, k);
      assert Pinned(requests, i, p, name);
    case PinConflict(p, first, second) =>
      var a, b :| 0 <= a < b < |s| && s[a].pin == s[b].pin == Some(p) && s[a].name == first && s[b].name == second;
      var i := Made(requests, a);
      var j := Made(requests, b);
      ServedInOrder(requests, a, b);
      assert Pinned(requests, i, p, first) && Pinned(requests, j, p, second);
    case _ =>
  }

  lemma {:induction false} TooFewPorts(existing: Ports, requests: seq<Request>, start: int32, end: int32)
    requires 0 < start <= end && Pins(Ordered(requests), start, end, |Ordered(requests)|).Ok?
    requires Allocate(existing, requests, start, end).Err?
    ensures Allocate(existing, requests, start, end).error == Insufficient(|Uids(requests)|)
    ensures |Uids(requests)| > end - start + 1
  {
    OrderedRequests(requests);
    SameRequests(requests);
    PinsSucceedIff(Ordered(requests), start, end);
    ExactSuccess(existing, requests, start, end);
  }
}
