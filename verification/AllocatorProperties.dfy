/** What the allocator guarantees, stated without its three phases. */
module AllocatorProperties {
  import opened Prelude
  import opened Sorting
  import opened PortAllocator

  ghost function Deduped(requests: seq<Request>): seq<Request> {
    Dedupe(requests, |requests|)
  }

  /** All pins lie in the range and no two UIDs pin the same port. */
  ghost predicate PinsUsable(s: seq<Request>, start: int32, end: int32) {
    && (forall r | r in s && r.pin.Some? :: start <= r.pin.value <= end)
    && (forall a, b | a in s && b in s && a.pin.Some? && a.pin == b.pin :: a.uid == b.uid)
  }

  ghost predicate PinsUsableUpTo(s: seq<Request>, start: int32, end: int32, n: nat)
    requires n <= |s|
  {
    && (forall i | 0 <= i < n && s[i].pin.Some? :: start <= s[i].pin.value <= end)
    && (forall i, j | 0 <= i < j < n && s[i].pin.Some? :: s[i].pin != s[j].pin)
  }

  lemma {:induction false} PinsSucceedUpTo(s: seq<Request>, start: int32, end: int32, n: nat)
    requires n <= |s| && DistinctUids(s)
    ensures Pins(s, start, end, n).Ok? <==> PinsUsableUpTo(s, start, end, n)
  {
    if n > 0 {
      PinsSucceedUpTo(s, start, end, n - 1);
      if Pins(s, start, end, n - 1).Ok? && s[n - 1].pin.Some? {
        PinsSpec(s, start, end, n - 1);
        var m := Pins(s, start, end, n - 1).value;
        var p := s[n - 1].pin.value;
        assert p in m.Values ==> !PinsUsableUpTo(s, start, end, n);
        assert forall i | 0 <= i < n - 1 && s[i].pin == Some(p) :: m[s[i].uid] == p;
      }
    }
  }

  lemma {:induction false} PinsSucceedIff(s: seq<Request>, start: int32, end: int32)
    requires DistinctUids(s)
    ensures Pins(s, start, end, |s|).Ok? <==> PinsUsable(s, start, end)
  {
    PinsSucceedUpTo(s, start, end, |s|);
    if PinsUsable(s, start, end) {
      forall i | 0 <= i < |s| ensures s[i] in s {
      }
      assert PinsUsableUpTo(s, start, end, |s|);
    }
  }

  /** Phase 3 keeps what it finds and serves exactly the requests of `s`, injectively. */
  lemma {:induction false} FillsSpec(s: seq<Request>, kept: Ports, start: int32, end: int32, n: nat)
    requires n <= |s| && Injective(kept) && kept.Keys <= Uids(s)
    requires Fills(s, kept, start, end, n).Some?
    ensures var m := Fills(s, kept, start, end, n).value;
      && Injective(m) && Extends(m, kept) && m.Keys <= Uids(s)
      && (forall k | 0 <= k < n :: s[k].uid in m)
  {
    if n > 0 {
      FillsSpec(s, kept, start, end, n - 1);
      var m := Fills(s, kept, start, end, n - 1).value;
      assert s[n - 1] in s;
      if s[n - 1].uid !in m {
        LeastFreeIsFree(m.Values, start, Limit(start, end));
        ValuesOfUpdate(m, s[n - 1].uid, Wrap32(LeastFree(m.Values, start, Limit(start, end)).value));
      }
    }
  }

  lemma {:induction false} FillsInWindow(s: seq<Request>, kept: Ports, start: int32, end: int32, n: nat)
    requires n <= |s| && InRange(kept, start, end)
    requires Fills(s, kept, start, end, n).Some?
    ensures Fills(s, kept, start, end, n).value.Values <= Window(start, Limit(start, end))
  {
    if n == 0 {
      forall p | p in kept.Values ensures p in Window(start, Limit(start, end)) {
        assert Wrap32(p) == p;
      }
    } else {
      FillsInWindow(s, kept, start, end, n - 1);
      var m := Fills(s, kept, start, end, n - 1).value;
      if s[n - 1].uid !in m {
        LeastFreeSpec(m.Values, start, Limit(start, end));
        ValuesOfUpdate(m, s[n - 1].uid, Wrap32(LeastFree(m.Values, start, Limit(start, end)).value));
      }
    }
  }

  lemma {:induction false} FillsSucceed(s: seq<Request>, kept: Ports, start: int32, end: int32, n: nat)
    requires n <= |s| && 0 < start <= end
    requires Injective(kept) && kept.Keys <= Uids(s)
    requires |Uids(s)| <= Capacity(start, end)
    ensures Fills(s, kept, start, end, n).Some?
  {
    if n > 0 {
      FillsSucceed(s, kept, start, end, n - 1);
      FillsSpec(s, kept, start, end, n - 1);
      var m := Fills(s, kept, start, end, n - 1).value;
      if s[n - 1].uid !in m {
        assert s[n - 1] in s;
        RoomLeft(s, m, s[n - 1].uid, start, Limit(start, end));
      }
    }
  }

  lemma {:induction false} FillsBounded(s: seq<Request>, kept: Ports, start: int32, end: int32)
    requires 0 < start <= end
    requires Injective(kept) && InRange(kept, start, end) && kept.Keys <= Uids(s)
    requires Fills(s, kept, start, end, |s|).Some?
    ensures |Uids(s)| <= Capacity(start, end)
  {
    FillsSpec(s, kept, start, end, |s|);
    FillsInWindow(s, kept, start, end, |s|);
    var m := Fills(s, kept, start, end, |s|).value;
    assert m.Keys == Uids(s);
    InjectiveCard(m);
    SubsetCard(m.Values, Window(start, Limit(start, end)));
    WindowCard(start, Limit(start, end));
  }

  lemma {:induction false} SameRequests(requests: seq<Request>)
    ensures forall r :: r in Ordered(requests) <==> r in Deduped(requests)
  {
    OrderedRequests(requests);
    SameMultiset(Ordered(requests), Deduped(requests));
  }

  /** A call on a valid range succeeds exactly when the pins are usable and there are no more
      UIDs than ports to scan: end - start + 1 of them, or all 2^32 values when `end` is the
      largest int32. */
  lemma {:induction false} ExactSuccess(existing: Ports, requests: seq<Request>, start: int32, end: int32)
    requires 0 < start <= end
    ensures Allocate(existing, requests, start, end).Ok?
      <==> PinsUsable(Deduped(requests), start, end) && |Uids(requests)| <= Capacity(start, end)
  {
    OrderedRequests(requests);
    SameRequests(requests);
    var s := Ordered(requests);
    PinsSucceedIff(s, start, end);
    assert PinsUsable(s, start, end) <==> PinsUsable(Deduped(requests), start, end);
    if Pins(s, start, end, |s|).Ok? {
      var pins := Pins(s, start, end, |s|).value;
      KeptIsPartial(existing, s, pins, start, end);
      var kept := Keeps(existing, s, pins, start, end, |s|);
      if |Uids(requests)| <= Capacity(start, end) {
        FillsSucceed(s, kept, start, end, |s|);
      } else if Fills(s, kept, start, end, |s|).Some? {
        FillsBounded(s, kept, start, end);
      }
    }
  }

  /** The three phases of a successful call, with what is known of their results. */
  lemma {:induction false} Phases(existing: Ports, requests: seq<Request>, start: int32, end: int32)
    returns (s: seq<Request>, pins: Ports, kept: Ports, m: Ports)
    requires Allocate(existing, requests, start, end).Ok?
    ensures s == Ordered(requests) && DistinctUids(s) && Uids(s) == Uids(requests)
    ensures Pins(s, start, end, |s|) == Ok(pins)
    ensures kept == Keeps(existing, s, pins, start, end, |s|)
    ensures Fills(s, kept, start, end, |s|) == Some(m)
    ensures Allocate(existing, requests, start, end) == Ok(m)
    ensures 0 < start <= end
    ensures Injective(pins) && InRange(pins, start, end) && pins.Keys <= Uids(s)
    ensures Injective(kept) && InRange(kept, start, end) && kept.Keys <= Uids(s) && Extends(kept, pins)
    ensures Injective(m) && Extends(m, kept) && m.Keys == Uids(s)
    ensures m.Values <= Window(start, Limit(start, end))
  {
    s := Ordered(requests);
    OrderedRequests(requests);
    pins := Pins(s, start, end, |s|).value;
    KeptIsPartial(existing, s, pins, start, end);
    kept := Keeps(existing, s, pins, start, end, |s|);
    FillsSpec(s, kept, start, end, |s|);
    FillsInWindow(s, kept, start, end, |s|);
    m := Fills(s, kept, start, end, |s|).value;
  }

  /** Whatever the previous map held, duplicates and foreign ports included, a successful
      call gives every requested UID, and no other, a port of its own, and honours the pins.
      The ports lie in the range exactly when the range is large enough; when it is not, the
      cursor has wrapped around. */
  lemma {:induction false} AllocationSound(existing: Ports, requests: seq<Request>, start: int32, end: int32)
    requires Allocate(existing, requests, start, end).Ok?
    ensures var m := Allocate(existing, requests, start, end).value;
      && m.Keys == Uids(requests)
      && Injective(m)
      && (forall r | r in Deduped(requests) && r.pin.Some? :: r.uid in m && m[r.uid] == r.pin.value)
      && (InRange(m, start, end) <==> |Uids(requests)| <= end - start + 1)
  {
    var s, pins, kept, m := Phases(existing, requests, start, end);
    SameRequests(requests);
    PinsSpec(s, start, end, |s|);
    forall r | r in Deduped(requests) && r.pin.Some?
      ensures r.uid in m && m[r.uid] == r.pin.value
    {
      var k :| 0 <= k < |s| && s[k] == r;
      assert s[k].uid in pins;
    }
    if InRange(m, start, end) {
      forall p | p in m.Values ensures p in Window(start, end) {
        assert Wrap32(p) == p;
      }
      InjectiveCard(m);
      SubsetCard(m.Values, Window(start, end));
      WindowCard(start, end);
    }
    if |Uids(requests)| <= end - start + 1 {
      FillsInRange(s, kept, start, end, |s|);
    }
  }

  lemma {:induction false} FillsInRange(s: seq<Request>, kept: Ports, start: int32, end: int32, n: nat)
    requires n <= |s| && 0 < start <= end
    requires Injective(kept) && InRange(kept, start, end) && kept.Keys <= Uids(s)
    requires |Uids(s)| <= end - start + 1
    requires Fills(s, kept, start, end, n).Some?
    ensures InRange(Fills(s, kept, start, end, n).value, start, end)
  {
    if n > 0 {
      FillsInRange(s, kept, start, end, n - 1);
      FillsSpec(s, kept, start, end, n - 1);
      var m := Fills(s, kept, start, end, n - 1).value;
      if s[n - 1].uid !in m {
        assert s[n - 1] in s;
        RoomLeft(s, m, s[n - 1].uid, start, end);
        LeastFreeSpec(m.Values, start, end);
        LeastFreeSpec(m.Values, start, Limit(start, end));
      }
    }
  }

  /** Port `p` is one of the range, or it is negative and the whole range is taken. */
  ghost predicate InRangeOrOverflown(m: Ports, p: int32, start: int32, end: int32) {
    start <= p <= end || (p < 0 && Window(start, end) <= m.Values)
  }

  lemma {:induction false} FreeBehindRange(s: seq<Request>, m: Ports, uid: string, start: int32, end: int32, q: int)
    requires 0 < start <= end && Injective(m) && m.Keys <= Uids(s) && uid in Uids(s) && uid !in m
    requires |Uids(s)| <= TWO_TO_32 / 2
    requires LeastFree(m.Values, start, Limit(start, end)) == Some(q)
    ensures start <= Wrap32(q) <= end || (Wrap32(q) < 0 && Window(start, end) <= m.Values)
  {
    LeastFreeSpec(m.Values, start, Limit(start, end));
    if end < q {
      FullWindow(m, start, q - 1);
      SubsetCard(m.Keys, Uids(s) - {uid});
      assert q - start < |Uids(s)|;
    }
  }

  lemma {:induction false} FillsOverflow(s: seq<Request>, kept: Ports, start: int32, end: int32, n: nat)
    requires n <= |s| && 0 < start <= end
    requires Injective(kept) && InRange(kept, start, end) && kept.Keys <= Uids(s)
    requires |Uids(s)| <= TWO_TO_32 / 2
    requires Fills(s, kept, start, end, n).Some?
    ensures var m := Fills(s, kept, start, end, n).value;
      forall u | u in m :: InRangeOrOverflown(m, m[u], start, end)
  {
    if n > 0 {
      FillsOverflow(s, kept, start, end, n - 1);
      FillsSpec(s, kept, start, end, n - 1);
      var m := Fills(s, kept, start, end, n - 1).value;
      var uid := s[n - 1].uid;
      if uid !in m {
        assert s[n - 1] in s;
        var q := LeastFree(m.Values, start, Limit(start, end)).value;
        FreeBehindRange(s, m, uid, start, end, q);
        ValuesOfUpdate(m, uid, Wrap32(q));
      }
    }
  }

  /** When the cursor wraps, what it hands out is negative, and that happens only after the
      whole range has been given out. */
  lemma {:induction false} OverflowIsNegative(existing: Ports, requests: seq<Request>, start: int32, end: int32)
    requires Allocate(existing, requests, start, end).Ok? && |Uids(requests)| <= TWO_TO_32 / 2
    ensures var m := Allocate(existing, requests, start, end).value;
      forall u | u in m :: InRangeOrOverflown(m, m[u], start, end)
  {
    var s, pins, kept, m := Phases(existing, requests, start, end);
    FillsOverflow(s, kept, start, end, |s|);
  }

  // ---------------------------------------------------------------- who keeps a port

  /** One of the first `n` requests is unpinned and had port `p` before. */
  ghost predicate HeldBefore(existing: Ports, s: seq<Request>, p: int32, n: nat)
    requires n <= |s|
  {
    exists k :: 0 <= k < n && s[k].pin.None? && s[k].uid in existing && existing[s[k].uid] == p
  }

  /** Request `i` is first in line for its previous port: the port is in range, nobody pins
      it, and no unpinned request before it had the same one. */
  ghost predicate FirstInLine(existing: Ports, s: seq<Request>, start: int32, end: int32, i: nat)
    requires i < |s|
  {
    && s[i].uid in existing && start <= existing[s[i].uid] <= end
    && (forall k | 0 <= k < |s| :: s[k].pin != Some(existing[s[i].uid]))
    && !HeldBefore(existing, s, existing[s[i].uid], i)
  }

  lemma {:induction false} PinnedUids(s: seq<Request>, start: int32, end: int32, pins: Ports)
    requires DistinctUids(s) && Pins(s, start, end, |s|) == Ok(pins)
    ensures forall k | 0 <= k < |s| :: s[k].uid in pins <==> s[k].pin.Some?
  {
    PinsSpec(s, start, end, |s|);
  }

  lemma {:induction false} PinnedPorts(s: seq<Request>, start: int32, end: int32, pins: Ports, p: int32)
    requires DistinctUids(s) && Pins(s, start, end, |s|) == Ok(pins)
    ensures p in pins.Values <==> exists k :: 0 <= k < |s| && s[k].pin == Some(p)
  {
    PinsSpec(s, start, end, |s|);
    if k :| 0 <= k < |s| && s[k].pin == Some(p) {
      assert pins[s[k].uid] == p;
    }
  }

  lemma {:induction false} HeldBeforeStep(existing: Ports, s: seq<Request>, p: int32, n: nat)
    requires 0 < n <= |s|
    ensures HeldBefore(existing, s, p, n)
      <==> (|| HeldBefore(existing, s, p, n - 1)
            || (s[n - 1].pin.None? && s[n - 1].uid in existing && existing[s[n - 1].uid] == p))
  {
  }

  lemma {:induction false} NotYetKept(existing: Ports, s: seq<Request>, pins: Ports, start: int32, end: int32, n: nat,
          k: nat)
    requires n <= k < |s| && DistinctUids(s) && s[k].uid !in pins
    ensures s[k].uid !in Keeps(existing, s, pins, start, end, n)
  {
    if n > 0 {
      NotYetKept(existing, s, pins, start, end, n - 1, k);
    }
  }

  /** Phase 2 after `n` requests: the ports taken are exactly the pins and the previous
      in-range ports of unpinned requests. */
  lemma {:induction false} KeptPorts(existing: Ports, s: seq<Request>, pins: Ports, start: int32, end: int32, n: nat,
          p: int32)
    requires n <= |s| && DistinctUids(s) && Pins(s, start, end, |s|) == Ok(pins)
    ensures p in Keeps(existing, s, pins, start, end, n).Values
      <==> p in pins.Values || (start <= p <= end && HeldBefore(existing, s, p, n))
  {
    if n > 0 {
      KeptPorts(existing, s, pins, start, end, n - 1, p);
      HeldBeforeStep(existing, s, p, n);
      PinnedUids(s, start, end, pins);
      var m := Keeps(existing, s, pins, start, end, n - 1);
      var u := s[n - 1].uid;
      if u in pins {
        KeptIsPartial(existing, s, pins, start, end);
        KeepsSpec(existing, s, pins, start, end, n - 1);
      } else {
        NotYetKept(existing, s, pins, start, end, n - 1, n - 1);
        if MayKeep(existing, m, start, end, u) {
          ValuesOfUpdate(m, u, existing[u]);
        }
      }
    }
  }

  /** Phase 2 after `n` requests: an unpinned request has been added exactly when it was first
      in line. */
  lemma {:induction false} KeptUids(existing: Ports, s: seq<Request>, pins: Ports, start: int32, end: int32, n: nat,
          k: nat)
    requires n <= |s| && DistinctUids(s) && Pins(s, start, end, |s|) == Ok(pins)
    requires k < |s| && s[k].pin.None?
    ensures s[k].uid in Keeps(existing, s, pins, start, end, n) <==> k < n && FirstInLine(existing, s, start, end, k)
  {
    PinnedUids(s, start, end, pins);
    if n > 0 {
      KeptUids(existing, s, pins, start, end, n - 1, k);
      if k == n - 1 && s[k].uid in existing {
        NotYetKept(existing, s, pins, start, end, n - 1, k);
        KeptPorts(existing, s, pins, start, end, n - 1, existing[s[k].uid]);
        PinnedPorts(s, start, end, pins, existing[s[k].uid]);
      }
    }
  }

  /** An unpinned request comes out with its previous port, and that in the range, exactly when
      it was first in line for it. */
  lemma {:induction false} KeptExactly(existing: Ports, requests: seq<Request>, start: int32, end: int32, i: nat)
    requires Allocate(existing, requests, start, end).Ok?
    requires i < |Ordered(requests)| && Ordered(requests)[i].pin.None? && Ordered(requests)[i].uid in existing
    ensures var u := Ordered(requests)[i].uid;
      var m := Allocate(existing, requests, start, end).value;
      && u in m
      && (m[u] == existing[u] && start <= m[u] <= end <==> FirstInLine(existing, Ordered(requests), start, end, i))
  {
    var s, pins, kept, m := Phases(existing, requests, start, end);
    var u := s[i].uid;
    KeptUids(existing, s, pins, start, end, |s|, i);
    KeptPorts(existing, s, pins, start, end, |s|, existing[u]);
    PinnedPorts(s, start, end, pins, existing[u]);
    PinnedUids(s, start, end, pins);
    KeptIsPartial(existing, s, pins, start, end);
    assert s[i] in s;
    assert HeldBefore(existing, s, existing[u], |s|);
  }

  /** With an injective previous map nothing but the range and the pins can move a request
      away from its port. */
  lemma {:induction false} PortKept(existing: Ports, requests: seq<Request>, start: int32, end: int32, i: nat)
    requires Allocate(existing, requests, start, end).Ok? && Injective(existing) && DistinctUids(requests)
    requires i < |requests| && requests[i].uid in existing && start <= existing[requests[i].uid] <= end
    requires requests[i].pin.None? || requests[i].pin == Some(existing[requests[i].uid])
    requires PinnedByNoOther(requests, i, existing[requests[i].uid])
    ensures var u := requests[i].uid;
      var m := Allocate(existing, requests, start, end).value;
      u in m && m[u] == existing[u]
  {
    var s, pins, kept, m := Phases(existing, requests, start, end);
    var k := ServedAt(requests, i);
    if s[k].pin.Some? {
      PinsSpec(s, start, end, |s|);
    } else {
      UnpinnedKept(existing, s, pins, start, end, k);
    }
  }

  /** No request but `i` pins port `p`. */
  ghost predicate PinnedByNoOther(requests: seq<Request>, i: nat, p: int32) {
    forall j | 0 <= j < |requests| && j != i :: requests[j].pin != Some(p)
  }

  /** Where request `i` is served. Nobody else pins a port, either, unless a request does. */
  lemma {:induction false} ServedAt(requests: seq<Request>, i: nat) returns (k: nat)
    requires DistinctUids(requests) && i < |requests|
    ensures var s := Ordered(requests);
      && k < |s| && s[k].uid == requests[i].uid && s[k].pin == requests[i].pin
      && (forall p: int32, j | s[k].pin.None? && PinnedByNoOther(requests, i, p) && 0 <= j < |s| :: s[j].pin != Some(p))
  {
    SameRequests(requests);
    DedupeOfDistinct(requests, |requests|);
    var s, d := Ordered(requests), Deduped(requests);
    assert d[i] in d;
    k :| 0 <= k < |s| && s[k] == d[i];
    forall p: int32, j | s[k].pin.None? && PinnedByNoOther(requests, i, p) && 0 <= j < |s|
      ensures s[j].pin != Some(p)
    {
      assert s[j] in d;
      var l :| 0 <= l < |d| && d[l] == s[j];
      assert d[l].pin == requests[l].pin;
    }
  }

  lemma {:induction false} UnpinnedKept(existing: Ports, s: seq<Request>, pins: Ports, start: int32, end: int32, k: nat)
    requires DistinctUids(s) && Pins(s, start, end, |s|) == Ok(pins) && Injective(existing)
    requires k < |s| && s[k].pin.None? && s[k].uid in existing && start <= existing[s[k].uid] <= end
    requires forall j | 0 <= j < |s| :: s[j].pin != Some(existing[s[k].uid])
    ensures var kept := Keeps(existing, s, pins, start, end, |s|);
      s[k].uid in kept && kept[s[k].uid] == existing[s[k].uid]
  {
    assert FirstInLine(existing, s, start, end, k);
    KeptUids(existing, s, pins, start, end, |s|, k);
    PinnedUids(s, start, end, pins);
    KeptIsPartial(existing, s, pins, start, end);
  }

  // ---------------------------------------------------------------- which free port

  /** Positions before `q` that are free once `taken` is. */
  ghost function FreeBelow(taken: set<int32>, start: int, q: int): set<int> {
    set x | start <= x < q && Wrap32(x) !in taken
  }

  /** Number of the first `n` requests that are not in `kept`. */
  ghost function Unsatisfied(s: seq<Request>, kept: Ports, n: nat): nat
    requires n <= |s|
  {
    if n == 0 then 0 else Unsatisfied(s, kept, n - 1) + if s[n - 1].uid in kept then 0 else 1
  }

  /** Where the never-rewinding cursor stands after `n` requests. */
  ghost predicate CursorAt(s: seq<Request>, kept: Ports, start: int32, end: int32, n: nat, m: Ports, pos: int)
    requires n <= |s|
  {
    && start <= pos <= Limit(start, end) + 1
    && (forall x | start <= x < pos :: Wrap32(x) in m.Values)
    && (forall x | pos <= x <= Limit(start, end) && Wrap32(x) in m.Values :: Wrap32(x) in kept.Values)
    && |FreeBelow(kept.Values, start, pos)| == Unsatisfied(s, kept, n)
  }

  lemma {:induction false} FreeBelowStep(taken: set<int32>, start: int, pos: int, q: int)
    requires start <= pos <= q && Wrap32(q) !in taken
    requires forall x | pos <= x < q :: Wrap32(x) in taken
    ensures |FreeBelow(taken, start, q)| == |FreeBelow(taken, start, pos)|
    ensures |FreeBelow(taken, start, q + 1)| == |FreeBelow(taken, start, pos)| + 1
  {
    assert FreeBelow(taken, start, q) == FreeBelow(taken, start, pos);
    assert FreeBelow(taken, start, q + 1) == FreeBelow(taken, start, pos) + {q};
  }

  lemma {:induction false} FillsNext(s: seq<Request>, kept: Ports, start: int32, end: int32, n: nat, m: Ports)
    returns (q: int)
    requires n < |s| && Fills(s, kept, start, end, n) == Some(m) && s[n].uid !in m
    requires Fills(s, kept, start, end, n + 1).Some?
    ensures LeastFree(m.Values, start, Limit(start, end)) == Some(q)
    ensures Fills(s, kept, start, end, n + 1) == Some(m[s[n].uid := Wrap32(q)])
  {
    q := LeastFree(m.Values, start, Limit(start, end)).value;
  }

  /** One step of phase 3: the next unsatisfied request gets the least position whose port is
      free after the kept ones and not yet passed by the cursor. */
  lemma {:induction false} CursorStep(s: seq<Request>, kept: Ports, start: int32, end: int32, n: nat, m: Ports,
          pos: int)
    returns (q: int)
    requires n < |s| && 0 < start <= end && s[n].uid !in m && s[n].uid !in kept
    requires Fills(s, kept, start, end, n) == Some(m) && Fills(s, kept, start, end, n + 1).Some?
    requires CursorAt(s, kept, start, end, n, m, pos) && Extends(m, kept)
    ensures Fills(s, kept, start, end, n + 1) == Some(m[s[n].uid := Wrap32(q)])
    ensures CursorAt(s, kept, start, end, n + 1, m[s[n].uid := Wrap32(q)], q + 1)
    ensures Wrap32(q) !in kept.Values && |FreeBelow(kept.Values, start, q)| == Unsatisfied(s, kept, n)
    ensures start <= q <= Limit(start, end)
  {
    q := FillsNext(s, kept, start, end, n, m);
    CursorPasses(s, kept, start, end, n, m, pos, q);
  }

  lemma {:induction false} CursorPasses(s: seq<Request>, kept: Ports, start: int32, end: int32, n: nat, m: Ports,
          pos: int, q: int)
    requires n < |s| && 0 < start <= end && s[n].uid !in m && s[n].uid !in kept
    requires LeastFree(m.Values, start, Limit(start, end)) == Some(q)
    requires CursorAt(s, kept, start, end, n, m, pos) && Extends(m, kept)
    ensures CursorAt(s, kept, start, end, n + 1, m[s[n].uid := Wrap32(q)], q + 1)
    ensures Wrap32(q) !in kept.Values && |FreeBelow(kept.Values, start, q)| == Unsatisfied(s, kept, n)
    ensures start <= q <= Limit(start, end)
  {
    LeastFreeSpec(m.Values, start, Limit(start, end));
    ValuesOfExtension(m, kept);
    FreeBelowStep(kept.Values, start, pos, q);
    ValuesOfUpdate(m, s[n].uid, Wrap32(q));
    forall x | q < x <= Limit(start, end)
      ensures Wrap32(x) != Wrap32(q)
    {
      Wrap32Injective(q, x);
    }
  }

  /** The port of the request `i`, one that phases 1 and 2 left without a port, is the one at a
      free position with exactly as many free positions before it as there are such requests
      before `i`: the j-th of them gets the j-th smallest free port. */
  ghost predicate GetsItsTurn(s: seq<Request>, kept: Ports, start: int32, end: int32, m: Ports, i: nat)
    requires i < |s|
  {
    && s[i].uid in m
    && exists q :: (start <= q <= Limit(start, end)
                   && m[s[i].uid] == Wrap32(q) && Wrap32(q) !in kept.Values
                   && |FreeBelow(kept.Values, start, q)| == Unsatisfied(s, kept, i))
  }

  lemma {:induction false} CursorStarts(s: seq<Request>, kept: Ports, start: int32, end: int32)
    requires 0 < start <= end
    ensures CursorAt(s, kept, start, end, 0, kept, start)
  {
    assert FreeBelow(kept.Values, start, start) == {};
  }

  lemma {:induction false} CursorStays(s: seq<Request>, kept: Ports, start: int32, end: int32, n: nat, m: Ports,
          pos: int)
    requires n < |s| && s[n].uid in kept && CursorAt(s, kept, start, end, n, m, pos)
    ensures CursorAt(s, kept, start, end, n + 1, m, pos)
  {
  }

  /** A request not served yet and not kept has no port. */
  lemma {:induction false} NotYetServed(s: seq<Request>, kept: Ports, start: int32, end: int32, n: nat, i: nat)
    requires n <= i < |s| && DistinctUids(s) && s[i].uid !in kept
    requires Fills(s, kept, start, end, n).Some?
    ensures s[i].uid !in Fills(s, kept, start, end, n).value
  {
    if n > 0 {
      NotYetServed(s, kept, start, end, n - 1, i);
    }
  }

  lemma {:induction false} FillsExtends(s: seq<Request>, kept: Ports, start: int32, end: int32, n: nat)
    requires n <= |s| && Fills(s, kept, start, end, n).Some?
    ensures Extends(Fills(s, kept, start, end, n).value, kept)
  {
    if n > 0 {
      FillsExtends(s, kept, start, end, n - 1);
    }
  }

  lemma {:induction false} CursorNext(s: seq<Request>, kept: Ports, start: int32, end: int32, n: nat, m: Ports,
          pos: int)
    returns (pos': int)
    requires n < |s| && 0 < start <= end && DistinctUids(s)
    requires Fills(s, kept, start, end, n) == Some(m) && Fills(s, kept, start, end, n + 1).Some?
    requires CursorAt(s, kept, start, end, n, m, pos) && Extends(m, kept)
    ensures CursorAt(s, kept, start, end, n + 1, Fills(s, kept, start, end, n + 1).value, pos')
  {
    if s[n].uid in kept {
      assert Fills(s, kept, start, end, n + 1) == Some(m);
      CursorStays(s, kept, start, end, n, m, pos);
      pos' := pos;
    } else {
      NotYetServed(s, kept, start, end, n, n);
      var q := CursorStep(s, kept, start, end, n, m, pos);
      pos' := q + 1;
    }
  }

  lemma {:induction false} CursorSweeps(s: seq<Request>, kept: Ports, start: int32, end: int32, n: nat)
    returns (pos: int)
    requires n <= |s| && 0 < start <= end && DistinctUids(s)
    requires Fills(s, kept, start, end, n).Some?
    ensures CursorAt(s, kept, start, end, n, Fills(s, kept, start, end, n).value, pos)
  {
    if n == 0 {
      pos := start;
      CursorStarts(s, kept, start, end);
    } else {
      pos := CursorSweeps(s, kept, start, end, n - 1);
      var m := Fills(s, kept, start, end, n - 1).value;
      FillsExtends(s, kept, start, end, n - 1);
      pos := CursorNext(s, kept, start, end, n - 1, m, pos);
    }
  }

  lemma {:induction false} TurnPersists(s: seq<Request>, kept: Ports, start: int32, end: int32, m: Ports, m': Ports,
          i: nat)
    requires i < |s| && GetsItsTurn(s, kept, start, end, m, i) && Extends(m', m)
    ensures GetsItsTurn(s, kept, start, end, m', i)
  {
  }

  lemma {:induction false} TurnsTaken(s: seq<Request>, kept: Ports, start: int32, end: int32, n: nat, i: nat)
    requires i < n <= |s| && 0 < start <= end && DistinctUids(s)
    requires Fills(s, kept, start, end, n).Some? && s[i].uid !in kept
    ensures GetsItsTurn(s, kept, start, end, Fills(s, kept, start, end, n).value, i)
  {
    var m := Fills(s, kept, start, end, n - 1).value;
    if i < n - 1 {
      TurnsTaken(s, kept, start, end, n - 1, i);
      TurnPersists(s, kept, start, end, m, Fills(s, kept, start, end, n).value, i);
    } else {
      NotYetServed(s, kept, start, end, n - 1, i);
      FillsExtends(s, kept, start, end, n - 1);
      var pos := CursorSweeps(s, kept, start, end, n - 1);
      var q := CursorStep(s, kept, start, end, n - 1, m, pos);
    }
  }

  /** Fresh ports are handed out in order: among the ports that neither a pin nor a kept
      allocation takes, the j-th request in (Name, UID) order gets the j-th smallest. */
  lemma {:induction false} FreshPortsInOrder(existing: Ports, requests: seq<Request>, start: int32, end: int32, i: nat)
    requires Allocate(existing, requests, start, end).Ok?
    requires i < |Ordered(requests)|
    ensures var s := Ordered(requests);
      var kept := Keeps(existing, s, Pins(s, start, end, |s|).value, start, end, |s|);
      var m := Allocate(existing, requests, start, end).value;
      && s[i].uid in m
      && (s[i].uid in kept ==> m[s[i].uid] == kept[s[i].uid])
      && (s[i].uid !in kept ==> GetsItsTurn(s, kept, start, end, m, i))
  {
    var s, pins, kept, m := Phases(existing, requests, start, end);
    assert s[i] in s;
    if s[i].uid !in kept {
      TurnsTaken(s, kept, start, end, |s|, i);
    }
  }

  // ---------------------------------------------------------------- order of the requests

  lemma {:induction false} DedupeOfDistinct(s: seq<Request>, n: nat)
    requires n <= |s| && DistinctUids(s)
    ensures |Dedupe(s, n)| == n && forall i | 0 <= i < n :: Dedupe(s, n)[i] == Named(s[i])
  {
    if n > 0 {
      DedupeOfDistinct(s, n - 1);
      var d := Dedupe(s, n - 1);
      assert s[n - 1].uid !in Uids(d) by {
        assert forall i | 0 <= i < n - 1 :: d[i].uid == s[i].uid;
      }
    }
  }

  /** For requests with distinct UIDs the order they are listed in does not matter: same map
      or same failure. */
  lemma {:induction false} OrderIndependent(existing: Ports, a: seq<Request>, b: seq<Request>, start: int32, end: int32)
    requires DistinctUids(a) && multiset(a) == multiset(b)
    ensures Allocate(existing, a, start, end) == Allocate(existing, b, start, end)
  {
    PermutedDistinct(a, b);
    SameDeduped(a, b);
    DedupeDistinct(a, |a|);
    ByNameUidOrders();
    DistinctNoTies(Deduped(a));
    SortForgetsOrder(Deduped(a), Deduped(b), ByNameUid);
  }

  lemma {:induction false} SameDeduped(a: seq<Request>, b: seq<Request>)
    requires DistinctUids(a) && DistinctUids(b) && multiset(a) == multiset(b)
    ensures multiset(Deduped(a)) == multiset(Deduped(b))
  {
    SameMultiset(a, b);
    DedupeOfDistinct(a, |a|);
    DedupeOfDistinct(b, |b|);
    var da, db := Deduped(a), Deduped(b);
    forall r ensures r in da <==> r in db {
      NamedMember(a, b, da, db, r);
      NamedMember(b, a, db, da, r);
    }
    SameElements(da, db);
  }

  lemma {:induction false} DistinctNoTies(s: seq<Request>)
    requires DistinctUids(s)
    ensures NoTies(s, ByNameUid)
  {
    ByNameUidOrders();
  }

  lemma {:induction false} NamedMember(a: seq<Request>, b: seq<Request>, da: seq<Request>, db: seq<Request>, r: Request)
    requires |a| == |da| && forall i | 0 <= i < |a| :: da[i] == Named(a[i])
    requires |b| == |db| && forall i | 0 <= i < |b| :: db[i] == Named(b[i])
    requires forall x | x in a :: x in b
    ensures r in da ==> r in db
  {
    if r in da {
      var i :| 0 <= i < |da| && da[i] == r;
      assert a[i] in b;
      var j :| 0 <= j < |b| && b[j] == a[i];
      assert db[j] == r;
    }
  }

  // ---------------------------------------------------------------- a second pass

  /** The part of `m` that phase 2 of a second call can keep. */
  ghost function Inside(m: Ports, start: int32, end: int32): Ports {
    map u | u in m && start <= m[u] <= end :: m[u]
  }

  lemma {:induction false} SecondKeeps(existing: Ports, requests: seq<Request>, start: int32, end: int32)
    requires Allocate(existing, requests, start, end).Ok?
    ensures var s := Ordered(requests);
      var m := Allocate(existing, requests, start, end).value;
      Keeps(m, s, Pins(s, start, end, |s|).value, start, end, |s|) == Inside(m, start, end)
  {
    var s, pins, kept, m := Phases(existing, requests, start, end);
    var kept2 := Keeps(m, s, pins, start, end, |s|);
    KeptIsPartial(m, s, pins, start, end);
    PinnedUids(s, start, end, pins);
    PinsSpec(s, start, end, |s|);
    forall u | u in kept2 ensures kept2[u] == m[u] && start <= m[u] <= end {
      if u in pins {
        assert kept[u] == pins[u] && m[u] == kept[u];
      }
    }
    forall u | u in m && start <= m[u] <= end ensures u in kept2 {
      var r :| r in s && r.uid == u;
      var k :| 0 <= k < |s| && s[k] == r;
      if s[k].pin.None? {
        FirstInLineOfOwn(s, pins, m, start, end, k);
        KeptUids(m, s, pins, start, end, |s|, k);
      }
    }
    SameParts(m, kept2, Inside(m, start, end));
  }

  lemma {:induction false} FirstInLineOfOwn(s: seq<Request>, pins: Ports, m: Ports, start: int32, end: int32, k: nat)
    requires DistinctUids(s) && Pins(s, start, end, |s|) == Ok(pins) && Extends(m, pins) && Injective(m)
    requires k < |s| && s[k].pin.None? && s[k].uid in m && start <= m[s[k].uid] <= end
    ensures FirstInLine(m, s, start, end, k)
  {
    PinsSpec(s, start, end, |s|);
    assert forall j | 0 <= j < |s| && s[j].pin.Some? :: s[j].uid in m && m[s[j].uid] == s[j].pin.value;
  }

  /** A phase 3 that ended in `m`. */
  ghost predicate FilledTo(s: seq<Request>, kept: Ports, start: int32, end: int32, m: Ports) {
    && DistinctUids(s) && InRange(kept, start, end) && kept.Keys <= Uids(s)
    && Fills(s, kept, start, end, |s|) == Some(m)
    && Injective(m) && Extends(m, kept) && m.Keys == Uids(s)
  }

  /** What a second phase 3 has restored before request `n`: the ports inside the range and
      those of the first `n` requests. */
  ghost predicate Restored(s: seq<Request>, start: int32, end: int32, m: Ports, n: nat, again: Ports)
    requires n <= |s|
  {
    Extends(m, again) && again.Keys == Inside(m, start, end).Keys + Uids(s[..n])
  }

  lemma {:induction false} RestoredStep(s: seq<Request>, start: int32, end: int32, m: Ports, n: nat, again: Ports)
    requires 0 < n <= |s| && Restored(s, start, end, m, n - 1, again) && s[n - 1].uid in m
    ensures s[n - 1].uid in again ==> Restored(s, start, end, m, n, again)
    ensures Restored(s, start, end, m, n, again[s[n - 1].uid := m[s[n - 1].uid]])
  {
    assert s[..n] == s[..n - 1] + [s[n - 1]];
    UidsAppend(s[..n - 1], s[n - 1]);
  }

  lemma {:induction false} RestoredAtStart(s: seq<Request>, start: int32, end: int32, m: Ports)
    ensures Restored(s, start, end, m, 0, Inside(m, start, end))
  {
    assert Uids(s[..0]) == {};
  }

  lemma {:induction false} SecondStep(s: seq<Request>, kept: Ports, start: int32, end: int32, m: Ports, n: nat,
          again: Ports)
    requires FilledTo(s, kept, start, end, m) && n < |s|
    requires Fills(s, Inside(m, start, end), start, end, n) == Some(again)
    requires Restored(s, start, end, m, n, again)
    ensures Fills(s, Inside(m, start, end), start, end, n + 1).Some?
    ensures Restored(s, start, end, m, n + 1, Fills(s, Inside(m, start, end), start, end, n + 1).value)
  {
    var u := s[n].uid;
    assert s[n] in s;
    RestoredStep(s, start, end, m, n + 1, again);
    if u in again {
      assert Fills(s, Inside(m, start, end), start, end, n + 1) == Some(again);
    } else {
      var q := SameScan(s, kept, start, end, m, n, again);
      assert Fills(s, Inside(m, start, end), start, end, n + 1) == Some(again[u := m[u]]);
    }
  }

  lemma {:induction false} SecondFills(s: seq<Request>, kept: Ports, start: int32, end: int32, m: Ports, n: nat)
    requires FilledTo(s, kept, start, end, m) && n <= |s|
    ensures Fills(s, Inside(m, start, end), start, end, n).Some?
    ensures Restored(s, start, end, m, n, Fills(s, Inside(m, start, end), start, end, n).value)
  {
    if n == 0 {
      RestoredAtStart(s, start, end, m);
    } else {
      SecondFills(s, kept, start, end, m, n - 1);
      SecondStep(s, kept, start, end, m, n - 1, Fills(s, Inside(m, start, end), start, end, n - 1).value);
    }
  }

  /** At a request whose port lies outside the range the second pass holds exactly what the
      first one held: the range was full then. */
  lemma {:induction false} SameHoldings(s: seq<Request>, kept: Ports, start: int32, end: int32, m: Ports, n: nat,
          first: Ports, again: Ports)
    requires FilledTo(s, kept, start, end, m) && n <= |s|
    requires Extends(m, first) && first.Keys == kept.Keys + Uids(s[..n])
    requires Restored(s, start, end, m, n, again)
    requires forall p: int32 | start <= p <= end :: p in first.Values
    ensures first == again
  {
    forall u | u in again ensures u in first {
      if u in Inside(m, start, end) {
        assert m[u] in first.Values;
        var w :| w in first && first[w] == m[u];
        assert m[w] == m[u];
      }
    }
    forall u | u in first ensures u in again {
      if u in kept {
        assert m[u] == kept[u];
        assert u in Inside(m, start, end);
      }
    }
    SameParts(m, first, again);
  }

  lemma {:induction false} SameParts(m: Ports, a: Ports, b: Ports)
    requires Extends(m, a) && Extends(m, b)
    requires forall u :: u in a <==> u in b
    ensures a == b
  {
  }

  /** The first call's phase 3 before request `n`. */
  lemma {:induction false} FilledAt(s: seq<Request>, kept: Ports, start: int32, end: int32, m: Ports, n: nat)
    returns (first: Ports)
    requires FilledTo(s, kept, start, end, m) && n <= |s|
    ensures Fills(s, kept, start, end, n) == Some(first) && Extends(m, first)
  {
    FillsPrefix(s, kept, start, end, n, |s|);
    first := Fills(s, kept, start, end, n).value;
  }

  /** Where the first call found the port of a request it had not kept. */
  lemma {:induction false} FirstScan(s: seq<Request>, kept: Ports, start: int32, end: int32, m: Ports, n: nat)
    returns (first: Ports, q: int)
    requires FilledTo(s, kept, start, end, m) && n < |s| && s[n].uid !in kept
    ensures Fills(s, kept, start, end, n) == Some(first) && Extends(m, first)
    ensures LeastFree(first.Values, start, Limit(start, end)) == Some(q)
    ensures s[n].uid in m && m[s[n].uid] == Wrap32(q)
  {
    first := FilledAt(s, kept, start, end, m, n);
    var next := FilledAt(s, kept, start, end, m, n + 1);
    NotYetServed(s, kept, start, end, n, n);
    q := FillsNext(s, kept, start, end, n, first);
    assert next[s[n].uid] == Wrap32(q);
  }

  /** When the least free port is outside the range, the range is full. */
  lemma {:induction false} FullBefore(used: set<int32>, start: int32, end: int32, q: int)
    requires LeastFree(used, start, Limit(start, end)) == Some(q) && !(start <= Wrap32(q) <= end)
    ensures forall p: int32 | start <= p <= end :: p in used
  {
    LeastFreeSpec(used, start, Limit(start, end));
    forall p: int32 | start <= p <= end
      ensures p in used
    {
      assert Wrap32(p) == p;
    }
  }

  /** A request the second call has not served yet was not kept, and has a port outside the range. */
  lemma {:induction false} StillWaiting(s: seq<Request>, kept: Ports, start: int32, end: int32, m: Ports, n: nat,
          again: Ports)
    requires FilledTo(s, kept, start, end, m) && n < |s|
    requires Restored(s, start, end, m, n, again) && s[n].uid !in again
    ensures s[n].uid !in kept && s[n].uid in m && !(start <= m[s[n].uid] <= end)
  {
    assert s[n] in s;
    assert forall u | u in kept :: u in Inside(m, start, end);
  }

  /** So its scan stops at the same place. */
  lemma {:induction false} SameScan(s: seq<Request>, kept: Ports, start: int32, end: int32, m: Ports, n: nat,
          again: Ports)
    returns (q: int)
    requires FilledTo(s, kept, start, end, m) && n < |s|
    requires Restored(s, start, end, m, n, again) && s[n].uid !in again
    ensures LeastFree(again.Values, start, Limit(start, end)) == Some(q)
    ensures s[n].uid in m && m[s[n].uid] == Wrap32(q)
  {
    StillWaiting(s, kept, start, end, m, n, again);
    var first;
    first, q := FirstScan(s, kept, start, end, m, n);
    FillsKeys(s, kept, start, end, n);
    FullBefore(first.Values, start, end, q);
    SameHoldings(s, kept, start, end, m, n, first, again);
  }

  lemma {:induction false} FillsPrefix(s: seq<Request>, kept: Ports, start: int32, end: int32, n: nat, k: nat)
    requires n <= k <= |s| && Fills(s, kept, start, end, k).Some?
    ensures Fills(s, kept, start, end, n).Some?
    ensures Extends(Fills(s, kept, start, end, k).value, Fills(s, kept, start, end, n).value)
    decreases k - n
  {
    if n < k {
      FillsPrefix(s, kept, start, end, n, k - 1);
    }
  }

  lemma {:induction false} FillsKeys(s: seq<Request>, kept: Ports, start: int32, end: int32, n: nat)
    requires n <= |s| && Fills(s, kept, start, end, n).Some?
    ensures Fills(s, kept, start, end, n).value.Keys == kept.Keys + Uids(s[..n])
  {
    if n > 0 {
      FillsKeys(s, kept, start, end, n - 1);
      assert s[..n] == s[..n - 1] + [s[n - 1]];
      UidsAppend(s[..n - 1], s[n - 1]);
    }
  }

  /** Allocation is idempotent: a second call that reads the first one's result returns it
      unchanged, wrapped ports included. */
  lemma {:induction false} Idempotent(existing: Ports, requests: seq<Request>, start: int32, end: int32)
    requires Allocate(existing, requests, start, end).Ok?
    ensures Allocate(Allocate(existing, requests, start, end).value, requests, start, end)
      == Allocate(existing, requests, start, end)
  {
    var s, pins, kept, m := Phases(existing, requests, start, end);
    SecondKeeps(existing, requests, start, end);
    SecondFills(s, kept, start, end, m, |s|);
    assert s[..|s|] == s;
    SameParts(m, Fills(s, Inside(m, start, end), start, end, |s|).value, m);
  }

  /** The source does not stay in range when `end` is the largest int32: here the second of
      two requests gets a negative port instead of an error. */
  lemma {:induction false} CursorWrapsAtTop()
    ensures Allocate(map[], [Request("a", "a", None), Request("b", "b", None)], MAX_INT32, MAX_INT32)
      == Ok(map["a" := MAX_INT32, "b" := MIN_INT32])
  {
    var a, b := Request("a", "a", None), Request("b", "b", None);
    var rs := [a, b];
    assert Dedupe(rs, 1) == [a];
    assert Dedupe(rs, 2) == [a, b];
    assert Sort([b], ByNameUid) == [b] by {
      assert [b][1..] == [];
    }
    assert Sort([a, b], ByNameUid) == [a, b] by {
      assert [a, b][1..] == [b];
      assert StrLeq("a", "b");
    }
    var s := Ordered(rs);
    var none: Ports := map[];
    assert Pins(s, MAX_INT32, MAX_INT32, 1) == Ok(none);
    assert Pins(s, MAX_INT32, MAX_INT32, 2) == Ok(none);
    assert Keeps(none, s, none, MAX_INT32, MAX_INT32, 1) == none;
    assert Keeps(none, s, none, MAX_INT32, MAX_INT32, 2) == none;
    var one: Ports := none["a" := MAX_INT32];
    assert Fills(s, none, MAX_INT32, MAX_INT32, 1) == Some(one);
    assert MAX_INT32 in one.Values by {
      assert one["a"] == MAX_INT32;
    }
    assert LeastFree(one.Values, MAX_INT32 + 1, Limit(MAX_INT32, MAX_INT32)) == Some(MAX_INT32 + 1);
    assert Fills(s, none, MAX_INT32, MAX_INT32, 2) == Some(one["b" := MIN_INT32]);
  }
}
