/** Assignment of allocated ports to links (internal/controller/machinegroup_controller.go,
    assignPortsToLinks): same-name pairs first, then ascending leftovers. */
module LinkMatching {
  import opened Prelude
  import opened Sorting
  import opened Api
  import PortAllocator

  type Ports = PortAllocator.Ports

  datatype Slot = Slot(port: int32, key: string)

  datatype LinkError = NoAllocatedPort | InsufficientPorts(links: nat, ports: nat)

  datatype Matching = Matching(granted: Ports, errors: map<string, LinkError>)

  predicate Ascending(a: int32, b: int32) { a <= b }

  // ---------------------------------------------------------------- specification

  /** Machine ports with a positive allocated port, in list order. */
  ghost function Slots(machinePorts: seq<MachinePort>, allocation: Ports, n: nat): seq<Slot>
    requires n <= |machinePorts|
  {
    if n == 0 then []
    else
      var mp := machinePorts[n - 1];
      if mp.uid in allocation && allocation[mp.uid] > 0
      then Slots(machinePorts, allocation, n - 1) + [Slot(allocation[mp.uid], mp.Key())]
      else Slots(machinePorts, allocation, n - 1)
  }

  /** The first slot of every key. */
  ghost function ByName(slots: seq<Slot>, n: nat): Ports
    requires n <= |slots|
  {
    if n == 0 then map[]
    else if slots[n - 1].key in ByName(slots, n - 1) then ByName(slots, n - 1)
    else ByName(slots, n - 1)[slots[n - 1].key := slots[n - 1].port]
  }

  /** First pass over the links: what is granted, and the names still unclaimed. */
  ghost function SameName(links: seq<Link>, byName: Ports, n: nat): (Ports, Ports)
    requires n <= |links|
  {
    if n == 0 then (map[], byName)
    else
      var (granted, names) := SameName(links, byName, n - 1);
      var l := links[n - 1];
      if l.uid in granted || l.Key() !in names then (granted, names)
      else (granted[l.uid := names[l.Key()]], names - {l.Key()})
  }

  /** Ports of the slots that are not in `used`. */
  ghost function Unused(slots: seq<Slot>, used: set<int32>, n: nat): seq<int32>
    requires n <= |slots|
  {
    if n == 0 then []
    else if slots[n - 1].port in used then Unused(slots, used, n - 1)
    else Unused(slots, used, n - 1) + [slots[n - 1].port]
  }

  /** Second pass: links without a port take the remaining ports in order. The second
      component counts the ports taken. */
  ghost function Leftover(links: seq<Link>, granted: Ports, remaining: seq<int32>, n: nat): (r: (Ports, nat))
    requires n <= |links|
    ensures r.1 <= |remaining|
  {
    if n == 0 then (granted, 0)
    else
      var (m, next) := Leftover(links, granted, remaining, n - 1);
      if links[n - 1].uid in m || next == |remaining| then (m, next)
      else (m[links[n - 1].uid := remaining[next]], next + 1)
  }

  ghost function Remaining(slots: seq<Slot>, named: Ports): seq<int32> {
    Sort(Unused(slots, named.Values, |slots|), Ascending)
  }

  ghost function Unassigned(links: seq<Link>, granted: Ports): set<string> {
    set l | l in links && l.uid !in granted :: l.uid
  }

  ghost function Match(links: seq<Link>, machinePorts: seq<MachinePort>, allocation: Ports): Matching {
    var slots := Slots(machinePorts, allocation, |machinePorts|);
    if links == [] then Matching(map[], map[])
    else if slots == [] then Matching(map[], map u | u in Unassigned(links, map[]) :: NoAllocatedPort)
    else
      var named := SameName(links, ByName(slots, |slots|), |links|).0;
      var m := Leftover(links, named, Remaining(slots, named), |links|).0;
      Matching(m, if |m| < |links|
                  then map u | u in Unassigned(links, m) :: InsufficientPorts(|links|, |slots|)
                  else map[])
  }

  // ---------------------------------------------------------------- the algorithm

  method CollectSlots(machinePorts: seq<MachinePort>, allocation: Ports) returns (slots: seq<Slot>)
    ensures slots == Slots(machinePorts, allocation, |machinePorts|)
  {
    slots := [];
    for i := 0 to |machinePorts|
      invariant slots == Slots(machinePorts, allocation, i)
    {
      var uid := machinePorts[i].uid;
      if uid in allocation && allocation[uid] > 0 {
        slots := slots + [Slot(allocation[uid], machinePorts[i].Key())];
      }
    }
  }

  method MatchSameName(links: seq<Link>, slots: seq<Slot>) returns (granted: Ports, used: set<int32>)
    ensures granted == SameName(links, ByName(slots, |slots|), |links|).0
    ensures used == granted.Values
  {
    used := {};
    var portByName: Ports := map[];
    for i := 0 to |slots|
      invariant portByName == ByName(slots, i)
    {
      if slots[i].port !in used && slots[i].key !in portByName {
        portByName := portByName[slots[i].key := slots[i].port];
      }
    }
    granted := map[];
    ghost var byName := portByName;
    for i := 0 to |links|
      invariant (granted, portByName) == SameName(links, byName, i)
      invariant used == granted.Values
    {
      var l := links[i];
      if l.uid !in granted && l.Key() in portByName {
        var port := portByName[l.Key()];
        PortAllocator.ValuesOfUpdate(granted, l.uid, port);
        granted := granted[l.uid := port];
        used := used + {port};
        portByName := portByName - {l.Key()};
      }
    }
  }

  method MatchLeftovers(links: seq<Link>, slots: seq<Slot>, named: Ports, used: set<int32>) returns (granted: Ports)
    requires used == named.Values
    ensures granted == Leftover(links, named, Remaining(slots, named), |links|).0
  {
    var remaining: seq<int32> := [];
    for i := 0 to |slots|
      invariant remaining == Unused(slots, used, i)
    {
      if slots[i].port !in used {
        remaining := remaining + [slots[i].port];
      }
    }
    remaining := Sort(remaining, Ascending);
    granted := named;
    var next := 0;
    var i := 0;
    while i < |links|
      invariant i <= |links| && next <= |remaining|
      invariant (granted, next) == Leftover(links, named, remaining, i)
    {
      if links[i].uid !in granted {
        if next >= |remaining| {
          ExhaustedStays(links, named, remaining, i);
          break;
        }
        granted := granted[links[i].uid := remaining[next]];
        next := next + 1;
      }
      i := i + 1;
    }
  }

  lemma {:induction false} ExhaustedStays(links: seq<Link>, named: Ports, remaining: seq<int32>, n: nat)
    requires n <= |links| && Leftover(links, named, remaining, n).1 == |remaining|
    ensures Leftover(links, named, remaining, |links|) == Leftover(links, named, remaining, n)
    decreases |links| - n
  {
    if n < |links| {
      ExhaustedStays(links, named, remaining, n + 1);
    }
  }

  /** The error map: one entry for every link without a port. */
  method ReportUnassigned(links: seq<Link>, granted: Ports, error: LinkError) returns (errors: map<string, LinkError>)
    ensures errors == map u | u in Unassigned(links, granted) :: error
  {
    errors := map[];
    for i := 0 to |links|
      invariant errors == map u | u in Unassigned(links[..i], granted) :: error
    {
      assert links[..i + 1] == links[..i] + [links[i]];
      assert Unassigned(links[..i + 1], granted)
        == Unassigned(links[..i], granted) + if links[i].uid in granted then {} else {links[i].uid} by {
        assert forall l :: l in links[..i + 1] <==> l in links[..i] || l == links[i];
      }
      if links[i].uid !in granted {
        errors := errors[links[i].uid := error];
      }
    }
    assert links[..|links|] == links;
  }

  method AssignPortsToLinks(links: seq<Link>, machinePorts: seq<MachinePort>, allocation: Ports) returns (r: Matching)
    ensures r == Match(links, machinePorts, allocation)
  {
    var slots := CollectSlots(machinePorts, allocation);
    if |links| == 0 {
      return Matching(map[], map[]);
    }
    if |slots| == 0 {
      var none := ReportUnassigned(links, map[], NoAllocatedPort);
      return Matching(map[], none);
    }
    var granted, used := MatchSameName(links, slots);
    granted := MatchLeftovers(links, slots, granted, used);
    var errors := map[];
    if |granted| < |links| {
      errors := ReportUnassigned(links, granted, InsufficientPorts(|links|, |slots|));
    }
    return Matching(granted, errors);
  }

  // ---------------------------------------------------------------- properties

  ghost predicate DistinctLinks(links: seq<Link>) {
    forall i, j | 0 <= i < j < |links| :: links[i].uid != links[j].uid && links[i].Key() != links[j].Key()
  }

  ghost predicate DistinctMachinePorts(machinePorts: seq<MachinePort>) {
    forall i, j | 0 <= i < j < |machinePorts| ::
      machinePorts[i].uid != machinePorts[j].uid && machinePorts[i].Key() != machinePorts[j].Key()
  }

  ghost predicate DistinctSlots(slots: seq<Slot>) {
    forall i, j | 0 <= i < j < |slots| :: slots[i].port != slots[j].port && slots[i].key != slots[j].key
  }

  ghost function SlotPorts(slots: seq<Slot>): set<int32> {
    set s | s in slots :: s.port
  }

  ghost function LinkUids(links: seq<Link>): set<string> {
    set l | l in links :: l.uid
  }

  /** Slots are exactly the machine ports with a positive port. */
  lemma {:induction false} SlotsSpec(machinePorts: seq<MachinePort>, allocation: Ports, n: nat)
    requires n <= |machinePorts|
    ensures forall s | s in Slots(machinePorts, allocation, n) ::
      (s.port > 0 && exists i :: 0 <= i < n && IsSlotOf(s, machinePorts[i], allocation))
    ensures forall i | 0 <= i < n && machinePorts[i].uid in allocation && allocation[machinePorts[i].uid] > 0 ::
      Slot(allocation[machinePorts[i].uid], machinePorts[i].Key()) in Slots(machinePorts, allocation, n)
  {
    if n > 0 {
      SlotsSpec(machinePorts, allocation, n - 1);
    }
  }

  ghost predicate IsSlotOf(s: Slot, mp: MachinePort, allocation: Ports) {
    mp.uid in allocation && allocation[mp.uid] == s.port && mp.Key() == s.key
  }

  /** A slot of another machine port has another port and another key. */
  lemma {:induction false} SlotsApart(machinePorts: seq<MachinePort>, allocation: Ports, n: nat, s: Slot)
    requires n < |machinePorts| && DistinctMachinePorts(machinePorts) && PortAllocator.Injective(allocation)
    requires machinePorts[n].uid in allocation && s in Slots(machinePorts, allocation, n)
    ensures s.port != allocation[machinePorts[n].uid] && s.key != machinePorts[n].Key()
  {
    SlotsSpec(machinePorts, allocation, n);
    var k :| 0 <= k < n && IsSlotOf(s, machinePorts[k], allocation);
  }

  lemma {:induction false} SlotsDistinct(machinePorts: seq<MachinePort>, allocation: Ports, n: nat)
    requires n <= |machinePorts| && DistinctMachinePorts(machinePorts) && PortAllocator.Injective(allocation)
    ensures DistinctSlots(Slots(machinePorts, allocation, n))
  {
    if n > 0 {
      SlotsDistinct(machinePorts, allocation, n - 1);
      var before, mp := Slots(machinePorts, allocation, n - 1), machinePorts[n - 1];
      if mp.uid in allocation && allocation[mp.uid] > 0 {
        forall i | 0 <= i < |before|
          ensures before[i].port != allocation[mp.uid] && before[i].key != mp.Key()
        {
          SlotsApart(machinePorts, allocation, n - 1, before[i]);
        }
        assert Slots(machinePorts, allocation, n) == before + [Slot(allocation[mp.uid], mp.Key())];
      }
    }
  }

  lemma {:induction false} ByNameSpec(slots: seq<Slot>, n: nat)
    requires n <= |slots| && DistinctSlots(slots)
    ensures forall k | k in ByName(slots, n) :: Slot(ByName(slots, n)[k], k) in slots
    ensures forall i | 0 <= i < n :: slots[i].key in ByName(slots, n) && ByName(slots, n)[slots[i].key] == slots[i].port
    ensures PortAllocator.Injective(ByName(slots, n))
  {
    if n > 0 {
      ByNameSpec(slots, n - 1);
      var m := ByName(slots, n);
      forall a, b | a in m && b in m && m[a] == m[b] ensures a == b {
        assert Slot(m[a], a) in slots && Slot(m[b], b) in slots;
      }
    }
  }

  /** The first pass gives a link exactly the port of the slot with its name. */
  lemma {:induction false} SameNameSpec(links: seq<Link>, byName: Ports, n: nat)
    requires n <= |links| && DistinctLinks(links) && PortAllocator.Injective(byName)
    ensures var (granted, names) := SameName(links, byName, n);
      && (forall i | 0 <= i < |links| :: links[i].uid in granted <==> i < n && links[i].Key() in byName)
      && (forall i | 0 <= i < n && links[i].Key() in byName :: granted[links[i].uid] == byName[links[i].Key()])
      && (forall i | n <= i < |links| :: links[i].Key() in names <==> links[i].Key() in byName)
      && (forall k | k in names :: k in byName && names[k] == byName[k])
      && granted.Keys <= LinkUids(links) && granted.Values <= byName.Values
  {
    if n > 0 {
      SameNameSpec(links, byName, n - 1);
      assert links[n - 1] in links;
      var (granted, names) := SameName(links, byName, n - 1);
      var l := links[n - 1];
      if l.Key() in names {
        PortAllocator.ValuesOfUpdate(granted, l.uid, names[l.Key()]);
      }
    }
  }

  ghost function Elements(s: seq<int32>): set<int32> {
    set p | p in s
  }

  lemma {:induction false} SlotPortsAppend(slots: seq<Slot>, n: nat)
    requires 0 < n <= |slots|
    ensures SlotPorts(slots[..n]) == SlotPorts(slots[..n - 1]) + {slots[n - 1].port}
    ensures DistinctSlots(slots) ==> slots[n - 1].port !in SlotPorts(slots[..n - 1])
  {
    assert slots[..n] == slots[..n - 1] + [slots[n - 1]];
    assert forall s :: s in slots[..n] <==> s in slots[..n - 1] || s == slots[n - 1];
  }

  lemma {:induction false} UnusedSpec(slots: seq<Slot>, used: set<int32>, n: nat)
    requires n <= |slots| && DistinctSlots(slots)
    ensures Elements(Unused(slots, used, n)) == SlotPorts(slots[..n]) - used
    ensures NoDuplicates(Unused(slots, used, n))
  {
    if n > 0 {
      UnusedSpec(slots, used, n - 1);
      SlotPortsAppend(slots, n);
      var u := Unused(slots, used, n - 1);
      var p := slots[n - 1].port;
      if p !in used {
        assert p !in Elements(u);
        ElementsAppend(u, p);
      }
    }
  }

  lemma {:induction false} ElementsAppend(s: seq<int32>, p: int32)
    ensures Elements(s + [p]) == Elements(s) + {p}
    ensures NoDuplicates(s) && p !in Elements(s) ==> NoDuplicates(s + [p])
  {
    assert forall i | 0 <= i < |s| :: s[i] in Elements(s);
  }

  lemma {:induction false} AscendingOrders()
    ensures TotalPreorder(Ascending)
  {
  }

  lemma {:induction false} DistinctCard(s: seq<int32>)
    requires NoDuplicates(s)
    ensures |Elements(s)| == |s|
  {
    if |s| > 0 {
      var init := s[..|s| - 1];
      DistinctCard(init);
      assert s == init + [s[|s| - 1]];
      assert Elements(s) == Elements(init) + {s[|s| - 1]};
      assert s[|s| - 1] !in Elements(init);
    }
  }

  ghost predicate StrictlyAscending(s: seq<int32>) {
    forall i, j | 0 <= i < j < |s| :: s[i] < s[j]
  }

  /** What is left for the second pass: the ports the first pass did not use, each once, in
      ascending order. */
  lemma {:induction false} RemainingSpec(slots: seq<Slot>, named: Ports)
    requires DistinctSlots(slots)
    ensures StrictlyAscending(Remaining(slots, named))
    ensures Elements(Remaining(slots, named)) == SlotPorts(slots) - named.Values
    ensures |Remaining(slots, named)| == |SlotPorts(slots) - named.Values|
  {
    var u := Unused(slots, named.Values, |slots|);
    UnusedSpec(slots, named.Values, |slots|);
    assert slots[..|slots|] == slots;
    AscendingOrders();
    SortSorts(u, Ascending);
    var r := Remaining(slots, named);
    assert Elements(r) == Elements(u);
    DistinctCard(u);
    StrictIfFull(r);
  }

  lemma {:induction false} StrictIfFull(s: seq<int32>)
    requires Sorted(s, Ascending) && |Elements(s)| == |s|
    ensures StrictlyAscending(s)
  {
    forall i, j | 0 <= i < j < |s| ensures s[i] < s[j] {
      if s[i] == s[j] {
        var t := s[..j] + s[j + 1..];
        assert Elements(t) == Elements(s) by {
          forall p | p in s ensures p in t {
            var k :| 0 <= k < |s| && s[k] == p;
            if k < j {
              assert t[k] == p;
            } else if k == j {
              assert t[i] == p;
            } else {
              assert t[k - 1] == p;
            }
          }
        }
        ElementsBound(t);
      }
    }
  }

  lemma {:induction false} ElementsBound(s: seq<int32>)
    ensures |Elements(s)| <= |s|
  {
    if |s| > 0 {
      var init := s[..|s| - 1];
      ElementsBound(init);
      assert s == init + [s[|s| - 1]];
      assert Elements(s) == Elements(init) + {s[|s| - 1]};
    }
  }

  /** State of the second pass: `m` is `named` plus the first `next` remaining ports. */
  ghost predicate Serving(named: Ports, rem: seq<int32>, uids: set<string>, m: Ports, next: nat) {
    && next <= |rem| && |m| == |named| + next
    && PortAllocator.Extends(m, named) && PortAllocator.Injective(m)
    && m.Keys <= uids && m.Values <= named.Values + Elements(rem)
    && (forall k | next <= k < |rem| :: rem[k] !in m.Values)
  }

  lemma {:induction false} ServeOne(named: Ports, rem: seq<int32>, uids: set<string>, m: Ports, next: nat, uid: string)
    requires StrictlyAscending(rem) && next < |rem| && Serving(named, rem, uids, m, next)
    requires uid in uids && uid !in m
    ensures Serving(named, rem, uids, m[uid := rem[next]], next + 1)
  {
    var m' := m[uid := rem[next]];
    PortAllocator.ValuesOfUpdate(m, uid, rem[next]);
    assert m'.Values <= named.Values + Elements(rem) by {
      assert rem[next] in Elements(rem);
    }
    assert |m'| == |m| + 1;
  }

  lemma {:induction false} ServeNone(named: Ports, rem: seq<int32>, uids: set<string>)
    requires PortAllocator.Injective(named) && Elements(rem) !! named.Values && named.Keys <= uids
    ensures Serving(named, rem, uids, named, 0)
  {
    forall k | 0 <= k < |rem| ensures rem[k] !in named.Values {
      assert rem[k] in Elements(rem);
    }
  }

  lemma {:induction false} LeftoverSpec(links: seq<Link>, named: Ports, rem: seq<int32>, n: nat)
    requires n <= |links| && StrictlyAscending(rem)
    requires PortAllocator.Injective(named) && Elements(rem) !! named.Values
    requires named.Keys <= LinkUids(links)
    ensures Serving(named, rem, LinkUids(links), Leftover(links, named, rem, n).0, Leftover(links, named, rem, n).1)
  {
    if n == 0 {
      ServeNone(named, rem, LinkUids(links));
    } else {
      LeftoverSpec(links, named, rem, n - 1);
      var (m, next) := Leftover(links, named, rem, n - 1);
      var uid := links[n - 1].uid;
      if uid !in m && next < |rem| {
        assert links[n - 1] in links;
        ServeOne(named, rem, LinkUids(links), m, next, uid);
      }
    }
  }

  lemma {:induction false} LinkCount(links: seq<Link>)
    requires DistinctLinks(links)
    ensures |LinkUids(links)| == |links|
  {
    if |links| > 0 {
      var init := links[..|links| - 1];
      LinkCount(init);
      var last := links[|links| - 1];
      assert links == init + [last];
      assert LinkUids(links) == LinkUids(init) + {last.uid} by {
        assert forall l :: l in links <==> l in init || l == last;
      }
      assert last.uid !in LinkUids(init);
    }
  }

  lemma {:induction false} SlotCount(slots: seq<Slot>)
    requires DistinctSlots(slots)
    ensures |SlotPorts(slots)| == |slots|
  {
    if |slots| > 0 {
      var init := slots[..|slots| - 1];
      SlotCount(init);
      var last := slots[|slots| - 1];
      assert slots == init + [last];
      assert SlotPorts(slots) == SlotPorts(init) + {last.port} by {
        assert forall s :: s in slots <==> s in init || s == last;
      }
      assert last.port !in SlotPorts(init);
    }
  }

  /** What the first pass gives: to a link with a namesake the namesake's port. */
  lemma {:induction false} FirstPass(links: seq<Link>, slots: seq<Slot>) returns (named: Ports)
    requires DistinctLinks(links) && DistinctSlots(slots)
    ensures named == SameName(links, ByName(slots, |slots|), |links|).0
    ensures PortAllocator.Injective(named) && named.Keys <= LinkUids(links)
    ensures named.Values <= SlotPorts(slots)
    ensures forall i, s | 0 <= i < |links| && s in slots && s.key == links[i].Key() ::
      links[i].uid in named && named[links[i].uid] == s.port
  {
    var byName := ByName(slots, |slots|);
    ByNameSpec(slots, |slots|);
    SameNameSpec(links, byName, |links|);
    named := SameName(links, byName, |links|).0;
    NamedInjective(links, byName);
    forall p | p in named.Values ensures p in SlotPorts(slots) {
      var k :| k in byName && byName[k] == p;
      assert Slot(p, k) in slots;
    }
  }

  lemma {:induction false} PortsAddUp(slots: seq<Slot>, named: Ports)
    requires DistinctSlots(slots) && PortAllocator.Injective(named) && named.Values <= SlotPorts(slots)
    ensures |named| + |Remaining(slots, named)| == |slots|
  {
    RemainingSpec(slots, named);
    SlotCount(slots);
    PortAllocator.InjectiveCard(named);
    assert SlotPorts(slots) == named.Values + (SlotPorts(slots) - named.Values);
  }

  lemma {:induction false} NamedInjective(links: seq<Link>, byName: Ports)
    requires DistinctLinks(links) && PortAllocator.Injective(byName)
    ensures PortAllocator.Injective(SameName(links, byName, |links|).0)
  {
    SameNameSpec(links, byName, |links|);
    var m := SameName(links, byName, |links|).0;
    forall a, b | a in m && b in m && m[a] == m[b] ensures a == b {
      var l :| l in links && l.uid == a;
      var i :| 0 <= i < |links| && links[i] == l;
      var l' :| l' in links && l'.uid == b;
      var j :| 0 <= j < |links| && links[j] == l';
      assert byName[links[i].Key()] == byName[links[j].Key()];
    }
  }

  /** A maximum matching: as many links get a port as there are links or usable ports,
      whichever is less; no port is given twice; a link whose name is that of a machine port
      gets that port; and exactly the links without a port are reported. */
  lemma {:induction false} MaximumMatching(links: seq<Link>, machinePorts: seq<MachinePort>, allocation: Ports)
    requires DistinctLinks(links) && DistinctMachinePorts(machinePorts) && PortAllocator.Injective(allocation)
    ensures var r := Match(links, machinePorts, allocation);
      var slots := Slots(machinePorts, allocation, |machinePorts|);
      && |r.granted| == (if |links| <= |slots| then |links| else |slots|)
      && PortAllocator.Injective(r.granted) && r.granted.Keys <= LinkUids(links)
      && r.granted.Values <= SlotPorts(slots)
      && (forall i, s | 0 <= i < |links| && s in slots && s.key == links[i].Key() ::
           links[i].uid in r.granted && r.granted[links[i].uid] == s.port)
      && r.errors.Keys == LinkUids(links) - r.granted.Keys
  {
    var slots := Slots(machinePorts, allocation, |machinePorts|);
    SlotsDistinct(machinePorts, allocation, |machinePorts|);
    LinkCount(links);
    var r := Match(links, machinePorts, allocation);
    assert Unassigned(links, r.granted) == LinkUids(links) - r.granted.Keys;
    if links != [] && slots != [] {
      GrantedSpec(links, slots);
    }
  }

  /** The machine ports that have a positive port. */
  ghost function WithPort(machinePorts: seq<MachinePort>, allocation: Ports, n: nat): set<int>
    requires n <= |machinePorts|
  {
    set i | 0 <= i < n && machinePorts[i].uid in allocation && 0 < allocation[machinePorts[i].uid]
  }

  lemma {:induction false} WithPortCount(machinePorts: seq<MachinePort>, allocation: Ports, n: nat)
    requires n <= |machinePorts|
    ensures |Slots(machinePorts, allocation, n)| == |WithPort(machinePorts, allocation, n)|
  {
    if n > 0 {
      WithPortCount(machinePorts, allocation, n - 1);
      WithPortGrows(machinePorts, allocation, n);
    }
  }

  lemma {:induction false} WithPortGrows(machinePorts: seq<MachinePort>, allocation: Ports, n: nat)
    requires 0 < n <= |machinePorts|
    ensures var before, mp := WithPort(machinePorts, allocation, n - 1), machinePorts[n - 1];
      && n - 1 !in before
      && WithPort(machinePorts, allocation, n)
           == if mp.uid in allocation && 0 < allocation[mp.uid] then before + {n - 1} else before
  {
  }

  /** What is reported about a link without a port: that there is no port at all, or how many links
      and ports there are. */
  lemma {:induction false} ErrorsTell(links: seq<Link>, machinePorts: seq<MachinePort>, allocation: Ports, u: string)
    requires u in Match(links, machinePorts, allocation).errors
    ensures var ports := |WithPort(machinePorts, allocation, |machinePorts|)|;
      match Match(links, machinePorts, allocation).errors[u]
      case NoAllocatedPort => ports == 0
      case InsufficientPorts(m, n) => m == |links| && n == ports && 0 < n
    ensures exists l :: l in links && l.uid == u
  {
    WithPortCount(machinePorts, allocation, |machinePorts|);
  }

  lemma {:induction false} GrantedSpec(links: seq<Link>, slots: seq<Slot>)
    requires DistinctLinks(links) && DistinctSlots(slots)
    ensures var named := SameName(links, ByName(slots, |slots|), |links|).0;
      var m := Leftover(links, named, Remaining(slots, named), |links|).0;
      && |m| == (if |links| <= |slots| then |links| else |slots|)
      && PortAllocator.Injective(m) && m.Keys <= LinkUids(links) && m.Values <= SlotPorts(slots)
      && (|m| == |links| ==> m.Keys == LinkUids(links))
      && (forall i, s | 0 <= i < |links| && s in slots && s.key == links[i].Key() ::
           links[i].uid in m && m[links[i].uid] == s.port)
  {
    var named := FirstPass(links, slots);
    var rem := Remaining(slots, named);
    RemainingSpec(slots, named);
    LeftoverSpec(links, named, rem, |links|);
    var (m, next) := Leftover(links, named, rem, |links|);
    if next < |rem| {
      AllServed(links, named, rem);
    }
    PortsAddUp(slots, named);
    LinkCount(links);
    ServedCount(named, rem, LinkUids(links), SlotPorts(slots), m, next);
  }

  lemma {:induction false} ServedCount(named: Ports, rem: seq<int32>, uids: set<string>, ports: set<int32>, m: Ports,
          next: nat)
    requires Serving(named, rem, uids, m, next)
    requires named.Values <= ports && Elements(rem) <= ports
    requires next < |rem| ==> uids <= m.Keys
    ensures |m| == (if |uids| <= |named| + |rem| then |uids| else |named| + |rem|)
    ensures m.Values <= ports
    ensures |m| == |uids| ==> m.Keys == uids
  {
    PortAllocator.SubsetCard(m.Keys, uids);
    if next < |rem| {
      assert m.Keys == uids;
    }
  }

  lemma {:induction false} AllServed(links: seq<Link>, named: Ports, rem: seq<int32>)
    requires StrictlyAscending(rem) && DistinctLinks(links)
    requires Leftover(links, named, rem, |links|).1 < |rem|
    ensures LinkUids(links) <= Leftover(links, named, rem, |links|).0.Keys
  {
    LeftoverSoFar(links, named, rem, |links|);
    forall u | u in LinkUids(links) ensures u in Leftover(links, named, rem, |links|).0 {
      var l :| l in links && l.uid == u;
      var i :| 0 <= i < |links| && links[i] == l;
    }
  }

  /** No slot has the name of link `l`. */
  ghost predicate Nameless(slots: seq<Slot>, l: Link) {
    forall s | s in slots :: s.key != l.Key()
  }

  /** Before the second pass exactly the links with a namesake have a port, and the other ports
      wait in ascending order. */
  ghost predicate SecondPassReady(links: seq<Link>, slots: seq<Slot>, named: Ports, rem: seq<int32>) {
    && (forall j | 0 <= j < |links| :: links[j].uid in named <==> !Nameless(slots, links[j]))
    && StrictlyAscending(rem) && Elements(rem) == SlotPorts(slots) - named.Values
  }

  lemma {:induction false} SecondPass(links: seq<Link>, machinePorts: seq<MachinePort>, allocation: Ports)
    returns (slots: seq<Slot>, named: Ports, rem: seq<int32>)
    requires DistinctLinks(links) && DistinctMachinePorts(machinePorts) && PortAllocator.Injective(allocation)
    ensures slots == Slots(machinePorts, allocation, |machinePorts|) && DistinctSlots(slots)
    ensures named == SameName(links, ByName(slots, |slots|), |links|).0 && rem == Remaining(slots, named)
    ensures SecondPassReady(links, slots, named, rem)
    ensures links != [] && slots != [] ==>
      Match(links, machinePorts, allocation).granted == Leftover(links, named, rem, |links|).0
    ensures links == [] || slots == [] ==> Match(links, machinePorts, allocation).granted == map[]
  {
    slots := Slots(machinePorts, allocation, |machinePorts|);
    SlotsDistinct(machinePorts, allocation, |machinePorts|);
    var byName := ByName(slots, |slots|);
    ByNameSpec(slots, |slots|);
    SameNameSpec(links, byName, |links|);
    named := SameName(links, byName, |links|).0;
    rem := Remaining(slots, named);
    RemainingSpec(slots, named);
    forall j | 0 <= j < |links|
      ensures links[j].uid in named <==> !Nameless(slots, links[j])
    {
      NamelessIff(slots, byName, links[j]);
    }
  }

  lemma {:induction false} NamelessIff(slots: seq<Slot>, byName: Ports, l: Link)
    requires forall k | k in byName :: Slot(byName[k], k) in slots
    requires forall i | 0 <= i < |slots| :: slots[i].key in byName
    ensures l.Key() in byName <==> !Nameless(slots, l)
  {
    if !Nameless(slots, l) {
      var s :| s in slots && s.key == l.Key();
      var i :| 0 <= i < |slots| && slots[i] == s;
    }
  }

  /** Links without a namesake are served in list order with ascending ports, and no port
      left over is smaller than one given. */
  lemma {:induction false} LeftoversAscend(links: seq<Link>, machinePorts: seq<MachinePort>, allocation: Ports, i: nat)
    requires DistinctLinks(links) && DistinctMachinePorts(machinePorts) && PortAllocator.Injective(allocation)
    requires i < |links| && links[i].uid in Match(links, machinePorts, allocation).granted
    requires Nameless(Slots(machinePorts, allocation, |machinePorts|), links[i])
    ensures var m := Match(links, machinePorts, allocation).granted;
      var slots := Slots(machinePorts, allocation, |machinePorts|);
      && (forall j | 0 <= j < i :: links[j].uid in m)
      && (forall j | 0 <= j < i && Nameless(slots, links[j]) :: m[links[j].uid] < m[links[i].uid])
      && (forall p | p in SlotPorts(slots) - m.Values :: m[links[i].uid] < p)
  {
    var slots, named, rem := SecondPass(links, machinePorts, allocation);
    LeftoverOrder(links, named, rem, |links|, i);
    LeftoverSoFar(links, named, rem, |links|);
    UnusedAreLarger(links, slots, named, rem, links[i].uid);
  }

  lemma {:induction false} UnusedAreLarger(links: seq<Link>, slots: seq<Slot>, named: Ports, rem: seq<int32>,
          uid: string)
    requires StrictlyAscending(rem) && Elements(rem) == SlotPorts(slots) - named.Values
    requires var (m, next) := Leftover(links, named, rem, |links|);
      uid in m && exists k :: 0 <= k < next && rem[k] == m[uid]
    ensures var m := Leftover(links, named, rem, |links|).0;
      forall p | p in SlotPorts(slots) - m.Values :: m[uid] < p
  {
    var (m, next) := Leftover(links, named, rem, |links|);
    LeftoverExtends(links, named, rem, |links|);
    PortAllocator.ValuesOfExtension(m, named);
    forall p | p in SlotPorts(slots) - m.Values
      ensures m[uid] < p
    {
      assert p in Elements(rem);
      var k :| 0 <= k < |rem| && rem[k] == p;
      if k < next {
        GivenOut(links, named, rem, |links|, k);
      }
    }
  }

  lemma {:induction false} LeftoverExtends(links: seq<Link>, named: Ports, rem: seq<int32>, n: nat)
    requires n <= |links|
    ensures PortAllocator.Extends(Leftover(links, named, rem, n).0, named)
  {
    if n > 0 {
      LeftoverExtends(links, named, rem, n - 1);
    }
  }

  lemma {:induction false} GivenOut(links: seq<Link>, named: Ports, rem: seq<int32>, n: nat, k: nat)
    requires n <= |links| && k < Leftover(links, named, rem, n).1
    ensures rem[k] in Leftover(links, named, rem, n).0.Values
  {
    var (m, next) := Leftover(links, named, rem, n - 1);
    if k < next {
      GivenOut(links, named, rem, n - 1, k);
      PortAllocator.ValuesOfExtension(Leftover(links, named, rem, n).0, m);
    } else {
      assert Leftover(links, named, rem, n).0[links[n - 1].uid] == rem[k];
    }
  }

  lemma {:induction false} LeftoverOrder(links: seq<Link>, named: Ports, rem: seq<int32>, n: nat, i: nat)
    requires i < n <= |links| && StrictlyAscending(rem) && DistinctLinks(links)
    requires links[i].uid !in named && links[i].uid in Leftover(links, named, rem, n).0
    ensures var m := Leftover(links, named, rem, n).0;
      && (forall j | 0 <= j < i :: links[j].uid in m)
      && (forall j | 0 <= j < i && links[j].uid !in named :: m[links[j].uid] < m[links[i].uid])
  {
    LeftoverSoFar(links, named, rem, n - 1);
    if i < n - 1 {
      LeftoverOrder(links, named, rem, n - 1, i);
    }
  }

  lemma {:induction false} LeftoverSoFar(links: seq<Link>, named: Ports, rem: seq<int32>, n: nat)
    requires n <= |links| && StrictlyAscending(rem) && DistinctLinks(links)
    ensures var (m, next) := Leftover(links, named, rem, n);
      && (forall j | 0 <= j < n :: links[j].uid in m || next == |rem|)
      && (forall j | n <= j < |links| :: links[j].uid in m <==> links[j].uid in named)
      && (forall j | 0 <= j < n && links[j].uid in m && links[j].uid !in named ::
           exists k :: 0 <= k < next && rem[k] == m[links[j].uid])
  {
    if n > 0 {
      LeftoverSoFar(links, named, rem, n - 1);
    }
  }

  // ---------------------------------------------------------------- which leftover port

  /** How many of the first `n` links have no namesake. */
  ghost function NamelessBefore(links: seq<Link>, slots: seq<Slot>, n: nat): nat
    requires n <= |links|
  {
    if n == 0 then 0
    else NamelessBefore(links, slots, n - 1) + if Nameless(slots, links[n - 1]) then 1 else 0
  }

  /** The ports no link has a namesake for. */
  ghost function LeftPorts(links: seq<Link>, slots: seq<Slot>): set<int32> {
    set s | s in slots && Unclaimed(links, s) :: s.port
  }

  ghost predicate Unclaimed(links: seq<Link>, s: Slot) {
    forall l | l in links :: l.Key() != s.key
  }

  ghost function Below(ports: set<int32>, q: int32): set<int32> {
    set p | p in ports && p < q
  }

  lemma {:induction false} LeftoverCount(links: seq<Link>, slots: seq<Slot>, named: Ports, rem: seq<int32>, n: nat)
    requires n <= |links| && DistinctLinks(links) && SecondPassReady(links, slots, named, rem)
    ensures var waiting := NamelessBefore(links, slots, n);
      Leftover(links, named, rem, n).1 == if waiting <= |rem| then waiting else |rem|
  {
    if n > 0 {
      LeftoverCount(links, slots, named, rem, n - 1);
      LeftoverSoFar(links, named, rem, n - 1);
    }
  }

  /** The second pass gives the k-th link without a namesake the k-th remaining port. */
  lemma {:induction false} LeftoverRank(links: seq<Link>, slots: seq<Slot>, named: Ports, rem: seq<int32>, n: nat,
          i: nat)
    requires i < n <= |links| && DistinctLinks(links) && SecondPassReady(links, slots, named, rem)
    requires Nameless(slots, links[i])
    ensures var k := NamelessBefore(links, slots, i);
      var m := Leftover(links, named, rem, n).0;
      && (links[i].uid in m <==> k < |rem|)
      && (k < |rem| ==> m[links[i].uid] == rem[k])
  {
    if i < n - 1 {
      LeftoverRank(links, slots, named, rem, n - 1, i);
    } else {
      LeftoverCount(links, slots, named, rem, i);
      LeftoverSoFar(links, named, rem, i);
    }
  }

  /** In a strictly ascending sequence a value's position is the number of smaller ones. */
  lemma {:induction false} RankOf(s: seq<int32>, k: nat)
    requires StrictlyAscending(s) && k < |s|
    ensures |Below(Elements(s), s[k])| == k
  {
    DistinctCard(s[..k]);
    forall p ensures p in Below(Elements(s), s[k]) <==> p in Elements(s[..k]) {
      if p in Below(Elements(s), s[k]) {
        var j :| 0 <= j < |s| && s[j] == p;
        assert j < k;
        assert s[..k][j] == p;
      }
    }
    assert Below(Elements(s), s[k]) == Elements(s[..k]);
  }

  /** The ports left for the second pass are those no link has a namesake for. */
  lemma {:induction false} LeftAre(links: seq<Link>, slots: seq<Slot>)
    requires DistinctLinks(links) && DistinctSlots(slots)
    ensures SlotPorts(slots) - SameName(links, ByName(slots, |slots|), |links|).0.Values == LeftPorts(links, slots)
  {
    var byName := ByName(slots, |slots|);
    ByNameSpec(slots, |slots|);
    SameNameSpec(links, byName, |links|);
    var named := SameName(links, byName, |links|).0;
    forall s | s in slots
      ensures s.port in named.Values <==> !Unclaimed(links, s)
    {
      var i :| 0 <= i < |slots| && slots[i] == s;
      if s.port in named.Values {
        ClaimedBy(links, slots, named, s);
      }
      if !Unclaimed(links, s) {
        var l :| l in links && l.Key() == s.key;
        var j :| 0 <= j < |links| && links[j] == l;
        assert named[l.uid] == s.port;
      }
    }
    forall p ensures p in SlotPorts(slots) - named.Values <==> p in LeftPorts(links, slots) {
      if p in SlotPorts(slots) {
        var s :| s in slots && s.port == p;
        assert p in LeftPorts(links, slots) ==> exists t :: t in slots && Unclaimed(links, t) && t.port == p;
      }
    }
  }

  lemma {:induction false} ClaimedBy(links: seq<Link>, slots: seq<Slot>, named: Ports, s: Slot)
    requires DistinctLinks(links) && DistinctSlots(slots) && s in slots
    requires named == SameName(links, ByName(slots, |slots|), |links|).0 && s.port in named.Values
    ensures !Unclaimed(links, s)
  {
    var byName := ByName(slots, |slots|);
    ByNameSpec(slots, |slots|);
    SameNameSpec(links, byName, |links|);
    var u :| u in named && named[u] == s.port;
    var l :| l in links && l.uid == u;
    var j :| 0 <= j < |links| && links[j] == l;
    var t := Slot(byName[l.Key()], l.Key());
    assert t in slots && t.port == s.port;
    SamePort(slots, s, t);
  }

  lemma {:induction false} SamePort(slots: seq<Slot>, s: Slot, t: Slot)
    requires DistinctSlots(slots) && s in slots && t in slots && s.port == t.port
    ensures s == t
  {
    var i :| 0 <= i < |slots| && slots[i] == s;
    var j :| 0 <= j < |slots| && slots[j] == t;
  }

  /** Exactly which port a link without a namesake gets: the one with as many smaller left-over
      ports as there are such links before it. Its previous port does not matter. */
  lemma {:induction false} LeftoverExactly(links: seq<Link>, machinePorts: seq<MachinePort>, allocation: Ports, i: nat,
          q: int32)
    requires DistinctLinks(links) && DistinctMachinePorts(machinePorts) && PortAllocator.Injective(allocation)
    requires i < |links| && Nameless(Slots(machinePorts, allocation, |machinePorts|), links[i])
    ensures var m := Match(links, machinePorts, allocation).granted;
      var slots := Slots(machinePorts, allocation, |machinePorts|);
      links[i].uid in m && m[links[i].uid] == q
      <==> q in LeftPorts(links, slots) && |Below(LeftPorts(links, slots), q)| == NamelessBefore(links, slots, i)
  {
    var slots, named, rem := SecondPass(links, machinePorts, allocation);
    LeftAre(links, slots);
    var k := NamelessBefore(links, slots, i);
    LeftoverRank(links, slots, named, rem, |links|, i);
    if k < |rem| {
      RankOf(rem, k);
      assert rem[k] in Elements(rem);
    }
    if q in Elements(rem) {
      var j :| 0 <= j < |rem| && rem[j] == q;
      RankOf(rem, j);
    }
  }

  /** The links with a newcomer listed at position `i`. */
  ghost function Joined(links: seq<Link>, newcomer: Link, i: nat): seq<Link>
    requires i <= |links|
  {
    links[..i] + [newcomer] + links[i..]
  }

  lemma {:induction false} JoinedRanks(links: seq<Link>, newcomer: Link, slots: seq<Slot>, i: nat)
    requires i < |links| && Nameless(slots, newcomer)
    ensures var links' := Joined(links, newcomer, i);
      && |links'| == |links| + 1 && links'[i + 1] == links[i]
      && NamelessBefore(links', slots, i + 1) == NamelessBefore(links, slots, i) + 1
      && LeftPorts(links', slots) == LeftPorts(links, slots)
  {
    var links' := Joined(links, newcomer, i);
    SameBefore(links, links', slots, i);
    assert links'[i] == newcomer;
    SameLeft(links, links', slots, newcomer, i);
  }

  /** A newcomer without a namesake, listed before such a link, takes its port away. */
  lemma {:induction false} NewcomerMoves(links: seq<Link>, newcomer: Link, machinePorts: seq<MachinePort>,
          allocation: Ports, i: nat)
    requires i < |links| && DistinctLinks(links) && DistinctLinks(Joined(links, newcomer, i))
    requires DistinctMachinePorts(machinePorts) && PortAllocator.Injective(allocation)
    requires links[i].uid in Match(links, machinePorts, allocation).granted
    requires Nameless(Slots(machinePorts, allocation, |machinePorts|), links[i])
    requires Nameless(Slots(machinePorts, allocation, |machinePorts|), newcomer)
    ensures var m := Match(links, machinePorts, allocation).granted;
      var m' := Match(Joined(links, newcomer, i), machinePorts, allocation).granted;
      links[i].uid in m' ==> m'[links[i].uid] != m[links[i].uid]
  {
    var q := Match(links, machinePorts, allocation).granted[links[i].uid];
    JoinedRanks(links, newcomer, Slots(machinePorts, allocation, |machinePorts|), i);
    LeftoverExactly(links, machinePorts, allocation, i, q);
    LeftoverExactly(Joined(links, newcomer, i), machinePorts, allocation, i + 1, q);
  }

  lemma {:induction false} SameBefore(a: seq<Link>, b: seq<Link>, slots: seq<Slot>, n: nat)
    requires n <= |a| && n <= |b| && a[..n] == b[..n]
    ensures NamelessBefore(a, slots, n) == NamelessBefore(b, slots, n)
  {
    if n > 0 {
      assert a[..n - 1] == a[..n][..n - 1] == b[..n][..n - 1] == b[..n - 1];
      assert a[n - 1] == a[..n][n - 1] == b[..n][n - 1] == b[n - 1];
      SameBefore(a, b, slots, n - 1);
    }
  }

  lemma {:induction false} SameLeft(links: seq<Link>, links': seq<Link>, slots: seq<Slot>, newcomer: Link, i: nat)
    requires i <= |links| && links' == Joined(links, newcomer, i) && Nameless(slots, newcomer)
    ensures LeftPorts(links', slots) == LeftPorts(links, slots)
  {
    assert links == links[..i] + links[i..];
    assert forall l :: l in links' <==> l in links || l == newcomer;
    assert forall s | s in slots :: Unclaimed(links', s) <==> Unclaimed(links, s);
  }
}
