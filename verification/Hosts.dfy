/** Next hops: the free list of ARP indices threaded through an array, the host table, and
    the route counter that decides when the L3 interface of a bundle goes away. */
module Hosts {

  const ARP_INDICES := 1024

  type Idx = i: int | 0 <= i <= ARP_INDICES

  /** Element 0 is the head of the free list, the others are links; 0 ends the list. */
  type Links = s: seq<Idx> | |s| == ARP_INDICES + 1 witness seq(ARP_INDICES + 1, _ => 0)

  /** `owner` is the bundle through which the host was added; no operation reads it. */
  datatype Host = Host(ip: nat, arpIndex: Idx, owner: nat)

  /** `l3` maps the bundles with an L3 interface to its routes counter; `abandoned` are the
      indices that failed additions took and did not give back. */
  datatype State = State(arp: Links, hosts: seq<Host>, l3: map<nat, nat>, abandoned: set<Idx>)

  datatype Op =
    | AddHost(bundle: nat, ip: nat, badInput: bool, l2Fails: bool, l3Fails: bool, routeFails: bool)
    | DelHost(bundle: nat, ip: nat, badInput: bool)
    | Configure(bundle: nat, enable: bool, hasVlan: bool, enableFails: bool)
    | RemoveBundle(bundle: nat)

  function InitialLinks(): Links {
    seq(ARP_INDICES + 1, i requires 0 <= i <= ARP_INDICES => if i < ARP_INDICES then i + 1 else 0)
  }

  const WORD := 0x1_0000_0000_0000_0000

  /** The position of the first entry for the address, or the length. */
  function Find(hosts: seq<Host>, ip: nat): (i: nat)
    ensures i <= |hosts|
    ensures i < |hosts| ==> hosts[i].ip == ip
    ensures forall j :: 0 <= j < i ==> hosts[j].ip != ip
  {
    if hosts == [] || hosts[0].ip == ip then 0 else 1 + Find(hosts[1..], ip)
  }

  function Allocated(arp: Links): Links
    requires arp[0] != 0
  {
    arp[0 := arp[arp[0]]][arp[0] := 0]
  }

  function Released(arp: Links, i: Idx): Links {
    arp[i := arp[0]][0 := i]
  }

  /** Decrement of an unsigned counter; at zero the interface is torn down. */
  function Decremented(l3: map<nat, nat>, b: nat): map<nat, nat>
    requires b in l3
  {
    var c := (l3[b] + WORD - 1) % WORD;
    if c == 0 then l3 - {b} else l3[b := c]
  }

  function Step(s: State, op: Op): State {
    match op
    case AddHost(b, ip, badInput, l2Fails, l3Fails, routeFails) =>
      if badInput || b !in s.l3 || l2Fails || s.arp[0] == 0 then s
      else if l3Fails || routeFails then s.(arp := Allocated(s.arp), abandoned := s.abandoned + {s.arp[0]})
      else s.(arp := Allocated(s.arp), hosts := [Host(ip, s.arp[0], b)] + s.hosts, l3 := s.l3[b := (s.l3[b] + 1) % WORD])
    case DelHost(b, ip, badInput) =>
      var i := Find(s.hosts, ip);
      if badInput || b !in s.l3 || i == |s.hosts| then s
      else s.(arp := Released(s.arp, s.hosts[i].arpIndex),
              hosts := s.hosts[..i] + s.hosts[i + 1..],
              l3 := Decremented(s.l3, b))
    case Configure(b, enable, hasVlan, enableFails) =>
      var l3 := if b in s.l3 && !enable && s.l3[b] == 0 then s.l3 - {b} else s.l3;
      s.(l3 := if hasVlan && b !in l3 && enable && !enableFails then l3[b := 0] else l3)
    case RemoveBundle(b) => s.(l3 := s.l3 - {b})
  }

  // ----- the free list -----

  function Next(free: seq<Idx>, i: nat): Idx { if i < |free| then free[i] else 0 }

  /** The links from element 0 spell out `free` and end in 0. */
  ghost predicate Spells(arp: Links, free: seq<Idx>) {
    && arp[0] == Next(free, 0)
    && (forall i :: 0 <= i < |free| ==> free[i] != 0 && arp[free[i]] == Next(free, i + 1))
    && (forall i, j :: 0 <= i < j < |free| ==> free[i] != free[j])
  }

  function Taken(hosts: seq<Host>): set<Idx> { set h | h in hosts :: h.arpIndex }

  /** Every index is in exactly one of the free list, the host entries and the abandoned
      set, and no two hosts share one. */
  ghost predicate ArpInv(s: State, free: seq<Idx>) {
    && Spells(s.arp, free)
    && (forall i, j :: 0 <= i < j < |s.hosts| ==> s.hosts[i].arpIndex != s.hosts[j].arpIndex)
    && (forall k: Idx :: k != 0 ==> Place(s, free, k))
    && 0 !in Taken(s.hosts) && 0 !in s.abandoned
  }

  ghost predicate Place(s: State, free: seq<Idx>, k: Idx) {
    || (k in free && k !in Taken(s.hosts) && k !in s.abandoned)
    || (k !in free && k in Taken(s.hosts) && k !in s.abandoned)
    || (k !in free && k !in Taken(s.hosts) && k in s.abandoned)
  }

  lemma {:induction false} InitialSpells()
    ensures Spells(InitialLinks(), seq(ARP_INDICES, i requires 0 <= i < ARP_INDICES => (i + 1) as Idx))
  {
  }

  /** Allocation takes the head off the list. */
  lemma AllocatedSpells(arp: Links, free: seq<Idx>)
    requires Spells(arp, free) && arp[0] != 0
    ensures free != [] && free[0] == arp[0] && Spells(Allocated(arp), free[1..])
  {
  }

  /** Releasing puts an index that is not free in front. */
  lemma ReleasedSpells(arp: Links, free: seq<Idx>, k: Idx)
    requires Spells(arp, free) && k != 0 && k !in free
    ensures Spells(Released(arp, k), [k] + free)
  {
    var all := [k] + free;
    forall i | 0 <= i < |all| ensures all[i] != 0 && Released(arp, k)[all[i]] == Next(all, i + 1) {
      if i > 0 {
        assert all[i] == free[i - 1] && free[i - 1] in free;
      }
    }
  }

  /** The list after the operation. */
  function FreeAfter(s: State, free: seq<Idx>, op: Op): seq<Idx> {
    var s' := Step(s, op);
    match op
    case AddHost(_, _, _, _, _, _) => if s'.arp == s.arp || free == [] then free else free[1..]
    case DelHost(_, ip, _) =>
      if |s'.hosts| == |s.hosts| then free
      else if Find(s.hosts, ip) < |s.hosts| then [s.hosts[Find(s.hosts, ip)].arpIndex] + free
      else free
    case Configure(_, _, _, _) => free
    case RemoveBundle(_) => free
  }

  lemma AddKeepsArp(s: State, free: seq<Idx>, op: Op)
    requires ArpInv(s, free) && op.AddHost?
    ensures ArpInv(Step(s, op), FreeAfter(s, free, op))
  {
    var s' := Step(s, op);
    if !(op.badInput || op.bundle !in s.l3 || op.l2Fails || s.arp[0] == 0) {
      var k := s.arp[0];
      AllocatedSpells(s.arp, free);
      assert s'.arp[k] == 0;
      TakesHead(s, free, s');
    }
  }

  /** Moving the head of the list to the hosts or to the abandoned set. */
  lemma TakesHead(s: State, free: seq<Idx>, s': State)
    requires ArpInv(s, free) && s.arp[0] != 0 && s'.arp == Allocated(s.arp)
    requires || (s'.hosts == s.hosts && s'.abandoned == s.abandoned + {s.arp[0]})
             || (s'.abandoned == s.abandoned && exists h: Host :: h.arpIndex == s.arp[0] && s'.hosts == [h] + s.hosts)
    ensures free != [] && ArpInv(s', free[1..])
  {
    var k := s.arp[0];
    AllocatedSpells(s.arp, free);
    assert k in free && Place(s, free, k);
    RestOf(free);
    if s'.hosts != s.hosts {
      var h: Host :| h.arpIndex == k && s'.hosts == [h] + s.hosts;
      TakenWith(s.hosts, h);
    }
    forall j: Idx | j != 0 ensures Place(s', free[1..], j) {
      assert Place(s, free, j);
    }
  }

  lemma RestOf(free: seq<Idx>)
    requires free != [] && forall i, j :: 0 <= i < j < |free| ==> free[i] != free[j]
    ensures forall k :: k in free[1..] <==> k in free && k != free[0]
  {
  }

  lemma TakenWith(hosts: seq<Host>, h: Host)
    requires forall i, j :: 0 <= i < j < |hosts| ==> hosts[i].arpIndex != hosts[j].arpIndex
    requires h.arpIndex !in Taken(hosts)
    ensures Taken([h] + hosts) == Taken(hosts) + {h.arpIndex}
    ensures forall i, j :: 0 <= i < j < |hosts| + 1 ==> ([h] + hosts)[i].arpIndex != ([h] + hosts)[j].arpIndex
  {
  }

  lemma DelKeepsArp(s: State, free: seq<Idx>, op: Op)
    requires ArpInv(s, free) && op.DelHost?
    ensures ArpInv(Step(s, op), FreeAfter(s, free, op))
  {
    var s', n := Step(s, op), Find(s.hosts, op.ip);
    if |s'.hosts| < |s.hosts| {
      var k := s.hosts[n].arpIndex;
      assert s.hosts[n] in s.hosts;
      assert k in Taken(s.hosts) && Place(s, free, k);
      ReleasedSpells(s.arp, free, k);
      TakenWithout(s.hosts, n);
      forall j: Idx | j != 0 ensures Place(s', [k] + free, j) {
        assert Place(s, free, j);
      }
    }
  }

  lemma TakenWithout(hosts: seq<Host>, n: nat)
    requires n < |hosts|
    requires forall i, j :: 0 <= i < j < |hosts| ==> hosts[i].arpIndex != hosts[j].arpIndex
    ensures Taken(hosts[..n] + hosts[n + 1..]) == Taken(hosts) - {hosts[n].arpIndex}
  {
  }

  /** Free-list safety: every operation, with any failures, keeps the accounting. */
  lemma StepKeepsArp(s: State, free: seq<Idx>, op: Op)
    requires ArpInv(s, free)
    ensures ArpInv(Step(s, op), FreeAfter(s, free, op))
  {
    match op
    case AddHost(_, _, _, _, _, _) => AddKeepsArp(s, free, op);
    case DelHost(_, _, _) => DelKeepsArp(s, free, op);
    case Configure(_, _, _, _) =>
      forall j: Idx | j != 0 ensures Place(Step(s, op), free, j) { assert Place(s, free, j); }
    case RemoveBundle(_) =>
      forall j: Idx | j != 0 ensures Place(Step(s, op), free, j) { assert Place(s, free, j); }
  }

  /** With valid input and a working L2 group, an addition changes nothing exactly when the
      free list is empty. */
  lemma RefusedIffExhausted(s: State, free: seq<Idx>, op: Op)
    requires ArpInv(s, free) && op.AddHost? && !op.badInput && op.bundle in s.l3 && !op.l2Fails
    ensures Step(s, op) == s <==> free == []
  {
  }

  // ----- the routes counter -----

  ghost function Owned(hosts: seq<Host>, b: nat): nat {
    if hosts == [] then 0 else Owned(hosts[1..], b) + if hosts[0].owner == b then 1 else 0
  }

  /** The counter of every L3 interface is the number of hosts its bundle owns, and a bundle
      without L3 interface owns none. */
  ghost predicate CountInv(s: State) {
    forall b: nat :: Owned(s.hosts, b) == Counter(s, b)
  }

  function Counter(s: State, b: nat): nat { if b in s.l3 then s.l3[b] else 0 }

  lemma {:induction false} OwnedWithout(hosts: seq<Host>, n: nat, b: nat)
    requires n < |hosts|
    ensures Owned(hosts, b) == Owned(hosts[..n] + hosts[n + 1..], b) + if hosts[n].owner == b then 1 else 0
  {
    if n == 0 {
      assert hosts[..0] + hosts[1..] == hosts[1..];
    } else {
      OwnedWithout(hosts[1..], n - 1, b);
      var rest := hosts[..n] + hosts[n + 1..];
      assert rest[1..] == hosts[1..][..n - 1] + hosts[1..][n..];
    }
  }

  lemma {:induction false} OwnedBound(hosts: seq<Host>, b: nat)
    ensures Owned(hosts, b) <= |hosts|
  {
    if hosts != [] {
      OwnedBound(hosts[1..], b);
    }
  }

  lemma {:induction false} TakenSize(hosts: seq<Host>)
    requires forall i, j :: 0 <= i < j < |hosts| ==> hosts[i].arpIndex != hosts[j].arpIndex
    ensures |Taken(hosts)| == |hosts|
  {
    if hosts != [] {
      var rest := hosts[1..];
      TakenSize(rest);
      assert hosts == [hosts[0]] + rest;
      assert hosts[0].arpIndex !in Taken(rest) by {
        assert forall i :: 0 <= i < |rest| ==> rest[i] == hosts[i + 1];
      }
      assert Taken(hosts) == Taken(rest) + {hosts[0].arpIndex};
    }
  }

  lemma {:induction false} UpTo(k: nat, s: set<Idx>)
    requires forall i :: i in s ==> i < k
    ensures |s| <= k
  {
    if k > 0 {
      if k - 1 <= ARP_INDICES && k - 1 in s {
        UpTo(k - 1, s - {k - 1});
      } else {
        UpTo(k - 1, s);
      }
    }
  }

  /** There are never more hosts than indices, so the counters do not overflow. */
  lemma HostBound(s: State, free: seq<Idx>, b: nat)
    requires ArpInv(s, free)
    ensures Owned(s.hosts, b) <= ARP_INDICES + 1
  {
    OwnedBound(s.hosts, b);
    TakenSize(s.hosts);
    UpTo(ARP_INDICES + 1, Taken(s.hosts));
  }

  /** A host is deleted through the bundle that added it, and a bundle that is removed owns
      no host. */
  ghost predicate StepOk(s: State, op: Op) {
    match op
    case AddHost(_, _, _, _, _, _) => true
    case DelHost(b, ip, badInput) =>
      var i := Find(s.hosts, ip);
      badInput || b !in s.l3 || i == |s.hosts| || s.hosts[i].owner == b
    case Configure(_, _, _, _) => true
    case RemoveBundle(b) => Owned(s.hosts, b) == 0
  }

  lemma AddKeepsCount(s: State, free: seq<Idx>, op: Op)
    requires ArpInv(s, free) && CountInv(s) && op.AddHost?
    ensures CountInv(Step(s, op))
  {
    var s' := Step(s, op);
    forall b: nat ensures Owned(s'.hosts, b) == Counter(s', b) {
      assert Owned(s.hosts, b) == Counter(s, b);
      HostBound(s, free, b);
      if s'.hosts != s.hosts {
        assert s'.hosts[1..] == s.hosts;
      }
    }
  }

  lemma CountDown(c: nat)
    requires c < WORD
    ensures (c + WORD - 1) % WORD == if c == 0 then WORD - 1 else c - 1
  {
  }

  lemma DelCounterAt(s: State, free: seq<Idx>, b: nat, i: nat, c: nat)
    requires ArpInv(s, free) && CountInv(s) && b in s.l3 && i < |s.hosts|
    ensures var l3, rest := Decremented(s.l3, b), s.hosts[..i] + s.hosts[i + 1..];
      Owned(rest, c) == (if c in l3 then l3[c] else 0) <==> (c == b <==> c == s.hosts[i].owner)
  {
    assert Owned(s.hosts, c) == Counter(s, c);
    HostBound(s, free, c);
    OwnedWithout(s.hosts, i, c);
    assert Owned(s.hosts, b) == Counter(s, b);
    HostBound(s, free, b);
    CountDown(s.l3[b]);
  }

  lemma DelKeepsCountIff(s: State, free: seq<Idx>, op: Op)
    requires ArpInv(s, free) && CountInv(s) && op.DelHost?
    ensures CountInv(Step(s, op)) <==> StepOk(s, op)
  {
    var s', i := Step(s, op), Find(s.hosts, op.ip);
    if !(op.badInput || op.bundle !in s.l3 || i == |s.hosts|) {
      forall c: nat
        ensures Owned(s'.hosts, c) == Counter(s', c) <==> (c == op.bundle <==> c == s.hosts[i].owner)
      {
        DelCounterAt(s, free, op.bundle, i, c);
      }
      assert CountInv(s') ==> Owned(s'.hosts, op.bundle) == Counter(s', op.bundle);
    }
  }

  /** The routes counters stay right exactly when the step is OK; so routing is never
      disabled while a host of the bundle remains, and no counter runs below zero. */
  lemma StepKeepsCountIff(s: State, free: seq<Idx>, op: Op)
    requires ArpInv(s, free) && CountInv(s)
    ensures CountInv(Step(s, op)) <==> StepOk(s, op)
  {
    match op
    case AddHost(_, _, _, _, _, _) => AddKeepsCount(s, free, op);
    case DelHost(_, _, _) => DelKeepsCountIff(s, free, op);
    case Configure(b, _, _, _) =>
      forall c: nat ensures Owned(s.hosts, c) == Counter(Step(s, op), c) {
        assert Owned(s.hosts, c) == Counter(s, c);
      }
    case RemoveBundle(b) =>
      forall c: nat ensures Owned(s.hosts, c) == Counter(Step(s, op), c) <==> (c == b ==> Owned(s.hosts, b) == 0) {
        assert Owned(s.hosts, c) == Counter(s, c);
      }
  }

  // ----- runs -----

  ghost predicate IsRun(states: seq<State>, ops: seq<Op>) {
    && |states| == |ops| + 1
    && states[0] == State(InitialLinks(), [], map[], {})
    && forall i :: 0 <= i < |ops| ==> states[i + 1] == Step(states[i], ops[i])
  }

  ghost function FreeAt(states: seq<State>, ops: seq<Op>, n: nat): seq<Idx>
    requires n <= |ops| < |states|
  {
    if n == 0 then seq(ARP_INDICES, i requires 0 <= i < ARP_INDICES => (i + 1) as Idx)
    else FreeAfter(states[n - 1], FreeAt(states, ops, n - 1), ops[n - 1])
  }

  /** In every run, with any failures, the free list stays acyclic and ends in 0, and every
      index is accounted for exactly once. */
  lemma {:induction false} RunKeepsArp(states: seq<State>, ops: seq<Op>, n: nat)
    requires IsRun(states, ops) && n <= |ops|
    ensures ArpInv(states[n], FreeAt(states, ops, n))
  {
    if n == 0 {
      InitialSpells();
      var free := FreeAt(states, ops, 0);
      forall k: Idx | k != 0 ensures Place(states[0], free, k) {
        assert free[k - 1] == k;
      }
    } else {
      RunKeepsArp(states, ops, n - 1);
      StepKeepsArp(states[n - 1], FreeAt(states, ops, n - 1), ops[n - 1]);
      assert states[n - 1 + 1] == Step(states[n - 1], ops[n - 1]);
    }
  }

  lemma RunStep(states: seq<State>, ops: seq<Op>, i: nat)
    requires IsRun(states, ops) && i < |ops| && CountInv(states[i])
    ensures CountInv(states[i + 1]) <==> StepOk(states[i], ops[i])
  {
    RunKeepsArp(states, ops, i);
    StepKeepsCountIff(states[i], FreeAt(states, ops, i), ops[i]);
    assert states[i + 1] == Step(states[i], ops[i]);
  }

  lemma {:induction false} OkRunKeepsCount(states: seq<State>, ops: seq<Op>, n: nat)
    requires IsRun(states, ops) && n <= |ops|
    requires forall i :: 0 <= i < n ==> StepOk(states[i], ops[i])
    ensures CountInv(states[n])
  {
    if n > 0 {
      OkRunKeepsCount(states, ops, n - 1);
      RunStep(states, ops, n - 1);
    }
  }

  /** The routes counters are right in all states of a run exactly when hosts are deleted
      through their own bundle and no bundle is removed while it owns hosts. */
  lemma RunKeepsCountIff(states: seq<State>, ops: seq<Op>)
    requires IsRun(states, ops)
    ensures (forall i :: 0 <= i <= |ops| ==> CountInv(states[i])) <==>
      forall i :: 0 <= i < |ops| ==> StepOk(states[i], ops[i])
  {
    if forall i :: 0 <= i < |ops| ==> StepOk(states[i], ops[i]) {
      forall i | 0 <= i <= |ops| ensures CountInv(states[i]) {
        OkRunKeepsCount(states, ops, i);
      }
    }
    if forall i :: 0 <= i <= |ops| ==> CountInv(states[i]) {
      forall i | 0 <= i < |ops| ensures StepOk(states[i], ops[i]) {
        RunStep(states, ops, i);
      }
    }
  }

  /** Conservation: free, used and abandoned indices always add up to the whole pool, so an
      abandoned index is lost for good. */
  lemma Conservation(s: State, free: seq<Idx>)
    requires ArpInv(s, free)
    ensures |free| + |s.hosts| + |s.abandoned| == ARP_INDICES
  {
    var listed, taken := Listed(free), Taken(s.hosts);
    DistinctSize(free);
    TakenSize(s.hosts);
    forall k: Idx
      ensures k in listed + taken + s.abandoned <==> 0 < k
      ensures !(k in listed && k in taken) && !(k in listed + taken && k in s.abandoned)
    {
      if k != 0 {
        assert Place(s, free, k);
      }
    }
    assert |listed + taken| == |listed| + |taken|;
    assert |listed + taken + s.abandoned| == |listed + taken| + |s.abandoned|;
    Whole(ARP_INDICES, listed + taken + s.abandoned);
  }

  function Listed(free: seq<Idx>): set<Idx> { set k | k in free }

  lemma {:induction false} DistinctSize(free: seq<Idx>)
    requires forall i, j :: 0 <= i < j < |free| ==> free[i] != free[j]
    ensures |Listed(free)| == |free|
  {
    if free != [] {
      DistinctSize(free[1..]);
      RestOf(free);
      assert Listed(free) == Listed(free[1..]) + {free[0]};
    }
  }

  lemma {:induction false} Whole(n: nat, s: set<Idx>)
    requires n <= ARP_INDICES && forall k: Idx :: k in s <==> 0 < k <= n
    ensures |s| == n
  {
    if n == 0 {
      assert s == {};
    } else {
      Whole(n - 1, s - {n});
    }
  }

  lemma {:induction false} AbandonedGrows(states: seq<State>, ops: seq<Op>, i: nat, n: nat)
    requires IsRun(states, ops) && i <= n <= |ops|
    ensures states[i].abandoned <= states[n].abandoned
  {
    if i < n {
      AbandonedGrows(states, ops, i, n - 1);
      assert states[n - 1 + 1] == Step(states[n - 1], ops[n - 1]);
    }
  }

  /** An index that a failed addition took is neither free nor used in any later state, and no
      later host gets it; each such failure shortens the pool for good. */
  lemma AbandonedForGood(states: seq<State>, ops: seq<Op>, i: nat, n: nat, k: Idx)
    requires IsRun(states, ops) && i <= n <= |ops| && k in states[i].abandoned
    ensures k !in FreeAt(states, ops, n) && k !in Taken(states[n].hosts)
    ensures |FreeAt(states, ops, n)| + |states[n].hosts| <= ARP_INDICES - |states[i].abandoned|
  {
    AbandonedGrows(states, ops, i, n);
    RunKeepsArp(states, ops, n);
    var s, free := states[n], FreeAt(states, ops, n);
    assert Place(s, free, k);
    Conservation(s, free);
    SubsetSize(states[i].abandoned, s.abandoned);
  }

  lemma SubsetSize(a: set<Idx>, b: set<Idx>)
    requires a <= b
    ensures |a| <= |b|
  {
    assert b == a + (b - a);
    assert |b| == |a| + |b - a|;
  }

  // ----- the object -----

  class HostTable {
    const arp: array<Idx>
    var hosts: seq<Host>
    var l3: map<nat, nat>
    ghost var abandoned: set<Idx>

    ghost predicate Valid()
      reads this
    {
      arp.Length == ARP_INDICES + 1
    }

    ghost function View(): State
      reads this, arp
      requires Valid()
    {
      State(arp[..], hosts, l3, abandoned)
    }

    constructor ()
      ensures Valid() && fresh(arp)
      ensures View() == State(InitialLinks(), [], map[], {})
    {
      arp := new Idx[ARP_INDICES + 1];
      hosts, l3, abandoned := [], map[], {};
      new;
      for i := 0 to ARP_INDICES
        invariant forall j :: 0 <= j < i ==> arp[j] == j + 1
        invariant hosts == [] && l3 == map[] && abandoned == {}
      {
        arp[i] := i + 1;
      }
      arp[ARP_INDICES] := 0;
      assert arp[..] == InitialLinks();
    }

    /** host_table_find. */
    method FindHost(ip: nat) returns (i: nat)
      ensures i == Find(hosts, ip)
    {
      i := 0;
      while i < |hosts| && hosts[i].ip != ip
        invariant i <= |hosts|
        invariant forall j :: 0 <= j < i ==> hosts[j].ip != ip
      {
        i := i + 1;
      }
    }

    /** add_l3_host_entry. */
    method Add(b: nat, ip: nat, badInput: bool, l2Fails: bool, l3Fails: bool, routeFails: bool) returns (err: bool)
      requires Valid()
      modifies this, arp
      ensures Valid()
      ensures View() == Step(old(View()), AddHost(b, ip, badInput, l2Fails, l3Fails, routeFails))
      ensures err <==> badInput || b !in old(l3) || l2Fails || old(arp[0]) == 0 || l3Fails || routeFails
      ensures !err ==> hosts == [Host(ip, old(arp[0]), b)] + old(hosts) && abandoned == old(abandoned)
      ensures err ==> hosts == old(hosts) && l3 == old(l3)
    {
      if badInput || b !in l3 || l2Fails {
        return true;
      }
      if arp[0] == 0 {
        return true;
      }
      var i := arp[0];
      arp[0] := arp[i];
      arp[i] := 0;
      if l3Fails || routeFails {
        abandoned := abandoned + {i};
        return true;
      }
      hosts := [Host(ip, i, b)] + hosts;
      l3 := l3[b := (l3[b] + 1) % WORD];
      return false;
    }

    /** delete_l3_host_entry. */
    method Delete(b: nat, ip: nat, badInput: bool) returns (err: bool)
      requires Valid()
      modifies this, arp
      ensures Valid()
      ensures View() == Step(old(View()), DelHost(b, ip, badInput))
      ensures err <==> badInput || b !in old(l3) || forall i :: 0 <= i < |old(hosts)| ==> old(hosts)[i].ip != ip
    {
      if badInput || b !in l3 {
        return true;
      }
      var n := FindHost(ip);
      if n == |hosts| {
        return true;
      }
      var i := hosts[n].arpIndex;
      arp[i] := arp[0];
      arp[0] := i;
      hosts := hosts[..n] + hosts[n + 1..];
      var c := (l3[b] + WORD - 1) % WORD;
      l3 := if c == 0 then l3 - {b} else l3[b := c];
      return false;
    }

    /** The routing part of bundle_set on a VRF. */
    method ConfigureBundle(b: nat, enable: bool, hasVlan: bool, enableFails: bool)
      requires Valid()
      modifies this
      ensures Valid()
      ensures View() == Step(old(View()), Configure(b, enable, hasVlan, enableFails))
    {
      if b in l3 && !enable && l3[b] == 0 {
        l3 := l3 - {b};
      }
      if hasVlan && b !in l3 && enable && !enableFails {
        l3 := l3[b := 0];
      }
    }
  }
}
