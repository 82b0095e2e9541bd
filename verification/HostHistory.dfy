/** Hosts and L3 interfaces told by their history: what every operation does to the host table,
    the free list and the interfaces, on each of its exits. */
module HostHistory {
  import opened Hosts

  // ----- adding a host -----

  /** The addition gets past its checks and its L2 group, and there is room: a free index. */
  predicate Allocates(s: State, room: bool, op: Op) {
    op.AddHost? && !op.badInput && op.bundle in s.l3 && !op.l2Fails && room
  }

  predicate Adds(s: State, room: bool, op: Op) {
    Allocates(s, room, op) && !op.l3Fails && !op.routeFails
  }

  lemma RoomIff(s: State, free: seq<Idx>)
    requires ArpInv(s, free)
    ensures s.arp[0] != 0 <==> free != []
  {
  }

  /** An addition in which nothing fails puts the host in front with the first free index,
      counts one route more, and abandons nothing. */
  lemma AddLaw(s: State, free: seq<Idx>, op: Op)
    requires ArpInv(s, free) && CountInv(s) && Adds(s, free != [], op)
    ensures var u := Step(s, op);
      && u.hosts == [Host(op.ip, free[0], op.bundle)] + s.hosts
      && u.l3 == s.l3[op.bundle := s.l3[op.bundle] + 1]
      && u.abandoned == s.abandoned && FreeAfter(s, free, op) == free[1..]
  {
    assert s.l3[op.bundle] + 1 < WORD by {
      assert Owned(s.hosts, op.bundle) == Counter(s, op.bundle);
      HostBound(s, free, op.bundle);
    }
    AllocationMoves(s.arp, free);
  }

  lemma AllocationMoves(arp: Links, free: seq<Idx>)
    requires Spells(arp, free) && free != []
    ensures arp[0] == free[0] != 0 && Allocated(arp) != arp
  {
    assert Allocated(arp)[0] == arp[free[0]] == Next(free, 1);
  }

  /** Every other addition leaves hosts and counters as they were, and abandons an index exactly
      if a group or a route failed after it was taken. */
  lemma FailedAddLaw(s: State, free: seq<Idx>, op: Op)
    requires ArpInv(s, free) && op.AddHost? && !Adds(s, free != [], op)
    ensures var u := Step(s, op);
      && u.hosts == s.hosts && u.l3 == s.l3
      && u.abandoned == (if Allocates(s, free != [], op) then s.abandoned + {free[0]} else s.abandoned)
      && (!Allocates(s, free != [], op) ==> u == s)
  {
  }

  // ----- deleting a host -----

  predicate Deletes(s: State, op: Op) {
    op.DelHost? && !op.badInput && op.bundle in s.l3 && exists i :: 0 <= i < |s.hosts| && s.hosts[i].ip == op.ip
  }

  /** Removing the first entry for an address, and only that. */
  ghost predicate FirstRemoved(hosts: seq<Host>, ip: nat, h: Host, rest: seq<Host>) {
    exists i :: 0 <= i < |hosts| && hosts[i] == h && h.ip == ip && (forall j :: 0 <= j < i ==> hosts[j].ip != ip)
      && rest == hosts[..i] + hosts[i + 1..]
  }

  /** A deletion of a known host through a bundle with an L3 interface removes its latest entry,
      puts its index in front of the free list, and counts one route less; the interface goes
      with its last route. */
  lemma DeleteLaw(s: State, free: seq<Idx>, op: Op) returns (h: Host)
    requires ArpInv(s, free) && CountInv(s) && Deletes(s, op)
    ensures var u := Step(s, op);
      && FirstRemoved(s.hosts, op.ip, h, u.hosts)
      && FreeAfter(s, free, op) == [h.arpIndex] + free && u.abandoned == s.abandoned
      && (s.l3[op.bundle] == 1 ==> u.l3 == s.l3 - {op.bundle})
      && (s.l3[op.bundle] > 1 ==> u.l3 == s.l3[op.bundle := s.l3[op.bundle] - 1])
  {
    var i := Find(s.hosts, op.ip);
    h := s.hosts[i];
    assert Owned(s.hosts, op.bundle) == Counter(s, op.bundle);
    HostBound(s, free, op.bundle);
    CountDown(s.l3[op.bundle]);
  }

  /** Deleting through a bundle that counts no route wraps the counter around and keeps the
      interface. */
  lemma UnderflowLaw(s: State, op: Op)
    requires Deletes(s, op) && s.l3[op.bundle] == 0
    ensures Step(s, op).l3 == s.l3[op.bundle := 0xFFFF_FFFF_FFFF_FFFF]
  {
    CountDown(s.l3[op.bundle]);
  }

  lemma FailedDeleteLaw(s: State, op: Op)
    requires op.DelHost? && !Deletes(s, op)
    ensures Step(s, op) == s
  {
  }

  // ----- the L3 interfaces -----

  /** When a bundle has an L3 interface after an operation: configuration takes it away when
      disabled without routes and makes one when enabled on a VLAN; the last route takes it
      away; and so does removal of the bundle. */
  ghost predicate HasIntfAfter(s: State, op: Op, b: nat) {
    match op
    case AddHost(_, _, _, _, _, _) => b in s.l3
    case DelHost(c, _, _) => b in s.l3 && !(b == c && Deletes(s, op) && s.l3[b] == 1)
    case Configure(c, enable, hasVlan, enableFails) =>
      if b != c then b in s.l3
      else if b in s.l3 then enable || s.l3[b] != 0
      else enable && hasVlan && !enableFails
    case RemoveBundle(c) => b in s.l3 && b != c
  }

  lemma IntfLaw(s: State, free: seq<Idx>, op: Op, b: nat)
    requires ArpInv(s, free) && CountInv(s)
    ensures b in Step(s, op).l3 <==> HasIntfAfter(s, op, b)
    ensures b in Step(s, op).l3 && b !in s.l3 ==> Step(s, op).l3[b] == 0
    ensures op.Configure? && b in Step(s, op).l3 && b in s.l3 ==> Step(s, op).l3[b] == s.l3[b]
  {
    assert Owned(s.hosts, b) == Counter(s, b);
    HostBound(s, free, b);
    if b in s.l3 {
      CountDown(s.l3[b]);
    }
  }

  /** Configuring and removing bundles does not touch hosts or indices. */
  lemma ConfigureKeepsHosts(s: State, op: Op)
    requires op.Configure? || op.RemoveBundle?
    ensures Step(s, op).hosts == s.hosts && Step(s, op).arp == s.arp && Step(s, op).abandoned == s.abandoned
  {
  }

  // ----- runs -----

  function Entries(hosts: seq<Host>, ip: nat): nat {
    if hosts == [] then 0 else Entries(hosts[1..], ip) + if hosts[0].ip == ip then 1 else 0
  }

  lemma {:induction false} EntriesWithout(hosts: seq<Host>, i: nat, ip: nat)
    requires i < |hosts|
    ensures Entries(hosts, ip) == Entries(hosts[..i] + hosts[i + 1..], ip) + if hosts[i].ip == ip then 1 else 0
  {
    if i == 0 {
      assert hosts[..0] + hosts[1..] == hosts[1..];
    } else {
      EntriesWithout(hosts[1..], i - 1, ip);
      assert (hosts[..i] + hosts[i + 1..])[1..] == hosts[1..][..i - 1] + hosts[1..][i..];
    }
  }

  lemma {:induction false} EntriesPositive(hosts: seq<Host>, ip: nat)
    ensures Entries(hosts, ip) > 0 <==> exists i :: 0 <= i < |hosts| && hosts[i].ip == ip
  {
    if hosts != [] {
      EntriesPositive(hosts[1..], ip);
      assert forall i :: 0 < i < |hosts| ==> hosts[i] == hosts[1..][i - 1];
      if i :| 0 <= i < |hosts| && hosts[i].ip == ip {
        assert i > 0 ==> hosts[1..][i - 1].ip == ip;
      }
    }
  }

  /** Additions of the address that worked, among the first `n` operations. */
  ghost function Additions(states: seq<State>, ops: seq<Op>, n: nat, ip: nat): nat
    requires n <= |ops| < |states|
  {
    if n == 0 then 0
    else Additions(states, ops, n - 1, ip)
         + if Adds(states[n - 1], states[n - 1].arp[0] != 0, ops[n - 1]) && ops[n - 1].ip == ip then 1 else 0
  }

  ghost function Deletions(states: seq<State>, ops: seq<Op>, n: nat, ip: nat): nat
    requires n <= |ops| < |states|
  {
    if n == 0 then 0
    else Deletions(states, ops, n - 1, ip) + if Deletes(states[n - 1], ops[n - 1]) && ops[n - 1].ip == ip then 1 else 0
  }

  lemma StepEntries(s: State, free: seq<Idx>, op: Op, ip: nat)
    requires ArpInv(s, free)
    ensures Entries(Step(s, op).hosts, ip) + (if Deletes(s, op) && op.ip == ip then 1 else 0) ==
      Entries(s.hosts, ip) + if Adds(s, free != [], op) && op.ip == ip then 1 else 0
  {
    var u := Step(s, op);
    match op
    case AddHost(_, _, _, _, _, _) =>
      if Adds(s, free != [], op) {
        assert u.hosts[1..] == s.hosts;
      }
    case DelHost(_, a, _) =>
      if Deletes(s, op) {
        EntriesWithout(s.hosts, Find(s.hosts, a), ip);
      }
    case Configure(_, _, _, _) =>
    case RemoveBundle(_) =>
  }

  lemma HistoryNext(states: seq<State>, ops: seq<Op>, n: nat, ip: nat)
    requires IsRun(states, ops) && n < |ops|
    ensures Entries(states[n + 1].hosts, ip) + (if Deletes(states[n], ops[n]) && ops[n].ip == ip then 1 else 0) ==
      Entries(states[n].hosts, ip) + if Adds(states[n], states[n].arp[0] != 0, ops[n]) && ops[n].ip == ip then 1 else 0
  {
    RunKeepsArp(states, ops, n);
    RoomIff(states[n], FreeAt(states, ops, n));
    StepEntries(states[n], FreeAt(states, ops, n), ops[n], ip);
  }

  lemma {:induction false} EntriesCounted(states: seq<State>, ops: seq<Op>, n: nat, ip: nat)
    requires IsRun(states, ops) && n <= |ops|
    ensures Entries(states[n].hosts, ip) == Additions(states, ops, n, ip) - Deletions(states, ops, n, ip)
  {
    if n > 0 {
      EntriesCounted(states, ops, n - 1, ip);
      HistoryNext(states, ops, n - 1, ip);
    }
  }

  /** In every run the number of entries for an address is the number of its successful additions
      less that of its successful deletions; so it has an entry exactly if the additions
      outnumber the deletions. */
  lemma EntriesAreHistory(states: seq<State>, ops: seq<Op>, n: nat, ip: nat)
    requires IsRun(states, ops) && n <= |ops|
    ensures Entries(states[n].hosts, ip) == Additions(states, ops, n, ip) - Deletions(states, ops, n, ip)
    ensures (exists i :: 0 <= i < |states[n].hosts| && states[n].hosts[i].ip == ip) <==>
      Additions(states, ops, n, ip) > Deletions(states, ops, n, ip)
  {
    EntriesCounted(states, ops, n, ip);
    EntriesPositive(states[n].hosts, ip);
  }
}
