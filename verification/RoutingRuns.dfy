/** Runs of routing enable and disable: exactly when the control, bridging and termination
    tables hold the flows of the live L3 interfaces and nothing else. */
module RoutingRuns {
  import opened FlowTable
  import opened Vidx
  import opened VlanTables
  import opened Routing

  ghost predicate Uses(live: map<nat, Intf>, v: Vid) { exists h :: h in live && live[h].vlan == v }

  ghost predicate CtrlWanted(live: map<nat, Intf>, f: Flow<CtrlMatch>) {
    exists h :: h in live && (f == ArpFlow(live[h].vlan) || f == DhcpFlow(live[h].vlan))
  }

  ghost predicate MacWanted(live: map<nat, Intf>, f: Flow<MacMatch>) {
    exists h :: h in live && f == MacFlow(live[h].vlan, live[h].mac)
  }

  ghost predicate CtrlExact(t: multiset<Flow<CtrlMatch>>, live: map<nat, Intf>) {
    forall f :: t[f] == if CtrlWanted(live, f) then 1 else 0
  }

  ghost predicate MacExact(t: multiset<Flow<MacMatch>>, live: map<nat, Intf>) {
    forall f :: t[f] == if MacWanted(live, f) then 1 else 0
  }

  /** The tables hold the flows of the live interfaces, each once, and nothing else. */
  ghost predicate L3Exact(t: L3Tables, live: map<nat, Intf>) {
    CtrlExact(t.ctrl, live) && MacExact(t.bridging, live) && MacExact(t.term, live)
  }

  ghost predicate SoleUsers(live: map<nat, Intf>) {
    forall h, k :: h in live && k in live && live[h].vlan == live[k].vlan ==> h == k
  }

  lemma ExactIsUnique(t: L3Tables, u: L3Tables, live: map<nat, Intf>)
    requires L3Exact(t, live)
    ensures L3Exact(u, live) <==> u == t
  {
    if L3Exact(u, live) {
      assert forall f :: u.ctrl[f] == t.ctrl[f];
      assert forall f :: u.bridging[f] == t.bridging[f];
      assert forall f :: u.term[f] == t.term[f];
      assert u.ctrl == t.ctrl && u.bridging == t.bridging && u.term == t.term;
    }
  }

  /** The VLAN's cookies are unused exactly when no live interface is on the VLAN. */
  lemma UnusedIff(t: L3Tables, live: map<nat, Intf>, v: Vid, n: int)
    requires L3Exact(t, live) && n >= 1
    ensures Unused(t, v, n) <==> !Uses(live, v)
  {
    if Uses(live, v) {
      var h :| h in live && live[h].vlan == v;
      assert CtrlWanted(live, ArpFlow(v));
      assert ArpFlow(v) in t.ctrl && ArpFlow(v).cookie == CtrlCookie(ETHERTYPE_ARP, v);
    } else {
      forall f | f in t.ctrl ensures f.cookie != CtrlCookie(ETHERTYPE_ARP, v) && f.cookie != CtrlCookie(ETHERTYPE_IP, v) {
        assert CtrlWanted(live, f);
      }
      forall f | f in t.bridging ensures f.cookie != v { assert MacWanted(live, f); }
      forall f | f in t.term ensures f.cookie != v { assert MacWanted(live, f); }
    }
  }

  /** `u` is `t` with the four flows of the interface. */
  ghost predicate FourMore(t: L3Tables, u: L3Tables, i: Intf) {
    && u.ctrl == t.ctrl + multiset{ArpFlow(i.vlan), DhcpFlow(i.vlan)}
    && u.bridging == t.bridging + multiset{MacFlow(i.vlan, i.mac)}
    && u.term == t.term + multiset{MacFlow(i.vlan, i.mac)}
  }

  lemma FirstUserCtrl(t: multiset<Flow<CtrlMatch>>, live: map<nat, Intf>, h: nat, i: Intf)
    requires CtrlExact(t, live) && h !in live && !Uses(live, i.vlan)
    ensures CtrlExact(t + multiset{ArpFlow(i.vlan), DhcpFlow(i.vlan)}, live[h := i])
  {
    var u, live' := t + multiset{ArpFlow(i.vlan), DhcpFlow(i.vlan)}, live[h := i];
    forall f ensures u[f] == if CtrlWanted(live', f) then 1 else 0 {
      CtrlWantedWith(live, h, i, f);
      if f == ArpFlow(i.vlan) || f == DhcpFlow(i.vlan) {
        assert !CtrlWanted(live, f);
      }
    }
  }

  lemma FirstUserMac(t: multiset<Flow<MacMatch>>, live: map<nat, Intf>, h: nat, i: Intf)
    requires MacExact(t, live) && h !in live && !Uses(live, i.vlan)
    ensures MacExact(t + multiset{MacFlow(i.vlan, i.mac)}, live[h := i])
  {
    var u, live' := t + multiset{MacFlow(i.vlan, i.mac)}, live[h := i];
    forall f ensures u[f] == if MacWanted(live', f) then 1 else 0 {
      MacWantedWith(live, h, i, f);
      if f == MacFlow(i.vlan, i.mac) {
        assert !MacWanted(live, f);
      }
    }
  }

  lemma CtrlWantedWith(live: map<nat, Intf>, h: nat, i: Intf, f: Flow<CtrlMatch>)
    requires h !in live
    ensures CtrlWanted(live[h := i], f) <==> CtrlWanted(live, f) || f == ArpFlow(i.vlan) || f == DhcpFlow(i.vlan)
  {
    var live' := live[h := i];
    assert live'[h] == i;
    if o :| o in live && (f == ArpFlow(live[o].vlan) || f == DhcpFlow(live[o].vlan)) {
      assert live'[o] == live[o];
    }
  }

  lemma MacWantedWith(live: map<nat, Intf>, h: nat, i: Intf, f: Flow<MacMatch>)
    requires h !in live
    ensures MacWanted(live[h := i], f) <==> MacWanted(live, f) || f == MacFlow(i.vlan, i.mac)
  {
    var live' := live[h := i];
    assert live'[h] == i;
    if o :| o in live && f == MacFlow(live[o].vlan, live[o].mac) {
      assert live'[o] == live[o];
    }
  }

  lemma SecondUserDoubles(t: L3Tables, u: L3Tables, live: map<nat, Intf>, live': map<nat, Intf>, i: Intf)
    requires L3Exact(t, live) && FourMore(t, u, i) && Uses(live, i.vlan)
    ensures !L3Exact(u, live')
  {
    var o :| o in live && live[o].vlan == i.vlan;
    assert CtrlWanted(live, ArpFlow(i.vlan));
    assert u.ctrl[ArpFlow(i.vlan)] == 2;
  }

  /** A successful enable keeps the tables exact if and only if the VLAN was not in use. */
  lemma EnableExactIff(t: L3Tables, live: map<nat, Intf>, h: nat, i: Intf, failAt: nat, k: Stuck)
    requires L3Exact(t, live) && SoleUsers(live) && h !in live && Succeeds(failAt)
    ensures L3Exact(EnableVlan(t, i.vlan, i.mac, failAt, k), live[h := i]) <==> !Uses(live, i.vlan)
    ensures !Uses(live, i.vlan) ==> SoleUsers(live[h := i])
  {
    var u := EnableVlan(t, i.vlan, i.mac, failAt, k);
    assert FourMore(t, u, i) by { SuccessfulEnable(t, i.vlan, i.mac, failAt, k); }
    if Uses(live, i.vlan) {
      SecondUserDoubles(t, u, live, live[h := i], i);
    } else {
      FirstUserCtrl(t.ctrl, live, h, i);
      FirstUserMac(t.bridging, live, h, i);
      FirstUserMac(t.term, live, h, i);
    }
  }

  lemma CtrlWantedWithout(live: map<nat, Intf>, h: nat, f: Flow<CtrlMatch>)
    requires SoleUsers(live) && h in live
    ensures CtrlWanted(live - {h}, f) <==> CtrlWanted(live, f) && !CtrlOf(f, live[h].vlan)
  {
    var rest := live - {h};
    if o :| o in live && (f == ArpFlow(live[o].vlan) || f == DhcpFlow(live[o].vlan)) {
      assert o != h ==> o in rest && rest[o] == live[o];
    }
    if CtrlWanted(rest, f) {
      var o :| o in rest && (f == ArpFlow(rest[o].vlan) || f == DhcpFlow(rest[o].vlan));
      assert o in live && o != h && live[o] == rest[o];
    }
  }

  lemma MacWantedWithout(live: map<nat, Intf>, h: nat, f: Flow<MacMatch>)
    requires SoleUsers(live) && h in live
    ensures MacWanted(live - {h}, f) <==> MacWanted(live, f) && f.cookie != live[h].vlan
  {
    var rest := live - {h};
    if o :| o in live && f == MacFlow(live[o].vlan, live[o].mac) {
      assert o != h ==> o in rest && rest[o] == live[o];
    }
    if MacWanted(rest, f) {
      var o :| o in rest && f == MacFlow(rest[o].vlan, rest[o].mac);
      assert o in live && o != h && live[o] == rest[o];
    }
  }

  predicate CtrlOf(f: Flow<CtrlMatch>, v: Vid) {
    f.cookie == CtrlCookie(ETHERTYPE_ARP, v) || f.cookie == CtrlCookie(ETHERTYPE_IP, v)
  }

  lemma CtrlDisabled(t: multiset<Flow<CtrlMatch>>, live: map<nat, Intf>, h: nat)
    requires CtrlExact(t, live) && SoleUsers(live) && h in live
    ensures var v := live[h].vlan;
      CtrlExact(Without(Without(t, CtrlCookie(ETHERTYPE_ARP, v)), CtrlCookie(ETHERTYPE_IP, v)), live - {h})
  {
    var v := live[h].vlan;
    var t1 := Without(t, CtrlCookie(ETHERTYPE_ARP, v));
    WithoutAt(t, CtrlCookie(ETHERTYPE_ARP, v));
    WithoutAt(t1, CtrlCookie(ETHERTYPE_IP, v));
    forall f ensures Without(t1, CtrlCookie(ETHERTYPE_IP, v))[f] == if CtrlWanted(live - {h}, f) then 1 else 0 {
      CtrlWantedWithout(live, h, f);
    }
  }

  lemma MacDisabled(t: multiset<Flow<MacMatch>>, live: map<nat, Intf>, h: nat)
    requires MacExact(t, live) && SoleUsers(live) && h in live
    ensures MacExact(Without(t, live[h].vlan), live - {h})
  {
    WithoutAt(t, live[h].vlan);
    forall f ensures Without(t, live[h].vlan)[f] == if MacWanted(live - {h}, f) then 1 else 0 {
      MacWantedWithout(live, h, f);
    }
  }

  lemma LeftoverNotExact(t: multiset<Flow<MacMatch>>, live: map<nat, Intf>, h: nat)
    requires MacExact(t, live) && SoleUsers(live) && h in live
    ensures !MacExact(t, live - {h})
  {
    var f := MacFlow(live[h].vlan, live[h].mac);
    assert MacWanted(live, f);
    MacWantedWithout(live, h, f);
  }

  lemma SoleWithout(live: map<nat, Intf>, h: nat)
    requires SoleUsers(live)
    ensures SoleUsers(live - {h})
  {
  }

  /** Disabling keeps the tables exact if and only if all its deletions succeed. */
  lemma DisableExactIff(t: L3Tables, live: map<nat, Intf>, h: nat, failAt: nat)
    requires L3Exact(t, live) && SoleUsers(live) && h in live
    ensures L3Exact(DisableVlan(t, live[h].vlan, failAt), live - {h}) <==> Succeeds(failAt)
  {
    if Succeeds(failAt) {
      CtrlDisabled(t.ctrl, live, h);
      MacDisabled(t.bridging, live, h);
      MacDisabled(t.term, live, h);
    } else {
      assert DisableVlan(t, live[h].vlan, failAt).term == t.term;
      LeftoverNotExact(t.term, live, h);
    }
  }

  /** The routing part of an enable keeps the tables exact: it fails at once, or the VLAN is not
      in use and a rollback, if any, succeeds. */
  ghost predicate RoutingOk(live: map<nat, Intf>, v: Vid, f: Faults) {
    f.routing == 1 || (!Uses(live, v) && (Succeeds(f.routing) || NoneStuck(f.stuck, f.routing - 1)))
  }

  ghost predicate L3StepOk(s: State, op: Op) {
    match op
    case EnableIf(_, pid, v, _, dup, f) => AddInternal(s, pid, v, dup, f).1 ==> RoutingOk(s.live, v, f)
    case EnableSvi(_, v, _, f) => RoutingOk(s.live, v, f)
    case DisableIf(_, f) => Succeeds(f.routing)
  }

  lemma RoutingKeepsL3Iff(t: L3Tables, live: map<nat, Intf>, h: nat, i: Intf, f: Faults)
    requires L3Exact(t, live) && SoleUsers(live) && h !in live
    ensures var live' := if Succeeds(f.routing) then live[h := i] else live;
      && (L3Exact(EnableVlan(t, i.vlan, i.mac, f.routing, f.stuck), live') <==> RoutingOk(live, i.vlan, f))
      && (RoutingOk(live, i.vlan, f) ==> SoleUsers(live'))
  {
    if Succeeds(f.routing) {
      EnableExactIff(t, live, h, i, f.routing, f.stuck);
    } else {
      FailedEnableIff(t, i.vlan, i.mac, f.routing, f.stuck);
      ExactIsUnique(t, EnableVlan(t, i.vlan, i.mac, f.routing, f.stuck), live);
      if f.routing > 1 {
        UnusedIff(t, live, i.vlan, f.routing - 1);
      }
    }
  }

  /** Once the internal VLAN is set up, the L3 side of an interface is that of a VLAN. */
  lemma InterfaceL3(s: State, h: nat, pid: Pid, v: Vid, mac: nat, dup: Duplicate, f: Faults)
    ensures var s', ok := EnableInterface(s, h, pid, v, mac, dup, f), AddInternal(s, pid, v, dup, f).1;
      && s'.l3 == (if ok then EnableVlan(s.l3, v, mac, f.routing, f.stuck) else s.l3)
      && s'.live == (if ok && Succeeds(f.routing) then s.live[h := Intf(v, mac, pid, true)] else s.live)
  {
  }

  lemma DisabledL3(s: State, h: nat, f: Faults)
    requires h in s.live
    ensures Disable(s, h, f).l3 == DisableVlan(s.l3, s.live[h].vlan, f.routing)
    ensures Disable(s, h, f).live == s.live - {h}
  {
  }

  /** A step keeps the L3 tables exactly the flows of the live interfaces, if and only if it
      is OK. */
  lemma StepKeepsL3Iff(s: State, op: Op)
    requires L3Exact(s.l3, s.live) && SoleUsers(s.live) && Enabled(s, op)
    ensures L3Exact(Step(s, op).l3, Step(s, op).live) <==> L3StepOk(s, op)
    ensures L3StepOk(s, op) ==> SoleUsers(Step(s, op).live)
  {
    var l3, live := Step(s, op).l3, Step(s, op).live;
    match op
    case EnableIf(h, pid, v, mac, dup, f) =>
      InterfaceL3(s, h, pid, v, mac, dup, f);
      InterfaceKeepsL3Iff(s, l3, live, h, Intf(v, mac, pid, true), dup, f);
    case EnableSvi(h, v, mac, f) => RoutingKeepsL3Iff(s.l3, s.live, h, Intf(v, mac, 0, false), f);
    case DisableIf(h, f) =>
      DisabledL3(s, h, f);
      DisableExactIff(s.l3, s.live, h, f.routing);
      SoleWithout(s.live, h);
  }

  lemma InterfaceKeepsL3Iff(s: State, l3: L3Tables, live: map<nat, Intf>, h: nat, i: Intf, dup: Duplicate, f: Faults)
    requires L3Exact(s.l3, s.live) && SoleUsers(s.live) && h !in s.live
    requires var ok := AddInternal(s, i.port, i.vlan, dup, f).1;
      && l3 == (if ok then EnableVlan(s.l3, i.vlan, i.mac, f.routing, f.stuck) else s.l3)
      && live == (if ok && Succeeds(f.routing) then s.live[h := i] else s.live)
    ensures var ok := AddInternal(s, i.port, i.vlan, dup, f).1;
      && (L3Exact(l3, live) <==> (ok ==> RoutingOk(s.live, i.vlan, f)))
      && ((ok ==> RoutingOk(s.live, i.vlan, f)) ==> SoleUsers(live))
  {
    RoutingKeepsL3Iff(s.l3, s.live, h, i, f);
  }

  lemma {:induction false} OkRunKeepsL3(states: seq<State>, ops: seq<Op>, n: nat)
    requires IsRun(states, ops) && n <= |ops| && states[0].l3 == L3Tables(multiset{}, multiset{}, multiset{})
    requires forall i :: 0 <= i < n ==> L3StepOk(states[i], ops[i])
    ensures L3Exact(states[n].l3, states[n].live) && SoleUsers(states[n].live)
  {
    if n > 0 {
      OkRunKeepsL3(states, ops, n - 1);
      StepKeepsL3Iff(states[n - 1], ops[n - 1]);
      assert states[n - 1 + 1] == Step(states[n - 1], ops[n - 1]);
    }
  }

  lemma {:induction false} ExactRunIsOk(states: seq<State>, ops: seq<Op>, n: nat)
    requires IsRun(states, ops) && n <= |ops| && states[0].l3 == L3Tables(multiset{}, multiset{}, multiset{})
    requires forall i :: 0 <= i <= n ==> L3Exact(states[i].l3, states[i].live)
    ensures forall i :: 0 <= i < n ==> L3StepOk(states[i], ops[i])
  {
    if n > 0 {
      ExactRunIsOk(states, ops, n - 1);
      OkRunKeepsL3(states, ops, n - 1);
      StepKeepsL3Iff(states[n - 1], ops[n - 1]);
      assert states[n - 1 + 1] == Step(states[n - 1], ops[n - 1]);
    }
  }

  /** In all states of a run, under every pattern of failures, the three tables hold exactly the
      flows of the live interfaces, if and only if no flow was added on a VLAN that a live
      interface used, and no deletion of a rollback or of a disable failed. */
  lemma RunKeepsL3Iff(states: seq<State>, ops: seq<Op>)
    requires IsRun(states, ops) && states[0].l3 == L3Tables(multiset{}, multiset{}, multiset{})
    ensures (forall i :: 0 <= i <= |ops| ==> L3Exact(states[i].l3, states[i].live)) <==>
      forall i :: 0 <= i < |ops| ==> L3StepOk(states[i], ops[i])
  {
    if forall i :: 0 <= i < |ops| ==> L3StepOk(states[i], ops[i]) {
      forall i | 0 <= i <= |ops| ensures L3Exact(states[i].l3, states[i].live) {
        OkRunKeepsL3(states, ops, i);
      }
    }
    if forall i :: 0 <= i <= |ops| ==> L3Exact(states[i].l3, states[i].live) {
      ExactRunIsOk(states, ops, |ops|);
    }
  }

  // ----- live interfaces and match fields -----

  /** The operation brings up the interface. */
  ghost predicate Starts(s: State, op: Op, h: nat, i: Intf) {
    match op
    case EnableIf(k, pid, v, mac, dup, f) =>
      && k == h && i == Intf(v, mac, pid, true)
      && !f.ingress && !f.egress && v !in s.internal && (Gid(pid, v) in s.vlan.groups ==> dup == Replace)
      && !(1 <= f.routing <= 4)
    case EnableSvi(k, v, mac, f) => k == h && i == Intf(v, mac, 0, false) && !(1 <= f.routing <= 4)
    case DisableIf(_, _) => false
  }

  /** The interface was brought up and not disabled since. */
  ghost predicate LiveSince(states: seq<State>, ops: seq<Op>, n: nat, h: nat, i: Intf)
    requires n <= |ops| < |states|
  {
    exists j :: 0 <= j < n && Starts(states[j], ops[j], h, i)
      && forall l :: j < l < n ==> !(ops[l].DisableIf? && ops[l].h == h)
  }

  lemma LiveSinceNext(states: seq<State>, ops: seq<Op>, n: nat, h: nat, i: Intf)
    requires n < |ops| < |states|
    ensures LiveSince(states, ops, n + 1, h, i) <==>
      || Starts(states[n], ops[n], h, i)
      || (LiveSince(states, ops, n, h, i) && !(ops[n].DisableIf? && ops[n].h == h))
  {
  }

  lemma StepLive(s: State, op: Op, h: nat, i: Intf)
    requires Enabled(s, op)
    ensures h in Step(s, op).live && Step(s, op).live[h] == i <==>
      || Starts(s, op, h, i)
      || (h in s.live && s.live[h] == i && !(op.DisableIf? && op.h == h))
  {
    match op
    case EnableIf(k, pid, v, mac, dup, f) =>
      AddInternalIff(s, pid, v, dup, f);
      InterfaceL3(s, k, pid, v, mac, dup, f);
    case EnableSvi(_, _, _, _) =>
    case DisableIf(k, f) => DisabledL3(s, k, f);
  }

  /** In every run the live interfaces are those that were brought up and not disabled since,
      each with the VLAN, MAC address and port it was brought up with. */
  lemma {:induction false} LiveIsHistory(states: seq<State>, ops: seq<Op>, n: nat, h: nat, i: Intf)
    requires IsRun(states, ops) && n <= |ops|
    ensures h in states[n].live && states[n].live[h] == i <==> LiveSince(states, ops, n, h, i)
  {
    if n > 0 {
      LiveIsHistory(states, ops, n - 1, h, i);
      StepLive(states[n - 1], ops[n - 1], h, i);
      LiveSinceNext(states, ops, n - 1, h, i);
      assert states[n - 1 + 1] == Step(states[n - 1], ops[n - 1]);
    }
  }

  /** Frames of the VLAN to the MAC address are matched. */
  ghost predicate MatchesMac(t: multiset<Flow<MacMatch>>, v: Vid, mac: nat) {
    exists f :: f in t && f.body == MacMatch(v, mac)
  }

  ghost predicate MatchesCtrl(t: multiset<Flow<CtrlMatch>>, etherType: nat, v: Vid) {
    exists f :: f in t && f.body == CtrlMatch(etherType, v)
  }

  lemma MacMatched(t: multiset<Flow<MacMatch>>, live: map<nat, Intf>, v: Vid, mac: nat)
    requires MacExact(t, live)
    ensures MatchesMac(t, v, mac) <==> exists h :: h in live && live[h].vlan == v && live[h].mac == mac
  {
    if MatchesMac(t, v, mac) {
      var f :| f in t && f.body == MacMatch(v, mac);
      assert MacWanted(live, f);
    }
    if h :| h in live && live[h].vlan == v && live[h].mac == mac {
      assert MacWanted(live, Flow(v, MacMatch(v, mac)));
      assert Flow(v, MacMatch(v, mac)) in t;
    }
  }

  lemma CtrlMatched(t: multiset<Flow<CtrlMatch>>, live: map<nat, Intf>, e: nat, v: Vid)
    requires CtrlExact(t, live)
    ensures MatchesCtrl(t, e, v) <==> (e == 0x0806 || e == 0x0800) && Uses(live, v)
  {
    if MatchesCtrl(t, e, v) {
      var f :| f in t && f.body == CtrlMatch(e, v);
      assert CtrlWanted(live, f);
    }
    if h :| (e == 0x0806 || e == 0x0800) && h in live && live[h].vlan == v {
      var f := if e == 0x0806 then ArpFlow(v) else DhcpFlow(v);
      assert CtrlWanted(live, f);
      assert f in t && f.body == CtrlMatch(e, v);
    }
  }

  ghost predicate SomeLive(states: seq<State>, ops: seq<Op>, n: nat, v: Vid)
    requires n <= |ops| < |states|
  {
    exists h, i :: LiveSince(states, ops, n, h, i) && i.vlan == v
  }

  ghost predicate SomeLiveMac(states: seq<State>, ops: seq<Op>, n: nat, v: Vid, mac: nat)
    requires n <= |ops| < |states|
  {
    exists h, i :: LiveSince(states, ops, n, h, i) && i.vlan == v && i.mac == mac
  }

  lemma SomeLiveIff(states: seq<State>, ops: seq<Op>, n: nat, v: Vid, mac: nat)
    requires IsRun(states, ops) && n <= |ops|
    ensures SomeLive(states, ops, n, v) <==> Uses(states[n].live, v)
    ensures SomeLiveMac(states, ops, n, v, mac) <==>
      exists h :: h in states[n].live && states[n].live[h].vlan == v && states[n].live[h].mac == mac
  {
    var live := states[n].live;
    forall h, i ensures LiveSince(states, ops, n, h, i) <==> h in live && live[h] == i {
      LiveIsHistory(states, ops, n, h, i);
    }
    forall h | h in live ensures LiveSince(states, ops, n, h, live[h]) {
      LiveIsHistory(states, ops, n, h, live[h]);
    }
  }

  /** What the switch matches, told by the operations: in every state of a run of OK steps, a MAC
      address on a VLAN is bridged to the CPU and terminated for routing exactly if an interface
      with that VLAN and address was brought up and not disabled since, and exactly ARP and IP
      broadcasts are trapped on the VLANs of such interfaces. */
  lemma RunMatches(states: seq<State>, ops: seq<Op>, n: nat, v: Vid, mac: nat, e: nat)
    requires IsRun(states, ops) && n <= |ops| && states[0].l3 == L3Tables(multiset{}, multiset{}, multiset{})
    requires forall i :: 0 <= i < n ==> L3StepOk(states[i], ops[i])
    ensures MatchesMac(states[n].l3.bridging, v, mac) <==> SomeLiveMac(states, ops, n, v, mac)
    ensures MatchesMac(states[n].l3.term, v, mac) <==> SomeLiveMac(states, ops, n, v, mac)
    ensures MatchesCtrl(states[n].l3.ctrl, e, v) <==> (e == 0x0806 || e == 0x0800) && SomeLive(states, ops, n, v)
  {
    OkRunKeepsL3(states, ops, n);
    SomeLiveIff(states, ops, n, v, mac);
    MacMatched(states[n].l3.bridging, states[n].live, v, mac);
    MacMatched(states[n].l3.term, states[n].live, v, mac);
    CtrlMatched(states[n].l3.ctrl, states[n].live, e, v);
  }
}
