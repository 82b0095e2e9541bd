/** Enabling and disabling routing on a VLAN: four flows in three tables, with rollback on
    failure; on a physical interface also an internal VLAN, tracked in a global bitmap. */
module Routing {
  import opened FlowTable
  import opened Vidx
  import opened VlanTables

  const ETHERTYPE_IP := 0x0800
  const ETHERTYPE_ARP := 0x0806

  /** Broadcast ARP requests or DHCP requests of a VLAN, trapped to the CPU. */
  datatype CtrlMatch = CtrlMatch(etherType: nat, vlan: Vid)

  /** Frames of a VLAN to a MAC address. */
  datatype MacMatch = MacMatch(vlan: Vid, mac: nat)

  datatype L3Tables = L3Tables(
    ctrl: multiset<Flow<CtrlMatch>>, bridging: multiset<Flow<MacMatch>>, term: multiset<Flow<MacMatch>>)

  function CtrlCookie(etherType: nat, vlan: Vid): nat { etherType * 0x1_0000 + vlan }

  function ArpFlow(v: Vid): Flow<CtrlMatch> { Flow(CtrlCookie(ETHERTYPE_ARP, v), CtrlMatch(ETHERTYPE_ARP, v)) }

  function DhcpFlow(v: Vid): Flow<CtrlMatch> { Flow(CtrlCookie(ETHERTYPE_IP, v), CtrlMatch(ETHERTYPE_IP, v)) }

  function MacFlow(v: Vid, mac: nat): Flow<MacMatch> { Flow(v, MacMatch(v, mac)) }

  function SetArp(t: L3Tables, v: Vid): L3Tables { t.(ctrl := t.ctrl + multiset{ArpFlow(v)}) }
  function SetFwd(t: L3Tables, v: Vid, mac: nat): L3Tables { t.(bridging := t.bridging + multiset{MacFlow(v, mac)}) }
  function SetDhcp(t: L3Tables, v: Vid): L3Tables { t.(ctrl := t.ctrl + multiset{DhcpFlow(v)}) }
  function SetUnicast(t: L3Tables, v: Vid, mac: nat): L3Tables { t.(term := t.term + multiset{MacFlow(v, mac)}) }

  ghost function UnsetArp(t: L3Tables, v: Vid): L3Tables { t.(ctrl := Without(t.ctrl, CtrlCookie(ETHERTYPE_ARP, v))) }
  ghost function UnsetFwd(t: L3Tables, v: Vid): L3Tables { t.(bridging := Without(t.bridging, v)) }
  ghost function UnsetDhcp(t: L3Tables, v: Vid): L3Tables { t.(ctrl := Without(t.ctrl, CtrlCookie(ETHERTYPE_IP, v))) }
  ghost function UnsetUnicast(t: L3Tables, v: Vid): L3Tables { t.(term := Without(t.term, v)) }

  /** Which deletions of a rollback fail, leaving their flow behind. */
  datatype Stuck = Stuck(arp: bool, fwd: bool, dhcp: bool)

  ghost function UndoArp(t: L3Tables, v: Vid, k: Stuck): L3Tables { if k.arp then t else UnsetArp(t, v) }
  ghost function UndoFwd(t: L3Tables, v: Vid, k: Stuck): L3Tables { if k.fwd then t else UnsetFwd(t, v) }
  ghost function UndoDhcp(t: L3Tables, v: Vid, k: Stuck): L3Tables { if k.dhcp then t else UnsetDhcp(t, v) }

  /** enable_routing_vlan; `failAt` is the first of the four additions that fails, if any. */
  ghost function EnableVlan(t: L3Tables, v: Vid, mac: nat, failAt: nat, k: Stuck): L3Tables {
    if failAt == 1 then t
    else if failAt == 2 then UndoArp(SetArp(t, v), v, k)
    else if failAt == 3 then UndoArp(UndoFwd(SetFwd(SetArp(t, v), v, mac), v, k), v, k)
    else if failAt == 4 then UndoArp(UndoFwd(UndoDhcp(SetDhcp(SetFwd(SetArp(t, v), v, mac), v), v, k), v, k), v, k)
    else SetUnicast(SetDhcp(SetFwd(SetArp(t, v), v, mac), v), v, mac)
  }

  predicate Succeeds(failAt: nat) { !(1 <= failAt <= 4) }

  /** disable_routing; it stops at the first deletion that fails. */
  ghost function DisableVlan(t: L3Tables, v: Vid, failAt: nat): L3Tables {
    if failAt == 1 then t
    else if failAt == 2 then UnsetArp(t, v)
    else if failAt == 3 then UnsetFwd(UnsetArp(t, v), v)
    else if failAt == 4 then UnsetDhcp(UnsetFwd(UnsetArp(t, v), v), v)
    else UnsetUnicast(UnsetDhcp(UnsetFwd(UnsetArp(t, v), v), v), v)
  }

  // ----- the transaction -----

  /** The tables without the flows that the first `n` steps add. */
  ghost function Cleared(t: L3Tables, v: Vid, n: int): L3Tables {
    var t1 := if n >= 1 then UnsetArp(t, v) else t;
    var t2 := if n >= 2 then UnsetFwd(t1, v) else t1;
    var t3 := if n >= 3 then UnsetDhcp(t2, v) else t2;
    if n >= 4 then UnsetUnicast(t3, v) else t3
  }

  /** None of the first `n` cookies is in use. */
  ghost predicate Unused(t: L3Tables, v: Vid, n: int) {
    && (n >= 1 ==> !HasCookie(t.ctrl, CtrlCookie(ETHERTYPE_ARP, v)))
    && (n >= 2 ==> !HasCookie(t.bridging, v))
    && (n >= 3 ==> !HasCookie(t.ctrl, CtrlCookie(ETHERTYPE_IP, v)))
    && (n >= 4 ==> !HasCookie(t.term, v))
  }

  lemma ClearedIsSameIff(t: L3Tables, v: Vid, n: int)
    ensures Cleared(t, v, n) == t <==> Unused(t, v, n)
  {
    var arp, ip := CtrlCookie(ETHERTYPE_ARP, v), CtrlCookie(ETHERTYPE_IP, v);
    var c1 := if n >= 1 then Without(t.ctrl, arp) else t.ctrl;
    var c := if n >= 3 then Without(c1, ip) else c1;
    assert Cleared(t, v, n).ctrl == c;
    WithoutAt(t.ctrl, arp);
    WithoutAt(c1, ip);
    WithoutIdentity(t.ctrl, arp);
    WithoutIdentity(t.ctrl, ip);
    WithoutIdentity(t.bridging, v);
    WithoutIdentity(t.term, v);
    if c == t.ctrl {
      assert forall f :: f in t.ctrl ==> c[f] == t.ctrl[f] > 0;
    }
  }

  /** Removing both control flows, in either order, clears both cookies. */
  lemma ArpDhcp(t: multiset<Flow<CtrlMatch>>, v: Vid)
    ensures var arp, ip := CtrlCookie(ETHERTYPE_ARP, v), CtrlCookie(ETHERTYPE_IP, v);
      var u := t + multiset{ArpFlow(v)} + multiset{DhcpFlow(v)};
      && Without(Without(u, arp), ip) == Without(Without(t, arp), ip)
      && Without(Without(u, ip), arp) == Without(Without(t, arp), ip)
  {
    var arp, ip, u := CtrlCookie(ETHERTYPE_ARP, v), CtrlCookie(ETHERTYPE_IP, v), t + multiset{ArpFlow(v)};
    WithoutOther(u, DhcpFlow(v), arp);
    WithoutAdded(t, ArpFlow(v));
    WithoutAdded(Without(t, arp), DhcpFlow(v));
    WithoutCommutes(u + multiset{DhcpFlow(v)}, arp, ip);
  }

  /** The deletions that undo the first `n` steps succeed. */
  predicate NoneStuck(k: Stuck, n: int) {
    (n >= 1 ==> !k.arp) && (n >= 2 ==> !k.fwd) && (n >= 3 ==> !k.dhcp)
  }

  /** A failed enable whose rollback succeeds has cleared the cookies of the steps it undid, no
      more and no less. It left the tables unchanged exactly when none of these was in use and
      the rollback succeeded. */
  lemma FailedEnableIff(t: L3Tables, v: Vid, mac: nat, failAt: nat, k: Stuck)
    requires 1 <= failAt <= 4
    ensures NoneStuck(k, failAt - 1) ==> EnableVlan(t, v, mac, failAt, k) == Cleared(t, v, failAt - 1)
    ensures EnableVlan(t, v, mac, failAt, k) == t <==> Unused(t, v, failAt - 1) && NoneStuck(k, failAt - 1)
  {
    if NoneStuck(k, failAt - 1) {
      FailedEnable(t, v, mac, failAt, k);
      ClearedIsSameIff(t, v, failAt - 1);
    } else {
      LeftBehind(t, v, mac, failAt, k);
    }
  }

  /** A rollback deletion that fails leaves one more copy of its flow. */
  lemma LeftBehind(t: L3Tables, v: Vid, mac: nat, failAt: nat, k: Stuck)
    requires 1 <= failAt <= 4
    ensures var u := EnableVlan(t, v, mac, failAt, k);
      && (failAt >= 2 && k.arp ==> u.ctrl[ArpFlow(v)] == t.ctrl[ArpFlow(v)] + 1)
      && (failAt >= 3 && k.fwd ==> u.bridging[MacFlow(v, mac)] == t.bridging[MacFlow(v, mac)] + 1)
      && (failAt == 4 && k.dhcp ==> u.ctrl[DhcpFlow(v)] == t.ctrl[DhcpFlow(v)] + 1)
  {
    var arp, ip, both := CtrlCookie(ETHERTYPE_ARP, v), CtrlCookie(ETHERTYPE_IP, v), SetDhcp(SetArp(t, v), v).ctrl;
    WithoutAt(both, arp);
    WithoutAt(both, ip);
  }

  lemma FailedEnable(t: L3Tables, v: Vid, mac: nat, failAt: nat, k: Stuck)
    requires 1 <= failAt <= 4 && NoneStuck(k, failAt - 1)
    ensures EnableVlan(t, v, mac, failAt, k) == Cleared(t, v, failAt - 1)
  {
    if failAt == 2 {
      WithoutAdded(t.ctrl, ArpFlow(v));
    } else if failAt == 3 {
      WithoutAdded(t.ctrl, ArpFlow(v));
      WithoutAdded(t.bridging, MacFlow(v, mac));
    } else if failAt == 4 {
      FailedUnicast(t, v, mac, k);
    }
  }

  lemma FailedUnicast(t: L3Tables, v: Vid, mac: nat, k: Stuck)
    requires NoneStuck(k, 3)
    ensures EnableVlan(t, v, mac, 4, k) == Cleared(t, v, 3)
  {
    var u, c := EnableVlan(t, v, mac, 4, k), Cleared(t, v, 3);
    assert u.bridging == c.bridging by { WithoutAdded(t.bridging, MacFlow(v, mac)); }
    assert u.ctrl == c.ctrl by { ArpDhcp(t.ctrl, v); }
  }

  /** A successful enable adds exactly four flows: broadcast ARP and DHCP traps for the VLAN, and
      the router's MAC address on the VLAN for ARP replies and for routing. */
  lemma SuccessfulEnable(t: L3Tables, v: Vid, mac: nat, failAt: nat, k: Stuck)
    requires Succeeds(failAt)
    ensures var u := EnableVlan(t, v, mac, failAt, k);
      && u.ctrl == t.ctrl + multiset{Flow(0x0806_0000 + v, CtrlMatch(0x0806, v)), Flow(0x0800_0000 + v, CtrlMatch(0x0800, v))}
      && u.bridging == t.bridging + multiset{Flow(v, MacMatch(v, mac))}
      && u.term == t.term + multiset{Flow(v, MacMatch(v, mac))}
  {
  }

  /** How many copies of a flow are left when those with its cookie are to be deleted after one
      was added: none if the deletion works, one more if it does not. */
  function Undone<B(==)>(old': nat, f: Flow<B>, added: Flow<B>, stuck: bool): nat {
    if f.cookie != added.cookie then old' else if stuck then old' + (if f == added then 1 else 0) else 0
  }

  /** A failed enable, entry by entry and for every pattern of failing rollback deletions. */
  lemma FailedEnableAt(t: L3Tables, v: Vid, mac: nat, failAt: nat, k: Stuck)
    requires 1 <= failAt <= 4
    ensures var u := EnableVlan(t, v, mac, failAt, k);
      var arp, ip := Flow(0x0806_0000 + v, CtrlMatch(0x0806, v)), Flow(0x0800_0000 + v, CtrlMatch(0x0800, v));
      && (forall f :: u.ctrl[f] ==
                      (if f.cookie == arp.cookie then (if failAt >= 2 then Undone(t.ctrl[f], f, arp, k.arp) else t.ctrl[f])
                       else (if failAt == 4 then Undone(t.ctrl[f], f, ip, k.dhcp) else t.ctrl[f])))
      && (forall f :: u.bridging[f] ==
                      (if failAt >= 3 then Undone(t.bridging[f], f, Flow(v, MacMatch(v, mac)), k.fwd) else t.bridging[f]))
      && u.term == t.term
  {
    CtrlUndoneAt(t, v, mac, failAt, k);
    WithoutAt(t.bridging + multiset{MacFlow(v, mac)}, v);
  }

  lemma UndoneAt<B(!new)>(t: multiset<Flow<B>>, a: Flow<B>, stuck: bool, f: Flow<B>)
    ensures (if stuck then t + multiset{a} else Without(t + multiset{a}, a.cookie))[f] == Undone(t[f], f, a, stuck)
  {
    WithoutAt(t + multiset{a}, a.cookie);
  }

  lemma CtrlUndoneAt(t: L3Tables, v: Vid, mac: nat, failAt: nat, k: Stuck)
    requires 1 <= failAt <= 4
    ensures var u, arp, ip := EnableVlan(t, v, mac, failAt, k), ArpFlow(v), DhcpFlow(v);
      forall f :: u.ctrl[f] ==
                  (if f.cookie == arp.cookie then (if failAt >= 2 then Undone(t.ctrl[f], f, arp, k.arp) else t.ctrl[f])
                   else (if failAt == 4 then Undone(t.ctrl[f], f, ip, k.dhcp) else t.ctrl[f]))
  {
    var u, arp, ip := EnableVlan(t, v, mac, failAt, k), ArpFlow(v), DhcpFlow(v);
    forall f ensures u.ctrl[f] ==
                  (if f.cookie == arp.cookie then (if failAt >= 2 then Undone(t.ctrl[f], f, arp, k.arp) else t.ctrl[f])
                   else (if failAt == 4 then Undone(t.ctrl[f], f, ip, k.dhcp) else t.ctrl[f])) {
      if failAt == 4 {
        BothUndoneAt(t.ctrl, v, k, f);
      } else if failAt >= 2 {
        UndoneAt(t.ctrl, arp, k.arp, f);
      }
    }
  }

  lemma BothUndoneAt(t: multiset<Flow<CtrlMatch>>, v: Vid, k: Stuck, f: Flow<CtrlMatch>)
    ensures var arp, ip, both := ArpFlow(v), DhcpFlow(v), t + multiset{ArpFlow(v)} + multiset{DhcpFlow(v)};
      var w := if k.dhcp then both else Without(both, ip.cookie);
      (if k.arp then w else Without(w, arp.cookie))[f] ==
        if f.cookie == arp.cookie then Undone(t[f], f, arp, k.arp) else Undone(t[f], f, ip, k.dhcp)
  {
    var both := t + multiset{ArpFlow(v)} + multiset{DhcpFlow(v)};
    var w := if k.dhcp then both else Without(both, DhcpFlow(v).cookie);
    UndoneAt(t + multiset{ArpFlow(v)}, DhcpFlow(v), k.dhcp, f);
    WithoutAt(w, ArpFlow(v).cookie);
  }

  /** Disabling, entry by entry: the cookies before the first failing deletion are gone, all
      other entries stay. */
  lemma DisableAt(t: L3Tables, v: Vid, failAt: nat)
    ensures var u, n := DisableVlan(t, v, failAt), if 1 <= failAt <= 4 then failAt - 1 else 4;
      && (forall f :: u.ctrl[f] ==
                      if (f.cookie == 0x0806_0000 + v && n >= 1) || (f.cookie == 0x0800_0000 + v && n >= 3) then 0 else t.ctrl[f])
      && (forall f :: u.bridging[f] == if f.cookie == v && n >= 2 then 0 else t.bridging[f])
      && (forall f :: u.term[f] == if f.cookie == v && n >= 4 then 0 else t.term[f])
  {
    var arp, ip := CtrlCookie(ETHERTYPE_ARP, v), CtrlCookie(ETHERTYPE_IP, v);
    WithoutAt(t.ctrl, arp);
    WithoutAt(Without(t.ctrl, arp), ip);
    WithoutAt(t.bridging, v);
    WithoutAt(t.term, v);
  }

  /** Disabling restores the tables from before enabling exactly when no other interface used
      the VLAN's cookies. */
  lemma DisableInvertsEnableIff(t: L3Tables, v: Vid, mac: nat, failAt: nat, k: Stuck)
    requires Succeeds(failAt)
    ensures DisableVlan(EnableVlan(t, v, mac, failAt, k), v, 0) == Cleared(t, v, 4)
    ensures DisableVlan(EnableVlan(t, v, mac, failAt, k), v, 0) == t <==> Unused(t, v, 4)
  {
    EnabledDisabled(t, v, mac, failAt, k);
    ClearedIsSameIff(t, v, 4);
  }

  lemma EnabledDisabled(t: L3Tables, v: Vid, mac: nat, failAt: nat, k: Stuck)
    requires Succeeds(failAt)
    ensures DisableVlan(EnableVlan(t, v, mac, failAt, k), v, 0) == Cleared(t, v, 4)
  {
    var u, c := DisableVlan(EnableVlan(t, v, mac, failAt, k), v, 0), Cleared(t, v, 4);
    var arp, ip := CtrlCookie(ETHERTYPE_ARP, v), CtrlCookie(ETHERTYPE_IP, v);
    var set4 := t.ctrl + multiset{ArpFlow(v)} + multiset{DhcpFlow(v)};
    assert u == L3Tables(Without(Without(set4, arp), ip),
                         Without(t.bridging + multiset{MacFlow(v, mac)}, v),
                         Without(t.term + multiset{MacFlow(v, mac)}, v));
    assert c == L3Tables(Without(Without(t.ctrl, arp), ip), Without(t.bridging, v), Without(t.term, v));
    assert u.ctrl == c.ctrl by { ArpDhcp(t.ctrl, v); }
    assert u.bridging == c.bridging by { WithoutAdded(t.bridging, MacFlow(v, mac)); }
    assert u.term == c.term by { WithoutAdded(t.term, MacFlow(v, mac)); }
  }

  // ----- interfaces and the internal VLAN bitmap -----

  /** An L3 interface; `port` is meaningful if `vlanIntf`. */
  datatype Intf = Intf(vlan: Vid, mac: nat, port: Pid, vlanIntf: bool)

  datatype State = State(vlan: Tables, l3: L3Tables, internal: set<Vid>, live: map<nat, Intf>)

  /** Which hardware calls fail. */
  datatype Faults = Faults(ingress: bool, egress: bool, routing: nat, undoIngress: bool, undoEgress: bool, stuck: Stuck)

  ghost function DelUnless(t: Tables, pid: Pid, x: Vidx, fails: bool): Tables {
    if fails then t else DelVidx(t, pid, x)
  }

  /** add_internal: the tables, and whether it reports success. */
  ghost function AddInternal(s: State, pid: Pid, v: Vid, dup: Duplicate, f: Faults): (State, bool) {
    if f.ingress then (s, false)
    else
      var t1 := AddVidx(s.vlan, pid, Ingress(v, false), dup);
      var t2 := if f.egress then t1 else AddVidx(t1, pid, Egress(v, false), dup);
      if AddErr(t1, pid, Egress(v, false), dup, f.egress) then
        (s.(vlan := DelUnless(t2, pid, Ingress(v, false), f.undoIngress)), false)
      else if v in s.internal then (s.(vlan := t2), false)
      else (s.(vlan := t2, internal := s.internal + {v}), true)
  }

  /** add_internal reports success exactly if both additions work and the VLAN was not internal;
      only then it sets the bit. */
  lemma AddInternalIff(s: State, pid: Pid, v: Vid, dup: Duplicate, f: Faults)
    ensures var (u, ok) := AddInternal(s, pid, v, dup, f);
      && (ok <==> !f.ingress && !f.egress && v !in s.internal && (Gid(pid, v) in s.vlan.groups ==> dup == Replace))
      && u.internal == (if ok then s.internal + {v} else s.internal)
      && u.l3 == s.l3 && u.live == s.live
  {
  }

  /** del_internal. */
  ghost function DelInternal(s: State, pid: Pid, v: Vid, f: Faults): State {
    s.(vlan := DelUnless(DelUnless(s.vlan, pid, Ingress(v, false), f.undoIngress), pid, Egress(v, false), f.undoEgress),
       internal := s.internal - {v})
  }

  /** enable_routing_interface, creating the interface `h`. */
  ghost function EnableInterface(s: State, h: nat, pid: Pid, v: Vid, mac: nat, dup: Duplicate, f: Faults): State {
    var (u, ok) := AddInternal(s, pid, v, dup, f);
    if !ok then u
    else
      var w := u.(l3 := EnableVlan(u.l3, v, mac, f.routing, f.stuck));
      if Succeeds(f.routing) then w.(live := w.live[h := Intf(v, mac, pid, true)])
      else DelInternal(w, pid, v, f)
  }

  /** disable_routing. */
  ghost function Disable(s: State, h: nat, f: Faults): State
    requires h in s.live
  {
    var i := s.live[h];
    var u := if i.vlanIntf then DelInternal(s, i.port, i.vlan, f) else s;
    u.(l3 := DisableVlan(u.l3, i.vlan, f.routing), live := u.live - {h})
  }

  datatype Op =
    | EnableIf(h: nat, pid: Pid, v: Vid, mac: nat, dup: Duplicate, f: Faults)
    | EnableSvi(h: nat, v: Vid, mac: nat, f: Faults)
    | DisableIf(h: nat, f: Faults)

  /** A handle is the address of a fresh allocation, and only live ones are disabled. */
  ghost predicate Enabled(s: State, op: Op) {
    if op.DisableIf? then op.h in s.live else op.h !in s.live
  }

  ghost function Step(s: State, op: Op): State
    requires Enabled(s, op)
  {
    match op
    case EnableIf(h, pid, v, mac, dup, f) => EnableInterface(s, h, pid, v, mac, dup, f)
    case EnableSvi(h, v, mac, f) =>
      var u := s.(l3 := EnableVlan(s.l3, v, mac, f.routing, f.stuck));
      if Succeeds(f.routing) then u.(live := u.live[h := Intf(v, mac, 0, false)]) else u
    case DisableIf(h, f) => Disable(s, h, f)
  }

  ghost predicate Holder(s: State, h: nat, v: Vid) {
    h in s.live && s.live[h].vlanIntf && s.live[h].vlan == v
  }

  /** A bit is set if and only if exactly one live interface holds that VLAN. */
  ghost predicate BitmapInv(s: State) {
    && (forall v: Vid :: v in s.internal <==> exists h :: Holder(s, h, v))
    && (forall h, k, v: Vid :: Holder(s, h, v) && Holder(s, k, v) ==> h == k)
  }

  lemma StepKeepsBitmap(s: State, op: Op)
    requires BitmapInv(s) && Enabled(s, op)
    ensures BitmapInv(Step(s, op))
  {
    var s' := Step(s, op);
    match op
    case EnableIf(h, pid, v, mac, dup, f) =>
      assert s'.internal == s.internal || s'.internal == s.internal + {v} || s'.internal == s.internal + {v} - {v};
      if h in s'.live {
        assert v !in s.internal;
        Appears(s, s', h, v);
      } else {
        SameHolders(s, s');
      }
    case EnableSvi(h, v, mac, f) =>
      SameHolders(s, s');
    case DisableIf(h, f) =>
      Disappears(s, s', h);
  }

  lemma SameHolders(s: State, s': State)
    requires BitmapInv(s) && s'.internal == s.internal
    requires forall h, v: Vid :: Holder(s', h, v) <==> Holder(s, h, v)
    ensures BitmapInv(s')
  {
  }

  lemma Appears(s: State, s': State, h: nat, v: Vid)
    requires BitmapInv(s) && v !in s.internal && h !in s.live && s'.internal == s.internal + {v}
    requires h in s'.live && s'.live[h].vlanIntf && s'.live[h].vlan == v && s'.live == s.live[h := s'.live[h]]
    ensures BitmapInv(s')
  {
    assert forall k, u: Vid :: Holder(s', k, u) <==> Holder(s, k, u) || (k == h && u == v);
    forall u: Vid ensures u in s'.internal <==> exists k :: Holder(s', k, u) {
      if k :| Holder(s, k, u) { assert Holder(s', k, u); }
      assert Holder(s', h, v);
    }
  }

  lemma Disappears(s: State, s': State, h: nat)
    requires BitmapInv(s) && h in s.live && s'.live == s.live - {h}
    requires s'.internal == if s.live[h].vlanIntf then s.internal - {s.live[h].vlan} else s.internal
    ensures BitmapInv(s')
  {
    assert forall k, u: Vid :: Holder(s', k, u) <==> Holder(s, k, u) && k != h;
    forall u: Vid ensures u in s'.internal <==> exists k :: Holder(s', k, u) {
      if k :| Holder(s, k, u) && k != h { assert Holder(s', k, u); }
      if s.live[h].vlanIntf && s.live[h].vlan == u { assert Holder(s, h, u); }
    }
  }

  ghost predicate IsRun(states: seq<State>, ops: seq<Op>) {
    && |states| == |ops| + 1
    && states[0].internal == {} && states[0].live == map[]
    && forall i :: 0 <= i < |ops| ==> Enabled(states[i], ops[i]) && states[i + 1] == Step(states[i], ops[i])
  }

  /** In every run, under every pattern of hardware failures, the bitmap is exactly the set of
      VLANs held by an interface, and no two interfaces hold the same one. */
  lemma {:induction false} RunKeepsBitmap(states: seq<State>, ops: seq<Op>, n: nat)
    requires IsRun(states, ops) && n <= |ops|
    ensures BitmapInv(states[n])
  {
    if n > 0 {
      RunKeepsBitmap(states, ops, n - 1);
      StepKeepsBitmap(states[n - 1], ops[n - 1]);
      assert states[n - 1 + 1] == Step(states[n - 1], ops[n - 1]);
    }
  }

  // ----- the transaction on an interface -----

  /** Nothing in the VLAN tables shares a key with the internal VLAN's entries. */
  ghost predicate KeysFree(t: Tables, pid: Pid, v: Vid) {
    !HasCookie(t.flows, pid) && Gid(pid, v) !in t.groups
  }

  lemma InternalUndone(t: Tables, pid: Pid, v: Vid, dup: Duplicate)
    requires !AddErr(t, pid, Egress(v, false), dup, false)
    ensures var u := AddVidx(AddVidx(t, pid, Ingress(v, false), dup), pid, Egress(v, false), dup);
      DelVidx(DelVidx(u, pid, Ingress(v, false)), pid, Egress(v, false))
        == Tables(Without(t.flows, pid), t.groups - {Gid(pid, v)})
  {
    WithoutAdded(t.flows, FlowOf(pid, Ingress(v, false)));
    var g := Gid(pid, v);
    assert t.groups[g := false] - {g} == t.groups - {g};
  }

  lemma StrippedIsSameIff(t: Tables, pid: Pid, v: Vid)
    ensures Tables(Without(t.flows, pid), t.groups - {Gid(pid, v)}) == t <==> KeysFree(t, pid, v)
  {
    WithoutIdentity(t.flows, pid);
    var g := Gid(pid, v);
    if g in t.groups {
      assert g !in t.groups - {g};
    } else {
      assert t.groups - {g} == t.groups;
    }
  }

  /** The state after a successful call. */
  lemma EnabledState(s: State, h: nat, pid: Pid, v: Vid, mac: nat, dup: Duplicate, f: Faults)
    requires h !in s.live && h in EnableInterface(s, h, pid, v, mac, dup, f).live
    ensures v !in s.internal && Succeeds(f.routing) && !AddErr(s.vlan, pid, Egress(v, false), dup, false)
    ensures EnableInterface(s, h, pid, v, mac, dup, f) ==
      State(AddVidx(AddVidx(s.vlan, pid, Ingress(v, false), dup), pid, Egress(v, false), dup),
            EnableVlan(s.l3, v, mac, f.routing, f.stuck), s.internal + {v}, s.live[h := Intf(v, mac, pid, true)])
  {
  }

  /** disable_routing of an interface with an internal VLAN, when nothing fails. */
  lemma DisabledInterface(s: State, h: nat, f: Faults)
    requires h in s.live && s.live[h].vlanIntf && Succeeds(f.routing) && !f.undoIngress && !f.undoEgress
    ensures var i := s.live[h];
      Disable(s, h, f) == State(DelVidx(DelVidx(s.vlan, i.port, Ingress(i.vlan, false)), i.port, Egress(i.vlan, false)),
                                DisableVlan(s.l3, i.vlan, 0), s.internal - {i.vlan}, s.live - {h})
  {
  }

  /** The state after enabling and disabling. */
  lemma DisabledState(s: State, h: nat, pid: Pid, v: Vid, mac: nat, dup: Duplicate, f: Faults, none: Faults)
    requires h !in s.live && Succeeds(none.routing) && !none.undoIngress && !none.undoEgress
    requires h in EnableInterface(s, h, pid, v, mac, dup, f).live
    ensures Succeeds(f.routing)
    ensures Disable(EnableInterface(s, h, pid, v, mac, dup, f), h, none) ==
      State(Tables(Without(s.vlan.flows, pid), s.vlan.groups - {Gid(pid, v)}),
            DisableVlan(EnableVlan(s.l3, v, mac, f.routing, f.stuck), v, 0), s.internal, s.live)
  {
    EnabledState(s, h, pid, v, mac, dup, f);
    DisabledInterface(EnableInterface(s, h, pid, v, mac, dup, f), h, none);
    InternalUndone(s.vlan, pid, v, dup);
    assert s.internal + {v} - {v} == s.internal;
    assert s.live[h := Intf(v, mac, pid, true)] - {h} == s.live;
  }

  /** Disabling a routed interface restores the whole state from before enabling exactly when
      neither its VLAN entries nor its routing flows shared a key with others. */
  lemma DisableInvertsInterfaceIff(s: State, h: nat, pid: Pid, v: Vid, mac: nat, dup: Duplicate, f: Faults, none: Faults)
    requires h !in s.live && Succeeds(none.routing) && !none.undoIngress && !none.undoEgress
    requires h in EnableInterface(s, h, pid, v, mac, dup, f).live
    ensures Disable(EnableInterface(s, h, pid, v, mac, dup, f), h, none) == s
      <==> KeysFree(s.vlan, pid, v) && Unused(s.l3, v, 4)
  {
    DisabledState(s, h, pid, v, mac, dup, f, none);
    StrippedIsSameIff(s.vlan, pid, v);
    DisableInvertsEnableIff(s.l3, v, mac, f.routing, f.stuck);
  }

  /** Whether a failing call would leave no trace. */
  ghost predicate Traceless(s: State, pid: Pid, v: Vid, dup: Duplicate, f: Faults) {
    if f.ingress then true
    else if AddErr(s.vlan, pid, Egress(v, false), dup, f.egress) then
      !HasCookie(s.vlan.flows, pid) && !f.undoIngress && (f.egress || dup != Evict)
    else
      && v !in s.internal
      && !HasCookie(s.vlan.flows, pid) && !f.undoIngress
      && GroupBack(s.vlan.groups, Gid(pid, v), f.undoEgress)
      && Unused(s.l3, v, f.routing - 1) && NoneStuck(f.stuck, f.routing - 1)
  }

  /** Adding the group and deleting it again, which may fail, gives the old groups. */
  predicate GroupBack(groups: map<nat, bool>, g: nat, undoFails: bool) {
    if undoFails then g in groups && !groups[g] else g !in groups
  }

  /** enable_routing_interface that returns nothing leaves the state as it was exactly when it
      is traceless, whatever fails; in particular never when the VLAN was internal already. */
  lemma FailedInterfaceIff(s: State, h: nat, pid: Pid, v: Vid, mac: nat, dup: Duplicate, f: Faults)
    requires h !in EnableInterface(s, h, pid, v, mac, dup, f).live
    ensures EnableInterface(s, h, pid, v, mac, dup, f) == s <==> Traceless(s, pid, v, dup, f)
  {
    if f.ingress {
    } else if AddErr(s.vlan, pid, Egress(v, false), dup, f.egress) {
      FailedEgress(s, h, pid, v, mac, dup, f);
    } else if v in s.internal {
      OneFlowMore(s.vlan.flows, FlowOf(pid, Ingress(v, false)));
      assert EnableInterface(s, h, pid, v, mac, dup, f).vlan.flows == s.vlan.flows + multiset{FlowOf(pid, Ingress(v, false))};
    } else {
      FailedRouting(s, h, pid, v, mac, dup, f);
    }
  }

  lemma OneFlowMore(flows: multiset<Flow<VlanMatch>>, x: Flow<VlanMatch>)
    ensures flows + multiset{x} != flows
  {
    assert (flows + multiset{x})[x] == flows[x] + 1;
  }

  /** Adding the ingress flow and deleting it again, which may fail. */
  lemma FlowBackIff(flows: multiset<Flow<VlanMatch>>, x: Flow<VlanMatch>, undoFails: bool)
    ensures (if undoFails then flows + multiset{x} else Without(flows + multiset{x}, x.cookie)) == flows
      <==> !undoFails && !HasCookie(flows, x.cookie)
  {
    OneFlowMore(flows, x);
    WithoutAdded(flows, x);
    WithoutIdentity(flows, x.cookie);
  }

  lemma GroupBackIff(groups: map<nat, bool>, g: nat, undoFails: bool)
    ensures (if undoFails then groups[g := false] else groups[g := false] - {g}) == groups <==> GroupBack(groups, g, undoFails)
  {
    if undoFails {
      assert g in groups[g := false] && !groups[g := false][g];
      assert g in groups && !groups[g] ==> groups[g := false] == groups;
    } else {
      assert g !in groups[g := false] - {g};
      assert g !in groups ==> groups[g := false] - {g} == groups;
    }
  }

  lemma FailedEgress(s: State, h: nat, pid: Pid, v: Vid, mac: nat, dup: Duplicate, f: Faults)
    requires !f.ingress && AddErr(s.vlan, pid, Egress(v, false), dup, f.egress)
    ensures EnableInterface(s, h, pid, v, mac, dup, f) == s <==> Traceless(s, pid, v, dup, f)
  {
    var g, x := Gid(pid, v), FlowOf(pid, Ingress(v, false));
    var groups := if f.egress || dup == Reject then s.vlan.groups else s.vlan.groups - {g};
    var flows := if f.undoIngress then s.vlan.flows + multiset{x} else Without(s.vlan.flows + multiset{x}, pid);
    assert EnableInterface(s, h, pid, v, mac, dup, f) == s.(vlan := Tables(flows, groups));
    FlowBackIff(s.vlan.flows, x, f.undoIngress);
    assert g in s.vlan.groups ==> g !in s.vlan.groups - {g};
  }

  /** add_internal on success: one flow and one group more. */
  lemma InternalAdded(s: State, pid: Pid, v: Vid, dup: Duplicate, f: Faults)
    requires !f.ingress && !AddErr(s.vlan, pid, Egress(v, false), dup, f.egress) && v !in s.internal
    ensures AddInternal(s, pid, v, dup, f) ==
      (s.(vlan := Tables(s.vlan.flows + multiset{FlowOf(pid, Ingress(v, false))}, s.vlan.groups[Gid(pid, v) := false]),
          internal := s.internal + {v}), true)
  {
  }

  lemma InternalDeleted(t: Tables, pid: Pid, v: Vid, f: Faults)
    ensures DelUnless(DelUnless(t, pid, Ingress(v, false), f.undoIngress), pid, Egress(v, false), f.undoEgress) ==
      Tables(if f.undoIngress then t.flows else Without(t.flows, pid),
             if f.undoEgress then t.groups else t.groups - {Gid(pid, v)})
  {
  }

  /** The state after a call whose routing part fails. */
  lemma InterfaceRolledBack(s: State, h: nat, pid: Pid, v: Vid, mac: nat, dup: Duplicate, f: Faults)
    requires !f.ingress && !AddErr(s.vlan, pid, Egress(v, false), dup, f.egress) && v !in s.internal
    requires !Succeeds(f.routing)
    ensures var g, x := Gid(pid, v), FlowOf(pid, Ingress(v, false));
      EnableInterface(s, h, pid, v, mac, dup, f) == s.(
        vlan := Tables(if f.undoIngress then s.vlan.flows + multiset{x} else Without(s.vlan.flows + multiset{x}, pid),
                       if f.undoEgress then s.vlan.groups[g := false] else s.vlan.groups[g := false] - {g}),
        l3 := EnableVlan(s.l3, v, mac, f.routing, f.stuck))
  {
    InternalAdded(s, pid, v, dup, f);
    var u := AddInternal(s, pid, v, dup, f).0;
    InternalDeleted(u.vlan, pid, v, f);
    assert s.internal + {v} - {v} == s.internal;
  }

  lemma FailedRouting(s: State, h: nat, pid: Pid, v: Vid, mac: nat, dup: Duplicate, f: Faults)
    requires !f.ingress && !AddErr(s.vlan, pid, Egress(v, false), dup, f.egress) && v !in s.internal
    requires !Succeeds(f.routing)
    ensures EnableInterface(s, h, pid, v, mac, dup, f) == s <==> Traceless(s, pid, v, dup, f)
  {
    var g, x := Gid(pid, v), FlowOf(pid, Ingress(v, false));
    var flows := if f.undoIngress then s.vlan.flows + multiset{x} else Without(s.vlan.flows + multiset{x}, pid);
    var groups := if f.undoEgress then s.vlan.groups[g := false] else s.vlan.groups[g := false] - {g};
    var l3 := EnableVlan(s.l3, v, mac, f.routing, f.stuck);
    InterfaceRolledBack(s, h, pid, v, mac, dup, f);
    FlowBackIff(s.vlan.flows, x, f.undoIngress);
    GroupBackIff(s.vlan.groups, g, f.undoEgress);
    assert l3 == s.l3 <==> Unused(s.l3, v, f.routing - 1) && NoneStuck(f.stuck, f.routing - 1) by {
      FailedEnableIff(s.l3, v, mac, f.routing, f.stuck);
    }
  }

  // ----- the object -----

  class Router {
    const hw: Hardware
    const ctrl: Table<CtrlMatch>
    const bridging: Table<MacMatch>
    const term: Table<MacMatch>
    var internal: set<Vid>
    var live: map<nat, Intf>

    ghost predicate Valid() { bridging != term }

    ghost function L3(): L3Tables
      reads ctrl, bridging, term
    {
      L3Tables(ctrl.entries, bridging.entries, term.entries)
    }

    ghost function View(): State
      reads this, hw, hw.vlan, ctrl, bridging, term
    {
      State(hw.View(), L3(), internal, live)
    }

    constructor ()
      ensures Valid() && View() == State(EMPTY, L3Tables(multiset{}, multiset{}, multiset{}), {}, map[])
    {
      hw := new Hardware();
      ctrl := new Table<CtrlMatch>();
      bridging := new Table<MacMatch>();
      term := new Table<MacMatch>();
      internal, live := {}, map[];
    }

    method SetArpBcast(v: Vid, fails: bool) returns (err: bool)
      requires Valid()
      modifies ctrl
      ensures err == fails
      ensures L3() == if fails then old(L3()) else SetArp(old(L3()), v)
    {
      err := ctrl.Add(ArpFlow(v), fails);
    }

    method UnsetArpBcast(v: Vid, fails: bool) returns (err: bool)
      requires Valid()
      modifies ctrl
      ensures err == fails
      ensures L3() == if fails then old(L3()) else UnsetArp(old(L3()), v)
    {
      err := ctrl.CookieDelete(CtrlCookie(ETHERTYPE_ARP, v), fails);
    }

    method SetArpFwd(v: Vid, mac: nat, fails: bool) returns (err: bool)
      requires Valid()
      modifies bridging
      ensures err == fails
      ensures L3() == if fails then old(L3()) else SetFwd(old(L3()), v, mac)
    {
      err := bridging.Add(MacFlow(v, mac), fails);
    }

    method UnsetArpFwd(v: Vid, fails: bool) returns (err: bool)
      requires Valid()
      modifies bridging
      ensures err == fails
      ensures L3() == if fails then old(L3()) else UnsetFwd(old(L3()), v)
    {
      err := bridging.CookieDelete(v, fails);
    }

    method SetUdpDhcp(v: Vid, fails: bool) returns (err: bool)
      requires Valid()
      modifies ctrl
      ensures err == fails
      ensures L3() == if fails then old(L3()) else SetDhcp(old(L3()), v)
    {
      err := ctrl.Add(DhcpFlow(v), fails);
    }

    method UnsetUdpDhcp(v: Vid, fails: bool) returns (err: bool)
      requires Valid()
      modifies ctrl
      ensures err == fails
      ensures L3() == if fails then old(L3()) else UnsetDhcp(old(L3()), v)
    {
      err := ctrl.CookieDelete(CtrlCookie(ETHERTYPE_IP, v), fails);
    }

    method EnableUnicast(v: Vid, mac: nat, fails: bool) returns (err: bool)
      requires Valid()
      modifies term
      ensures err == fails
      ensures L3() == if fails then old(L3()) else SetUnicast(old(L3()), v, mac)
    {
      err := term.Add(MacFlow(v, mac), fails);
    }

    method DisableUnicast(v: Vid, fails: bool) returns (err: bool)
      requires Valid()
      modifies term
      ensures err == fails
      ensures L3() == if fails then old(L3()) else UnsetUnicast(old(L3()), v)
    {
      err := term.CookieDelete(v, fails);
    }

    /** ops_fpa_enable_routing_vlan up to the allocation of the interface. */
    method EnableRoutingVlan(v: Vid, mac: nat, failAt: nat, k: Stuck) returns (ok: bool)
      requires Valid()
      modifies ctrl, bridging, term
      ensures ok == Succeeds(failAt)
      ensures L3() == EnableVlan(old(L3()), v, mac, failAt, k)
    {
      var err := SetArpBcast(v, failAt == 1);
      if err {
        return false;
      }
      err := SetArpFwd(v, mac, failAt == 2);
      if !err {
        err := SetUdpDhcp(v, failAt == 3);
        if !err {
          err := EnableUnicast(v, mac, failAt == 4);
          if !err {
            return true;
          }
          err := UnsetUdpDhcp(v, k.dhcp);
        }
        err := UnsetArpFwd(v, k.fwd);
      }
      err := UnsetArpBcast(v, k.arp);
      return false;
    }

    method DisableRoutingVlan(v: Vid, failAt: nat)
      requires Valid()
      modifies ctrl, bridging, term
      ensures L3() == DisableVlan(old(L3()), v, failAt)
    {
      var err := UnsetArpBcast(v, failAt == 1);
      if err { return; }
      err := UnsetArpFwd(v, failAt == 2);
      if err { return; }
      err := UnsetUdpDhcp(v, failAt == 3);
      if err { return; }
      err := DisableUnicast(v, failAt == 4);
    }

    /** ops_fpa_vlan_add_internal. */
    method AddInternalVlan(pid: Pid, v: Vid, dup: Duplicate, f: Faults) returns (ok: bool)
      modifies this`internal, hw, hw.vlan
      ensures (View(), ok) == AddInternal(old(View()), pid, v, dup, f)
    {
      var err := hw.Add(pid, Ingress(v, false), dup, f.ingress);
      if err {
        return false;
      }
      err := hw.Add(pid, Egress(v, false), dup, f.egress);
      if err {
        err := hw.Delete(pid, Ingress(v, false), f.undoIngress);
        return false;
      }
      if v in internal {
        return false;
      }
      internal := internal + {v};
      return true;
    }

    /** ops_fpa_vlan_del_internal. */
    method DelInternalVlan(pid: Pid, v: Vid, f: Faults)
      modifies this`internal, hw, hw.vlan
      ensures View() == DelInternal(old(View()), pid, v, f)
    {
      var err := hw.Delete(pid, Ingress(v, false), f.undoIngress);
      err := hw.Delete(pid, Egress(v, false), f.undoEgress);
      internal := internal - {v};
    }

    /** ops_fpa_enable_routing_interface. */
    method EnableRoutingInterface(h: nat, pid: Pid, v: Vid, mac: nat, dup: Duplicate, f: Faults)
      requires Valid() && h !in live
      modifies this, hw, hw.vlan, ctrl, bridging, term
      ensures View() == Step(old(View()), EnableIf(h, pid, v, mac, dup, f))
    {
      var ok := AddInternalVlan(pid, v, dup, f);
      if !ok {
        return;
      }
      ok := EnableRoutingVlan(v, mac, f.routing, f.stuck);
      if !ok {
        DelInternalVlan(pid, v, f);
        return;
      }
      live := live[h := Intf(v, mac, pid, true)];
    }

    /** ops_fpa_disable_routing. */
    method DisableRouting(h: nat, f: Faults)
      requires Valid() && h in live
      modifies this, hw, hw.vlan, ctrl, bridging, term
      ensures View() == Step(old(View()), DisableIf(h, f))
    {
      var i := live[h];
      if i.vlanIntf {
        DelInternalVlan(i.port, i.vlan, f);
      }
      DisableRoutingVlan(i.vlan, f.routing);
      live := live - {h};
    }
  }
}
