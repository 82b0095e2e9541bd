/** The safety of a configuration step in terms of the port settings, and inputs on
    which the hardware misses its target. */
module L2Settings {
  import opened Vidx
  import opened VlanTables
  import opened Reconciler
  import opened Ofproto
  import opened L2Runs

  /** Egress frames of the port's own VLAN leave untagged. */
  predicate Pops(c: Settings) { c.mode == Access || c.mode == NativeUntagged }

  /** Egress frames of this VLAN keep their tag. */
  predicate KeepsTag(c: Settings, v: Vid) { v in c.trunks || (c.mode == NativeTagged && c.vlan == v) }

  predicate Clashes(c: Settings, v: Vid) { Pops(c) && c.vlan == v && v in c.trunks }

  lemma DesiredMember(c: Settings, x: Vidx)
    ensures x in Desired(c) <==>
      if IsEgress(x) then
        if Arg(x) then Pops(c) && VidOf(x) == c.vlan else KeepsTag(c, VidOf(x))
      else
        if Arg(x) then VidOf(x) in c.trunks else c.mode != Trunk && VidOf(x) == c.vlan
  {
  }

  /** The desired map asks for both POPTAG values exactly when an untagged VLAN is also
      among the enabled trunk VLANs. */
  lemma OnePopIff(c: Settings, enabled: set<Vid>)
    ensures OnePop(On(Desired(c), enabled)) <==> !(c.vlan in enabled && Clashes(c, c.vlan))
  {
    if c.vlan in enabled && Clashes(c, c.vlan) {
      var x, y := Egress(c.vlan, true), Egress(c.vlan, false);
      DesiredMember(c, x);
      DesiredMember(c, y);
      assert x in On(Desired(c), enabled) && y in On(Desired(c), enabled);
    } else {
      forall x, y | x in On(Desired(c), enabled) && y in On(Desired(c), enabled)
                    && IsEgress(x) && IsEgress(y) && VidOf(x) == VidOf(y)
        ensures x == y
      {
        DesiredMember(c, x);
        DesiredMember(c, y);
      }
    }
  }

  predicate HasUntagged(c: Settings, enabled: set<Vid>) { c.mode != Trunk && c.vlan in enabled }

  /** VLAN 0 as a trunk VLAN: its tagged cookie is the untagged cookie. */
  predicate HasZero(c: Settings, enabled: set<Vid>) { 0 in c.trunks && 0 in enabled }

  /** Changing a port from `c` to `d` is harmless. */
  predicate Compatible(c: Settings, d: Settings, enabled: set<Vid>) {
    && !(d.vlan in enabled && Clashes(d, d.vlan))
    && !(Pops(c) && c.vlan in enabled && KeepsTag(d, c.vlan))
    && (HasUntagged(c, enabled) && HasUntagged(d, enabled) ==> c.vlan <= d.vlan)
    && !(HasZero(c, enabled) && !HasZero(d, enabled) && HasUntagged(d, enabled))
    && !(HasZero(c, enabled) && HasZero(d, enabled) && HasUntagged(c, enabled)
         && !(d.mode != Trunk && d.vlan == c.vlan))
  }

  /** bundle_set from settings `c` to settings `d` is safe exactly when no untagged VLAN is
      also an enabled trunk VLAN, no enabled VLAN goes from popping to keeping its tag, the
      untagged VLAN does not move downward, and VLAN 0 is not a trunk VLAN that gets in the
      way of the untagged one. */
  lemma BundleSafeIffCompatible(s: State, want: map<Pid, set<Vidx>>, pid: Pid, c: Settings, d: Settings)
    requires Inv(s, want) && pid in want && want[pid] == Desired(c)
    ensures BundleSafe(s, pid, Desired(d)) <==> Compatible(c, d, s.enabled)
  {
    var hw, dels, adds := FetchMap(s.tables, pid), Dels(s, pid, Desired(d)), Adds(s, pid, Desired(d));
    assert PortInv(s, want, pid);
    FetchIsHolds(s.tables, pid);
    OnePopIff(d, s.enabled);
    assert hw - dels + adds == On(Desired(d), s.enabled);
    if Compatible(c, d, s.enabled) {
      forall x, y | x in dels && y in On(Desired(d), s.enabled) && SameKey(x, y)
        ensures y in adds && x < y
      {
        OrderedPair(c, d, s.enabled, x, y);
      }
    } else if OnePop(On(Desired(d), s.enabled)) {
      UnorderedPair(c, d, s.enabled, hw, dels, adds);
    }
  }

  lemma OrderedPair(c: Settings, d: Settings, enabled: set<Vid>, x: Vidx, y: Vidx)
    requires Compatible(c, d, enabled) && OnePop(On(Desired(c), enabled))
    requires x in On(Desired(c), enabled) && x !in Desired(d) && y in On(Desired(d), enabled) && SameKey(x, y)
    ensures y !in Desired(c) && x < y
  {
    DesiredMember(c, x);
    DesiredMember(d, x);
    DesiredMember(c, y);
    DesiredMember(d, y);
    assert x != y;
    assert y in Desired(c) ==> y in On(Desired(c), enabled);
  }

  /** The two bits that meet in the wrong order. */
  function BadPair(c: Settings, d: Settings, enabled: set<Vid>): (Vidx, Vidx) {
    if Pops(c) && c.vlan in enabled && KeepsTag(d, c.vlan) then (Egress(c.vlan, true), Egress(c.vlan, false))
    else if HasUntagged(c, enabled) && HasUntagged(d, enabled) && c.vlan > d.vlan then
      (Ingress(c.vlan, false), Ingress(d.vlan, false))
    else if HasZero(c, enabled) && !HasZero(d, enabled) then (Ingress(0, true), Ingress(d.vlan, false))
    else (Ingress(c.vlan, false), Ingress(0, true))
  }

  lemma UnorderedPair(c: Settings, d: Settings, enabled: set<Vid>, hw: set<Vidx>, dels: set<Vidx>, adds: set<Vidx>)
    requires !Compatible(c, d, enabled) && !(d.vlan in enabled && Clashes(d, d.vlan))
    requires hw == On(Desired(c), enabled) && dels == On(hw - Desired(d), enabled) && adds == On(Desired(d) - hw, enabled)
    ensures !Safe(hw, dels, adds)
  {
    var (x, y) := BadPair(c, d, enabled);
    DesiredMember(c, x);
    DesiredMember(d, x);
    DesiredMember(c, y);
    DesiredMember(d, y);
    assert x in dels && y in hw - dels + adds && SameKey(x, y);
  }

  /** A port without configuration so far can take any settings that do not clash. */
  lemma FirstBundleSafeIff(s: State, want: map<Pid, set<Vidx>>, pid: Pid, d: Settings)
    requires Inv(s, want) && pid !in want
    ensures BundleSafe(s, pid, Desired(d)) <==> !(d.vlan in s.enabled && Clashes(d, d.vlan))
  {
    assert PortInv(s, want, pid);
    OnePopIff(d, s.enabled);
    assert Dels(s, pid, Desired(d)) == {};
    assert FetchMap(s.tables, pid) - {} + Adds(s, pid, Desired(d)) == On(Desired(d), s.enabled);
  }

  /** Disabling the VLAN takes a flow of another VLAN along: only with VLAN 0 as a trunk VLAN
      beside an untagged one. */
  predicate TakesAlong(c: Settings, vid: Vid, enabled: set<Vid>) {
    HasZero(c, enabled) && HasUntagged(c, enabled) && c.vlan != 0 && (vid == 0 || vid == c.vlan)
  }

  predicate PortCompatible(c: Settings, vid: Vid, on: bool, enabled: set<Vid>) {
    if on then !Clashes(c, vid) else !TakesAlong(c, vid, enabled)
  }

  /** Enabling a VLAN is safe exactly when no port has it both as its untagged VLAN and among
      its trunks; disabling one, exactly when it takes no other flow along. */
  lemma VlanSafeIff(s: State, want: map<Pid, set<Vidx>>, conf: map<Pid, Settings>, vid: Vid, on: bool)
    requires Inv(s, want) && (forall p: Pid :: p in want <==> p in conf)
    requires forall p: Pid :: p in want ==> want[p] == Desired(conf[p])
    ensures VlanSafe(s, vid, on) <==> forall p: Pid :: p in conf ==> PortCompatible(conf[p], vid, on, s.enabled)
  {
    forall p: Pid | p in want
      ensures PortVlanSafe(s, p, vid, on) <==> PortCompatible(conf[p], vid, on, s.enabled)
    {
      assert PortInv(s, want, p);
      FetchIsHolds(s.tables, p);
      PortSafeIff(s.enabled, conf[p], vid, on);
    }
  }

  lemma PortSafeIff(enabled: set<Vid>, c: Settings, vid: Vid, on: bool)
    requires OnePop(On(Desired(c), enabled))
    ensures var hw := On(Desired(c), enabled);
      var dels, adds := if on then {} else OfVid(hw, vid), if on then OfVid(Off(Desired(c), enabled), vid) else {};
      Safe(hw, dels, adds) <==> PortCompatible(c, vid, on, enabled)
  {
    OnePopIff(c, enabled);
    if on {
      OnePopIff(c, enabled + {vid});
      assert On(Desired(c), enabled) - {} + OfVid(Off(Desired(c), enabled), vid) == On(Desired(c), enabled + {vid});
    } else {
      DisableSafeIff(enabled, c, vid);
    }
  }

  lemma DisableSafeIff(enabled: set<Vid>, c: Settings, vid: Vid)
    requires OnePop(On(Desired(c), enabled))
    ensures Safe(On(Desired(c), enabled), OfVid(On(Desired(c), enabled), vid), {}) <==> !TakesAlong(c, vid, enabled)
  {
    var hw := On(Desired(c), enabled);
    var dels := OfVid(hw, vid);
    if TakesAlong(c, vid, enabled) {
      var x, y := Ingress(0, true), Ingress(c.vlan, false);
      DesiredMember(c, x);
      DesiredMember(c, y);
      assert x in hw && y in hw && SameKey(x, y) && SameKey(y, x);
      assert if vid == 0 then x in dels && y in hw - dels + {} else y in dels && x in hw - dels + {};
    } else {
      forall x, y | x in dels && y in hw - dels + {} ensures !SameKey(x, y) {
        DesiredMember(c, x);
        DesiredMember(c, y);
      }
    }
  }

  // ----- runs judged by their history -----

  /** The last settings of every port among the first `n` operations. */
  ghost function Conf(ops: seq<Op>, n: nat): map<Pid, Settings>
    requires n <= |ops|
  {
    if n == 0 then map[]
    else match ops[n - 1]
         case Config(pid, c) => Conf(ops, n - 1)[pid := c]
         case Vlan(_, _) => Conf(ops, n - 1)
  }

  lemma {:induction false} ConfWanted(ops: seq<Op>, n: nat)
    requires n <= |ops|
    ensures forall p: Pid :: p in Wanted(ops, n) <==> p in Conf(ops, n)
    ensures forall p: Pid :: p in Conf(ops, n) ==> Wanted(ops, n)[p] == Desired(Conf(ops, n)[p])
  {
    if n > 0 {
      ConfWanted(ops, n - 1);
    }
  }

  /** The next operation is harmless, given the last settings and the enabled VLANs. */
  ghost predicate OpOk(conf: map<Pid, Settings>, enabled: set<Vid>, op: Op) {
    match op
    case Config(pid, d) =>
      if pid in conf then Compatible(conf[pid], d, enabled) else !(d.vlan in enabled && Clashes(d, d.vlan))
    case Vlan(vid, on) => forall p: Pid :: p in conf ==> PortCompatible(conf[p], vid, on, enabled)
  }

  lemma StepSafeIff(s: State, ops: seq<Op>, n: nat)
    requires n < |ops| && Inv(s, Wanted(ops, n)) && s.enabled == Enabled(ops, n)
    ensures StepSafe(s, ops[n]) <==> OpOk(Conf(ops, n), Enabled(ops, n), ops[n])
  {
    var want, conf := Wanted(ops, n), Conf(ops, n);
    ConfWanted(ops, n);
    match ops[n]
    case Config(pid, d) =>
      if pid in conf {
        BundleSafeIffCompatible(s, want, pid, conf[pid], d);
      } else {
        FirstBundleSafeIff(s, want, pid, d);
      }
    case Vlan(vid, on) => VlanSafeIff(s, want, conf, vid, on);
  }

  ghost predicate HistoryOk(ops: seq<Op>, n: nat)
    requires n <= |ops|
  {
    forall i :: 0 <= i < n ==> OpOk(Conf(ops, i), Enabled(ops, i), ops[i])
  }

  lemma {:induction false} OkHistoryIsSafe(states: seq<State>, ops: seq<Op>, dup: Duplicate, n: nat)
    requires IsRun(states, ops, dup) && n <= |ops| && HistoryOk(ops, n)
    ensures RunSafe(states, ops, n)
  {
    if n > 0 {
      var i := n - 1;
      OkHistoryIsSafe(states, ops, dup, i);
      SafeRunKeepsInv(states, ops, dup, i);
      RunEnabled(states, ops, dup, i);
      StepSafeIff(states[i], ops, i);
    }
  }

  /** Whether a run keeps the reconciler invariant in all its states can be read off the
      operations alone: each must be harmless given the settings and VLAN states before it. */
  lemma RunKeepsInvIffHistoryOk(states: seq<State>, ops: seq<Op>, dup: Duplicate)
    requires IsRun(states, ops, dup)
    ensures (forall i :: 0 <= i <= |ops| ==> Inv(states[i], Wanted(ops, i))) <==> HistoryOk(ops, |ops|)
  {
    RunKeepsInvIff(states, ops, dup);
    if HistoryOk(ops, |ops|) {
      OkHistoryIsSafe(states, ops, dup, |ops|);
    } else if RunSafe(states, ops, |ops|) {
      var i :| 0 <= i < |ops| && !OpOk(Conf(ops, i), Enabled(ops, i), ops[i]);
      RunEnabled(states, ops, dup, i);
      StepSafeIff(states[i], ops, i);
    }
  }

  // ----- what is lost when a step is not safe -----

  /** Moving the untagged VLAN of a port downward leaves the port without any untagged
      ingress flow: the new flow is added first and then removed under the shared cookie. */
  lemma DownwardMoveLosesIngress(s: State, want: map<Pid, set<Vidx>>, pid: Pid, c: Settings, d: Settings, dup: Duplicate)
    requires Inv(s, want) && pid in want && want[pid] == Desired(c)
    requires c.mode != Trunk && d.mode != Trunk && c.vlan in s.enabled && d.vlan in s.enabled
    requires d.vlan < c.vlan && !Clashes(d, d.vlan)
    ensures Ingress(d.vlan, false) in Desired(d)
    ensures Ingress(d.vlan, false) !in FetchMap(BundleSet(s, pid, Desired(d), dup, {}).tables, pid)
  {
    var x := Ingress(c.vlan, false);
    DesiredMember(c, x);
    DesiredMember(d, x);
    DesiredMember(d, Ingress(d.vlan, false));
    LostUnder(s, want, pid, d, dup, x, Ingress(d.vlan, false));
  }

  /** Turning an untagged VLAN into a tagged one loses its egress group. */
  lemma PopToKeepLosesEgress(s: State, want: map<Pid, set<Vidx>>, pid: Pid, c: Settings, d: Settings, dup: Duplicate)
    requires Inv(s, want) && pid in want && want[pid] == Desired(c)
    requires Pops(c) && c.vlan in s.enabled && KeepsTag(d, c.vlan) && !(d.vlan in s.enabled && Clashes(d, d.vlan))
    ensures Egress(c.vlan, false) in Desired(d)
    ensures Egress(c.vlan, false) !in FetchMap(BundleSet(s, pid, Desired(d), dup, {}).tables, pid)
  {
    var x := Egress(c.vlan, true);
    DesiredMember(c, x);
    DesiredMember(d, x);
    DesiredMember(d, Egress(c.vlan, false));
    LostUnder(s, want, pid, d, dup, x, Egress(c.vlan, false));
  }

  lemma LostUnder(s: State, want: map<Pid, set<Vidx>>, pid: Pid, d: Settings, dup: Duplicate, x: Vidx, y: Vidx)
    requires Inv(s, want) && pid in want && !(d.vlan in s.enabled && Clashes(d, d.vlan))
    requires x in On(want[pid], s.enabled) && x !in Desired(d) && SameKey(x, y) && y < x
    ensures y !in FetchMap(BundleSet(s, pid, Desired(d), dup, {}).tables, pid)
  {
    var hw, dels, adds := FetchMap(s.tables, pid), Dels(s, pid, Desired(d)), Adds(s, pid, Desired(d));
    assert PortInv(s, want, pid);
    OnePopIff(d, s.enabled);
    assert hw - dels + adds == On(Desired(d), s.enabled);
    assert dels - {} == dels && adds - {} == adds;
    PassResult(s.tables, pid, dels, adds, dup);
    assert x in dels;
  }

  /** A concrete run: access VLAN 20, then access VLAN 10, both enabled. */
  lemma DownwardMoveExample(states: seq<State>, dup: Duplicate)
    requires IsRun(states, [Vlan(10, true), Vlan(20, true),
                            Config(1, Settings({}, Access, 20)), Config(1, Settings({}, Access, 10))], dup)
    ensures Ingress(10, false) !in FetchMap(states[4].tables, 1)
    ensures !Inv(states[4], map[1 := Desired(Settings({}, Access, 10))])
  {
    var c, d := Settings({}, Access, 20), Settings({}, Access, 10);
    var ops := [Vlan(10, true), Vlan(20, true), Config(1, c), Config(1, d)];
    InitInv();
    assert states[0 + 1] == Step(states[0], ops[0], dup);
    SetVlanKeepsInvIff(states[0], map[], 10, true, dup);
    assert states[1 + 1] == Step(states[1], ops[1], dup);
    SetVlanKeepsInvIff(states[1], map[], 20, true, dup);
    assert states[2 + 1] == Step(states[2], ops[2], dup);
    FirstBundleSafeIff(states[2], map[], 1, c);
    BundleSetKeepsInvIff(states[2], map[], 1, Desired(c), dup);
    assert map[][1 := Desired(c)] == map[1 := Desired(c)];
    assert states[3 + 1] == Step(states[3], ops[3], dup);
    DownwardMoveLosesIngress(states[3], map[1 := Desired(c)], 1, c, d, dup);
    var want := map[1 := Desired(d)];
    assert Inv(states[4], want) ==> PortInv(states[4], want, 1);
  }
}
