/** Runs of `bundle_set` and `set_vlan`: what every step keeps, exactly when, and what
    follows for whole runs. */
module L2Runs {
  import opened Vidx
  import opened VlanTables
  import opened Reconciler
  import opened Ofproto

  /** The reconciler invariant: every port's hardware map is exactly its last desired map
      on the enabled VLANs, its pending map is exactly the rest, and no other port has
      any entry. */
  ghost predicate Inv(s: State, want: map<Pid, set<Vidx>>) {
    && WellFormed(s.tables)
    && Shape(s.bundles, want)
    && forall p: Pid :: PortInv(s, want, p)
  }

  ghost predicate Shape(bundles: seq<Pid>, want: map<Pid, set<Vidx>>) {
    && Distinct(bundles)
    && (forall p: Pid :: p in want <==> p in bundles)
  }

  ghost predicate PortInv(s: State, want: map<Pid, set<Vidx>>, p: Pid) {
    if p in want then
      && FetchMap(s.tables, p) == On(want[p], s.enabled)
      && p in s.vmap && s.vmap[p] == Off(want[p], s.enabled)
    else
      FetchMap(s.tables, p) == {} && p !in s.vmap
  }

  /** A pass over one port leaves the maps of the others as they were. */
  lemma PassOthers(t: Tables, pid: Pid, dels: set<Vidx>, adds: set<Vidx>, dup: Duplicate, q: Pid)
    requires WellFormed(t) && IsDiff(FetchMap(t, pid), dels, adds) && q != pid
    ensures WellFormed(Pass(t, pid, dels, adds, dup, VMAP_BITS))
    ensures FetchMap(Pass(t, pid, dels, adds, dup, VMAP_BITS), q) == FetchMap(t, q)
  {
    PassFrame(t, pid, dels, adds, dup, VMAP_BITS);
    FetchIsHolds(t, q);
    FetchIsHolds(Pass(t, pid, dels, adds, dup, VMAP_BITS), q);
    assert forall x :: x in FetchMap(Pass(t, pid, dels, adds, dup, VMAP_BITS), q) <==> x in FetchMap(t, q);
  }

  // ----- bundle_set -----

  ghost predicate BundleSafe(s: State, pid: Pid, want: set<Vidx>) {
    Safe(FetchMap(s.tables, pid), Dels(s, pid, want), Adds(s, pid, want))
  }

  /** The configured port meets the invariant exactly when the difference is safe. */
  lemma BundleSetPort(s: State, want: map<Pid, set<Vidx>>, pid: Pid, wish: set<Vidx>, dup: Duplicate)
    requires WellFormed(s.tables) && PortInv(s, want, pid)
    ensures WellFormed(BundleSet(s, pid, wish, dup, {}).tables)
    ensures PortInv(BundleSet(s, pid, wish, dup, {}), want[pid := wish], pid) <==> BundleSafe(s, pid, wish)
  {
    var hw, dels, adds := FetchMap(s.tables, pid), Dels(s, pid, wish), Adds(s, pid, wish);
    assert hw - dels + adds == On(wish, s.enabled);
    assert Off(wish - hw, s.enabled) == Off(wish, s.enabled);
    assert dels - {} == dels && adds - {} == adds;
    PassReachesTargetIff(s.tables, pid, dels, adds, dup);
    PassFrame(s.tables, pid, dels, adds, dup, VMAP_BITS);
  }

  lemma BundleSetOther(s: State, want: map<Pid, set<Vidx>>, pid: Pid, wish: set<Vidx>, dup: Duplicate, q: Pid)
    requires WellFormed(s.tables) && PortInv(s, want, q) && q != pid
    ensures PortInv(BundleSet(s, pid, wish, dup, {}), want[pid := wish], q)
  {
    assert Dels(s, pid, wish) - {} == Dels(s, pid, wish) && Adds(s, pid, wish) - {} == Adds(s, pid, wish);
    PassOthers(s.tables, pid, Dels(s, pid, wish), Adds(s, pid, wish), dup, q);
  }

  lemma BundleSetShape(bundles: seq<Pid>, want: map<Pid, set<Vidx>>, pid: Pid, wish: set<Vidx>)
    requires Shape(bundles, want)
    ensures Shape(if pid in bundles then bundles else bundles + [pid], want[pid := wish])
  {
  }

  /** bundle_set keeps the invariant exactly when its difference is safe. */
  lemma BundleSetKeepsInvIff(s: State, want: map<Pid, set<Vidx>>, pid: Pid, wish: set<Vidx>, dup: Duplicate)
    requires Inv(s, want)
    ensures Inv(BundleSet(s, pid, wish, dup, {}), want[pid := wish]) <==> BundleSafe(s, pid, wish)
  {
    assert PortInv(s, want, pid);
    BundleSetPort(s, want, pid, wish, dup);
    BundleSetShape(s.bundles, want, pid, wish);
    var s', want' := BundleSet(s, pid, wish, dup, {}), want[pid := wish];
    forall q: Pid | q != pid ensures PortInv(s', want', q) {
      assert PortInv(s, want, q);
      BundleSetOther(s, want, pid, wish, dup, q);
    }
  }

  /** Repeating bundle_set with the same settings issues no hardware call and changes
      nothing, although the pending map is cleared and rebuilt. */
  lemma BundleSetIdempotent(s: State, want: map<Pid, set<Vidx>>, pid: Pid, dup: Duplicate, faults: set<Vidx>)
    requires Inv(s, want) && pid in want
    ensures Dels(s, pid, want[pid]) == {} && Adds(s, pid, want[pid]) == {}
    ensures BundleSet(s, pid, want[pid], dup, faults) == s
  {
    assert PortInv(s, want, pid);
    assert Dels(s, pid, want[pid]) == {} && Adds(s, pid, want[pid]) == {};
    PassNothing(s.tables, pid, {} - faults, {} - faults, dup, VMAP_BITS);
    assert Off(want[pid] - FetchMap(s.tables, pid), s.enabled) == s.vmap[pid];
  }

  lemma {:induction false} PassNothing(t: Tables, pid: Pid, dels: set<Vidx>, adds: set<Vidx>, dup: Duplicate, k: nat)
    requires k <= VMAP_BITS && dels == {} && adds == {}
    ensures Pass(t, pid, dels, adds, dup, k) == t
  {
    if k > 0 {
      PassNothing(t, pid, dels, adds, dup, k - 1);
    }
  }

  /** Self-healing: from any well-formed tables, whatever is in them and whatever additions
      fail the first time, the second of two identical calls brings every enabled VLAN to
      its desired bits, exactly when no enabled VLAN is to be both popped and kept tagged. */
  lemma TwoPassesConvergeIff(s: State, pid: Pid, want: set<Vidx>, dup: Duplicate, faults: set<Vidx>)
    requires WellFormed(s.tables) && faults !! Dels(s, pid, want)
    ensures var once := BundleSet(s, pid, want, dup, faults);
      On(FetchMap(BundleSet(once, pid, want, dup, {}).tables, pid), s.enabled) == On(want, s.enabled)
      <==> OnePop(On(want, s.enabled))
  {
    var once := BundleSet(s, pid, want, dup, faults);
    var twice := BundleSet(once, pid, want, dup, {});
    BundleSetWellFormed(s, pid, want, dup, faults);
    BundleSetWellFormed(once, pid, want, dup, {});
    FetchIsHolds(twice.tables, pid);
    if OnePop(On(want, s.enabled)) {
      TwoPassesConverge(s, pid, want, dup, faults);
    } else {
      assert On(FetchMap(twice.tables, pid), s.enabled) <= FetchMap(twice.tables, pid);
    }
  }

  /** Whatever fails in one call, deletions included, the second call after it repairs. */
  lemma AnyFaultsRepairedIff(s: State, pid: Pid, want: set<Vidx>, dup: Duplicate, faults: set<Vidx>)
    requires WellFormed(s.tables)
    ensures var once := BundleSet(s, pid, want, dup, faults);
      var thrice := BundleSet(BundleSet(once, pid, want, dup, {}), pid, want, dup, {});
      On(FetchMap(thrice.tables, pid), s.enabled) == On(want, s.enabled) <==> OnePop(On(want, s.enabled))
  {
    BundleSetWellFormed(s, pid, want, dup, faults);
    TwoPassesConvergeIff(BundleSet(s, pid, want, dup, faults), pid, want, dup, {});
  }

  lemma BundleSetWellFormed(s: State, pid: Pid, want: set<Vidx>, dup: Duplicate, faults: set<Vidx>)
    requires WellFormed(s.tables)
    ensures WellFormed(BundleSet(s, pid, want, dup, faults).tables)
  {
    PassFrame(s.tables, pid, Dels(s, pid, want) - faults, Adds(s, pid, want) - faults, dup, VMAP_BITS);
  }

  lemma TwoPassesConverge(s: State, pid: Pid, want: set<Vidx>, dup: Duplicate, faults: set<Vidx>)
    requires WellFormed(s.tables) && OnePop(On(want, s.enabled)) && faults !! Dels(s, pid, want)
    ensures var once := BundleSet(s, pid, want, dup, faults);
      On(FetchMap(BundleSet(once, pid, want, dup, {}).tables, pid), s.enabled) == On(want, s.enabled)
  {
    var hw, dels, adds := FetchMap(s.tables, pid), Dels(s, pid, want), Adds(s, pid, want) - faults;
    var once := BundleSet(s, pid, want, dup, faults);
    var hw1, adds1 := FetchMap(once.tables, pid), Adds(once, pid, want);
    assert dels - faults == dels;
    assert hw - dels + adds <= Off(hw, s.enabled) + On(want, s.enabled);
    OnePopSplit(hw, want, s.enabled, hw - dels + adds) by { FetchIsHolds(s.tables, pid); }
    BundleSetWellFormed(s, pid, want, dup, faults);
    assert hw1 <= hw - dels + adds by {
      PassResult(s.tables, pid, dels, adds, dup);
      SurvivorsBound(hw, dels, adds);
    }
    assert Dels(once, pid, want) - {} == {};
    assert adds1 - {} == adds1;
    OnePopSplit(hw, want, s.enabled, hw1 - {} + adds1) by { FetchIsHolds(s.tables, pid); }
    PassReachesTargetIff(once.tables, pid, {}, adds1, dup);
    assert On(hw1 - {} + adds1, s.enabled) == On(want, s.enabled);
  }

  lemma OnePopSplit(hw: set<Vidx>, want: set<Vidx>, enabled: set<Vid>, m: set<Vidx>)
    requires OnePop(hw) && OnePop(On(want, enabled)) && m <= Off(hw, enabled) + On(want, enabled)
    ensures OnePop(m)
  {
  }

  lemma SurvivorsBound(m: set<Vidx>, dels: set<Vidx>, adds: set<Vidx>)
    ensures Survivors(m, dels, adds) <= m - dels + adds
  {
  }

  // ----- set_vlan -----

  ghost predicate VlanSafe(s: State, vid: Vid, on: bool) {
    forall p: Pid :: p in s.bundles ==> PortVlanSafe(s, p, vid, on)
  }

  ghost predicate PortVlanSafe(s: State, pid: Pid, vid: Vid, on: bool) {
    Safe(FetchMap(s.tables, pid), VlanDels(s, pid, vid, on), VlanAdds(s, pid, vid, on))
  }

  /** The bits set_vlan moves for one port are those of its desired map. */
  lemma VlanDiff(s: State, want: map<Pid, set<Vidx>>, pid: Pid, vid: Vid, on: bool)
    requires pid in want && PortInv(s, want, pid)
    ensures IsDiff(FetchMap(s.tables, pid), VlanDels(s, pid, vid, on), VlanAdds(s, pid, vid, on))
    ensures FetchMap(s.tables, pid) - VlanDels(s, pid, vid, on) + VlanAdds(s, pid, vid, on)
      == On(want[pid], Switched(s.enabled, vid, on))
    ensures s.vmap[pid] - VlanAdds(s, pid, vid, on) + VlanDels(s, pid, vid, on)
      == Off(want[pid], Switched(s.enabled, vid, on))
    ensures Working(VlanAdds(s, pid, vid, on), pid, {}) == VlanAdds(s, pid, vid, on)
    ensures Working(VlanDels(s, pid, vid, on), pid, {}) == VlanDels(s, pid, vid, on)
  {
  }

  /** A port that is done: its pending map is right, and its hardware map is right exactly
      if the change was safe for it. */
  ghost predicate Done(s: State, u: State, want: map<Pid, set<Vidx>>, p: Pid, vid: Vid, on: bool) {
    && p in want && p in u.vmap
    && u.vmap[p] == Off(want[p], Switched(s.enabled, vid, on))
    && (FetchMap(u.tables, p) == On(want[p], Switched(s.enabled, vid, on)) <==> PortVlanSafe(s, p, vid, on))
  }

  /** A port as it was. */
  ghost predicate SamePort(s: State, u: State, p: Pid) {
    && FetchMap(u.tables, p) == FetchMap(s.tables, p)
    && (p in u.vmap <==> p in s.vmap)
    && (p in s.vmap ==> u.vmap[p] == s.vmap[p])
  }

  lemma OnePort(s: State, u: State, want: map<Pid, set<Vidx>>, p: Pid, vid: Vid, on: bool, dup: Duplicate)
    requires WellFormed(u.tables) && p in want && PortInv(s, want, p) && SamePort(s, u, p)
    requires u.enabled == s.enabled
    ensures WellFormed(SetVlanPort(u, p, vid, on, dup, {}).tables)
    ensures NoDoubles(u.tables) ==> NoDoubles(SetVlanPort(u, p, vid, on, dup, {}).tables)
    ensures Done(s, SetVlanPort(u, p, vid, on, dup, {}), want, p, vid, on)
    ensures forall q: Pid :: q != p ==> SamePort(u, SetVlanPort(u, p, vid, on, dup, {}), q)
  {
    assert PortInv(u, want, p);
    VlanDiff(u, want, p, vid, on);
    var dels, adds := VlanDels(u, p, vid, on), VlanAdds(u, p, vid, on);
    PassReachesTargetIff(u.tables, p, dels, adds, dup);
    PassFrame(u.tables, p, dels, adds, dup, VMAP_BITS);
    if NoDoubles(u.tables) {
      PassNoDoubles(u.tables, p, dels, adds, dup);
    }
    forall q: Pid | q != p ensures SamePort(u, SetVlanPort(u, p, vid, on, dup, {}), q) {
      PassOthers(u.tables, p, dels, adds, dup, q);
    }
  }

  /** The ports in `done` are done and every other port is as it was. */
  ghost predicate Progress(s: State, u: State, want: map<Pid, set<Vidx>>, vid: Vid, on: bool, done: set<Pid>) {
    && WellFormed(u.tables)
    && (NoDoubles(s.tables) ==> NoDoubles(u.tables))
    && (forall p: Pid :: p in done ==> Done(s, u, want, p, vid, on))
    && (forall p: Pid :: p !in done ==> SamePort(s, u, p))
  }

  lemma ProgressNext(s: State, u: State, want: map<Pid, set<Vidx>>, vid: Vid, on: bool, dup: Duplicate, done: set<Pid>, p: Pid)
    requires p in want && PortInv(s, want, p) && u.enabled == s.enabled
    requires Progress(s, u, want, vid, on, done) && p !in done
    ensures Progress(s, SetVlanPort(u, p, vid, on, dup, {}), want, vid, on, done + {p})
  {
    OnePort(s, u, want, p, vid, on, dup);
    var u' := SetVlanPort(u, p, vid, on, dup, {});
    forall q: Pid | q in done ensures Done(s, u', want, q, vid, on) {
      DoneKept(s, u, u', want, q, vid, on);
    }
    forall q: Pid | q !in done + {p} ensures SamePort(s, u', q) {
      SameSame(s, u, u', q);
    }
  }

  lemma DoneKept(s: State, u: State, u': State, want: map<Pid, set<Vidx>>, q: Pid, vid: Vid, on: bool)
    requires Done(s, u, want, q, vid, on) && SamePort(u, u', q)
    ensures Done(s, u', want, q, vid, on)
  {
  }

  lemma SameSame(s: State, u: State, u': State, q: Pid)
    requires SamePort(s, u, q) && SamePort(u, u', q)
    ensures SamePort(s, u', q)
  {
  }

  ghost predicate Distinct(ports: seq<Pid>) {
    forall i, j :: 0 <= i < j < |ports| ==> ports[i] != ports[j]
  }

  function Elements(ports: seq<Pid>): set<Pid> { set p | p in ports }

  /** Walking distinct ports that are not done yet leaves them all done. */
  lemma {:induction false} WalkPorts(s: State, u: State, want: map<Pid, set<Vidx>>, ports: seq<Pid>, vid: Vid, on: bool, dup: Duplicate, done: set<Pid>)
    requires forall p: Pid :: PortInv(s, want, p)
    requires Distinct(ports) && Elements(ports) <= want.Keys && Elements(ports) !! done
    requires Progress(s, u, want, vid, on, done) && u.enabled == s.enabled
    ensures var u' := SetVlanPorts(u, ports, vid, on, dup, {});
      u'.bundles == u.bundles && Progress(s, u', want, vid, on, done + Elements(ports))
    decreases |ports|
  {
    if ports == [] {
      assert done + Elements(ports) == done;
    } else {
      var p, rest := ports[0], ports[1..];
      assert p in Elements(ports);
      assert Elements(ports) == {p} + Elements(rest) && p !in Elements(rest);
      ProgressNext(s, u, want, vid, on, dup, done, p);
      WalkPorts(s, SetVlanPort(u, p, vid, on, dup, {}), want, rest, vid, on, dup, done + {p});
      assert done + {p} + Elements(rest) == done + Elements(ports);
    }
  }

  /** set_vlan keeps the invariant exactly when it is safe on every port. */
  lemma SetVlanKeepsInvIff(s: State, want: map<Pid, set<Vidx>>, vid: Vid, on: bool, dup: Duplicate)
    requires Inv(s, want)
    ensures Inv(SetVlan(s, vid, on, dup, {}), want) <==> VlanSafe(s, vid, on)
  {
    var u, s' := SetVlanPorts(s, s.bundles, vid, on, dup, {}), SetVlan(s, vid, on, dup, {});
    assert Elements(s.bundles) <= want.Keys;
    WalkPorts(s, s, want, s.bundles, vid, on, dup, {});
    assert {} + Elements(s.bundles) == Elements(s.bundles);
    forall p: Pid ensures PortInv(s', want, p) <==> (p in want ==> PortVlanSafe(s, p, vid, on)) {
      assert PortInv(s, want, p);
      assert if p in want then Done(s, u, want, p, vid, on) else SamePort(s, u, p);
    }
  }

  lemma SetVlanNoDoubles(s: State, want: map<Pid, set<Vidx>>, vid: Vid, on: bool, dup: Duplicate)
    requires Inv(s, want) && NoDoubles(s.tables)
    ensures NoDoubles(SetVlan(s, vid, on, dup, {}).tables)
  {
    assert Elements(s.bundles) <= want.Keys;
    WalkPorts(s, s, want, s.bundles, vid, on, dup, {});
  }

  // ----- whole runs -----

  datatype Op = Config(pid: Pid, settings: Settings) | Vlan(vid: Vid, on: bool)

  const INIT := State(EMPTY, {}, [], map[])

  ghost function Step(s: State, op: Op, dup: Duplicate): State {
    match op
    case Config(pid, c) => BundleSet(s, pid, Desired(c), dup, {})
    case Vlan(vid, on) => SetVlan(s, vid, on, dup, {})
  }

  ghost predicate StepSafe(s: State, op: Op) {
    match op
    case Config(pid, c) => BundleSafe(s, pid, Desired(c))
    case Vlan(vid, on) => VlanSafe(s, vid, on)
  }

  /** The states of a run, one before and one after every operation. */
  ghost predicate IsRun(states: seq<State>, ops: seq<Op>, dup: Duplicate) {
    && |states| == |ops| + 1
    && states[0] == INIT
    && forall i :: 0 <= i < |ops| ==> states[i + 1] == Step(states[i], ops[i], dup)
  }

  /** The map of the last configuration of every port among the first `n` operations. */
  ghost function Wanted(ops: seq<Op>, n: nat): map<Pid, set<Vidx>>
    requires n <= |ops|
  {
    if n == 0 then map[]
    else match ops[n - 1]
         case Config(pid, c) => Wanted(ops, n - 1)[pid := Desired(c)]
         case Vlan(_, _) => Wanted(ops, n - 1)
  }

  /** The VLANs whose last change among the first `n` operations enabled them. */
  ghost function Enabled(ops: seq<Op>, n: nat): set<Vid>
    requires n <= |ops|
  {
    if n == 0 then {}
    else match ops[n - 1]
         case Config(_, _) => Enabled(ops, n - 1)
         case Vlan(vid, on) => Switched(Enabled(ops, n - 1), vid, on)
  }

  ghost predicate RunSafe(states: seq<State>, ops: seq<Op>, n: nat)
    requires n <= |ops| < |states|
  {
    forall i :: 0 <= i < n ==> StepSafe(states[i], ops[i])
  }

  lemma StepKeepsInvIff(s: State, want: map<Pid, set<Vidx>>, op: Op, dup: Duplicate)
    requires Inv(s, want)
    ensures var want' := if op.Config? then want[op.pid := Desired(op.settings)] else want;
      Inv(Step(s, op, dup), want') <==> StepSafe(s, op)
  {
    match op
    case Config(pid, c) => BundleSetKeepsInvIff(s, want, pid, Desired(c), dup);
    case Vlan(vid, on) => SetVlanKeepsInvIff(s, want, vid, on, dup);
  }

  lemma InitInv()
    ensures Inv(INIT, map[])
  {
  }

  lemma RunStep(states: seq<State>, ops: seq<Op>, dup: Duplicate, i: nat)
    requires IsRun(states, ops, dup) && i < |ops| && Inv(states[i], Wanted(ops, i))
    ensures Inv(states[i + 1], Wanted(ops, i + 1)) <==> StepSafe(states[i], ops[i])
  {
    StepKeepsInvIff(states[i], Wanted(ops, i), ops[i], dup);
    assert states[i + 1] == Step(states[i], ops[i], dup);
  }

  lemma {:induction false} SafeRunKeepsInv(states: seq<State>, ops: seq<Op>, dup: Duplicate, n: nat)
    requires IsRun(states, ops, dup) && n <= |ops| && RunSafe(states, ops, n)
    ensures Inv(states[n], Wanted(ops, n))
  {
    if n == 0 {
      InitInv();
    } else {
      SafeRunKeepsInv(states, ops, dup, n - 1);
      RunStep(states, ops, dup, n - 1);
    }
  }

  /** A run keeps the reconciler invariant in all its states exactly when each of its
      steps is safe. */
  lemma RunKeepsInvIff(states: seq<State>, ops: seq<Op>, dup: Duplicate)
    requires IsRun(states, ops, dup)
    ensures (forall i :: 0 <= i <= |ops| ==> Inv(states[i], Wanted(ops, i))) <==> RunSafe(states, ops, |ops|)
  {
    if RunSafe(states, ops, |ops|) {
      forall i | 0 <= i <= |ops| ensures Inv(states[i], Wanted(ops, i)) {
        SafeRunKeepsInv(states, ops, dup, i);
      }
    }
    if forall i :: 0 <= i <= |ops| ==> Inv(states[i], Wanted(ops, i)) {
      forall i | 0 <= i < |ops| ensures StepSafe(states[i], ops[i]) {
        RunStep(states, ops, dup, i);
      }
    }
  }

  lemma {:induction false} RunEnabled(states: seq<State>, ops: seq<Op>, dup: Duplicate, n: nat)
    requires IsRun(states, ops, dup) && n <= |ops|
    ensures states[n].enabled == Enabled(ops, n)
  {
    if n > 0 {
      RunEnabled(states, ops, dup, n - 1);
      var s, s', op := states[n - 1], states[n], ops[n - 1];
      assert s'.enabled == if op.Vlan? then Switched(s.enabled, op.vid, op.on) else s.enabled by {
        SetVlanEnabled(s, op, dup);
        assert states[n - 1 + 1] == Step(s, op, dup);
      }
    }
  }

  lemma SetVlanEnabled(s: State, op: Op, dup: Duplicate)
    ensures Step(s, op, dup).enabled == if op.Vlan? then Switched(s.enabled, op.vid, op.on) else s.enabled
  {
  }

  lemma StepNoDoubles(s: State, want: map<Pid, set<Vidx>>, op: Op, dup: Duplicate)
    requires Inv(s, want) && NoDoubles(s.tables)
    ensures NoDoubles(Step(s, op, dup).tables)
  {
    match op
    case Config(pid, c) =>
      PassNoDoubles(s.tables, pid, Dels(s, pid, Desired(c)) - {}, Adds(s, pid, Desired(c)) - {}, dup);
    case Vlan(vid, on) => SetVlanNoDoubles(s, want, vid, on, dup);
  }

  lemma {:induction false} SafeRunNoDoubles(states: seq<State>, ops: seq<Op>, dup: Duplicate, n: nat)
    requires IsRun(states, ops, dup) && n <= |ops| && RunSafe(states, ops, n)
    ensures NoDoubles(states[n].tables)
  {
    if n > 0 {
      SafeRunNoDoubles(states, ops, dup, n - 1);
      SafeRunKeepsInv(states, ops, dup, n - 1);
      StepNoDoubles(states[n - 1], Wanted(ops, n - 1), ops[n - 1], dup);
      assert states[n - 1 + 1] == Step(states[n - 1], ops[n - 1], dup);
    }
  }

  /** The invariant fixes the pending maps and what the tables hold: they depend on nothing
      but the last settings and the enabled VLANs. */
  lemma InvDetermines(s: State, u: State, want: map<Pid, set<Vidx>>)
    requires Inv(s, want) && Inv(u, want) && s.enabled == u.enabled
    ensures s.vmap == u.vmap
    ensures forall q: Pid, x: Vidx :: Holds(s.tables, q, x) <==> Holds(u.tables, q, x)
    ensures NoDoubles(s.tables) && NoDoubles(u.tables) ==> s.tables == u.tables
  {
    forall q: Pid, x: Vidx ensures Holds(s.tables, q, x) <==> Holds(u.tables, q, x) {
      assert PortInv(s, want, q) && PortInv(u, want, q);
      FetchIsHolds(s.tables, q);
      FetchIsHolds(u.tables, q);
    }
    if NoDoubles(s.tables) && NoDoubles(u.tables) {
      HoldsDetermines(s.tables, u.tables);
    }
    forall p: Pid ensures (p in s.vmap <==> p in u.vmap) && (p in s.vmap ==> s.vmap[p] == u.vmap[p]) {
      assert PortInv(s, want, p) && PortInv(u, want, p);
    }
    assert s.vmap == u.vmap;
  }

  /** Two safe runs with the same last settings and the same enabled VLANs end in the same
      hardware tables and pending maps, whatever else happened in them. */
  lemma RunsAgree(states: seq<State>, ops: seq<Op>, dup: Duplicate, states': seq<State>, ops': seq<Op>, dup': Duplicate)
    requires IsRun(states, ops, dup) && IsRun(states', ops', dup')
    requires RunSafe(states, ops, |ops|) && RunSafe(states', ops', |ops'|)
    requires Wanted(ops, |ops|) == Wanted(ops', |ops'|) && Enabled(ops, |ops|) == Enabled(ops', |ops'|)
    ensures states[|ops|].tables == states'[|ops'|].tables && states[|ops|].vmap == states'[|ops'|].vmap
  {
    SafeRunKeepsInv(states, ops, dup, |ops|);
    SafeRunKeepsInv(states', ops', dup', |ops'|);
    RunEnabled(states, ops, dup, |ops|);
    RunEnabled(states', ops', dup', |ops'|);
    SafeRunNoDoubles(states, ops, dup, |ops|);
    SafeRunNoDoubles(states', ops', dup', |ops'|);
    InvDetermines(states[|ops|], states'[|ops'|], Wanted(ops, |ops|));
  }

  /** bundle_set and set_vlan commute whenever both orders are safe: the tables hold the same
      entries, and are the same if no flow was there twice. */
  lemma Commute(s: State, want: map<Pid, set<Vidx>>, c: Op, v: Op, dup: Duplicate)
    requires Inv(s, want) && c.Config? && v.Vlan?
    requires StepSafe(s, c) && StepSafe(Step(s, c, dup), v)
    requires StepSafe(s, v) && StepSafe(Step(s, v, dup), c)
    ensures var cv, vc := Step(Step(s, c, dup), v, dup), Step(Step(s, v, dup), c, dup);
      && cv.vmap == vc.vmap && cv.enabled == vc.enabled
      && (forall q: Pid, x: Vidx :: Holds(cv.tables, q, x) <==> Holds(vc.tables, q, x))
      && (NoDoubles(s.tables) ==> cv.tables == vc.tables)
  {
    var want' := want[c.pid := Desired(c.settings)];
    var sc, sv := Step(s, c, dup), Step(s, v, dup);
    StepKeepsInvIff(s, want, c, dup);
    StepKeepsInvIff(sc, want', v, dup);
    StepKeepsInvIff(s, want, v, dup);
    StepKeepsInvIff(sv, want, c, dup);
    SetVlanEnabled(s, v, dup);
    SetVlanEnabled(sc, v, dup);
    SetVlanEnabled(sv, c, dup);
    SetVlanEnabled(s, c, dup);
    if NoDoubles(s.tables) {
      StepNoDoubles(s, want, c, dup);
      StepNoDoubles(sc, want', v, dup);
      StepNoDoubles(s, want, v, dup);
      StepNoDoubles(sv, want, c, dup);
    }
    InvDetermines(Step(sc, v, dup), Step(sv, c, dup), want');
  }
}
