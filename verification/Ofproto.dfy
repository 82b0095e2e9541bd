/** L2 configuration of the switch: `bundle_set` reconciles one port with its settings,
    `set_vlan` enables or disables one VLAN on every port. Bits of disabled VLANs wait
    in a pending map per port. */
module Ofproto {
  import opened Vidx
  import opened VlanTables
  import opened Reconciler

  datatype VlanMode = Access | Trunk | NativeTagged | NativeUntagged

  datatype Settings = Settings(trunks: set<Vid>, mode: VlanMode, vlan: Vid)

  datatype State = State(tables: Tables, enabled: set<Vid>, bundles: seq<Pid>, vmap: map<Pid, set<Vidx>>)

  function TrunkBits(trunks: set<Vid>): set<Vidx> {
    (set v | v in trunks :: Ingress(v, true)) + (set v | v in trunks :: Egress(v, false))
  }

  /** The VIDX map the settings ask for. */
  function Desired(s: Settings): set<Vidx> {
    TrunkBits(s.trunks) +
    if s.mode == Trunk then {} else {Ingress(s.vlan, false), Egress(s.vlan, s.mode != NativeTagged)}
  }

  function On(m: set<Vidx>, enabled: set<Vid>): set<Vidx> { set x | x in m && VidOf(x) in enabled }

  function Off(m: set<Vidx>, enabled: set<Vid>): set<Vidx> { set x | x in m && VidOf(x) !in enabled }

  function OfVid(m: set<Vidx>, vid: Vid): set<Vidx> { set x | x in m && VidOf(x) == vid }

  function Below(m: set<Vidx>, k: nat): set<Vidx> { set x | x in m && x < k }

  lemma BelowNext(m: set<Vidx>, k: Vidx)
    ensures Below(m, k + 1) == Below(m, k) + if k in m then {k} else {}
    ensures k + 1 == VMAP_BITS ==> Below(m, k + 1) == m
  {
  }

  // ----- bundle_set -----

  ghost function Dels(s: State, pid: Pid, want: set<Vidx>): set<Vidx> {
    On(FetchMap(s.tables, pid) - want, s.enabled)
  }

  ghost function Adds(s: State, pid: Pid, want: set<Vidx>): set<Vidx> {
    On(want - FetchMap(s.tables, pid), s.enabled)
  }

  /** The L2 branch of bundle_set; `faults` are the bits whose hardware call fails. */
  ghost function BundleSet(s: State, pid: Pid, want: set<Vidx>, dup: Duplicate, faults: set<Vidx>): State {
    State(Pass(s.tables, pid, Dels(s, pid, want) - faults, Adds(s, pid, want) - faults, dup, VMAP_BITS),
          s.enabled,
          if pid in s.bundles then s.bundles else s.bundles + [pid],
          s.vmap[pid := Off(want - FetchMap(s.tables, pid), s.enabled)])
  }

  // ----- set_vlan -----

  ghost function Pending(s: State, pid: Pid): set<Vidx> {
    if pid in s.vmap then s.vmap[pid] else {}
  }

  /** What set_vlan deletes from and adds to the tables of one port. */
  ghost function VlanDels(s: State, pid: Pid, vid: Vid, on: bool): set<Vidx> {
    if on then {} else OfVid(FetchMap(s.tables, pid), vid)
  }

  ghost function VlanAdds(s: State, pid: Pid, vid: Vid, on: bool): set<Vidx> {
    if on then OfVid(Pending(s, pid), vid) else {}
  }

  /** The bits whose hardware call succeeds. */
  function Working(bits: set<Vidx>, pid: Pid, faults: set<(Pid, Vidx)>): set<Vidx> {
    set x | x in bits && (pid, x) !in faults
  }

  /** set_vlan on one port; a bit changes places in the pending map even if its call fails. */
  ghost function SetVlanPort(s: State, pid: Pid, vid: Vid, on: bool, dup: Duplicate, faults: set<(Pid, Vidx)>): State {
    var dels, adds := VlanDels(s, pid, vid, on), VlanAdds(s, pid, vid, on);
    s.(tables := Pass(s.tables, pid, Working(dels, pid, faults), Working(adds, pid, faults), dup, VMAP_BITS),
       vmap := s.vmap[pid := Pending(s, pid) - adds + dels])
  }

  /** The ports one after the other, in the order in which the bundle table is walked. */
  ghost function SetVlanPorts(s: State, ports: seq<Pid>, vid: Vid, on: bool, dup: Duplicate, faults: set<(Pid, Vidx)>): State
    decreases |ports|
  {
    if ports == [] then s
    else SetVlanPorts(SetVlanPort(s, ports[0], vid, on, dup, faults), ports[1..], vid, on, dup, faults)
  }

  lemma PortsNext(s: State, ports: seq<Pid>, i: nat, vid: Vid, on: bool, dup: Duplicate, faults: set<(Pid, Vidx)>)
    requires i < |ports|
    ensures SetVlanPorts(s, ports[i..], vid, on, dup, faults)
      == SetVlanPorts(SetVlanPort(s, ports[i], vid, on, dup, faults), ports[i + 1..], vid, on, dup, faults)
  {
    assert ports[i..][1..] == ports[i + 1..];
  }

  function Switched(enabled: set<Vid>, vid: Vid, on: bool): set<Vid> {
    if on then enabled + {vid} else enabled - {vid}
  }

  ghost function SetVlan(s: State, vid: Vid, on: bool, dup: Duplicate, faults: set<(Pid, Vidx)>): State {
    SetVlanPorts(s, s.bundles, vid, on, dup, faults).(enabled := Switched(s.enabled, vid, on))
  }

  // ----- the imperative operations -----

  class Switch {
    const hw: Hardware
    var enabled: set<Vid>
    var bundles: seq<Pid>
    var vmap: map<Pid, set<Vidx>>

    ghost function View(): State
      reads this, hw, hw.vlan
    {
      State(hw.View(), enabled, bundles, vmap)
    }

    constructor ()
      ensures View() == State(EMPTY, {}, [], map[]) && fresh(hw) && fresh(hw.vlan)
    {
      hw := new Hardware();
      enabled, bundles, vmap := {}, [], map[];
    }

    static method BuildVnew(s: Settings) returns (vnew: set<Vidx>)
      ensures vnew == Desired(s)
    {
      vnew := {};
      for v := 0 to 4096
        invariant vnew == TrunkBits(set u | u in s.trunks && u < v)
      {
        if v in s.trunks {
          vnew := vnew + {Ingress(v, true), Egress(v, false)};
          assert (set u | u in s.trunks && u < v + 1) == (set u | u in s.trunks && u < v) + {v};
        } else {
          assert (set u | u in s.trunks && u < v + 1) == (set u | u in s.trunks && u < v);
        }
      }
      assert (set u | u in s.trunks && u < 4096) == s.trunks;
      if s.mode != Trunk {
        vnew := vnew + {Ingress(s.vlan, false)};
        vnew := vnew + {Egress(s.vlan, s.mode != NativeTagged)};
      }
    }

    /** The loop of bundle_set over the difference. */
    method ApplyDiff(pid: Pid, vdiff: set<Vidx>, vnew: set<Vidx>, dup: Duplicate, faults: set<Vidx>) returns (pending: set<Vidx>)
      modifies hw, hw.vlan
      ensures hw.View() == Pass(old(hw.View()), pid, On(vdiff - vnew, enabled) - faults, On(vdiff * vnew, enabled) - faults, dup, VMAP_BITS)
      ensures pending == Off(vdiff * vnew, enabled)
    {
      ghost var t := hw.View();
      ghost var dels, adds, off := On(vdiff - vnew, enabled) - faults, On(vdiff * vnew, enabled) - faults, Off(vdiff * vnew, enabled);
      pending := {};
      for x := 0 to VMAP_BITS
        invariant hw.View() == Pass(t, pid, dels, adds, dup, x)
        invariant pending == Below(off, x)
      {
        BelowNext(off, x);
        if x in vdiff {
          if VidOf(x) in enabled {
            if x in vnew {
              var err := hw.Add(pid, x, dup, x in faults);
            } else {
              var err := hw.Delete(pid, x, x in faults);
            }
          } else if x in vnew {
            pending := pending + {x};
          }
        }
      }
    }

    method BundleSetL2(pid: Pid, s: Settings, dup: Duplicate, faults: set<Vidx>)
      modifies this, hw, hw.vlan
      ensures View() == BundleSet(old(View()), pid, Desired(s), dup, faults)
    {
      if pid !in bundles {
        bundles := bundles + [pid];
      }
      var vnew := BuildVnew(s);
      var vdiff := hw.Fetch(pid);
      ghost var fetched := vdiff;
      vdiff := (vdiff - vnew) + (vnew - vdiff);
      assert vdiff - vnew == fetched - vnew && vdiff * vnew == vnew - fetched;
      var pending := ApplyDiff(pid, vdiff, vnew, dup, faults);
      vmap := vmap[pid := pending];
    }

    method EnablePort(pid: Pid, vid: Vid, dup: Duplicate, faults: set<(Pid, Vidx)>)
      modifies this`vmap, hw, hw.vlan
      ensures View() == SetVlanPort(old(View()), pid, vid, true, dup, faults)
    {
      ghost var start := View();
      ghost var adds := VlanAdds(start, pid, vid, true);
      ghost var dels, ok := Working(VlanDels(start, pid, vid, true), pid, faults), Working(adds, pid, faults);
      var pending: set<Vidx> := if pid in vmap then vmap[pid] else {};
      for x := 0 to VMAP_BITS
        invariant vmap == old(vmap)
        invariant hw.View() == Pass(start.tables, pid, dels, ok, dup, x)
        invariant pending == Pending(start, pid) - Below(adds, x)
      {
        BelowNext(adds, x);
        if x in pending && VidOf(x) == vid {
          var err := hw.Add(pid, x, dup, (pid, x) in faults);
          pending := pending - {x};
        }
      }
      assert pending == Pending(start, pid) - adds + VlanDels(start, pid, vid, true);
      vmap := vmap[pid := pending];
    }

    /** The loop of set_vlan over the fetched map when a VLAN is disabled. */
    method DeleteVid(pid: Pid, vid: Vid, l2asic: set<Vidx>, parked: set<Vidx>, ghost dup: Duplicate, faults: set<(Pid, Vidx)>)
      returns (pending: set<Vidx>)
      modifies hw, hw.vlan
      ensures hw.View() == Pass(old(hw.View()), pid, Working(OfVid(l2asic, vid), pid, faults), {}, dup, VMAP_BITS)
      ensures pending == parked + OfVid(l2asic, vid)
    {
      ghost var t := hw.View();
      ghost var dels := OfVid(l2asic, vid);
      pending := parked;
      for x := 0 to VMAP_BITS
        invariant hw.View() == Pass(t, pid, Working(dels, pid, faults), {}, dup, x)
        invariant pending == parked + Below(dels, x)
      {
        BelowNext(dels, x);
        if x in l2asic && VidOf(x) == vid {
          var err := hw.Delete(pid, x, (pid, x) in faults);
          pending := pending + {x};
        }
      }
    }

    method DisablePort(pid: Pid, vid: Vid, ghost dup: Duplicate, faults: set<(Pid, Vidx)>)
      modifies this`vmap, hw, hw.vlan
      ensures View() == SetVlanPort(old(View()), pid, vid, false, dup, faults)
    {
      var l2asic := hw.Fetch(pid);
      ghost var start := View();
      var parked: set<Vidx> := if pid in vmap then vmap[pid] else {};
      var pending := DeleteVid(pid, vid, l2asic, parked, dup, faults);
      assert Working(VlanAdds(start, pid, vid, false), pid, faults) == {};
      assert pending == Pending(start, pid) - VlanAdds(start, pid, vid, false) + VlanDels(start, pid, vid, false);
      vmap := vmap[pid := pending];
    }

    method SetVlanState(vid: Vid, add: bool, dup: Duplicate, faults: set<(Pid, Vidx)>)
      modifies this, hw, hw.vlan
      ensures View() == SetVlan(old(View()), vid, add, dup, faults)
    {
      ghost var start := View();
      for i := 0 to |bundles|
        invariant bundles == old(bundles) && enabled == old(enabled)
        invariant SetVlanPorts(View(), bundles[i..], vid, add, dup, faults) == SetVlanPorts(start, start.bundles, vid, add, dup, faults)
      {
        PortsNext(View(), bundles, i, vid, add, dup, faults);
        if add {
          EnablePort(bundles[i], vid, dup, faults);
        } else {
          DisablePort(bundles[i], vid, dup, faults);
        }
      }
      assert bundles[|bundles|..] == [];
      enabled := if add then enabled + {vid} else enabled - {vid};
    }
  }
}
