/** The L2 configuration when hardware calls fail: what is pending and what is in the tables
    after `bundle_set` and `set_vlan`, from any well-formed tables. */
module L2Faults {
  import opened FlowTable
  import opened Vidx
  import opened VlanTables
  import opened Reconciler
  import opened Ofproto
  import opened L2Runs

  /** bundle_set leaves pending exactly the wanted bits of disabled VLANs that are not in the
      hardware, whatever calls fail, and touches nothing else of the software state. */
  lemma BundleSetPending(s: State, pid: Pid, want: set<Vidx>, dup: Duplicate, faults: set<Vidx>)
    ensures var u := BundleSet(s, pid, want, dup, faults);
      && u.enabled == s.enabled
      && (forall p: Pid :: p in u.bundles <==> p in s.bundles || p == pid)
      && (forall x: Vidx :: x in Pending(u, pid) <==> x in want && x !in FetchMap(s.tables, pid) && VidOf(x) !in s.enabled)
      && (forall p: Pid :: p != pid ==> Pending(u, p) == Pending(s, p))
  {
  }

  /** bundle_set leaves the hardware of the other ports alone. */
  lemma BundleSetOthers(s: State, pid: Pid, want: set<Vidx>, dup: Duplicate, faults: set<Vidx>, q: Pid)
    requires WellFormed(s.tables) && q != pid
    ensures FetchMap(BundleSet(s, pid, want, dup, faults).tables, q) == FetchMap(s.tables, q)
  {
    PassKeepsOther(s.tables, pid, Dels(s, pid, want) - faults, Adds(s, pid, want) - faults, dup, q);
  }

  lemma PassKeepsOther(t: Tables, pid: Pid, dels: set<Vidx>, adds: set<Vidx>, dup: Duplicate, q: Pid)
    requires WellFormed(t) && q != pid
    ensures WellFormed(Pass(t, pid, dels, adds, dup, VMAP_BITS))
    ensures FetchMap(Pass(t, pid, dels, adds, dup, VMAP_BITS), q) == FetchMap(t, q)
  {
    var u := Pass(t, pid, dels, adds, dup, VMAP_BITS);
    PassWellFormed(t, pid, dels, adds, dup, VMAP_BITS);
    forall x: Vidx ensures x in FetchMap(u, q) <==> x in FetchMap(t, q) {
      PassOtherPort(t, pid, dels, adds, dup, VMAP_BITS, q, x);
      FetchIsHolds(t, q);
      FetchIsHolds(u, q);
    }
  }

  // ----- set_vlan -----

  /** The bit is pending for the port after set_vlan: enabling takes the bits of the VLAN out,
      disabling puts those of the hardware in. */
  ghost predicate PendingAfter(s: State, p: Pid, vid: Vid, on: bool, x: Vidx) {
    if on then x in Pending(s, p) && VidOf(x) != vid
    else x in Pending(s, p) || (x in FetchMap(s.tables, p) && VidOf(x) == vid)
  }

  lemma PortPending(s: State, p: Pid, vid: Vid, on: bool, dup: Duplicate, faults: set<(Pid, Vidx)>)
    requires WellFormed(s.tables)
    ensures var u := SetVlanPort(s, p, vid, on, dup, faults);
      && WellFormed(u.tables) && u.bundles == s.bundles && u.enabled == s.enabled
      && (forall x: Vidx :: x in Pending(u, p) <==> PendingAfter(s, p, vid, on, x))
      && (forall q: Pid :: q != p ==> SamePort(s, u, q))
  {
    var dels, adds := Working(VlanDels(s, p, vid, on), p, faults), Working(VlanAdds(s, p, vid, on), p, faults);
    PassWellFormed(s.tables, p, dels, adds, dup, VMAP_BITS);
    forall q: Pid | q != p ensures SamePort(s, SetVlanPort(s, p, vid, on, dup, faults), q) {
      PassKeepsOther(s.tables, p, dels, adds, dup, q);
    }
  }

  lemma {:induction false} WalkSkips(s: State, ports: seq<Pid>, vid: Vid, on: bool, dup: Duplicate, faults: set<(Pid, Vidx)>, q: Pid)
    requires WellFormed(s.tables) && q !in ports
    ensures SamePort(s, SetVlanPorts(s, ports, vid, on, dup, faults), q)
    decreases |ports|
  {
    if ports != [] {
      var u := SetVlanPort(s, ports[0], vid, on, dup, faults);
      PortPending(s, ports[0], vid, on, dup, faults);
      WalkSkips(u, ports[1..], vid, on, dup, faults, q);
      SameSame(s, u, SetVlanPorts(u, ports[1..], vid, on, dup, faults), q);
    }
  }

  /** The walk does to every port what it would do to that port alone. */
  lemma {:induction false} WalkIsPerPort(s: State, ports: seq<Pid>, vid: Vid, on: bool, dup: Duplicate, faults: set<(Pid, Vidx)>, p: Pid)
    requires WellFormed(s.tables) && Distinct(ports) && p in ports
    ensures var u := SetVlanPorts(s, ports, vid, on, dup, faults);
      && (forall x: Vidx :: x in Pending(u, p) <==> PendingAfter(s, p, vid, on, x))
      && FetchMap(u.tables, p) == FetchMap(SetVlanPort(s, p, vid, on, dup, faults).tables, p)
    decreases |ports|
  {
    var u := SetVlanPort(s, ports[0], vid, on, dup, faults);
    PortPending(s, ports[0], vid, on, dup, faults);
    if p == ports[0] {
      WalkSkips(u, ports[1..], vid, on, dup, faults, p);
    } else {
      WalkIsPerPort(u, ports[1..], vid, on, dup, faults, p);
      assert SamePort(s, u, p);
      PortAlike(s, u, p, vid, on, dup, faults);
    }
  }

  /** What set_vlan does to a port depends on nothing but that port. */
  lemma PortAlike(s: State, u: State, p: Pid, vid: Vid, on: bool, dup: Duplicate, faults: set<(Pid, Vidx)>)
    requires WellFormed(s.tables) && WellFormed(u.tables) && SamePort(s, u, p)
    ensures forall x: Vidx :: PendingAfter(u, p, vid, on, x) <==> PendingAfter(s, p, vid, on, x)
    ensures FetchMap(SetVlanPort(u, p, vid, on, dup, faults).tables, p) == FetchMap(SetVlanPort(s, p, vid, on, dup, faults).tables, p)
  {
    var dels, adds := Working(VlanDels(s, p, vid, on), p, faults), Working(VlanAdds(s, p, vid, on), p, faults);
    assert Pending(u, p) == Pending(s, p);
    var t', u' := Pass(s.tables, p, dels, adds, dup, VMAP_BITS), Pass(u.tables, p, dels, adds, dup, VMAP_BITS);
    PassWellFormed(s.tables, p, dels, adds, dup, VMAP_BITS);
    PassWellFormed(u.tables, p, dels, adds, dup, VMAP_BITS);
    FetchIsHolds(s.tables, p);
    FetchIsHolds(u.tables, p);
    PassAlike(s.tables, u.tables, p, dels, adds, dup, VMAP_BITS);
    forall x: Vidx ensures x in FetchMap(t', p) <==> x in FetchMap(u', p) {
      FetchIsHolds(t', p);
      FetchIsHolds(u', p);
    }
  }

  ghost predicate HoldAlike(t: Tables, u: Tables, p: Pid) {
    forall y: Vidx :: Holds(t, p, y) <==> Holds(u, p, y)
  }

  lemma AlikeNext(t: Tables, u: Tables, p: Pid, dels: set<Vidx>, adds: set<Vidx>, dup: Duplicate, b: Vidx)
    requires HoldAlike(t, u, p)
    ensures HoldAlike(PassBit(t, p, dels, adds, dup, b), PassBit(u, p, dels, adds, dup, b), p)
  {
    forall y: Vidx ensures Holds(PassBit(t, p, dels, adds, dup, b), p, y) <==> Holds(PassBit(u, p, dels, adds, dup, b), p, y) {
      if b in dels {
        DelEntry(t, p, b, y);
        DelEntry(u, p, b, y);
      } else if b in adds {
        AddAlike(t, u, p, dup, b, y);
      }
    }
  }

  lemma DelEntry(t: Tables, p: Pid, x: Vidx, y: Vidx)
    ensures Holds(DelVidx(t, p, x), p, y) <==> Holds(t, p, y) && !SameKey(x, y)
  {
    WithoutAt(t.flows, Cookie(p, VidOf(x), Arg(x)));
    if !IsEgress(x) && !IsEgress(y) {
      FlowOfInjective(p, x, p, y);
    }
  }

  lemma AddAlike(t: Tables, u: Tables, p: Pid, dup: Duplicate, b: Vidx, y: Vidx)
    requires HoldAlike(t, u, p)
    ensures Holds(AddVidx(t, p, b, dup), p, y) <==> Holds(AddVidx(u, p, b, dup), p, y)
  {
    if !SameKey(b, y) {
      AddFrame(t, p, b, dup, p, y);
      AddFrame(u, p, b, dup, p, y);
    } else if IsEgress(b) {
      TwinOrSelf(b, y);
      GroupAlike(t, u, p, b);
    } else {
      AddClean(t, p, b, dup, y);
      AddClean(u, p, b, dup, y);
    }
  }

  lemma GroupAlike(t: Tables, u: Tables, p: Pid, b: Vidx)
    requires IsEgress(b) && HoldAlike(t, u, p)
    ensures var g := Gid(p, VidOf(b));
      (g in t.groups <==> g in u.groups) && (g in t.groups ==> t.groups[g] == u.groups[g])
  {
    assert Holds(t, p, Egress(VidOf(b), true)) <==> Holds(u, p, Egress(VidOf(b), true));
    assert Holds(t, p, Egress(VidOf(b), false)) <==> Holds(u, p, Egress(VidOf(b), false));
  }

  lemma {:induction false} PassAlike(t: Tables, u: Tables, p: Pid, dels: set<Vidx>, adds: set<Vidx>, dup: Duplicate, k: nat)
    requires k <= VMAP_BITS && HoldAlike(t, u, p)
    ensures HoldAlike(Pass(t, p, dels, adds, dup, k), Pass(u, p, dels, adds, dup, k), p)
  {
    if k > 0 {
      PassAlike(t, u, p, dels, adds, dup, k - 1);
      AlikeNext(Pass(t, p, dels, adds, dup, k - 1), Pass(u, p, dels, adds, dup, k - 1), p, dels, adds, dup, k - 1);
    }
  }

  /** set_vlan from any well-formed tables and with any failing calls: the pending map of every
      port, and that each port's hardware changes as if it were alone. */
  lemma SetVlanPending(s: State, vid: Vid, on: bool, dup: Duplicate, faults: set<(Pid, Vidx)>, p: Pid)
    requires WellFormed(s.tables) && Distinct(s.bundles)
    ensures var u := SetVlan(s, vid, on, dup, faults);
      && (forall v :: v in u.enabled <==> if v == vid then on else v in s.enabled)
      && (p !in s.bundles ==> SamePort(s, u, p))
      && (p in s.bundles ==>
            && (forall x: Vidx :: x in Pending(u, p) <==> PendingAfter(s, p, vid, on, x))
            && FetchMap(u.tables, p) == FetchMap(SetVlanPort(s, p, vid, on, dup, faults).tables, p))
  {
    if p in s.bundles {
      WalkIsPerPort(s, s.bundles, vid, on, dup, faults, p);
    } else {
      WalkSkips(s, s.bundles, vid, on, dup, faults, p);
    }
  }

  /** An entry that is not added can only have been there. */
  lemma {:induction false} NeverAdded(t: Tables, pid: Pid, dels: set<Vidx>, adds: set<Vidx>, dup: Duplicate, k: nat, y: Vidx)
    requires k <= VMAP_BITS && y !in adds
    ensures Holds(Pass(t, pid, dels, adds, dup, k), pid, y) ==> Holds(t, pid, y)
  {
    if k > 0 {
      NeverAdded(t, pid, dels, adds, dup, k - 1, y);
      NotAddedBit(Pass(t, pid, dels, adds, dup, k - 1), pid, dels, adds, dup, k - 1, y);
    }
  }

  lemma NotAddedBit(u: Tables, pid: Pid, dels: set<Vidx>, adds: set<Vidx>, dup: Duplicate, b: Vidx, y: Vidx)
    requires y !in adds
    ensures Holds(PassBit(u, pid, dels, adds, dup, b), pid, y) ==> Holds(u, pid, y)
  {
    if y != b {
      OnlyOwnBit(u, pid, dels, adds, dup, b, y);
    } else if b in dels {
      OwnBitGone(u, pid, b);
    }
  }

  lemma OwnBitGone(u: Tables, pid: Pid, b: Vidx)
    ensures !Holds(DelVidx(u, pid, b), pid, b)
  {
    WithoutAt(u.flows, Cookie(pid, VidOf(b), Arg(b)));
  }

  /** A bit whose addition fails while its VLAN is enabled is lost: it is neither in the
      hardware nor pending afterwards. */
  lemma FailedEnableLosesBit(s: State, vid: Vid, dup: Duplicate, faults: set<(Pid, Vidx)>, p: Pid, x: Vidx)
    requires WellFormed(s.tables) && Distinct(s.bundles) && p in s.bundles
    requires x in Pending(s, p) && VidOf(x) == vid && x !in FetchMap(s.tables, p) && (p, x) in faults
    ensures var u := SetVlan(s, vid, true, dup, faults);
      x !in Pending(u, p) && x !in FetchMap(u.tables, p)
  {
    var dels, adds := Working(VlanDels(s, p, vid, true), p, faults), Working(VlanAdds(s, p, vid, true), p, faults);
    SetVlanPending(s, vid, true, dup, faults, p);
    NeverAdded(s.tables, p, dels, adds, dup, VMAP_BITS, x);
    PassWellFormed(s.tables, p, dels, adds, dup, VMAP_BITS);
    FetchIsHolds(s.tables, p);
    FetchIsHolds(Pass(s.tables, p, dels, adds, dup, VMAP_BITS), p);
  }

  lemma OnlyDeletions(t: Tables, p: Pid, dels: set<Vidx>, dup: Duplicate, x: Vidx)
    requires WellFormed(t) && dels <= FetchMap(t, p) && x in FetchMap(t, p)
    ensures x in FetchMap(Pass(t, p, dels, {}, dup, VMAP_BITS), p) <==> forall d: Vidx :: d in dels ==> !SameKey(d, x)
  {
    PassResult(t, p, dels, {}, dup);
    assert !Clash(FetchMap(t, p), dels, {}, x) by { FetchIsHolds(t, p); }
  }

  /** A bit whose deletion fails while its VLAN is disabled is pending and, if and only if no
      working deletion shares its key, still in the hardware. */
  lemma FailedDisableKeepsBit(s: State, vid: Vid, dup: Duplicate, faults: set<(Pid, Vidx)>, p: Pid, x: Vidx)
    requires WellFormed(s.tables) && Distinct(s.bundles) && p in s.bundles
    requires x in FetchMap(s.tables, p) && VidOf(x) == vid && (p, x) in faults
    ensures var u := SetVlan(s, vid, false, dup, faults);
      && x in Pending(u, p)
      && (x in FetchMap(u.tables, p) <==>
            forall d: Vidx :: d in FetchMap(s.tables, p) && VidOf(d) == vid && (p, d) !in faults ==> !SameKey(d, x))
  {
    var dels := Working(VlanDels(s, p, vid, false), p, faults);
    SetVlanPending(s, vid, false, dup, faults, p);
    assert Working(VlanAdds(s, p, vid, false), p, faults) == {};
    OnlyDeletions(s.tables, p, dels, dup, x);
    assert forall d: Vidx :: d in dels <==> d in FetchMap(s.tables, p) && VidOf(d) == vid && (p, d) !in faults;
  }
}
