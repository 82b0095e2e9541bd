/** The VLAN flow table and the L2 interface groups of the switch, and the three
    operations the plugin performs on them: add a VIDX, delete a VIDX, and fetch the
    VIDX map of a port. Deletion works by key (flow cookie or group identifier), and
    the keys are coarser than a VIDX. */
module VlanTables {
  import opened FlowTable
  import opened Vidx

  type Pid = p: int | 0 <= p < 0xFFFF

  datatype NewTag = Ignore | SetVid(vid: Vid)

  datatype VlanMatch = VlanMatch(inPort: Pid, vid: Vid, tagged: bool, newTag: NewTag)

  /** The value part of the hardware: VLAN flows, and for every L2 interface group
      its pop-tag action. */
  datatype Tables = Tables(flows: multiset<Flow<VlanMatch>>, groups: map<nat, bool>)

  const EMPTY := Tables(multiset{}, map[])

  /** What the library does when the group to be added exists already: refuse at the
      entry, take the new bucket, or refuse the bucket, upon which the plugin removes
      the group. */
  datatype Duplicate = Reject | Replace | Evict

  function Cookie(pid: Pid, vid: Vid, tagged: bool): nat {
    if tagged then vid * 0x1_0000_0000 + pid else pid
  }

  function Gid(pid: Pid, vid: Vid): nat { vid * 0x1_0000 + pid }

  function GidPort(g: nat): nat { g % 0x1_0000 }

  function GidVlan(g: nat): Vid { g / 0x1_0000 % 4096 }

  function FlowOf(pid: Pid, x: Vidx): Flow<VlanMatch> {
    var vid, tagged := VidOf(x), Arg(x);
    Flow(Cookie(pid, vid, tagged), VlanMatch(pid, vid, tagged, if tagged then Ignore else SetVid(vid)))
  }

  // ----- the operations on values -----

  ghost function AddVidx(t: Tables, pid: Pid, x: Vidx, dup: Duplicate): Tables {
    if IsEgress(x) then
      var g := Gid(pid, VidOf(x));
      if g in t.groups && dup == Reject then t
      else if g in t.groups && dup == Evict then t.(groups := t.groups - {g})
      else t.(groups := t.groups[g := Arg(x)])
    else
      t.(flows := t.flows + multiset{FlowOf(pid, x)})
  }

  /** The addition reports an error: the library failed, or refused a duplicate group. */
  ghost predicate AddErr(t: Tables, pid: Pid, x: Vidx, dup: Duplicate, fails: bool) {
    fails || (IsEgress(x) && Gid(pid, VidOf(x)) in t.groups && dup != Replace)
  }

  ghost function DelVidx(t: Tables, pid: Pid, x: Vidx): Tables {
    if IsEgress(x) then
      t.(groups := t.groups - {Gid(pid, VidOf(x))})
    else
      t.(flows := Without(t.flows, Cookie(pid, VidOf(x), Arg(x))))
  }

  ghost function FetchMap(t: Tables, pid: Pid): set<Vidx> {
    (set f | f in t.flows && f.body.inPort == pid :: Ingress(f.body.vid, f.body.tagged))
    + (set g | g in t.groups && GidPort(g) == pid :: Egress(GidVlan(g), t.groups[g]))
  }

  // ----- what the tables hold -----

  /** Entry `x` of port `pid` is in the hardware. */
  ghost predicate Holds(t: Tables, pid: Pid, x: Vidx) {
    if IsEgress(x) then
      var g := Gid(pid, VidOf(x));
      g in t.groups && t.groups[g] == Arg(x)
    else
      FlowOf(pid, x) in t.flows
  }

  /** Every entry is one that AddVidx could have written. */
  ghost predicate WellFormed(t: Tables) {
    && (forall f :: f in t.flows ==> f == FlowOf(f.body.inPort, Ingress(f.body.vid, f.body.tagged)))
    && (forall g :: g in t.groups ==> GidPort(g) < 0xFFFF && g == Gid(GidPort(g), GidVlan(g)))
  }

  /** No flow is in the table twice. */
  ghost predicate NoDoubles(t: Tables) {
    forall f :: f in t.flows ==> t.flows[f] == 1
  }

  /** What a deletion goes by: the untagged cookie does not contain the VLAN (and equals
      the tagged cookie of VLAN 0), and a group identifier does not contain POPTAG. */
  function Key(x: Vidx): nat {
    if IsEgress(x) then 8192 + VidOf(x) else if Arg(x) then VidOf(x) else 0
  }

  /** Two entries of one port that a single deletion removes together. */
  predicate SameKey(x: Vidx, y: Vidx) {
    Key(x) == Key(y)
  }

  /** The map never asks for both POPTAG values on one VLAN. */
  ghost predicate OnePop(m: set<Vidx>) {
    forall x, y :: x in m && y in m && IsEgress(x) && IsEgress(y) && VidOf(x) == VidOf(y) ==> x == y
  }

  lemma GidDecodes(pid: Pid, vid: Vid)
    ensures GidPort(Gid(pid, vid)) == pid && GidVlan(Gid(pid, vid)) == vid
  {
  }

  /** Fetching a port returns exactly the entries the hardware holds for it, and a port
      can never show both POPTAG values on one VLAN. */
  lemma FetchIsHolds(t: Tables, pid: Pid)
    requires WellFormed(t)
    ensures forall x: Vidx :: x in FetchMap(t, pid) <==> Holds(t, pid, x)
    ensures OnePop(FetchMap(t, pid))
  {
    forall x: Vidx ensures x in FetchMap(t, pid) <==> Holds(t, pid, x) {
      if IsEgress(x) {
        FetchEgress(t, pid, x);
      } else {
        FetchIngress(t, pid, x);
      }
    }
  }

  lemma FetchIngress(t: Tables, pid: Pid, x: Vidx)
    requires WellFormed(t) && !IsEgress(x)
    ensures x in FetchMap(t, pid) <==> Holds(t, pid, x)
  {
  }

  lemma FetchEgress(t: Tables, pid: Pid, x: Vidx)
    requires WellFormed(t) && IsEgress(x)
    ensures x in FetchMap(t, pid) <==> Holds(t, pid, x)
  {
  }

  lemma FlowOfInjective(p: Pid, x: Vidx, q: Pid, y: Vidx)
    requires !IsEgress(x) && !IsEgress(y)
    ensures FlowOf(p, x) == FlowOf(q, y) <==> p == q && x == y
    ensures FlowOf(p, x).cookie == FlowOf(q, y).cookie <==> p == q && SameKey(x, y)
  {
  }

  /** Deletion removes the entries of that port with the same key, and nothing else. */
  lemma DelHolds(t: Tables, pid: Pid, x: Vidx)
    requires WellFormed(t)
    ensures WellFormed(DelVidx(t, pid, x))
    ensures forall q: Pid, y: Vidx ::
      Holds(DelVidx(t, pid, x), q, y) <==> Holds(t, q, y) && !(q == pid && SameKey(x, y))
  {
    var t' := DelVidx(t, pid, x);
    if !IsEgress(x) {
      WithoutAt(t.flows, Cookie(pid, VidOf(x), Arg(x)));
      assert forall f :: f in t'.flows ==> f in t.flows;
    }
    forall q: Pid, y: Vidx
      ensures Holds(t', q, y) <==> Holds(t, q, y) && !(q == pid && SameKey(x, y))
    {
      if !IsEgress(x) && !IsEgress(y) {
        FlowOfInjective(pid, x, q, y);
      }
    }
  }

  lemma AddWellFormed(t: Tables, pid: Pid, x: Vidx, dup: Duplicate)
    requires WellFormed(t)
    ensures WellFormed(AddVidx(t, pid, x, dup))
  {
    if IsEgress(x) {
      GidDecodes(pid, VidOf(x));
    }
  }

  lemma AddNoDoubles(t: Tables, pid: Pid, x: Vidx, dup: Duplicate)
    requires NoDoubles(t) && !Holds(t, pid, x)
    ensures NoDoubles(AddVidx(t, pid, x, dup))
  {
  }

  lemma DelNoDoubles(t: Tables, pid: Pid, x: Vidx)
    requires NoDoubles(t)
    ensures NoDoubles(DelVidx(t, pid, x))
  {
    if !IsEgress(x) {
      WithoutAt(t.flows, Cookie(pid, VidOf(x), Arg(x)));
    }
  }

  /** An addition does not touch other keys or other ports. */
  lemma AddFrame(t: Tables, pid: Pid, x: Vidx, dup: Duplicate, q: Pid, y: Vidx)
    requires !(q == pid && SameKey(x, y))
    ensures Holds(AddVidx(t, pid, x, dup), q, y) <==> Holds(t, q, y)
  {
  }

  /** An addition that meets no group of its own key adds exactly its own entry. */
  lemma AddClean(t: Tables, pid: Pid, x: Vidx, dup: Duplicate, y: Vidx)
    requires forall z: Vidx :: IsEgress(x) && SameKey(x, z) ==> !Holds(t, pid, z)
    ensures Holds(AddVidx(t, pid, x, dup), pid, y) <==> Holds(t, pid, y) || y == x
  {
    if IsEgress(x) {
      NoGroup(t, pid, x);
    } else if !IsEgress(y) {
      FlowOfInjective(pid, x, pid, y);
    }
  }

  /** The other POPTAG value on the same VLAN. */
  function Twin(x: Vidx): Vidx
    requires IsEgress(x)
  {
    Egress(VidOf(x), !Arg(x))
  }

  lemma TwinOrSelf(x: Vidx, y: Vidx)
    requires IsEgress(x)
    ensures SameKey(x, y) <==> y == x || y == Twin(x)
  {
  }

  /** An addition that meets the group of its twin leaves what the library decides. */
  lemma AddMeetsTwin(t: Tables, pid: Pid, x: Vidx, dup: Duplicate, y: Vidx)
    requires IsEgress(x) && SameKey(x, y) && Holds(t, pid, Twin(x))
    ensures Holds(AddVidx(t, pid, x, dup), pid, y) <==> (dup == Reject && y == Twin(x)) || (dup == Replace && y == x)
  {
  }

  /** Adding a group again changes nothing, unless the library evicts it. */
  lemma AddAgain(t: Tables, pid: Pid, x: Vidx, dup: Duplicate)
    requires IsEgress(x) && Holds(t, pid, x)
    ensures AddVidx(t, pid, x, dup) == t <==> dup != Evict
    ensures dup == Evict ==> !Holds(AddVidx(t, pid, x, dup), pid, x)
  {
    var g := Gid(pid, VidOf(x));
    assert t.groups[g := Arg(x)] == t.groups;
    assert g !in t.groups - {g};
  }

  lemma NoGroup(t: Tables, pid: Pid, x: Vidx)
    requires IsEgress(x)
    requires forall y: Vidx :: SameKey(x, y) ==> !Holds(t, pid, y)
    ensures Gid(pid, VidOf(x)) !in t.groups
  {
    var g := Gid(pid, VidOf(x));
    if g in t.groups {
      var y := Egress(VidOf(x), t.groups[g]);
      assert SameKey(x, y) && Holds(t, pid, y);
    }
  }

  /** Well-formed tables without doubled flows are determined by what they hold. */
  lemma HoldsDetermines(t: Tables, u: Tables)
    requires WellFormed(t) && WellFormed(u) && NoDoubles(t) && NoDoubles(u)
    requires forall q: Pid, y: Vidx :: Holds(t, q, y) <==> Holds(u, q, y)
    ensures t == u
  {
    forall f ensures t.flows[f] == u.flows[f] {
      FlowAgrees(t, u, f);
      FlowAgrees(u, t, f);
    }
    assert t.flows == u.flows;
    forall g ensures g in t.groups ==> g in u.groups && u.groups[g] == t.groups[g] {
      GroupAgrees(t, u, g);
    }
    forall g ensures g in u.groups ==> g in t.groups {
      GroupAgrees(u, t, g);
    }
    assert t.groups == u.groups;
  }

  lemma FlowAgrees(t: Tables, u: Tables, f: Flow<VlanMatch>)
    requires WellFormed(t) && NoDoubles(t) && NoDoubles(u)
    requires forall q: Pid, y: Vidx :: Holds(t, q, y) <==> Holds(u, q, y)
    ensures f in t.flows ==> f in u.flows && t.flows[f] == u.flows[f]
  {
    if f in t.flows {
      assert Holds(t, f.body.inPort, Ingress(f.body.vid, f.body.tagged));
    }
  }

  lemma GroupAgrees(t: Tables, u: Tables, g: nat)
    requires WellFormed(t)
    requires forall q: Pid, y: Vidx :: Holds(t, q, y) <==> Holds(u, q, y)
    ensures g in t.groups ==> g in u.groups && u.groups[g] == t.groups[g]
  {
    if g in t.groups {
      var y := Egress(GidVlan(g), t.groups[g]);
      assert Holds(t, GidPort(g), y);
      assert Holds(u, GidPort(g), y);
    }
  }

  /** Whatever the library does with duplicates, an addition brings in no entry but its own. */
  lemma AddOnlyOwn(t: Tables, pid: Pid, x: Vidx, dup: Duplicate, q: Pid, y: Vidx)
    requires Holds(AddVidx(t, pid, x, dup), q, y)
    ensures Holds(t, q, y) || (q == pid && y == x)
  {
  }

  // ----- runs of additions and deletions -----

  datatype TableOp = AddOp(pid: Pid, x: Vidx) | DelOp(pid: Pid, x: Vidx)

  ghost function Apply(t: Tables, op: TableOp, dup: Duplicate): Tables {
    match op
    case AddOp(pid, x) => AddVidx(t, pid, x, dup)
    case DelOp(pid, x) => DelVidx(t, pid, x)
  }

  ghost predicate IsTableRun(ts: seq<Tables>, ops: seq<TableOp>, dup: Duplicate) {
    && |ts| == |ops| + 1 && ts[0] == EMPTY
    && forall i :: 0 <= i < |ops| ==> ts[i + 1] == Apply(ts[i], ops[i], dup)
  }

  /** The entry was added among the first `n` operations and no deletion of its key on its
      port came after. */
  ghost predicate Live(ops: seq<TableOp>, n: nat, pid: Pid, x: Vidx)
    requires n <= |ops|
  {
    exists i :: 0 <= i < n && ops[i] == AddOp(pid, x)
      && forall j :: i < j < n ==> !(ops[j].DelOp? && ops[j].pid == pid && SameKey(ops[j].x, x))
  }

  /** The operation does not put a second POPTAG value on a port and VLAN, and repeats a live
      group only if the library does not evict it for that. */
  ghost predicate CleanOp(ops: seq<TableOp>, n: nat, dup: Duplicate)
    requires n < |ops|
  {
    ops[n].AddOp? && IsEgress(ops[n].x) ==>
      && !Live(ops, n, ops[n].pid, Twin(ops[n].x))
      && (Live(ops, n, ops[n].pid, ops[n].x) ==> dup != Evict)
  }

  lemma LiveNext(ops: seq<TableOp>, n: nat, pid: Pid, x: Vidx)
    requires n < |ops|
    ensures Live(ops, n + 1, pid, x) <==>
      || ops[n] == AddOp(pid, x)
      || (Live(ops, n, pid, x) && !(ops[n].DelOp? && ops[n].pid == pid && SameKey(ops[n].x, x)))
  {
  }

  /** The tables show, for every port, exactly the live entries. */
  ghost predicate ShowsLive(t: Tables, ops: seq<TableOp>, n: nat)
    requires n <= |ops|
  {
    && WellFormed(t)
    && forall pid: Pid, x: Vidx :: x in FetchMap(t, pid) <==> Live(ops, n, pid, x)
  }

  /** The next operation keeps the tables showing the live entries exactly if it is clean. */
  lemma ShowsLiveNextIff(t: Tables, ops: seq<TableOp>, n: nat, dup: Duplicate)
    requires n < |ops| && ShowsLive(t, ops, n)
    ensures ShowsLive(Apply(t, ops[n], dup), ops, n + 1) <==> CleanOp(ops, n, dup)
  {
    var u := Apply(t, ops[n], dup);
    ApplyWellFormed(t, ops[n], dup);
    if CleanOp(ops, n, dup) {
      forall pid: Pid, x: Vidx ensures x in FetchMap(u, pid) <==> Live(ops, n + 1, pid, x) {
        FetchIsHolds(u, pid);
        CleanStep(t, ops, n, dup, pid, x);
      }
    } else {
      UncleanOp(t, ops, n, dup);
    }
  }

  /** An operation that is not clean leaves a live entry that fetching does not return. */
  lemma UncleanOp(t: Tables, ops: seq<TableOp>, n: nat, dup: Duplicate)
    requires n < |ops| && ShowsLive(t, ops, n) && !CleanOp(ops, n, dup)
    ensures !ShowsLive(Apply(t, ops[n], dup), ops, n + 1)
  {
    var u, pid, x := Apply(t, ops[n], dup), ops[n].pid, ops[n].x;
    LiveNext(ops, n, pid, x);
    LiveNext(ops, n, pid, Twin(x));
    if Live(ops, n, pid, Twin(x)) {
      NeverBoth(u, pid, x);
    } else {
      Evicted(t, pid, x);
    }
  }

  lemma NeverBoth(u: Tables, pid: Pid, x: Vidx)
    requires IsEgress(x)
    ensures WellFormed(u) ==> !(x in FetchMap(u, pid) && Twin(x) in FetchMap(u, pid))
  {
    if WellFormed(u) {
      FetchIsHolds(u, pid);
    }
  }

  lemma Evicted(t: Tables, pid: Pid, x: Vidx)
    requires WellFormed(t) && IsEgress(x) && x in FetchMap(t, pid)
    ensures x !in FetchMap(AddVidx(t, pid, x, Evict), pid)
  {
    FetchIsHolds(t, pid);
    AddAgain(t, pid, x, Evict);
    AddWellFormed(t, pid, x, Evict);
    FetchIsHolds(AddVidx(t, pid, x, Evict), pid);
  }

  lemma ApplyWellFormed(t: Tables, op: TableOp, dup: Duplicate)
    requires WellFormed(t)
    ensures WellFormed(Apply(t, op, dup))
  {
    match op
    case AddOp(p, y) => AddWellFormed(t, p, y, dup);
    case DelOp(p, y) => DelHolds(t, p, y);
  }

  lemma CleanStep(t: Tables, ops: seq<TableOp>, n: nat, dup: Duplicate, pid: Pid, x: Vidx)
    requires n < |ops| && ShowsLive(t, ops, n) && CleanOp(ops, n, dup)
    ensures Holds(Apply(t, ops[n], dup), pid, x) <==> Live(ops, n + 1, pid, x)
  {
    var op := ops[n];
    LiveNext(ops, n, pid, x);
    assert Holds(t, pid, x) <==> Live(ops, n, pid, x) by { FetchIsHolds(t, pid); }
    match op
    case DelOp(p, y) => DelHolds(t, p, y);
    case AddOp(p, y) =>
      if p != pid || !SameKey(y, x) {
        AddFrame(t, p, y, dup, pid, x);
      } else {
        CleanAdd(t, ops, n, dup, x);
      }
  }

  lemma CleanAdd(t: Tables, ops: seq<TableOp>, n: nat, dup: Duplicate, x: Vidx)
    requires n < |ops| && ShowsLive(t, ops, n) && CleanOp(ops, n, dup) && ops[n].AddOp? && SameKey(ops[n].x, x)
    ensures Holds(Apply(t, ops[n], dup), ops[n].pid, x) <==> Holds(t, ops[n].pid, x) || x == ops[n].x
  {
    var p, y := ops[n].pid, ops[n].x;
    FetchIsHolds(t, p);
    if IsEgress(y) && Holds(t, p, y) {
      AddAgain(t, p, y, dup);
    } else {
      forall z: Vidx | IsEgress(y) && SameKey(y, z) ensures !Holds(t, p, z) {
        TwinOrSelf(y, z);
      }
      AddClean(t, p, y, dup, x);
    }
  }

  lemma TableRunStep(ts: seq<Tables>, ops: seq<TableOp>, dup: Duplicate, i: nat)
    requires IsTableRun(ts, ops, dup) && i < |ops| && ShowsLive(ts[i], ops, i)
    ensures ShowsLive(ts[i + 1], ops, i + 1) <==> CleanOp(ops, i, dup)
  {
    ShowsLiveNextIff(ts[i], ops, i, dup);
    assert ts[i + 1] == Apply(ts[i], ops[i], dup);
  }

  lemma {:induction false} CleanRunShowsLive(ts: seq<Tables>, ops: seq<TableOp>, dup: Duplicate, n: nat)
    requires IsTableRun(ts, ops, dup) && n <= |ops|
    requires forall i :: 0 <= i < n ==> CleanOp(ops, i, dup)
    ensures ShowsLive(ts[n], ops, n)
  {
    if n > 0 {
      CleanRunShowsLive(ts, ops, dup, n - 1);
      TableRunStep(ts, ops, dup, n - 1);
    }
  }

  /** Fetching inverts a run of additions and deletions in all its states, returning exactly
      the entries added and not deleted since, if and only if every operation is clean. */
  lemma FetchInvertsRunIff(ts: seq<Tables>, ops: seq<TableOp>, dup: Duplicate)
    requires IsTableRun(ts, ops, dup)
    ensures (forall i :: 0 <= i <= |ops| ==> ShowsLive(ts[i], ops, i)) <==>
      forall i :: 0 <= i < |ops| ==> CleanOp(ops, i, dup)
  {
    if forall i :: 0 <= i < |ops| ==> CleanOp(ops, i, dup) {
      forall i | 0 <= i <= |ops| ensures ShowsLive(ts[i], ops, i) {
        CleanRunShowsLive(ts, ops, dup, i);
      }
    }
    if forall i :: 0 <= i <= |ops| ==> ShowsLive(ts[i], ops, i) {
      forall i | 0 <= i < |ops| ensures CleanOp(ops, i, dup) {
        TableRunStep(ts, ops, dup, i);
      }
    }
  }

  /** An untagged flow puts its VLAN on the frame, a tagged one leaves the tag alone. */
  ghost predicate TagsRight(t: Tables) {
    forall f :: f in t.flows ==> f.body.newTag == if f.body.tagged then Ignore else SetVid(f.body.vid)
  }

  lemma WellFormedTags(t: Tables)
    requires WellFormed(t)
    ensures TagsRight(t)
  {
    forall f | f in t.flows ensures f.body.newTag == if f.body.tagged then Ignore else SetVid(f.body.vid) {
      assert f == FlowOf(f.body.inPort, Ingress(f.body.vid, f.body.tagged));
    }
  }

  lemma {:induction false} RunWellFormed(ts: seq<Tables>, ops: seq<TableOp>, dup: Duplicate, n: nat)
    requires IsTableRun(ts, ops, dup) && n <= |ops|
    ensures WellFormed(ts[n])
  {
    if n > 0 {
      RunWellFormed(ts, ops, dup, n - 1);
      ApplyWellFormed(ts[n - 1], ops[n - 1], dup);
      assert ts[n - 1 + 1] == Apply(ts[n - 1], ops[n - 1], dup);
    }
  }

  /** In every table that additions and deletions lead to, every flow rewrites tags rightly. */
  lemma RunTagsRight(ts: seq<Tables>, ops: seq<TableOp>, dup: Duplicate, n: nat)
    requires IsTableRun(ts, ops, dup) && n <= |ops|
    ensures TagsRight(ts[n])
  {
    RunWellFormed(ts, ops, dup, n);
    WellFormedTags(ts[n]);
  }

  /** An addition that reports no error leaves its entry in the tables, one that reports an
      error adds nothing. */
  lemma AddErrMeans(t: Tables, pid: Pid, x: Vidx, dup: Duplicate, fails: bool)
    ensures var u := if fails then t else AddVidx(t, pid, x, dup);
      if AddErr(t, pid, x, dup, fails) then forall q: Pid, y: Vidx :: Holds(u, q, y) ==> Holds(t, q, y)
      else Holds(u, pid, x)
  {
  }

  // ----- the operations on the hardware -----

  class Hardware {
    const vlan: Table<VlanMatch>
    var groups: map<nat, bool>

    ghost function View(): Tables
      reads this, vlan
    {
      Tables(vlan.entries, groups)
    }

    constructor ()
      ensures View() == EMPTY && fresh(vlan)
    {
      vlan := new Table<VlanMatch>();
      groups := map[];
    }

    /** ops_fpa_vlan_add, with ops_fpa_route_add_l2_group for the egress side. */
    method Add(pid: Pid, x: Vidx, dup: Duplicate, fails: bool) returns (err: bool)
      modifies this, vlan
      ensures View() == if fails then old(View()) else AddVidx(old(View()), pid, x, dup)
      ensures err == AddErr(old(View()), pid, x, dup, fails)
    {
      if IsEgress(x) {
        var g := Gid(pid, VidOf(x));
        err := fails || (g in groups && dup != Replace);
        if fails || (g in groups && dup == Reject) {
          return;
        }
        groups := groups[g := Arg(x)];
        if err {
          groups := groups - {g};
          assert groups == old(groups) - {g};
        }
      } else {
        err := vlan.Add(FlowOf(pid, x), fails);
      }
    }

    /** ops_fpa_vlan_del. */
    method Delete(pid: Pid, x: Vidx, fails: bool) returns (err: bool)
      modifies this, vlan
      ensures err == fails
      ensures View() == if fails then old(View()) else DelVidx(old(View()), pid, x)
    {
      err := fails;
      if IsEgress(x) {
        if !fails {
          groups := groups - {Gid(pid, VidOf(x))};
        }
      } else {
        err := vlan.CookieDelete(Cookie(pid, VidOf(x), Arg(x)), fails);
      }
    }

    /** ops_fpa_vlan_fetch: each enumeration visits every entry once. */
    method Fetch(pid: Pid) returns (vmap: set<Vidx>)
      ensures vmap == FetchMap(View(), pid)
    {
      vmap := {};
      var rest := vlan.entries;
      while |rest| > 0
        invariant rest <= vlan.entries
        invariant vmap == set f | f in vlan.entries && f !in rest && f.body.inPort == pid
                              :: Ingress(f.body.vid, f.body.tagged)
        decreases |rest|
      {
        var f :| f in rest;
        if f.body.inPort == pid {
          vmap := vmap + {Ingress(f.body.vid, f.body.tagged)};
        }
        rest := rest[f := 0];
      }
      ghost var ingress := vmap;
      var gids := groups.Keys;
      while gids != {}
        invariant gids <= groups.Keys
        invariant vmap == ingress + set g | g in groups && g !in gids && GidPort(g) == pid
                                          :: Egress(GidVlan(g), groups[g])
        decreases gids
      {
        var g :| g in gids;
        if GidPort(g) == pid {
          vmap := vmap + {Egress(GidVlan(g), groups[g])};
        }
        gids := gids - {g};
      }
    }
  }
}
