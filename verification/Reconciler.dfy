/** The ascending pass over a difference of VIDX maps: for every bit in increasing
    order either delete it from, or add it to, the tables of one port. Because a
    deletion removes everything with the same key, the order of the bits decides which
    entries survive. */
module Reconciler {
  import opened FlowTable
  import opened Vidx
  import opened VlanTables

  /** One bit of the difference. */
  ghost function PassBit(u: Tables, pid: Pid, dels: set<Vidx>, adds: set<Vidx>, dup: Duplicate, b: Vidx): Tables {
    if b in dels then DelVidx(u, pid, b)
    else if b in adds then AddVidx(u, pid, b, dup)
    else u
  }

  ghost function Pass(t: Tables, pid: Pid, dels: set<Vidx>, adds: set<Vidx>, dup: Duplicate, k: nat): Tables
    requires k <= VMAP_BITS
  {
    if k == 0 then t else PassBit(Pass(t, pid, dels, adds, dup, k - 1), pid, dels, adds, dup, k - 1)
  }

  /** Entry `x` is there after the bits below `k` were processed: an old entry that no
      deletion shares a key with, or an added one after every deletion with its key. */
  ghost predicate Survives(m: set<Vidx>, dels: set<Vidx>, adds: set<Vidx>, x: Vidx, k: nat) {
    || (x in m && forall d :: d in dels ==> !SameKey(d, x))
    || (x in adds && x < k && forall d :: d in dels && SameKey(d, x) ==> d < x)
  }

  ghost function Survivors(m: set<Vidx>, dels: set<Vidx>, adds: set<Vidx>): set<Vidx> {
    set x: Vidx | x in m + adds && Survives(m, dels, adds, x, VMAP_BITS)
  }

  /** The difference is one of the map: it deletes what is there and adds what is not. */
  ghost predicate IsDiff(m: set<Vidx>, dels: set<Vidx>, adds: set<Vidx>) {
    dels <= m && adds !! m
  }

  /** The condition under which the pass reaches its target. */
  ghost predicate Safe(m: set<Vidx>, dels: set<Vidx>, adds: set<Vidx>) {
    && OnePop(m - dels + adds)
    && forall d, x :: d in dels && x in m - dels + adds && SameKey(d, x) ==> x in adds && d < x
  }

  lemma NotYet(m: set<Vidx>, dels: set<Vidx>, adds: set<Vidx>, b: Vidx, x: Vidx)
    requires b !in adds || !SameKey(b, x)
    ensures Survives(m, dels, adds, x, b) <==> Survives(m, dels, adds, x, b + 1)
  {
  }

  lemma WipedOut(m: set<Vidx>, dels: set<Vidx>, adds: set<Vidx>, b: Vidx, x: Vidx)
    requires b in dels && SameKey(b, x)
    ensures !Survives(m, dels, adds, x, b + 1)
  {
  }

  /** `u` is well formed, agrees with `t` on every other port, and holds no addition from
      bit `k` on. */
  ghost predicate Framed(t: Tables, u: Tables, pid: Pid, adds: set<Vidx>, k: nat) {
    && WellFormed(u)
    && (forall q: Pid, y: Vidx :: q != pid ==> (Holds(u, q, y) <==> Holds(t, q, y)))
    && (forall y: Vidx :: y in adds && k <= y ==> !Holds(u, pid, y))
  }

  lemma BitWellFormed(u: Tables, pid: Pid, dels: set<Vidx>, adds: set<Vidx>, dup: Duplicate, b: Vidx)
    requires WellFormed(u)
    ensures WellFormed(PassBit(u, pid, dels, adds, dup, b))
  {
    if b in dels {
      DelHolds(u, pid, b);
    } else if b in adds {
      AddWellFormed(u, pid, b, dup);
    }
  }

  lemma {:induction false} PassWellFormed(t: Tables, pid: Pid, dels: set<Vidx>, adds: set<Vidx>, dup: Duplicate, k: nat)
    requires k <= VMAP_BITS && WellFormed(t)
    ensures WellFormed(Pass(t, pid, dels, adds, dup, k))
  {
    if k > 0 {
      PassWellFormed(t, pid, dels, adds, dup, k - 1);
      BitWellFormed(Pass(t, pid, dels, adds, dup, k - 1), pid, dels, adds, dup, k - 1);
    }
  }

  /** A bit of another port or of another key does not matter. */
  lemma OtherBit(u: Tables, pid: Pid, dels: set<Vidx>, adds: set<Vidx>, dup: Duplicate, b: Vidx, q: Pid, y: Vidx)
    requires WellFormed(u) && !(q == pid && SameKey(b, y))
    ensures Holds(PassBit(u, pid, dels, adds, dup, b), q, y) <==> Holds(u, q, y)
  {
    if b in dels {
      DelHolds(u, pid, b);
    } else if b in adds {
      AddFrame(u, pid, b, dup, q, y);
    }
  }

  lemma {:induction false} PassOtherPort(t: Tables, pid: Pid, dels: set<Vidx>, adds: set<Vidx>, dup: Duplicate, k: nat, q: Pid, y: Vidx)
    requires k <= VMAP_BITS && WellFormed(t) && q != pid
    ensures Holds(Pass(t, pid, dels, adds, dup, k), q, y) <==> Holds(t, q, y)
  {
    if k > 0 {
      PassOtherPort(t, pid, dels, adds, dup, k - 1, q, y);
      PassWellFormed(t, pid, dels, adds, dup, k - 1);
      OtherBit(Pass(t, pid, dels, adds, dup, k - 1), pid, dels, adds, dup, k - 1, q, y);
    }
  }

  /** A bit brings in no entry but its own. */
  lemma OnlyOwnBit(u: Tables, pid: Pid, dels: set<Vidx>, adds: set<Vidx>, dup: Duplicate, b: Vidx, y: Vidx)
    requires y != b
    ensures Holds(PassBit(u, pid, dels, adds, dup, b), pid, y) ==> Holds(u, pid, y)
  {
    if b in dels {
      WithoutAt(u.flows, Cookie(pid, VidOf(b), Arg(b)));
    } else if b in adds {
      if Holds(AddVidx(u, pid, b, dup), pid, y) {
        AddOnlyOwn(u, pid, b, dup, pid, y);
      }
    }
  }

  lemma {:induction false} PassNotYet(t: Tables, pid: Pid, dels: set<Vidx>, adds: set<Vidx>, dup: Duplicate, k: nat, y: Vidx)
    requires k <= y
    ensures Holds(Pass(t, pid, dels, adds, dup, k), pid, y) ==> Holds(t, pid, y)
  {
    if k > 0 {
      PassNotYet(t, pid, dels, adds, dup, k - 1, y);
      OnlyOwnBit(Pass(t, pid, dels, adds, dup, k - 1), pid, dels, adds, dup, k - 1, y);
    }
  }

  /** The pass keeps the tables well formed and leaves every other port alone. */
  lemma PassFrame(t: Tables, pid: Pid, dels: set<Vidx>, adds: set<Vidx>, dup: Duplicate, k: nat)
    requires k <= VMAP_BITS && WellFormed(t) && IsDiff(FetchMap(t, pid), dels, adds)
    ensures Framed(t, Pass(t, pid, dels, adds, dup, k), pid, adds, k)
  {
    PassWellFormed(t, pid, dels, adds, dup, k);
    forall q: Pid, y: Vidx | q != pid ensures Holds(Pass(t, pid, dels, adds, dup, k), q, y) <==> Holds(t, q, y) {
      PassOtherPort(t, pid, dels, adds, dup, k, q, y);
    }
    forall y: Vidx | y in adds && k <= y ensures !Holds(Pass(t, pid, dels, adds, dup, k), pid, y) {
      FetchIsHolds(t, pid);
      PassNotYet(t, pid, dels, adds, dup, k, y);
    }
  }

  lemma BitNoDoubles(u: Tables, pid: Pid, dels: set<Vidx>, adds: set<Vidx>, dup: Duplicate, b: Vidx)
    requires NoDoubles(u) && (b in adds ==> !Holds(u, pid, b))
    ensures NoDoubles(PassBit(u, pid, dels, adds, dup, b))
  {
    if b in dels {
      DelNoDoubles(u, pid, b);
    } else if b in adds {
      AddNoDoubles(u, pid, b, dup);
    }
  }

  lemma {:induction false} NoDoublesUpTo(t: Tables, pid: Pid, dels: set<Vidx>, adds: set<Vidx>, dup: Duplicate, k: nat)
    requires k <= VMAP_BITS && NoDoubles(t) && forall y: Vidx :: y in adds ==> !Holds(t, pid, y)
    ensures NoDoubles(Pass(t, pid, dels, adds, dup, k))
  {
    if k > 0 {
      NoDoublesUpTo(t, pid, dels, adds, dup, k - 1);
      PassNotYet(t, pid, dels, adds, dup, k - 1, k - 1);
      BitNoDoubles(Pass(t, pid, dels, adds, dup, k - 1), pid, dels, adds, dup, k - 1);
    }
  }

  /** The pass adds no flow that is there already. */
  lemma PassNoDoubles(t: Tables, pid: Pid, dels: set<Vidx>, adds: set<Vidx>, dup: Duplicate)
    requires WellFormed(t) && IsDiff(FetchMap(t, pid), dels, adds) && NoDoubles(t)
    ensures NoDoubles(Pass(t, pid, dels, adds, dup, VMAP_BITS))
  {
    FetchIsHolds(t, pid);
    NoDoublesUpTo(t, pid, dels, adds, dup, VMAP_BITS);
  }

  /** No deletion with the key of `x` is to come from bit `k` on. */
  ghost predicate Settled(dels: set<Vidx>, x: Vidx, k: nat) {
    forall d :: d in dels && SameKey(d, x) ==> d < k
  }

  /** The target has both POPTAG values for the VLAN of this entry. */
  ghost predicate Clash(m: set<Vidx>, dels: set<Vidx>, adds: set<Vidx>, x: Vidx) {
    IsEgress(x) && x in m - dels + adds && Twin(x) in m - dels + adds
  }

  /** Once no deletion of its key is still to come, an entry without clash is in the tables
      exactly if it survives. */
  lemma {:induction false} PassSurvivors(t: Tables, pid: Pid, dels: set<Vidx>, adds: set<Vidx>, dup: Duplicate, k: nat, x: Vidx)
    requires k <= VMAP_BITS
    requires WellFormed(t) && IsDiff(FetchMap(t, pid), dels, adds)
    requires Settled(dels, x, k) && !Clash(FetchMap(t, pid), dels, adds, x)
    ensures Holds(Pass(t, pid, dels, adds, dup, k), pid, x) <==> Survives(FetchMap(t, pid), dels, adds, x, k)
    decreases k, 0
  {
    if k == 0 {
      FetchIsHolds(t, pid);
    } else if k - 1 in dels {
      DelSurvivor(t, pid, dels, adds, dup, k - 1, x);
    } else if k - 1 in adds {
      AddSurvivor(t, pid, dels, adds, dup, k - 1, x);
    } else {
      PassSurvivors(t, pid, dels, adds, dup, k - 1, x);
      NotYet(FetchMap(t, pid), dels, adds, k - 1, x);
    }
  }

  /** The step of PassSurvivors that deletes bit `b`. */
  lemma {:induction false} DelSurvivor(t: Tables, pid: Pid, dels: set<Vidx>, adds: set<Vidx>, dup: Duplicate, b: Vidx, x: Vidx)
    requires WellFormed(t) && IsDiff(FetchMap(t, pid), dels, adds)
    requires b in dels && Settled(dels, x, b + 1) && !Clash(FetchMap(t, pid), dels, adds, x)
    ensures Holds(DelVidx(Pass(t, pid, dels, adds, dup, b), pid, b), pid, x) <==>
      Survives(FetchMap(t, pid), dels, adds, x, b + 1)
    decreases b, 1
  {
    var u := Pass(t, pid, dels, adds, dup, b);
    assert Holds(DelVidx(u, pid, b), pid, x) <==> Holds(u, pid, x) && !SameKey(b, x) by {
      PassWellFormed(t, pid, dels, adds, dup, b);
      DelHolds(u, pid, b);
    }
    if SameKey(b, x) {
      WipedOut(FetchMap(t, pid), dels, adds, b, x);
    } else {
      PassSurvivors(t, pid, dels, adds, dup, b, x);
      NotYet(FetchMap(t, pid), dels, adds, b, x);
    }
  }

  /** Without a clash, the group of an addition is not there when its turn comes. */
  lemma NoneBefore(m: set<Vidx>, dels: set<Vidx>, adds: set<Vidx>, b: Vidx, z: Vidx)
    requires IsDiff(m, dels, adds) && b in adds && IsEgress(b) && SameKey(b, z) && !Clash(m, dels, adds, b)
    ensures !Survives(m, dels, adds, z, b) && !Clash(m, dels, adds, z)
  {
    TwinOrSelf(b, z);
  }

  /** The step of PassSurvivors that adds bit `b`. */
  lemma {:induction false} AddSurvivor(t: Tables, pid: Pid, dels: set<Vidx>, adds: set<Vidx>, dup: Duplicate, b: Vidx, x: Vidx)
    requires WellFormed(t) && IsDiff(FetchMap(t, pid), dels, adds)
    requires b in adds && Settled(dels, x, b + 1) && !Clash(FetchMap(t, pid), dels, adds, x)
    ensures Holds(AddVidx(Pass(t, pid, dels, adds, dup, b), pid, b, dup), pid, x) <==>
      Survives(FetchMap(t, pid), dels, adds, x, b + 1)
    decreases b, 1
  {
    var m, u := FetchMap(t, pid), Pass(t, pid, dels, adds, dup, b);
    PassSurvivors(t, pid, dels, adds, dup, b, x);
    if SameKey(b, x) {
      forall z: Vidx | IsEgress(b) && SameKey(b, z)
        ensures !Holds(u, pid, z)
      {
        assert !Clash(m, dels, adds, b) by { TwinOrSelf(b, x); }
        NoneBefore(m, dels, adds, b, z);
        PassSurvivors(t, pid, dels, adds, dup, b, z);
      }
      AddClean(u, pid, b, dup, x);
    } else {
      AddFrame(u, pid, b, dup, pid, x);
      NotYet(m, dels, adds, b, x);
    }
  }

  // ----- both POPTAG values wanted on one VLAN -----

  /** What is left of a group when another one with its identifier is added. */
  function Meets(dup: Duplicate, old': Vidx, new': Vidx): set<Vidx> {
    match dup case Reject => {old'} case Replace => {new'} case Evict => {}
  }

  /** What the VLAN of the keep-tag entry `lo` shows before bit `k`, if both values are wanted. */
  ghost function Stage(m: set<Vidx>, dup: Duplicate, lo: Vidx, k: nat): set<Vidx>
    requires IsEgress(lo)
  {
    if k <= lo then m * {lo, Twin(lo)}
    else if Twin(lo) in m then Meets(dup, Twin(lo), lo)
    else if k <= Twin(lo) then {lo}
    else Meets(dup, lo, Twin(lo))
  }

  lemma {:induction false} PassStage(t: Tables, pid: Pid, dels: set<Vidx>, adds: set<Vidx>, dup: Duplicate, k: nat, lo: Vidx, y: Vidx)
    requires k <= VMAP_BITS && WellFormed(t) && IsDiff(FetchMap(t, pid), dels, adds)
    requires IsEgress(lo) && !Arg(lo) && Clash(FetchMap(t, pid), dels, adds, lo) && SameKey(lo, y)
    ensures Holds(Pass(t, pid, dels, adds, dup, k), pid, y) <==> y in Stage(FetchMap(t, pid), dup, lo, k)
    decreases k, 0
  {
    if k == 0 {
      StageStart(t, pid, dup, lo, y);
    } else if SameKey(lo, k - 1) {
      StageNext(t, pid, dels, adds, dup, k - 1, lo, y);
    } else {
      PassStage(t, pid, dels, adds, dup, k - 1, lo, y);
      StageSkips(t, pid, dels, adds, dup, k - 1, lo, y);
    }
  }

  lemma StageStart(t: Tables, pid: Pid, dup: Duplicate, lo: Vidx, y: Vidx)
    requires WellFormed(t) && IsEgress(lo) && SameKey(lo, y)
    ensures Holds(t, pid, y) <==> y in Stage(FetchMap(t, pid), dup, lo, 0)
  {
    FetchIsHolds(t, pid);
    TwinOrSelf(lo, y);
  }

  lemma StageSkips(t: Tables, pid: Pid, dels: set<Vidx>, adds: set<Vidx>, dup: Duplicate, b: Vidx, lo: Vidx, y: Vidx)
    requires WellFormed(t) && IsDiff(FetchMap(t, pid), dels, adds)
    requires IsEgress(lo) && !Arg(lo) && SameKey(lo, y) && !SameKey(lo, b)
    ensures Holds(Pass(t, pid, dels, adds, dup, b + 1), pid, y) <==> Holds(Pass(t, pid, dels, adds, dup, b), pid, y)
    ensures Stage(FetchMap(t, pid), dup, lo, b + 1) == Stage(FetchMap(t, pid), dup, lo, b)
  {
    PassWellFormed(t, pid, dels, adds, dup, b);
    OtherBit(Pass(t, pid, dels, adds, dup, b), pid, dels, adds, dup, b, pid, y);
    TwinOrSelf(lo, b);
  }

  /** The step of PassStage at one of the two bits. */
  lemma {:induction false} StageNext(t: Tables, pid: Pid, dels: set<Vidx>, adds: set<Vidx>, dup: Duplicate, b: Vidx, lo: Vidx, y: Vidx)
    requires WellFormed(t) && IsDiff(FetchMap(t, pid), dels, adds)
    requires IsEgress(lo) && !Arg(lo) && Clash(FetchMap(t, pid), dels, adds, lo) && SameKey(lo, y) && SameKey(lo, b)
    ensures Holds(Pass(t, pid, dels, adds, dup, b + 1), pid, y) <==> y in Stage(FetchMap(t, pid), dup, lo, b + 1)
    decreases b, 1
  {
    var m, u := FetchMap(t, pid), Pass(t, pid, dels, adds, dup, b);
    TwinOrSelf(lo, b);
    TwinOrSelf(lo, y);
    assert OnePop(m) by { FetchIsHolds(t, pid); }
    assert b !in dels;
    PassStage(t, pid, dels, adds, dup, b, lo, lo);
    PassStage(t, pid, dels, adds, dup, b, lo, Twin(lo));
    if b in adds {
      if Holds(u, pid, Twin(b)) {
        AddMeetsTwin(u, pid, b, dup, y);
      } else {
        forall z: Vidx | IsEgress(b) && SameKey(b, z) ensures !Holds(u, pid, z) {
          TwinOrSelf(b, z);
        }
        AddClean(u, pid, b, dup, y);
      }
    }
  }

  /** What the pass leaves of the two maps. */
  ghost predicate Leaves(m: set<Vidx>, dels: set<Vidx>, adds: set<Vidx>, dup: Duplicate, x: Vidx) {
    if Clash(m, dels, adds, x) then x in Stage(m, dup, Egress(VidOf(x), false), VMAP_BITS)
    else Survives(m, dels, adds, x, VMAP_BITS)
  }

  lemma EntryResult(t: Tables, pid: Pid, dels: set<Vidx>, adds: set<Vidx>, dup: Duplicate, x: Vidx)
    requires WellFormed(t) && IsDiff(FetchMap(t, pid), dels, adds)
    ensures Holds(Pass(t, pid, dels, adds, dup, VMAP_BITS), pid, x) <==> Leaves(FetchMap(t, pid), dels, adds, dup, x)
  {
    if Clash(FetchMap(t, pid), dels, adds, x) {
      var lo := Egress(VidOf(x), false);
      TwinOrSelf(lo, x);
      PassStage(t, pid, dels, adds, dup, VMAP_BITS, lo, x);
    } else {
      PassSurvivors(t, pid, dels, adds, dup, VMAP_BITS, x);
    }
  }

  lemma SurvivorsLeft(m: set<Vidx>, dels: set<Vidx>, adds: set<Vidx>, dup: Duplicate, left: set<Vidx>)
    requires OnePop(m - dels + adds) && forall x: Vidx :: x in left <==> Leaves(m, dels, adds, dup, x)
    ensures left == Survivors(m, dels, adds)
  {
    forall x: Vidx ensures x in left <==> x in Survivors(m, dels, adds) {
      assert !Clash(m, dels, adds, x);
    }
  }

  /** What the pass leaves behind, in closed form, for every difference and every policy on
      duplicates; without clashes the survivors. */
  lemma PassResult(t: Tables, pid: Pid, dels: set<Vidx>, adds: set<Vidx>, dup: Duplicate)
    requires WellFormed(t) && IsDiff(FetchMap(t, pid), dels, adds)
    ensures forall x: Vidx :: x in FetchMap(Pass(t, pid, dels, adds, dup, VMAP_BITS), pid) <==>
      Leaves(FetchMap(t, pid), dels, adds, dup, x)
    ensures OnePop(FetchMap(t, pid) - dels + adds) ==>
      FetchMap(Pass(t, pid, dels, adds, dup, VMAP_BITS), pid) == Survivors(FetchMap(t, pid), dels, adds)
  {
    var m, left := FetchMap(t, pid), FetchMap(Pass(t, pid, dels, adds, dup, VMAP_BITS), pid);
    forall x: Vidx ensures x in left <==> Leaves(m, dels, adds, dup, x) {
      PassWellFormed(t, pid, dels, adds, dup, VMAP_BITS);
      FetchIsHolds(Pass(t, pid, dels, adds, dup, VMAP_BITS), pid);
      EntryResult(t, pid, dels, adds, dup, x);
    }
    if OnePop(m - dels + adds) {
      SurvivorsLeft(m, dels, adds, dup, left);
    }
  }

  lemma SurvivorsAreTargetIff(m: set<Vidx>, dels: set<Vidx>, adds: set<Vidx>)
    requires IsDiff(m, dels, adds) && OnePop(m - dels + adds)
    ensures Survivors(m, dels, adds) == m - dels + adds <==> Safe(m, dels, adds)
  {
    if Safe(m, dels, adds) {
      assert forall x :: x in Survivors(m, dels, adds) <==> x in m - dels + adds;
    } else {
      var d, x :| d in dels && x in m - dels + adds && SameKey(d, x) && !(x in adds && d < x);
      assert x !in Survivors(m, dels, adds);
    }
  }

  /** Table-level refinement: the pass turns the image of the old map into the image of
      the new one exactly when the difference is safe. */
  lemma PassReachesTargetIff(t: Tables, pid: Pid, dels: set<Vidx>, adds: set<Vidx>, dup: Duplicate)
    requires WellFormed(t) && IsDiff(FetchMap(t, pid), dels, adds)
    ensures FetchMap(Pass(t, pid, dels, adds, dup, VMAP_BITS), pid) == FetchMap(t, pid) - dels + adds
      <==> Safe(FetchMap(t, pid), dels, adds)
  {
    var m, u := FetchMap(t, pid), Pass(t, pid, dels, adds, dup, VMAP_BITS);
    if OnePop(m - dels + adds) {
      PassResult(t, pid, dels, adds, dup);
      SurvivorsAreTargetIff(m, dels, adds);
    } else {
      assert OnePop(FetchMap(u, pid)) by {
        PassWellFormed(t, pid, dels, adds, dup, VMAP_BITS);
        FetchIsHolds(u, pid);
      }
    }
  }
}
