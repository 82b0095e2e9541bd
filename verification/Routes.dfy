/** The L3 unicast flow table: routes and host routes, each removed by a cookie built from
    prefix and length. A route is added by deleting its cookie and adding the new flow; a
    host route is added without deleting first. */
module Routes {
  import opened Options
  import opened FlowTable

  datatype Key = Key(ip: nat, len: int)

  /** What the parser lets through: lengths have an upper bound, but no lower one. */
  predicate ValidKey(k: Key) { k.ip < 0x1_0000_0000 && k.len <= 32 }

  /** Where matching packets go: an L3 group, or the CPU. */
  datatype Target = ToGroup(group: nat) | Trap

  datatype Body = Body(groupId: nat, toController: bool, dstIp: nat, dstMask: Option<bv32>)

  type FlowSet = multiset<Flow<Body>>

  /** The prefix, then the low byte of the length. */
  function Cookie(k: Key): nat { k.ip * 256 + k.len % 256 }

  /** C does not define a shift of a word by its width or more. */
  function MaskOf(len: int): Option<bv32>
    requires len <= 32
  {
    if len <= 0 then None else Some(0xFFFF_FFFF >> (32 - len))
  }

  function FlowFor(k: Key, t: Target): Flow<Body>
    requires ValidKey(k)
  {
    Flow(Cookie(k), Body(if t.Trap? then 0xFFFF_FFFF else t.group, t.Trap?, k.ip, MaskOf(k.len)))
  }

  /** A cookie determines the prefix, and the length up to multiples of 256. */
  lemma CookiesCollideIff(j: Key, k: Key)
    ensures Cookie(j) == Cookie(k) <==> j.ip == k.ip && j.len % 256 == k.len % 256
    ensures ValidKey(j) && ValidKey(k) && j.len > -224 && k.len > -224 ==> (Cookie(j) == Cookie(k) <==> j == k)
  {
    if Cookie(j) == Cookie(k) {
      assert (j.ip - k.ip) * 256 == k.len % 256 - j.len % 256;
    }
    if ValidKey(j) && ValidKey(k) && j.len > -224 && k.len > -224 && j.len % 256 == k.len % 256 {
      assert (j.len - k.len) % 256 == 0;
    }
  }

  /** A flow determines its target, and its key if the length is positive. */
  lemma FlowForInjective(j: Key, a: Target, k: Key, b: Target)
    requires ValidKey(j) && ValidKey(k) && FlowFor(j, a) == FlowFor(k, b)
    ensures a == b && Cookie(j) == Cookie(k)
    ensures j.len >= 1 || k.len >= 1 ==> j == k
  {
    CookiesCollideIff(j, k);
    assert MaskOf(j.len) == MaskOf(k.len);
  }

  /** `noDelete` says that the deletion of the cookie fails, `fails` that the addition does. */
  datatype Op =
    | AddRoute(k: Key, nexthops: nat, resolved: bool, host: map<nat, nat>, nexthop: nat, noDelete: bool, fails: bool)
    | DelRoute(k: Key, noDelete: bool)
    | OtherAction
    | AddHostRoute(ip: nat, group: nat, fails: bool)
    | DelHostRoute(ip: nat, noDelete: bool)

  predicate ValidOp(op: Op) {
    match op
    case AddRoute(k, _, _, _, _, _, _) => ValidKey(k)
    case DelRoute(k, _) => ValidKey(k)
    case OtherAction => true
    case AddHostRoute(ip, _, _) => ip < 0x1_0000_0000
    case DelHostRoute(ip, _) => ip < 0x1_0000_0000
  }

  /** l3_route_action refuses ECMP and resolved next hops without a host entry. */
  predicate Accepted(op: Op)
    requires op.AddRoute?
  {
    op.nexthops == 1 && (op.resolved ==> op.nexthop in op.host)
  }

  function TargetOf(op: Op): Target
    requires op.AddRoute? && Accepted(op)
  {
    if op.resolved then ToGroup(op.host[op.nexthop]) else Trap
  }

  ghost function Deleted(t: FlowSet, k: Key, noDelete: bool): FlowSet {
    if noDelete then t else Without(t, Cookie(k))
  }

  ghost function Step(t: FlowSet, op: Op): FlowSet
    requires ValidOp(op)
  {
    match op
    case AddRoute(k, _, _, _, _, noDelete, fails) =>
      if !Accepted(op) then t
      else if fails then Deleted(t, k, noDelete)
      else Deleted(t, k, noDelete) + multiset{FlowFor(k, TargetOf(op))}
    case DelRoute(k, noDelete) => Deleted(t, k, noDelete)
    case OtherAction => t
    case AddHostRoute(ip, group, fails) =>
      if fails then t else t + multiset{FlowFor(Key(ip, 32), ToGroup(group))}
    case DelHostRoute(ip, noDelete) => Deleted(t, Key(ip, 32), noDelete)
  }

  /** The routes the operations ask for. */
  function NextMap(m: map<Key, Target>, op: Op): map<Key, Target> {
    match op
    case AddRoute(k, _, _, _, _, _, fails) =>
      if !Accepted(op) then m else if fails then m - {k} else m[k := TargetOf(op)]
    case DelRoute(k, _) => m - {k}
    case OtherAction => m
    case AddHostRoute(ip, group, fails) => if fails then m else m[Key(ip, 32) := ToGroup(group)]
    case DelHostRoute(ip, _) => m - {Key(ip, 32)}
  }

  ghost predicate ValidMap(m: map<Key, Target>) { forall k :: k in m ==> ValidKey(k) }

  ghost predicate Expected(m: map<Key, Target>, f: Flow<Body>)
    requires ValidMap(m)
  {
    exists k :: k in m && f == FlowFor(k, m[k])
  }

  /** Every key has a flow of its own. */
  ghost predicate OwnFlows(m: map<Key, Target>)
    requires ValidMap(m)
  {
    forall j, k :: j in m && k in m && FlowFor(j, m[j]) == FlowFor(k, m[k]) ==> j == k
  }

  /** The table holds exactly one flow per entry of the map and nothing else. */
  ghost predicate Represents(t: FlowSet, m: map<Key, Target>) {
    ValidMap(m) && OwnFlows(m) && forall f :: t[f] == if Expected(m, f) then 1 else 0
  }

  /** No other route has the cookie of this key. */
  ghost predicate Alone(m: map<Key, Target>, k: Key) {
    forall j :: j in m && Cookie(j) == Cookie(k) ==> j == k
  }

  lemma ExpectedWithout(m: map<Key, Target>, k: Key, f: Flow<Body>)
    requires ValidMap(m) && OwnFlows(m) && Alone(m, k)
    ensures Expected(m - {k}, f) <==> Expected(m, f) && f.cookie != Cookie(k)
  {
    if Expected(m, f) && f.cookie != Cookie(k) {
      var j :| j in m && f == FlowFor(j, m[j]);
      assert j in m - {k} && f == FlowFor(j, (m - {k})[j]);
    }
    if Expected(m - {k}, f) {
      var j :| j in m - {k} && f == FlowFor(j, (m - {k})[j]);
      assert j in m && f == FlowFor(j, m[j]);
    }
  }

  /** Deleting a cookie deletes exactly its route if and only if no other route has it. */
  lemma DeleteRepresentsIff(t: FlowSet, m: map<Key, Target>, k: Key)
    requires Represents(t, m)
    ensures Represents(Without(t, Cookie(k)), m - {k}) <==> Alone(m, k)
  {
    var t' := Without(t, Cookie(k));
    WithoutAt(t, Cookie(k));
    if Alone(m, k) {
      forall f ensures t'[f] == if Expected(m - {k}, f) then 1 else 0 {
        ExpectedWithout(m, k, f);
      }
    } else {
      var j :| j in m && Cookie(j) == Cookie(k) && j != k;
      var f := FlowFor(j, m[j]);
      assert t'[f] == 0;
      assert Expected(m - {k}, f) by { assert j in m - {k} && f == FlowFor(j, (m - {k})[j]); }
    }
  }

  /** A deletion that fails is right if and only if there was no such route. */
  lemma FailedDeleteIff(t: FlowSet, m: map<Key, Target>, k: Key)
    requires Represents(t, m)
    ensures Represents(t, m - {k}) <==> k !in m
  {
    if k in m {
      var f := FlowFor(k, m[k]);
      assert t[f] == 1 by { assert Expected(m, f); }
      assert !Expected(m - {k}, f) by {
        assert forall j :: j in m - {k} ==> FlowFor(j, (m - {k})[j]) == FlowFor(j, m[j]) != f;
      }
    } else {
      assert m - {k} == m;
    }
  }

  lemma ExpectedWith(m: map<Key, Target>, k: Key, a: Target, f: Flow<Body>)
    requires ValidMap(m) && ValidKey(k) && k !in m
    ensures Expected(m[k := a], f) <==> Expected(m, f) || f == FlowFor(k, a)
  {
    var m' := m[k := a];
    if Expected(m, f) {
      var j :| j in m && f == FlowFor(j, m[j]);
      assert j in m' && f == FlowFor(j, m'[j]);
    }
    assert k in m' && FlowFor(k, a) == FlowFor(k, m'[k]);
  }

  /** Adding a flow keeps the table a map exactly when the key is absent and the flow is new. */
  lemma AddRepresentsIff(t: FlowSet, m: map<Key, Target>, k: Key, a: Target)
    requires Represents(t, m) && ValidKey(k)
    ensures Represents(t + multiset{FlowFor(k, a)}, m[k := a]) <==> k !in m && !Expected(m, FlowFor(k, a))
  {
    var g := FlowFor(k, a);
    var t', m' := t + multiset{g}, m[k := a];
    if Expected(m, g) {
      assert t'[g] == 2;
    } else if k in m {
      OldStays(t, m, k, a);
    } else {
      forall f ensures t'[f] == if Expected(m', f) then 1 else 0 {
        ExpectedWith(m, k, a, f);
      }
    }
  }

  lemma OldStays(t: FlowSet, m: map<Key, Target>, k: Key, a: Target)
    requires Represents(t, m) && ValidKey(k) && k in m && !Expected(m, FlowFor(k, a))
    ensures !Represents(t + multiset{FlowFor(k, a)}, m[k := a])
  {
    var g, f, m' := FlowFor(k, a), FlowFor(k, m[k]), m[k := a];
    assert Expected(m, f);
    assert (t + multiset{g})[f] >= 1;
    assert !Expected(m', f) by {
      forall j | j in m' ensures FlowFor(j, m'[j]) != f {
        if j != k {
          assert FlowFor(j, m'[j]) == FlowFor(j, m[j]);
        }
      }
    }
  }

  /** Exactly when an operation keeps the table a map: a deletion that works meets no other
      route with its cookie, one that fails was not needed, and an added flow is new. */
  ghost predicate StepOk(m: map<Key, Target>, op: Op)
    requires ValidMap(m) && ValidOp(op)
  {
    match op
    case AddRoute(k, _, _, _, _, noDelete, fails) =>
      Accepted(op) ==> DeleteOk(m, k, noDelete) && (noDelete && !fails ==> !Expected(m, FlowFor(k, TargetOf(op))))
    case DelRoute(k, noDelete) => DeleteOk(m, k, noDelete)
    case OtherAction => true
    case AddHostRoute(ip, _, fails) => !fails ==> Key(ip, 32) !in m
    case DelHostRoute(ip, noDelete) => DeleteOk(m, Key(ip, 32), noDelete)
  }

  ghost predicate DeleteOk(m: map<Key, Target>, k: Key, noDelete: bool) {
    if noDelete then k !in m else Alone(m, k)
  }

  lemma DeletedIff(t: FlowSet, m: map<Key, Target>, k: Key, noDelete: bool)
    requires Represents(t, m)
    ensures Represents(Deleted(t, k, noDelete), m - {k}) <==> DeleteOk(m, k, noDelete)
  {
    if noDelete {
      FailedDeleteIff(t, m, k);
    } else {
      DeleteRepresentsIff(t, m, k);
    }
  }

  lemma SameUpdate(m: map<Key, Target>, k: Key, a: Target)
    ensures (m - {k})[k := a] == m[k := a]
  {
  }

  lemma ReplaceAlone(t: FlowSet, m: map<Key, Target>, k: Key, a: Target)
    requires Represents(t, m) && ValidKey(k) && Alone(m, k)
    ensures Represents(Without(t, Cookie(k)) + multiset{FlowFor(k, a)}, m[k := a])
  {
    var t1, m1 := Without(t, Cookie(k)), m - {k};
    assert Represents(t1, m1) by { DeleteRepresentsIff(t, m, k); }
    assert !Expected(m1, FlowFor(k, a)) by { ExpectedWithout(m, k, FlowFor(k, a)); }
    AddRepresentsIff(t1, m1, k, a);
    SameUpdate(m, k, a);
  }

  /** Another route with the same cookie loses its flow. */
  lemma ReplaceLoses(t: FlowSet, m: map<Key, Target>, j: Key, k: Key, a: Target)
    requires ValidMap(m) && ValidKey(k) && j in m && j != k && Cookie(j) == Cookie(k)
    ensures !Represents(Without(t, Cookie(k)) + multiset{FlowFor(k, a)}, m[k := a])
  {
    var t', m', f := Without(t, Cookie(k)) + multiset{FlowFor(k, a)}, m[k := a], FlowFor(j, m[j]);
    assert j in m' && k in m' && f == FlowFor(j, m'[j]);
    if f == FlowFor(k, a) {
      assert !(ValidMap(m') && OwnFlows(m'));
    } else {
      assert t'[f] == 0 by { WithoutAt(t, Cookie(k)); }
      assert ValidMap(m') ==> Expected(m', f);
    }
  }

  /** Replacing a route, when the deletion works. */
  lemma ReplaceIff(t: FlowSet, m: map<Key, Target>, k: Key, a: Target)
    requires Represents(t, m) && ValidKey(k)
    ensures Represents(Without(t, Cookie(k)) + multiset{FlowFor(k, a)}, m[k := a]) <==> Alone(m, k)
  {
    if Alone(m, k) {
      ReplaceAlone(t, m, k, a);
    } else {
      var j :| j in m && Cookie(j) == Cookie(k) && j != k;
      ReplaceLoses(t, m, j, k, a);
    }
  }

  lemma HostFlowIsNew(m: map<Key, Target>, ip: nat, a: Target)
    requires ValidMap(m) && ip < 0x1_0000_0000 && Key(ip, 32) !in m
    ensures !Expected(m, FlowFor(Key(ip, 32), a))
  {
    if Expected(m, FlowFor(Key(ip, 32), a)) {
      var j :| j in m && FlowFor(Key(ip, 32), a) == FlowFor(j, m[j]);
      FlowForInjective(Key(ip, 32), a, j, m[j]);
    }
  }

  /** A step keeps the table a last-writer-wins map if and only if it is OK. */
  lemma StepRepresentsIff(t: FlowSet, m: map<Key, Target>, op: Op)
    requires Represents(t, m) && ValidOp(op)
    ensures Represents(Step(t, op), NextMap(m, op)) <==> StepOk(m, op)
  {
    match op
    case AddRoute(k, _, _, _, _, noDelete, fails) =>
      if Accepted(op) {
        if fails {
          DeletedIff(t, m, k, noDelete);
        } else if noDelete {
          AddRepresentsIff(t, m, k, TargetOf(op));
        } else {
          ReplaceIff(t, m, k, TargetOf(op));
        }
      }
    case DelRoute(k, noDelete) => DeletedIff(t, m, k, noDelete);
    case OtherAction =>
    case AddHostRoute(ip, group, fails) =>
      if !fails {
        AddRepresentsIff(t, m, Key(ip, 32), ToGroup(group));
        if Key(ip, 32) !in m {
          HostFlowIsNew(m, ip, ToGroup(group));
        }
      }
    case DelHostRoute(ip, noDelete) => DeletedIff(t, m, Key(ip, 32), noDelete);
  }

  // ----- runs -----

  ghost predicate IsRun(ts: seq<FlowSet>, ops: seq<Op>) {
    && |ts| == |ops| + 1 && ts[0] == multiset{}
    && forall i :: 0 <= i < |ops| ==> ValidOp(ops[i]) && ts[i + 1] == Step(ts[i], ops[i])
  }

  ghost function MapAfter(ops: seq<Op>, n: nat): map<Key, Target>
    requires n <= |ops|
  {
    if n == 0 then map[] else NextMap(MapAfter(ops, n - 1), ops[n - 1])
  }

  lemma {:induction false} MapValid(ops: seq<Op>, n: nat)
    requires n <= |ops| && forall i :: 0 <= i < |ops| ==> ValidOp(ops[i])
    ensures ValidMap(MapAfter(ops, n))
  {
    if n > 0 {
      MapValid(ops, n - 1);
    }
  }

  /** The operation is OK given the routes that the operations before it left. */
  ghost predicate OkAt(ops: seq<Op>, i: nat)
    requires i < |ops|
  {
    ValidOp(ops[i]) && ValidMap(MapAfter(ops, i)) && StepOk(MapAfter(ops, i), ops[i])
  }

  lemma EmptyRepresents()
    ensures Represents(multiset{}, map[])
  {
  }

  lemma RunStep(ts: seq<FlowSet>, ops: seq<Op>, i: nat)
    requires IsRun(ts, ops) && i < |ops| && Represents(ts[i], MapAfter(ops, i))
    ensures Represents(ts[i + 1], MapAfter(ops, i + 1)) <==> OkAt(ops, i)
  {
    StepRepresentsIff(ts[i], MapAfter(ops, i), ops[i]);
    assert ts[i + 1] == Step(ts[i], ops[i]);
  }

  lemma {:induction false} OkRunRepresents(ts: seq<FlowSet>, ops: seq<Op>, n: nat)
    requires IsRun(ts, ops) && n <= |ops|
    requires forall i :: 0 <= i < n ==> OkAt(ops, i)
    ensures Represents(ts[n], MapAfter(ops, n))
  {
    if n == 0 {
      EmptyRepresents();
    } else {
      var i := n - 1;
      OkRunRepresents(ts, ops, i);
      assert OkAt(ops, i);
      RunStep(ts, ops, i);
    }
  }

  /** In every run the table has exactly one flow per route, that of the last writer, in all
      states exactly when every operation is OK. */
  lemma RunRepresentsIff(ts: seq<FlowSet>, ops: seq<Op>)
    requires IsRun(ts, ops)
    ensures (forall i :: 0 <= i <= |ops| ==> Represents(ts[i], MapAfter(ops, i)))
      <==> forall i :: 0 <= i < |ops| ==> OkAt(ops, i)
  {
    if forall i :: 0 <= i < |ops| ==> OkAt(ops, i) {
      forall i | 0 <= i <= |ops| ensures Represents(ts[i], MapAfter(ops, i)) {
        OkRunRepresents(ts, ops, i);
      }
    }
    if forall i :: 0 <= i <= |ops| ==> Represents(ts[i], MapAfter(ops, i)) {
      forall i | 0 <= i < |ops| ensures OkAt(ops, i) {
        RunStep(ts, ops, i);
      }
    }
  }

  /** A prefix length above -224, and a deletion that works. */
  predicate Ordinary(op: Op) {
    match op
    case AddRoute(k, _, _, _, _, noDelete, _) => k.len > -224 && !noDelete
    case DelRoute(k, noDelete) => k.len > -224 && !noDelete
    case OtherAction => true
    case AddHostRoute(_, _, _) => true
    case DelHostRoute(_, noDelete) => !noDelete
  }

  lemma {:induction false} OrdinaryKeys(ops: seq<Op>, n: nat)
    requires n <= |ops| && forall i :: 0 <= i < |ops| ==> Ordinary(ops[i])
    ensures forall k :: k in MapAfter(ops, n) ==> k.len > -224
  {
    if n > 0 {
      OrdinaryKeys(ops, n - 1);
    }
  }

  lemma OrdinaryAlone(m: map<Key, Target>, k: Key)
    requires ValidMap(m) && ValidKey(k) && k.len > -224 && forall j :: j in m ==> j.len > -224
    ensures Alone(m, k)
  {
    forall j | j in m && Cookie(j) == Cookie(k) ensures j == k {
      CookiesCollideIff(j, k);
    }
  }

  lemma OrdinaryOkIff(ops: seq<Op>, i: nat)
    requires i < |ops| && forall j :: 0 <= j < |ops| ==> ValidOp(ops[j]) && Ordinary(ops[j])
    ensures OkAt(ops, i) <==> (ops[i].AddHostRoute? && !ops[i].fails ==> Key(ops[i].ip, 32) !in MapAfter(ops, i))
  {
    MapValid(ops, i);
    OrdinaryKeys(ops, i);
    match ops[i]
    case AddRoute(k, _, _, _, _, _, _) => OrdinaryAlone(MapAfter(ops, i), k);
    case DelRoute(k, _) => OrdinaryAlone(MapAfter(ops, i), k);
    case OtherAction =>
    case AddHostRoute(_, _, _) =>
    case DelHostRoute(ip, _) => OrdinaryAlone(MapAfter(ops, i), Key(ip, 32));
  }

  /** With ordinary lengths and working deletions, the table is a last-writer-wins map in all
      states of a run exactly when no host route is added over a /32 route; so always when
      only routes are added and deleted. */
  lemma OrdinaryRunRepresentsIff(ts: seq<FlowSet>, ops: seq<Op>)
    requires IsRun(ts, ops) && forall i :: 0 <= i < |ops| ==> Ordinary(ops[i])
    ensures (forall i :: 0 <= i <= |ops| ==> Represents(ts[i], MapAfter(ops, i))) <==>
      forall i :: 0 <= i < |ops| && ops[i].AddHostRoute? && !ops[i].fails ==> Key(ops[i].ip, 32) !in MapAfter(ops, i)
  {
    RunRepresentsIff(ts, ops);
    forall i | 0 <= i < |ops|
      ensures OkAt(ops, i) <==> (ops[i].AddHostRoute? && !ops[i].fails ==> Key(ops[i].ip, 32) !in MapAfter(ops, i))
    {
      OrdinaryOkIff(ops, i);
    }
  }

  /** Deleting a route of length -224 that was never added removes the /32 route. */
  lemma CollidingLengthsExample(ts: seq<FlowSet>)
    requires IsRun(ts, [AddRoute(Key(1, 32), 1, false, map[], 0, false, false), DelRoute(Key(1, -224), false)])
    ensures ts[2] == multiset{}
    ensures Key(1, 32) in MapAfter([AddRoute(Key(1, 32), 1, false, map[], 0, false, false), DelRoute(Key(1, -224), false)], 2)
  {
    var ops := [AddRoute(Key(1, 32), 1, false, map[], 0, false, false), DelRoute(Key(1, -224), false)];
    assert ts[0 + 1] == Step(ts[0], ops[0]);
    assert ts[1 + 1] == Step(ts[1], ops[1]);
    WithoutAt(ts[0], Cookie(Key(1, 32)));
    WithoutAt(ts[1], Cookie(Key(1, -224)));
    assert forall f :: ts[2][f] == 0;
    assert MapAfter(ops, 1) == map[Key(1, 32) := Trap];
  }

  // ----- routes told by the operations -----

  /** The route has exactly one next hop, which is unresolved or a known host. */
  predicate OneKnownHop(op: Op)
    requires op.AddRoute?
  {
    op.nexthops == 1 && (!op.resolved || op.nexthop in op.host)
  }

  /** The operation installs this target for the key: a resolved route that of its next hop, an
      unresolved one the CPU, a host route its group. */
  predicate Writes(op: Op, k: Key, a: Target) {
    match op
    case AddRoute(j, _, resolved, host, nexthop, _, fails) =>
      j == k && OneKnownHop(op) && !fails && a == if resolved then ToGroup(host[nexthop]) else Trap
    case DelRoute(_, _) => false
    case OtherAction => false
    case AddHostRoute(ip, group, fails) => Key(ip, 32) == k && !fails && a == ToGroup(group)
    case DelHostRoute(_, _) => false
  }

  /** The operation removes whatever the key had; also a route addition that fails. */
  predicate Erases(op: Op, k: Key) {
    match op
    case AddRoute(j, _, _, _, _, _, _) => j == k && OneKnownHop(op)
    case DelRoute(j, _) => j == k
    case OtherAction => false
    case AddHostRoute(ip, _, fails) => Key(ip, 32) == k && !fails
    case DelHostRoute(ip, _) => Key(ip, 32) == k
  }

  /** Among the first `n` operations the key was written with this target, and not erased
      since. */
  ghost predicate LastWrite(ops: seq<Op>, n: nat, k: Key, a: Target)
    requires n <= |ops|
  {
    exists i :: 0 <= i < n && Writes(ops[i], k, a) && forall j :: i < j < n ==> !Erases(ops[j], k)
  }

  lemma LastWriteNext(ops: seq<Op>, n: nat, k: Key, a: Target)
    requires n < |ops|
    ensures LastWrite(ops, n + 1, k, a) <==>
      Writes(ops[n], k, a) || (LastWrite(ops, n, k, a) && !Erases(ops[n], k))
  {
  }

  /** The map holds, for each key, the last write not erased since. */
  lemma {:induction false} MapIsLastWriter(ops: seq<Op>, n: nat, k: Key, a: Target)
    requires n <= |ops|
    ensures k in MapAfter(ops, n) && MapAfter(ops, n)[k] == a <==> LastWrite(ops, n, k, a)
  {
    if n > 0 {
      MapIsLastWriter(ops, n - 1, k, a);
      LastWriteNext(ops, n - 1, k, a);
    }
  }

  /** The flow, field by field, of a route to this target. */
  predicate Describes(f: Flow<Body>, k: Key, a: Target) {
    && f.cookie == k.ip * 256 + k.len % 256
    && f.body.dstIp == k.ip
    && (0 < k.len <= 32 ==> f.body.dstMask == Some(0xFFFF_FFFF >> (32 - k.len)))
    && (k.len <= 0 ==> f.body.dstMask == None)
    && (a.Trap? ==> f.body.toController && f.body.groupId == 0xFFFF_FFFF)
    && (a.ToGroup? ==> !f.body.toController && f.body.groupId == a.group)
  }

  lemma DescribesIff(f: Flow<Body>, k: Key, a: Target)
    requires ValidKey(k)
    ensures Describes(f, k, a) <==> f == FlowFor(k, a)
  {
  }

  /** In all states of a run of OK operations the table holds, once each, exactly the flows of the
      last writes not erased since: to the group of the next hop or of the host, or to the CPU. */
  lemma RunFlows(ts: seq<FlowSet>, ops: seq<Op>, n: nat, f: Flow<Body>)
    requires IsRun(ts, ops) && n <= |ops| && forall i :: 0 <= i < n ==> OkAt(ops, i)
    ensures f in ts[n] <==> exists k, a :: LastWrite(ops, n, k, a) && Describes(f, k, a)
    ensures ts[n][f] <= 1
  {
    var m := MapAfter(ops, n);
    OkRunRepresents(ts, ops, n);
    if Expected(m, f) {
      var k :| k in m && f == FlowFor(k, m[k]);
      MapIsLastWriter(ops, n, k, m[k]);
      DescribesIff(f, k, m[k]);
      assert LastWrite(ops, n, k, m[k]) && Describes(f, k, m[k]);
    }
    if k, a :| LastWrite(ops, n, k, a) && Describes(f, k, a) {
      MapIsLastWriter(ops, n, k, a);
      DescribesIff(f, k, a);
      assert k in m && f == FlowFor(k, m[k]);
    }
  }

  /** One addition from any table, entry by entry: a refused one changes nothing; an accepted one
      clears the cookie, unless that fails, and adds, unless that fails, one flow to the group
      of the next hop, or to the CPU if that is unresolved. */
  lemma AddRouteLaw(t: FlowSet, op: Op, f: Flow<Body>)
    requires op.AddRoute? && ValidOp(op)
    ensures !OneKnownHop(op) ==> Step(t, op) == t
    ensures OneKnownHop(op) ==>
      var a := if op.resolved then ToGroup(op.host[op.nexthop]) else Trap;
      Step(t, op)[f] == (if f.cookie == op.k.ip * 256 + op.k.len % 256 && !op.noDelete then 0 else t[f])
                      + (if !op.fails && Describes(f, op.k, a) then 1 else 0)
  {
    WithoutAt(t, Cookie(op.k));
    if OneKnownHop(op) {
      DescribesIff(f, op.k, if op.resolved then ToGroup(op.host[op.nexthop]) else Trap);
    }
  }

  /** One deletion from any table, entry by entry. */
  lemma DelRouteLaw(t: FlowSet, k: Key, noDelete: bool, f: Flow<Body>)
    requires ValidKey(k)
    ensures Step(t, DelRoute(k, noDelete))[f] == if f.cookie == k.ip * 256 + k.len % 256 && !noDelete then 0 else t[f]
  {
    WithoutAt(t, Cookie(k));
  }

  // ----- the object -----

  class RouteTable {
    const flows: Table<Body>

    constructor ()
      ensures flows.entries == multiset{} && fresh(flows)
    {
      flows := new Table<Body>();
    }

    /** l3_route_action for the actions that reach the table. */
    method RouteAction(op: Op) returns (err: bool)
      requires ValidOp(op) && (op.AddRoute? || op.DelRoute? || op.OtherAction?)
      modifies flows
      ensures flows.entries == Step(old(flows.entries), op)
      ensures err <==> op.OtherAction? || (op.AddRoute? && (!OneKnownHop(op) || op.fails))
    {
      match op
      case AddRoute(k, nexthops, resolved, host, nexthop, noDelete, fails) =>
        if nexthops != 1 {
          return true;
        }
        if resolved {
          if nexthop !in host {
            return true;
          }
          var e := flows.CookieDelete(Cookie(k), noDelete);
          err := flows.Add(FlowFor(k, ToGroup(host[nexthop])), fails);
        } else {
          var e := flows.CookieDelete(Cookie(k), noDelete);
          err := flows.Add(FlowFor(k, Trap), fails);
        }
      case DelRoute(k, noDelete) =>
        var e := flows.CookieDelete(Cookie(k), noDelete);
        err := false;
      case OtherAction =>
        err := true;
    }
  }
}
