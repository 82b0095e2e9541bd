/** The TAP control protocol: a master map from TAP descriptors to hardware ports, and two
    listener threads that each keep a replica, fed by a FIFO command pipe. One replica is
    keyed by descriptor, the other by port. */
module Tap {
  import opened Options

  /** A node of a chained map; insertion goes to the front, lookup takes the first. */
  datatype Entry = Entry(key: nat, val: nat)

  type Chain = seq<Entry>

  datatype Cmd = AddIf(fd: nat, port: nat) | DelIf(fd: nat, port: nat)

  function Get(s: Chain, k: nat): Option<nat> {
    if s == [] then None else if s[0].key == k then Some(s[0].val) else Get(s[1..], k)
  }

  /** The chain without its first node for the key, if there is one. */
  function Drop(s: Chain, k: nat): Chain {
    if s == [] then [] else if s[0].key == k then s[1..] else [s[0]] + Drop(s[1..], k)
  }

  function Flip(s: Chain): Chain {
    if s == [] then [] else [Entry(s[0].val, s[0].key)] + Flip(s[1..])
  }

  /** One command on the replica keyed by descriptor. */
  function OnTap(m: Chain, c: Cmd): Chain {
    if c.AddIf? then [Entry(c.fd, c.port)] + m else Drop(m, c.fd)
  }

  /** One command on the replica keyed by port. */
  function OnAsic(m: Chain, c: Cmd): Chain {
    if c.AddIf? then [Entry(c.port, c.fd)] + m else Drop(m, c.port)
  }

  function DrainTap(m: Chain, pipe: seq<Cmd>): Chain
    decreases |pipe|
  {
    if pipe == [] then m else DrainTap(OnTap(m, pipe[0]), pipe[1..])
  }

  function DrainAsic(m: Chain, pipe: seq<Cmd>): Chain
    decreases |pipe|
  {
    if pipe == [] then m else DrainAsic(OnAsic(m, pipe[0]), pipe[1..])
  }

  // ----- the protocol -----

  /** `locked` records that a call returned on an error path without releasing the device
      mutex; `watched` are the descriptors the TAP listener selects on. */
  datatype State = State(
    master: Chain, locked: bool,
    tapPipe: seq<Cmd>, tapMap: Chain, watched: set<nat>,
    asicPipe: seq<Cmd>, asicMap: Chain)

  const INIT := State([], false, [], [], {}, [], [])

  datatype Op = Create(fd: nat, port: nat) | CreateFails | Delete(fd: nat) | TapStep | AsicStep

  function Send(s: State, c: Cmd): State {
    s.(tapPipe := s.tapPipe + [c], asicPipe := s.asicPipe + [c])
  }

  function Watch(watched: set<nat>, m: Chain, c: Cmd): set<nat> {
    if c.AddIf? then watched + {c.fd} else if Get(m, c.fd).None? then watched else watched - {c.fd}
  }

  function DrainWatched(watched: set<nat>, m: Chain, pipe: seq<Cmd>): set<nat>
    decreases |pipe|
  {
    if pipe == [] then watched else DrainWatched(Watch(watched, m, pipe[0]), OnTap(m, pipe[0]), pipe[1..])
  }

  /** One step; a create or delete that finds the mutex held never gets past it. */
  function Step(s: State, op: Op): State {
    match op
    case Create(fd, port) =>
      if s.locked then s
      else Send(s.(master := [Entry(fd, port)] + s.master), AddIf(fd, port))
    case CreateFails => s.(locked := true)
    case Delete(fd) =>
      if s.locked then s
      else (match Get(s.master, fd)
            case None => s.(locked := true)
            case Some(port) => Send(s.(master := Drop(s.master, fd)), DelIf(fd, port)))
    case TapStep =>
      if s.tapPipe == [] then s
      else s.(tapPipe := s.tapPipe[1..],
              tapMap := OnTap(s.tapMap, s.tapPipe[0]),
              watched := Watch(s.watched, s.tapMap, s.tapPipe[0]))
    case AsicStep =>
      if s.asicPipe == [] then s
      else s.(asicPipe := s.asicPipe[1..], asicMap := OnAsic(s.asicMap, s.asicPipe[0]))
  }

  ghost predicate HasKey(s: Chain, k: nat) { exists i :: 0 <= i < |s| && s[i].key == k }

  ghost predicate HasVal(s: Chain, v: nat) { exists i :: 0 <= i < |s| && s[i].val == v }

  /** No key and no value occurs twice. */
  ghost predicate OneToOne(s: Chain) {
    forall i, j :: 0 <= i < j < |s| ==> s[i].key != s[j].key && s[i].val != s[j].val
  }

  function Keys(s: Chain): set<nat> { set e | e in s :: e.key }

  /** Every state the replica passes through while draining is one-to-one. */
  ghost predicate TapOneToOne(m: Chain, pipe: seq<Cmd>)
    decreases |pipe|
  {
    OneToOne(m) && (pipe == [] || TapOneToOne(OnTap(m, pipe[0]), pipe[1..]))
  }

  ghost predicate AsicOneToOne(m: Chain, pipe: seq<Cmd>)
    decreases |pipe|
  {
    OneToOne(m) && (pipe == [] || AsicOneToOne(OnAsic(m, pipe[0]), pipe[1..]))
  }

  /** Each replica with its pending commands applied is the master map or its inverse, no
      map ever holds a key twice, and exactly the replica's descriptors are watched. */
  ghost predicate Inv(s: State) {
    && OneToOne(s.master)
    && DrainTap(s.tapMap, s.tapPipe) == s.master && TapOneToOne(s.tapMap, s.tapPipe)
    && DrainAsic(s.asicMap, s.asicPipe) == Flip(s.master) && AsicOneToOne(s.asicMap, s.asicPipe)
    && s.watched == Keys(s.tapMap)
  }

  // ----- chains -----

  lemma {:induction false} FlipAt(s: Chain, i: nat)
    requires i < |s|
    ensures |Flip(s)| == |s| && Flip(s)[i] == Entry(s[i].val, s[i].key)
  {
    if |s| > 1 {
      FlipAt(s[1..], if i > 0 then i - 1 else 0);
    }
  }

  lemma FlipOneToOne(s: Chain)
    requires OneToOne(s)
    ensures OneToOne(Flip(s))
  {
    if s == [] {
    } else {
      FlipAt(s, 0);
      forall i | 0 <= i < |s| ensures Flip(s)[i] == Entry(s[i].val, s[i].key) { FlipAt(s, i); }
    }
  }

  lemma {:induction false} GetIs(s: Chain, k: nat)
    ensures Get(s, k).None? <==> !HasKey(s, k)
    ensures Get(s, k).Some? ==> Entry(k, Get(s, k).value) in s
  {
    if s != [] && s[0].key != k {
      GetIs(s[1..], k);
      if HasKey(s, k) {
        var i :| 0 <= i < |s| && s[i].key == k;
        assert s[1..][i - 1].key == k;
      }
    }
  }

  lemma {:induction false} DropIs(s: Chain, k: nat, e: Entry)
    requires OneToOne(s)
    ensures e in Drop(s, k) <==> e in s && e.key != k
    ensures OneToOne(Drop(s, k))
    ensures !HasKey(s, k) ==> Drop(s, k) == s
  {
    if s != [] {
      assert forall i :: 0 < i < |s| ==> s[i] == s[1..][i - 1];
      if s[0].key != k {
        DropIs(s[1..], k, e);
        forall f | f in Drop(s[1..], k) ensures f.key != s[0].key && f.val != s[0].val {
          DropIs(s[1..], k, f);
          var i :| 0 <= i < |s[1..]| && s[1..][i] == f;
          assert s[i + 1] == f;
        }
        if !HasKey(s, k) {
          assert !HasKey(s[1..], k);
        }
      }
    }
  }

  /** Dropping a port from the inverse is dropping its descriptor from the map. */
  lemma {:induction false} FlipDrop(s: Chain, fd: nat)
    requires OneToOne(s) && Get(s, fd).Some?
    ensures Drop(Flip(s), Get(s, fd).value) == Flip(Drop(s, fd))
  {
    if s[0].key != fd {
      FlipDrop(s[1..], fd);
      GetIs(s[1..], fd);
      var port := Get(s, fd).value;
      var i :| 0 <= i < |s[1..]| && s[1..][i] == Entry(fd, port);
      assert s[i + 1].val == port;
      assert Drop(s, fd) == [s[0]] + Drop(s[1..], fd);
      assert Flip(s)[1..] == Flip(s[1..]);
      assert ([s[0]] + Drop(s[1..], fd))[1..] == Drop(s[1..], fd);
    } else {
      assert Flip(s)[1..] == Flip(s[1..]);
    }
  }

  // ----- pipes -----

  lemma {:induction false} TapSent(m: Chain, pipe: seq<Cmd>, c: Cmd)
    requires TapOneToOne(m, pipe) && OneToOne(OnTap(DrainTap(m, pipe), c))
    ensures DrainTap(m, pipe + [c]) == OnTap(DrainTap(m, pipe), c)
    ensures TapOneToOne(m, pipe + [c])
    decreases |pipe|
  {
    if pipe == [] {
      assert TapOneToOne(OnTap(m, c), []);
    } else {
      TapSent(OnTap(m, pipe[0]), pipe[1..], c);
      assert (pipe + [c])[1..] == pipe[1..] + [c];
    }
  }

  lemma {:induction false} AsicSent(m: Chain, pipe: seq<Cmd>, c: Cmd)
    requires AsicOneToOne(m, pipe) && OneToOne(OnAsic(DrainAsic(m, pipe), c))
    ensures DrainAsic(m, pipe + [c]) == OnAsic(DrainAsic(m, pipe), c)
    ensures AsicOneToOne(m, pipe + [c])
    decreases |pipe|
  {
    if pipe == [] {
      assert AsicOneToOne(OnAsic(m, c), []);
    } else {
      AsicSent(OnAsic(m, pipe[0]), pipe[1..], c);
      assert (pipe + [c])[1..] == pipe[1..] + [c];
    }
  }

  // ----- steps -----

  /** The descriptor and the port are not in use. */
  ghost predicate Fresh(s: State, fd: nat, port: nat) {
    !HasKey(s.master, fd) && !HasVal(s.master, port)
  }

  ghost predicate StepOk(s: State, op: Op) {
    op.Create? && !s.locked ==> Fresh(s, op.fd, op.port)
  }

  lemma SendKeepsInv(s: State, c: Cmd, master: Chain)
    requires Inv(s) && OneToOne(master)
    requires OnTap(s.master, c) == master && OnAsic(Flip(s.master), c) == Flip(master)
    ensures Inv(Send(s.(master := master), c))
  {
    FlipOneToOne(master);
    TapSent(s.tapMap, s.tapPipe, c);
    AsicSent(s.asicMap, s.asicPipe, c);
  }

  lemma TapStepKeepsInv(s: State)
    requires Inv(s) && s.tapPipe != []
    ensures Inv(Step(s, TapStep))
  {
    var m, c := s.tapMap, s.tapPipe[0];
    if c.DelIf? {
      GetIs(m, c.fd);
      forall k ensures k in Keys(Drop(m, c.fd)) <==> k in Keys(m) && k != c.fd {
        if k in Keys(m) && k != c.fd {
          var e :| e in m && e.key == k;
          DropIs(m, c.fd, e);
        }
        if k in Keys(Drop(m, c.fd)) {
          var e :| e in Drop(m, c.fd) && e.key == k;
          DropIs(m, c.fd, e);
        }
      }
      if !HasKey(m, c.fd) {
        DropIs(m, c.fd, Entry(0, 0));
      }
    }
    assert OnTap(m, c) == Step(s, TapStep).tapMap;
    assert Keys(OnTap(m, c)) == Watch(s.watched, m, c);
  }

  /** A step keeps the replication invariant exactly when a created interface is fresh. */
  lemma StepKeepsInvIff(s: State, op: Op)
    requires Inv(s)
    ensures Inv(Step(s, op)) <==> StepOk(s, op)
  {
    match op
    case Create(fd, port) =>
      if !s.locked {
        var master := [Entry(fd, port)] + s.master;
        if Fresh(s, fd, port) {
          assert master[1..] == s.master;
          SendKeepsInv(s, AddIf(fd, port), master);
        } else {
          var i :| 0 <= i < |s.master| && (s.master[i].key == fd || s.master[i].val == port);
          assert master[i + 1] == s.master[i];
        }
      }
    case CreateFails =>
    case Delete(fd) =>
      if !s.locked && Get(s.master, fd).Some? {
        FlipDrop(s.master, fd);
        DropIs(s.master, fd, Entry(0, 0));
        SendKeepsInv(s, DelIf(fd, Get(s.master, fd).value), Drop(s.master, fd));
      }
    case TapStep =>
      if s.tapPipe != [] {
        TapStepKeepsInv(s);
      }
    case AsicStep =>
  }

  ghost predicate IsRun(states: seq<State>, ops: seq<Op>) {
    && |states| == |ops| + 1 && states[0] == INIT
    && forall i :: 0 <= i < |ops| ==> states[i + 1] == Step(states[i], ops[i])
  }

  lemma InitInv()
    ensures Inv(INIT)
  {
  }

  lemma RunStep(states: seq<State>, ops: seq<Op>, i: nat)
    requires IsRun(states, ops) && i < |ops| && Inv(states[i])
    ensures Inv(states[i + 1]) <==> StepOk(states[i], ops[i])
  {
    StepKeepsInvIff(states[i], ops[i]);
    assert states[i + 1] == Step(states[i], ops[i]);
  }

  lemma {:induction false} OkRunKeepsInv(states: seq<State>, ops: seq<Op>, n: nat)
    requires IsRun(states, ops) && n <= |ops|
    requires forall i :: 0 <= i < n ==> StepOk(states[i], ops[i])
    ensures Inv(states[n])
  {
    if n == 0 {
      InitInv();
    } else {
      OkRunKeepsInv(states, ops, n - 1);
      RunStep(states, ops, n - 1);
    }
  }

  /** Replication over every interleaving of creations, deletions and listener steps: all
      states keep the invariant exactly when every created interface is fresh. */
  lemma RunKeepsInvIff(states: seq<State>, ops: seq<Op>)
    requires IsRun(states, ops)
    ensures (forall i :: 0 <= i <= |ops| ==> Inv(states[i])) <==> forall i :: 0 <= i < |ops| ==> StepOk(states[i], ops[i])
  {
    if forall i :: 0 <= i < |ops| ==> StepOk(states[i], ops[i]) {
      forall i | 0 <= i <= |ops| ensures Inv(states[i]) {
        OkRunKeepsInv(states, ops, i);
      }
    }
    if forall i :: 0 <= i <= |ops| ==> Inv(states[i]) {
      forall i | 0 <= i < |ops| ensures StepOk(states[i], ops[i]) {
        RunStep(states, ops, i);
      }
    }
  }

  /** Once both pipes are empty the listeners' maps are inverse to each other. */
  lemma DrainedMapsAreInverse(s: State, fd: nat, port: nat)
    requires Inv(s) && s.tapPipe == [] && s.asicPipe == []
    ensures Get(s.tapMap, fd) == Some(port) <==> Get(s.asicMap, port) == Some(fd)
    ensures Get(s.tapMap, fd) == Get(s.master, fd)
  {
    assert s.asicMap == Flip(s.tapMap);
    FlipOneToOne(s.tapMap);
    FoundIff(s.tapMap, fd, port);
    FoundIff(s.asicMap, port, fd);
    FlipMember(s.tapMap, Entry(fd, port));
  }

  lemma FoundIff(s: Chain, k: nat, v: nat)
    requires OneToOne(s)
    ensures Get(s, k) == Some(v) <==> Entry(k, v) in s
  {
  }

  lemma FlipMember(s: Chain, e: Entry)
    ensures e in s <==> Entry(e.val, e.key) in Flip(s)
  {
  }

  /** After a failed call no interface is ever created or deleted again. */
  lemma {:induction false} FailureFreezesMaster(states: seq<State>, ops: seq<Op>, i: nat, n: nat)
    requires IsRun(states, ops) && i <= n <= |ops| && states[i].locked
    ensures states[n].locked && states[n].master == states[i].master
  {
    if i < n {
      FailureFreezesMaster(states, ops, i, n - 1);
      assert states[n - 1 + 1] == Step(states[n - 1], ops[n - 1]);
    }
  }

  /** Two interfaces on one port: deleting the older removes the younger from the replica
      keyed by port. */
  lemma SharedPortExample(states: seq<State>)
    requires IsRun(states, [Create(3, 7), Create(4, 7), Delete(3), AsicStep, AsicStep, AsicStep])
    ensures states[6].master == [Entry(4, 7)] && states[6].asicPipe == [] && states[6].asicMap == [Entry(7, 3)]
  {
    var ops := [Create(3, 7), Create(4, 7), Delete(3), AsicStep, AsicStep, AsicStep];
    assert states[0 + 1] == Step(states[0], ops[0]);
    assert states[1 + 1] == Step(states[1], ops[1]);
    assert states[2].master == [Entry(4, 7), Entry(3, 7)];
    assert states[2].master[1..] == [Entry(3, 7)];
    assert Get(states[2].master, 3) == Some(7);
    assert Drop(states[2].master, 3) == [Entry(4, 7)] + Drop([Entry(3, 7)], 3) == [Entry(4, 7)];
    assert states[2].asicPipe == [AddIf(3, 7), AddIf(4, 7)];
    assert states[2 + 1] == Step(states[2], ops[2]);
    assert states[3].asicPipe == [AddIf(3, 7), AddIf(4, 7), DelIf(3, 7)];
    assert states[3 + 1] == Step(states[3], ops[3]);
    assert states[4 + 1] == Step(states[4], ops[4]);
    assert states[5].asicMap == [Entry(7, 4), Entry(7, 3)];
    assert states[5 + 1] == Step(states[5], ops[5]);
  }

  // ----- the objects -----

  class TapInfo {
    var master: Chain
    var locked: bool
    var tapPipe: seq<Cmd>
    var tapMap: Chain
    var watched: set<nat>
    var asicPipe: seq<Cmd>
    var asicMap: Chain

    ghost function View(): State
      reads this
    {
      State(master, locked, tapPipe, tapMap, watched, asicPipe, asicMap)
    }

    constructor ()
      ensures View() == INIT
    {
      master, locked := [], false;
      tapPipe, tapMap, watched := [], [], {};
      asicPipe, asicMap := [], [];
    }

    /** ops_fpa_tap_if_create; `fails` stands for any of its error exits. */
    method IfCreate(fd: nat, port: nat, fails: bool) returns (ok: bool)
      requires !locked
      modifies this
      ensures ok == !fails
      ensures View() == Step(old(View()), if fails then CreateFails else Create(fd, port))
    {
      locked := true;
      if fails {
        return false;
      }
      master := [Entry(fd, port)] + master;
      tapPipe := tapPipe + [AddIf(fd, port)];
      asicPipe := asicPipe + [AddIf(fd, port)];
      locked := false;
      return true;
    }

    /** get_if_entry. */
    static method Find(s: Chain, key: nat) returns (i: nat)
      ensures i <= |s|
      ensures i < |s| ==> s[i].key == key && Get(s, key) == Some(s[i].val)
      ensures i < |s| ==> Drop(s, key) == s[..i] + s[i + 1..]
      ensures i == |s| <==> Get(s, key).None?
      ensures i == |s| ==> Drop(s, key) == s
    {
      i := 0;
      while i < |s| && s[i].key != key
        invariant i <= |s|
        invariant Get(s[i..], key) == Get(s, key)
        invariant Drop(s, key) == s[..i] + Drop(s[i..], key)
      {
        assert s[i..][1..] == s[i + 1..];
        assert s[..i + 1] == s[..i] + [s[i]];
        assert s[..i] + ([s[i]] + Drop(s[i + 1..], key)) == s[..i] + [s[i]] + Drop(s[i + 1..], key);
        i := i + 1;
      }
      if i < |s| {
        assert s[i..][1..] == s[i + 1..];
      }
    }

    /** ops_fpa_tap_if_delete. */
    method IfDelete(fd: nat) returns (ok: bool)
      requires !locked
      modifies this
      ensures ok <==> Get(old(master), fd).Some?
      ensures View() == Step(old(View()), Delete(fd))
    {
      locked := true;
      var i := Find(master, fd);
      if i == |master| {
        return false;
      }
      var c := DelIf(fd, master[i].val);
      tapPipe := tapPipe + [c];
      asicPipe := asicPipe + [c];
      master := master[..i] + master[i + 1..];
      locked := false;
      return true;
    }

    /** The command loop of tap_listener. */
    method TapCommands()
      modifies this`tapPipe, this`tapMap, this`watched
      ensures tapPipe == [] && tapMap == DrainTap(old(tapMap), old(tapPipe))
      ensures watched == DrainWatched(old(watched), old(tapMap), old(tapPipe))
      ensures old(Inv(View())) ==> Inv(View())
    {
      ghost var ok := Inv(View());
      while tapPipe != []
        invariant DrainTap(tapMap, tapPipe) == DrainTap(old(tapMap), old(tapPipe))
        invariant DrainWatched(watched, tapMap, tapPipe) == DrainWatched(old(watched), old(tapMap), old(tapPipe))
        invariant ok ==> Inv(View())
        decreases |tapPipe|
      {
        ghost var before := View();
        if ok {
          TapStepKeepsInv(before);
        }
        var c := tapPipe[0];
        tapPipe := tapPipe[1..];
        if c.AddIf? {
          tapMap := [Entry(c.fd, c.port)] + tapMap;
          watched := watched + {c.fd};
        } else {
          var i := Find(tapMap, c.fd);
          if i < |tapMap| {
            tapMap := tapMap[..i] + tapMap[i + 1..];
            watched := watched - {c.fd};
          }
        }
        assert View() == Step(before, TapStep);
      }
    }

    /** The command loop of asic_listener. */
    method AsicCommands()
      modifies this`asicPipe, this`asicMap
      ensures asicPipe == [] && asicMap == DrainAsic(old(asicMap), old(asicPipe))
      ensures old(Inv(View())) ==> Inv(View())
    {
      ghost var ok := Inv(View());
      while asicPipe != []
        invariant DrainAsic(asicMap, asicPipe) == DrainAsic(old(asicMap), old(asicPipe))
        invariant ok ==> Inv(View())
        decreases |asicPipe|
      {
        var c := asicPipe[0];
        asicPipe := asicPipe[1..];
        if c.AddIf? {
          asicMap := [Entry(c.port, c.fd)] + asicMap;
        } else {
          var i := Find(asicMap, c.port);
          if i < |asicMap| {
            asicMap := asicMap[..i] + asicMap[i + 1..];
          }
        }
      }
    }
  }
}
