/** The TAP master map told by its history: which port a descriptor has, and when the device
    mutex is held for good, after any sequence of calls and listener steps. */
module TapHistory {
  import opened Options
  import opened Tap

  // ----- one call -----

  /** Creating an interface maps its descriptor to its port, changes no other descriptor, and
      sends exactly one command to each listener. */
  lemma CreateLaw(s: State, fd: nat, port: nat)
    requires !s.locked
    ensures var u := Step(s, Create(fd, port));
      && (forall d :: Get(u.master, d) == if d == fd then Some(port) else Get(s.master, d))
      && u.tapPipe == s.tapPipe + [AddIf(fd, port)] && u.asicPipe == s.asicPipe + [AddIf(fd, port)]
      && u.tapMap == s.tapMap && u.asicMap == s.asicMap && u.watched == s.watched && !u.locked
  {
    var u := Step(s, Create(fd, port));
    assert u.master[1..] == s.master;
  }

  /** Deleting a known descriptor unmaps it, changes no other descriptor, and sends exactly one
      command, with its port, to each listener. */
  lemma DeleteLaw(s: State, fd: nat, port: nat)
    requires !s.locked && OneToOne(s.master) && Get(s.master, fd) == Some(port)
    ensures var u := Step(s, Delete(fd));
      && (forall d :: Get(u.master, d) == if d == fd then None else Get(s.master, d))
      && u.tapPipe == s.tapPipe + [DelIf(fd, port)] && u.asicPipe == s.asicPipe + [DelIf(fd, port)]
      && u.tapMap == s.tapMap && u.asicMap == s.asicMap && u.watched == s.watched && !u.locked
  {
    forall d ensures Get(Drop(s.master, fd), d) == if d == fd then None else Get(s.master, d) {
      GetDropped(s.master, fd, d);
    }
  }

  lemma {:induction false} GetDropped(s: Chain, k: nat, d: nat)
    requires OneToOne(s)
    ensures Get(Drop(s, k), d) == if d == k then None else Get(s, d)
  {
    if s != [] {
      if s[0].key == k {
        if d == k {
          GetIs(s[1..], k);
          assert forall i :: 0 <= i < |s[1..]| ==> s[1..][i] == s[i + 1];
        }
      } else {
        assert OneToOne(s[1..]);
        GetDropped(s[1..], k, d);
        assert ([s[0]] + Drop(s[1..], k))[1..] == Drop(s[1..], k);
      }
    }
  }

  /** The call takes an error exit, on which it keeps the mutex. */
  predicate Fails(s: State, op: Op) {
    op.CreateFails? || (op.Delete? && Get(s.master, op.fd).None?)
  }

  /** A failing call holds the mutex from then on and does nothing else; so does any call that
      finds the mutex held. */
  lemma FailureLaw(s: State, op: Op)
    requires Fails(s, op) || (s.locked && !op.TapStep? && !op.AsicStep?)
    ensures Step(s, op) == s.(locked := true)
  {
  }

  /** A listener with a pending command takes exactly the oldest one; the master map, the mutex
      and the other listener are not involved. */
  lemma ListenerLaw(s: State)
    ensures var u := Step(s, TapStep);
      && (s.tapPipe != [] ==> u.tapPipe == s.tapPipe[1..])
      && u.master == s.master && u.locked == s.locked && u.asicPipe == s.asicPipe && u.asicMap == s.asicMap
    ensures var u := Step(s, AsicStep);
      && (s.asicPipe != [] ==> u.asicPipe == s.asicPipe[1..])
      && u.master == s.master && u.locked == s.locked && u.tapPipe == s.tapPipe && u.tapMap == s.tapMap
      && u.watched == s.watched
  {
  }

  // ----- runs -----

  /** The mutex is held exactly if some call failed. */
  lemma {:induction false} LockedIff(states: seq<State>, ops: seq<Op>, n: nat)
    requires IsRun(states, ops) && n <= |ops|
    ensures states[n].locked <==> exists i :: 0 <= i < n && Fails(states[i], ops[i])
  {
    if n > 0 {
      LockedIff(states, ops, n - 1);
      assert states[n - 1 + 1] == Step(states[n - 1], ops[n - 1]);
    }
  }

  /** A successful creation of the descriptor on some port, or a deletion of it. */
  predicate Touches(s: State, op: Op, fd: nat) {
    !s.locked && ((op.Create? && op.fd == fd) || (op.Delete? && op.fd == fd))
  }

  /** The last call among the first `n` that concerns the descriptor created it on this port. */
  ghost predicate LastCreated(states: seq<State>, ops: seq<Op>, n: nat, fd: nat, port: nat)
    requires n <= |ops| < |states|
  {
    exists i :: 0 <= i < n && ops[i] == Create(fd, port) && !states[i].locked
      && forall j :: i < j < n ==> !Touches(states[j], ops[j], fd)
  }

  lemma LastCreatedNext(states: seq<State>, ops: seq<Op>, n: nat, fd: nat, port: nat)
    requires n < |ops| < |states|
    ensures LastCreated(states, ops, n + 1, fd, port) <==>
      || (ops[n] == Create(fd, port) && !states[n].locked)
      || (LastCreated(states, ops, n, fd, port) && !Touches(states[n], ops[n], fd))
  {
  }

  lemma StepGet(s: State, op: Op, fd: nat, port: nat)
    requires OneToOne(s.master)
    ensures Get(Step(s, op).master, fd) == Some(port) <==>
      || (op == Create(fd, port) && !s.locked)
      || (Get(s.master, fd) == Some(port) && !Touches(s, op, fd))
  {
    match op
    case Create(f, p) =>
      if !s.locked {
        CreateLaw(s, f, p);
      }
    case CreateFails =>
    case Delete(f) =>
      if !s.locked && Get(s.master, f).Some? {
        DeleteLaw(s, f, Get(s.master, f).value);
      }
    case TapStep =>
    case AsicStep =>
  }

  /** In a run whose created interfaces are all fresh, the master map gives a descriptor exactly
      the port it was last created with, unless it was deleted since. */
  lemma {:induction false} MasterIsHistory(states: seq<State>, ops: seq<Op>, n: nat, fd: nat, port: nat)
    requires IsRun(states, ops) && n <= |ops|
    requires forall i :: 0 <= i < n ==> StepOk(states[i], ops[i])
    ensures Get(states[n].master, fd) == Some(port) <==> LastCreated(states, ops, n, fd, port)
  {
    if n > 0 {
      MasterIsHistory(states, ops, n - 1, fd, port);
      OkRunKeepsInv(states, ops, n - 1);
      StepGet(states[n - 1], ops[n - 1], fd, port);
      LastCreatedNext(states, ops, n - 1, fd, port);
      assert states[n - 1 + 1] == Step(states[n - 1], ops[n - 1]);
    }
  }

  /** So do both listeners once they have drained their pipes, each in its own direction. */
  lemma DrainedListenersAreHistory(states: seq<State>, ops: seq<Op>, n: nat, fd: nat, port: nat)
    requires IsRun(states, ops) && n <= |ops| && states[n].tapPipe == [] && states[n].asicPipe == []
    requires forall i :: 0 <= i < n ==> StepOk(states[i], ops[i])
    ensures Get(states[n].tapMap, fd) == Some(port) <==> LastCreated(states, ops, n, fd, port)
    ensures Get(states[n].asicMap, port) == Some(fd) <==> LastCreated(states, ops, n, fd, port)
  {
    OkRunKeepsInv(states, ops, n);
    MasterIsHistory(states, ops, n, fd, port);
    DrainedMapsAreInverse(states[n], fd, port);
  }
}
