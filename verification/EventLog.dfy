/** The double-buffered event log between the learning table and its reader. Events are
    recorded in the current buffer, one node per hash; a full buffer, or a timer, makes
    it the idle one and clears the other. The reader replays idle buffers. */
module EventLog {
  import opened Options

  datatype Key = Key(vid: nat, mac: nat)

  type Port = nat

  datatype Oper = Add | Del

  datatype Event = Event(hash: nat, key: Key, port: Port, oper: Oper)

  /** `nodes` are the nodes in the hash map, `actualSize` the number of used array slots. */
  datatype Buffer = Buffer(nodes: seq<Event>, actualSize: nat)

  datatype Log = Log(cur: Buffer, idle: Buffer)

  const CLEARED := Buffer([], 0)

  /** The position of the node with this hash, or the length if there is none. */
  function Slot(nodes: seq<Event>, h: nat): (i: nat)
    ensures i <= |nodes|
    ensures i < |nodes| ==> nodes[i].hash == h
    ensures forall j :: 0 <= j < i ==> nodes[j].hash != h
  {
    if nodes == [] || nodes[0].hash == h then 0 else 1 + Slot(nodes[1..], h)
  }

  /** mlearn_action_add up to the notification: overwrite, append or give up. */
  function Record(b: Buffer, e: Event, size: nat): Buffer {
    var i := Slot(b.nodes, e.hash);
    if i < |b.nodes| then Buffer(b.nodes[i := e], b.actualSize)
    else if b.actualSize < size then Buffer(b.nodes + [e], b.actualSize + 1)
    else b
  }

  /** process_mlearn. */
  function Process(l: Log, plugin: bool): Log {
    if plugin && |l.cur.nodes| > 0 then Log(CLEARED, l.cur) else l
  }

  predicate Full(l: Log, e: Event, size: nat) { Record(l.cur, e, size).actualSize == size }

  /** mlearn_action_add. */
  function Action(l: Log, e: Event, size: nat, plugin: bool): Log {
    var l' := l.(cur := Record(l.cur, e, size));
    if Full(l, e, size) then Process(l', plugin) else l'
  }

  /** The error branch: no node with this hash and no slot left. */
  predicate GivesUp(l: Log, e: Event, size: nat) {
    Slot(l.cur.nodes, e.hash) == |l.cur.nodes| && l.cur.actualSize >= size
  }

  // ----- capacity -----

  /** The counter is the number of nodes, and there is always room for one more. */
  ghost predicate HasRoom(l: Log, size: nat) {
    l.cur.actualSize == |l.cur.nodes| < size
  }

  /** With a plugin interface every action finds room and leaves room; it swaps exactly when
      it fills the last slot, and otherwise uses at most one slot. */
  lemma ActionKeepsRoom(l: Log, e: Event, size: nat)
    requires HasRoom(l, size)
    ensures !GivesUp(l, e, size)
    ensures HasRoom(Action(l, e, size, true), size)
    ensures Full(l, e, size) ==> Action(l, e, size, true).cur.actualSize == 0 && l.cur.actualSize + 1 == size
    ensures !Full(l, e, size) ==> Action(l, e, size, true).cur.actualSize <= l.cur.actualSize + 1
  {
  }

  /** Without one, a full buffer stays as it is and loses every event with a new hash. */
  lemma NoPluginGetsStuck(l: Log, e: Event, size: nat)
    requires l.cur.actualSize == |l.cur.nodes| == size && Slot(l.cur.nodes, e.hash) == |l.cur.nodes|
    ensures GivesUp(l, e, size) && Action(l, e, size, false) == l
  {
  }

  /** The logs of consecutive actions. */
  ghost predicate IsActionRun(logs: seq<Log>, es: seq<Event>, size: nat) {
    && |logs| == |es| + 1 && HasRoom(logs[0], size)
    && forall i :: 0 <= i < |es| ==> logs[i + 1] == Action(logs[i], es[i], size, true)
  }

  lemma RunPrepended(l: Log, e: Event, logs: seq<Log>, es: seq<Event>, size: nat)
    requires HasRoom(l, size) && IsActionRun(logs, es, size) && logs[0] == Action(l, e, size, true)
    ensures IsActionRun([l] + logs, [e] + es, size)
  {
  }

  ghost function SwapCount(logs: seq<Log>, es: seq<Event>, size: nat, n: nat): nat
    requires n <= |es| < |logs|
  {
    if n == 0 then 0
    else SwapCount(logs, es, size, n - 1) + if Full(logs[n - 1], es[n - 1], size) then 1 else 0
  }

  lemma OneMore(size: nat, c: nat)
    ensures size * (c + 1) == size * c + size
  {
  }

  lemma TwiceOrMore(size: nat, c: nat)
    requires c > 1
    ensures size * c >= size + size
  {
    assert size * c == size * 2 + size * (c - 2);
  }

  lemma AtMostOne(size: nat, c: nat, total: nat)
    requires size * c <= total < size + size
    ensures c <= 1
  {
    if c > 1 {
      TwiceOrMore(size, c);
    }
  }

  /** n consecutive actions swap at most (actual_size + n) / size times. */
  lemma {:induction false} SwapBound(logs: seq<Log>, es: seq<Event>, size: nat, n: nat)
    requires IsActionRun(logs, es, size) && n <= |es|
    ensures HasRoom(logs[n], size)
    ensures size * SwapCount(logs, es, size, n) + logs[n].cur.actualSize <= logs[0].cur.actualSize + n
  {
    if n > 0 {
      SwapBound(logs, es, size, n - 1);
      ActionKeepsRoom(logs[n - 1], es[n - 1], size);
      assert logs[n - 1 + 1] == Action(logs[n - 1], es[n - 1], size, true);
      var c := SwapCount(logs, es, size, n - 1);
      OneMore(size, c);
    }
  }

  /** Fewer actions than a whole buffer plus the free slots swap at most once. */
  lemma ShortBurstSwapsOnce(logs: seq<Log>, es: seq<Event>, size: nat)
    requires IsActionRun(logs, es, size)
    requires |es| < size + (size - logs[0].cur.actualSize)
    ensures SwapCount(logs, es, size, |es|) <= 1
  {
    SwapBound(logs, es, size, |es|);
    var c := SwapCount(logs, es, size, |es|);
    AtMostOne(size, c, logs[0].cur.actualSize + |es|);
  }

  // ----- replay -----

  function ApplyEvent(v: map<Key, Port>, e: Event): map<Key, Port> {
    if e.oper == Add then v[e.key := e.port] else v - {e.key}
  }

  function Replay(nodes: seq<Event>, v: map<Key, Port>): map<Key, Port> {
    if nodes == [] then v
    else ApplyEvent(Replay(nodes[..|nodes| - 1], v), nodes[|nodes| - 1])
  }

  function At(v: map<Key, Port>, k: Key): Option<Port> {
    if k in v then Some(v[k]) else None
  }

  function Outcome(e: Event): Option<Port> {
    if e.oper == Add then Some(e.port) else None
  }

  /** Nodes are stored under the hash of their key, one per hash. */
  ghost predicate Indexed(nodes: seq<Event>, hash: Key -> nat) {
    && (forall i :: 0 <= i < |nodes| ==> nodes[i].hash == hash(nodes[i].key))
    && (forall i, j :: 0 <= i < j < |nodes| ==> nodes[i].hash != nodes[j].hash)
  }

  ghost predicate Mentions(nodes: seq<Event>, k: Key) {
    exists i :: 0 <= i < |nodes| && nodes[i].key == k
  }

  lemma {:induction false} ReplayMisses(nodes: seq<Event>, v: map<Key, Port>, k: Key)
    requires !Mentions(nodes, k)
    ensures At(Replay(nodes, v), k) == At(v, k)
  {
    if nodes != [] {
      var head := nodes[..|nodes| - 1];
      assert forall i :: 0 <= i < |head| ==> head[i] == nodes[i];
      ReplayMisses(head, v, k);
    }
  }

  lemma {:induction false} ReplayHits(nodes: seq<Event>, hash: Key -> nat, v: map<Key, Port>, i: nat)
    requires Indexed(nodes, hash) && i < |nodes|
    ensures At(Replay(nodes, v), nodes[i].key) == Outcome(nodes[i])
  {
    var n := |nodes| - 1;
    var head := nodes[..n];
    if i < n {
      assert forall j :: 0 <= j < n ==> head[j] == nodes[j];
      ReplayHits(head, hash, v, i);
      assert nodes[n].hash != nodes[i].hash;
    }
  }

  lemma SameMap(v: map<Key, Port>, w: map<Key, Port>)
    requires forall k :: At(v, k) == At(w, k)
    ensures v == w
  {
    forall k ensures k in v <==> k in w { assert At(v, k) == At(w, k); }
    forall k | k in v ensures v[k] == w[k] { assert At(v, k) == At(w, k); }
  }

  /** Reading a batch twice is the same as reading it once. */
  lemma ReplayIdempotent(nodes: seq<Event>, hash: Key -> nat, v: map<Key, Port>)
    requires Indexed(nodes, hash)
    ensures Replay(nodes, Replay(nodes, v)) == Replay(nodes, v)
  {
    forall k ensures At(Replay(nodes, Replay(nodes, v)), k) == At(Replay(nodes, v), k) {
      if i :| 0 <= i < |nodes| && nodes[i].key == k {
        ReplayHits(nodes, hash, v, i);
        ReplayHits(nodes, hash, Replay(nodes, v), i);
      } else {
        ReplayMisses(nodes, Replay(nodes, v), k);
      }
    }
    SameMap(Replay(nodes, Replay(nodes, v)), Replay(nodes, v));
  }

  /** Recording overwrites no event of another key that the reader still needs. */
  ghost predicate Harmless(nodes: seq<Event>, v: map<Key, Port>, e: Event) {
    var i := Slot(nodes, e.hash);
    i < |nodes| && nodes[i].key != e.key ==> At(v, nodes[i].key) == Outcome(nodes[i])
  }

  lemma RecordIndexed(b: Buffer, hash: Key -> nat, e: Event, size: nat)
    requires Indexed(b.nodes, hash) && e.hash == hash(e.key)
    ensures Indexed(Record(b, e, size).nodes, hash)
  {
  }

  /** What recording does to the nodes: the event at its slot, all others in their place. */
  lemma RecordNodes(b: Buffer, e: Event, size: nat)
    requires b.actualSize < size
    ensures var i, nodes := Slot(b.nodes, e.hash), Record(b, e, size).nodes;
      && |nodes| == (if i < |b.nodes| then |b.nodes| else |b.nodes| + 1)
      && nodes[i] == e
      && forall j :: 0 <= j < |nodes| && j != i ==> j < |b.nodes| && nodes[j] == b.nodes[j]
  {
  }

  lemma RecordAt(b: Buffer, hash: Key -> nat, e: Event, size: nat, v: map<Key, Port>, k: Key)
    requires Indexed(b.nodes, hash) && e.hash == hash(e.key) && b.actualSize < size
    ensures var i, r := Slot(b.nodes, e.hash), Replay(Record(b, e, size).nodes, v);
      At(r, k) ==
        if k == e.key then Outcome(e)
        else if i < |b.nodes| && b.nodes[i].key == k then At(v, k)
        else At(Replay(b.nodes, v), k)
  {
    var i, nodes := Slot(b.nodes, e.hash), Record(b, e, size).nodes;
    RecordIndexed(b, hash, e, size);
    RecordNodes(b, e, size);
    if k == e.key {
      ReplayHits(nodes, hash, v, i);
    } else if j :| 0 <= j < |nodes| && j != i && nodes[j].key == k {
      ReplayHits(nodes, hash, v, j);
      ReplayHits(b.nodes, hash, v, j);
      assert i < |b.nodes| ==> b.nodes[i].key != k;
    } else {
      assert !Mentions(nodes, k);
      ReplayMisses(nodes, v, k);
      if !(i < |b.nodes| && b.nodes[i].key == k) {
        RecordMisses(b, e, size, k);
        ReplayMisses(b.nodes, v, k);
      }
    }
  }

  lemma RecordMisses(b: Buffer, e: Event, size: nat, k: Key)
    requires b.actualSize < size && !Mentions(Record(b, e, size).nodes, k)
    requires var i := Slot(b.nodes, e.hash); i < |b.nodes| ==> b.nodes[i].key != k
    ensures !Mentions(b.nodes, k)
  {
    var i, nodes := Slot(b.nodes, e.hash), Record(b, e, size).nodes;
    forall j | 0 <= j < |b.nodes| ensures b.nodes[j].key != k {
      if j != i {
        assert nodes[j] == b.nodes[j];
      }
    }
  }

  /** Recording an event adds exactly its effect to the replay if and only if the node it
      overwrites, if any, is harmless. */
  lemma RecordReplayIff(b: Buffer, hash: Key -> nat, e: Event, size: nat, v: map<Key, Port>)
    requires Indexed(b.nodes, hash) && e.hash == hash(e.key) && b.actualSize < size
    ensures Replay(Record(b, e, size).nodes, v) == ApplyEvent(Replay(b.nodes, v), e) <==> Harmless(b.nodes, v, e)
  {
    var i, r, w := Slot(b.nodes, e.hash), Replay(Record(b, e, size).nodes, v), ApplyEvent(Replay(b.nodes, v), e);
    if Harmless(b.nodes, v, e) {
      forall k ensures At(r, k) == At(w, k) {
        RecordAt(b, hash, e, size, v, k);
        if i < |b.nodes| {
          ReplayHits(b.nodes, hash, v, i);
        }
      }
      SameMap(r, w);
    } else {
      RecordAt(b, hash, e, size, v, b.nodes[i].key);
      ReplayHits(b.nodes, hash, v, i);
      assert At(r, b.nodes[i].key) != At(w, b.nodes[i].key);
    }
  }

  /** Every event of the batch is either repeated by the newer batch or known already. */
  ghost predicate Superseded(batch: seq<Event>, newer: seq<Event>, v: map<Key, Port>) {
    forall i :: 0 <= i < |batch| ==> Mentions(newer, batch[i].key) || At(v, batch[i].key) == Outcome(batch[i])
  }

  /** A reader that missed a batch still ends right if and only if the batch was superseded. */
  lemma LostBatchIff(batch: seq<Event>, newer: seq<Event>, hash: Key -> nat, v: map<Key, Port>)
    requires Indexed(batch, hash) && Indexed(newer, hash)
    ensures Replay(newer, v) == Replay(newer, Replay(batch, v)) <==> Superseded(batch, newer, v)
  {
    var w := Replay(batch, v);
    if Superseded(batch, newer, v) {
      forall k ensures At(Replay(newer, v), k) == At(Replay(newer, w), k) {
        if j :| 0 <= j < |newer| && newer[j].key == k {
          ReplayHits(newer, hash, v, j);
          ReplayHits(newer, hash, w, j);
        } else {
          ReplayMisses(newer, v, k);
          ReplayMisses(newer, w, k);
          if i :| 0 <= i < |batch| && batch[i].key == k {
            ReplayHits(batch, hash, v, i);
          } else {
            ReplayMisses(batch, v, k);
          }
        }
      }
      SameMap(Replay(newer, v), Replay(newer, w));
    } else {
      var i :| 0 <= i < |batch| && !Mentions(newer, batch[i].key) && At(v, batch[i].key) != Outcome(batch[i]);
      ReplayHits(batch, hash, v, i);
      ReplayMisses(newer, v, batch[i].key);
      ReplayMisses(newer, w, batch[i].key);
    }
  }
}
