/** The MAC learning table together with its event log, as a step protocol with a reader,
    and as the object the plugin keeps. */
module MacLearning {
  import opened Options
  import opened Hmap
  import opened EventLog

  type Table = multiset<Node<Key, Port>>

  /** Fixed parameters: the hash of a key, the sizes, and whether a plugin interface exists. */
  datatype Params = Params(hash: Key -> nat, size: nat, maxEntries: nat, plugin: bool)

  datatype Ml = Ml(table: Table, log: Log)

  function LearnEvent(p: Params, key: Key, port: Port): Event { Event(p.hash(key), key, port, Add) }

  function ExpireEvent(n: Node<Key, Port>): Event { Event(n.hash, n.key, n.value, Del) }

  predicate Accepts(p: Params, s: Ml, known: bool) { known && |s.table| < p.maxEntries }

  /** learn and insert: refuse an unknown port or a full table, otherwise insert and log. */
  function Learn(p: Params, s: Ml, key: Key, port: Port, known: bool): Ml {
    if Accepts(p, s, known) then
      Ml(s.table + multiset{Node(p.hash(key), key, port)},
         Action(s.log, LearnEvent(p, key, port), p.size, p.plugin))
    else s
  }

  /** expire: remove a node and log its deletion. */
  function Expire(p: Params, s: Ml, n: Node<Key, Port>): Ml {
    Ml(s.table - multiset{n}, Action(s.log, ExpireEvent(n), p.size, p.plugin))
  }

  /** flush: expire the nodes one after the other. */
  function ExpireAll(p: Params, s: Ml, order: seq<Node<Key, Port>>): Ml
    decreases |order|
  {
    if order == [] then s else ExpireAll(p, Expire(p, s, order[0]), order[1..])
  }

  // ----- the protocol with its reader -----

  /** `view` is what the reader has, `unread` says that it has not read the idle buffer
      since the last swap. */
  datatype Sys = Sys(ml: Ml, view: map<Key, Port>, unread: bool)

  datatype Op =
    | LearnOp(key: Key, port: Port, known: bool)
    | AgeOp(node: Node<Key, Port>)
    | TimerOp
    | ReadOp

  predicate Acts(p: Params, s: Sys, op: Op) {
    (op.LearnOp? && Accepts(p, s.ml, op.known)) || (op.AgeOp? && op.node in s.ml.table)
  }

  function EventOf(p: Params, op: Op): Event
    requires op.LearnOp? || op.AgeOp?
  {
    if op.LearnOp? then LearnEvent(p, op.key, op.port) else ExpireEvent(op.node)
  }

  predicate SwapsNow(p: Params, s: Sys, op: Op) {
    p.plugin &&
    match op
    case LearnOp(_, _, _) => Acts(p, s, op) && Full(s.ml.log, EventOf(p, op), p.size)
    case AgeOp(_) => Acts(p, s, op) && Full(s.ml.log, EventOf(p, op), p.size)
    case TimerOp => |s.ml.log.cur.nodes| > 0
    case ReadOp => false
  }

  function Step(p: Params, s: Sys, op: Op): Sys {
    match op
    case LearnOp(key, port, known) =>
      Sys(Learn(p, s.ml, key, port, known), s.view, s.unread || SwapsNow(p, s, op))
    case AgeOp(n) =>
      Sys(if n in s.ml.table then Expire(p, s.ml, n) else s.ml, s.view, s.unread || SwapsNow(p, s, op))
    case TimerOp =>
      Sys(s.ml.(log := Process(s.ml.log, p.plugin)), s.view, s.unread || SwapsNow(p, s, op))
    case ReadOp =>
      Sys(s.ml, Replay(s.ml.log.idle.nodes, s.view), false)
  }

  /** The (vid, MAC) to port map that the operation leaves. */
  function NextMap(p: Params, s: Sys, m: map<Key, Port>, op: Op): map<Key, Port> {
    if Acts(p, s, op) then ApplyEvent(m, EventOf(p, op)) else m
  }

  /** The table is the map: one node per key, under the hash of the key. */
  ghost predicate TableIs(p: Params, table: Table, m: map<Key, Port>) {
    forall n :: table[n] == if n.hash == p.hash(n.key) && At(m, n.key) == Some(n.value) then 1 else 0
  }

  /** What the reader has once it has read the idle buffer. */
  function Base(s: Sys): map<Key, Port> {
    if s.unread then Replay(s.ml.log.idle.nodes, s.view) else s.view
  }

  ghost predicate LogIs(p: Params, s: Sys, m: map<Key, Port>) {
    && HasRoom(s.ml.log, p.size)
    && Indexed(s.ml.log.cur.nodes, p.hash)
    && Indexed(s.ml.log.idle.nodes, p.hash)
    && Replay(s.ml.log.cur.nodes, Base(s)) == m
    && Replay(s.ml.log.idle.nodes, Base(s)) == Base(s)
  }

  /** Event-log replay: the reader's batches plus the current buffer give the table, and
      reading the idle buffer once more changes nothing. */
  ghost predicate Inv(p: Params, s: Sys, m: map<Key, Port>) {
    TableIs(p, s.ml.table, m) && LogIs(p, s, m)
  }

  /** Exactly when a step keeps the invariant: a NEW event is for an absent key, no pending
      event of another key is overwritten, and no unread batch is thrown away, unless these
      no longer matter to the reader. */
  ghost predicate StepOk(p: Params, s: Sys, m: map<Key, Port>, op: Op) {
    && (op.LearnOp? && Acts(p, s, op) ==> op.key !in m)
    && (Acts(p, s, op) ==> Harmless(s.ml.log.cur.nodes, Base(s), EventOf(p, op)))
    && (SwapsNow(p, s, op) && s.unread ==>
          Superseded(s.ml.log.idle.nodes,
                     if Acts(p, s, op) then Record(s.ml.log.cur, EventOf(p, op), p.size).nodes else s.ml.log.cur.nodes,
                     s.view))
  }

  lemma LearnTable(p: Params, table: Table, m: map<Key, Port>, key: Key, port: Port)
    requires TableIs(p, table, m)
    ensures TableIs(p, table + multiset{Node(p.hash(key), key, port)}, m[key := port]) <==> key !in m
  {
    var n := Node(p.hash(key), key, port);
    var t' := table + multiset{n};
    if key in m {
      assert t'[Node(p.hash(key), key, m[key])] != if m[key] == port then 1 else 0;
    } else {
      assert table[n] == 0;
      forall q ensures t'[q] == if q.hash == p.hash(q.key) && At(m[key := port], q.key) == Some(q.value) then 1 else 0 {
      }
    }
  }

  lemma ExpireTable(p: Params, table: Table, m: map<Key, Port>, n: Node<Key, Port>)
    requires TableIs(p, table, m) && n in table
    ensures TableIs(p, table - multiset{n}, m - {n.key})
    ensures n.hash == p.hash(n.key) && At(m, n.key) == Some(n.value)
  {
  }

  /** Swapping makes the current buffer the batch to be read next. */
  lemma SwapLog(p: Params, s: Sys, s': Sys, m: map<Key, Port>, nodes: seq<Event>)
    requires Indexed(nodes, p.hash) && Indexed(s.ml.log.idle.nodes, p.hash) && p.size > 0
    requires s'.ml.log.cur == CLEARED && s'.ml.log.idle.nodes == nodes && s'.unread && s'.view == s.view
    requires Replay(nodes, Base(s)) == m
    ensures LogIs(p, s', m) <==> (s.unread ==> Superseded(s.ml.log.idle.nodes, nodes, s.view))
  {
    ReplayIdempotent(nodes, p.hash, s.view);
    LostBatchIff(s.ml.log.idle.nodes, nodes, p.hash, s.view);
  }

  lemma ActLog(p: Params, s: Sys, m: map<Key, Port>, e: Event, s': Sys)
    requires LogIs(p, s, m) && e.hash == p.hash(e.key) && p.plugin
    requires s'.ml.log == Action(s.ml.log, e, p.size, p.plugin)
    requires s'.view == s.view && s'.unread == (s.unread || Full(s.ml.log, e, p.size))
    ensures LogIs(p, s', ApplyEvent(m, e)) <==>
      && Harmless(s.ml.log.cur.nodes, Base(s), e)
      && (Full(s.ml.log, e, p.size) && s.unread ==>
            Superseded(s.ml.log.idle.nodes, Record(s.ml.log.cur, e, p.size).nodes, s.view))
  {
    ActionKeepsRoom(s.ml.log, e, p.size);
    RecordIndexed(s.ml.log.cur, p.hash, e, p.size);
    RecordReplayIff(s.ml.log.cur, p.hash, e, p.size, Base(s));
    if Full(s.ml.log, e, p.size) {
      SwapLog(p, s, s', ApplyEvent(m, e), Record(s.ml.log.cur, e, p.size).nodes);
    }
  }

  lemma LearnKeepsInvIff(p: Params, s: Sys, m: map<Key, Port>, op: Op)
    requires p.plugin && Inv(p, s, m) && op.LearnOp? && Acts(p, s, op)
    ensures Inv(p, Step(p, s, op), NextMap(p, s, m, op)) <==> StepOk(p, s, m, op)
  {
    LearnTable(p, s.ml.table, m, op.key, op.port);
    ActLog(p, s, m, EventOf(p, op), Step(p, s, op));
  }

  lemma AgeKeepsInvIff(p: Params, s: Sys, m: map<Key, Port>, op: Op)
    requires p.plugin && Inv(p, s, m) && op.AgeOp? && Acts(p, s, op)
    ensures Inv(p, Step(p, s, op), NextMap(p, s, m, op)) <==> StepOk(p, s, m, op)
  {
    ExpireTable(p, s.ml.table, m, op.node);
    ActLog(p, s, m, EventOf(p, op), Step(p, s, op));
  }

  /** With a plugin interface a step keeps the replay invariant exactly when it is OK. */
  lemma StepKeepsInvIff(p: Params, s: Sys, m: map<Key, Port>, op: Op)
    requires p.plugin && Inv(p, s, m)
    ensures Inv(p, Step(p, s, op), NextMap(p, s, m, op)) <==> StepOk(p, s, m, op)
  {
    if Acts(p, s, op) {
      if op.LearnOp? {
        LearnKeepsInvIff(p, s, m, op);
      } else {
        AgeKeepsInvIff(p, s, m, op);
      }
    } else if op.TimerOp? && |s.ml.log.cur.nodes| > 0 {
      SwapLog(p, s, Step(p, s, op), m, s.ml.log.cur.nodes);
    }
  }

  // ----- runs -----

  ghost predicate IsRun(p: Params, states: seq<Sys>, ops: seq<Op>) {
    && |states| == |ops| + 1
    && states[0] == Sys(Ml(multiset{}, Log(CLEARED, CLEARED)), map[], false)
    && forall i :: 0 <= i < |ops| ==> states[i + 1] == Step(p, states[i], ops[i])
  }

  /** The map after the first `n` operations. */
  ghost function MapAfter(p: Params, states: seq<Sys>, ops: seq<Op>, n: nat): map<Key, Port>
    requires n <= |ops| < |states|
  {
    if n == 0 then map[] else NextMap(p, states[n - 1], MapAfter(p, states, ops, n - 1), ops[n - 1])
  }

  ghost predicate RunOk(p: Params, states: seq<Sys>, ops: seq<Op>, n: nat)
    requires n <= |ops| < |states|
  {
    forall i :: 0 <= i < n ==> StepOk(p, states[i], MapAfter(p, states, ops, i), ops[i])
  }

  lemma RunStep(p: Params, states: seq<Sys>, ops: seq<Op>, i: nat)
    requires p.plugin && IsRun(p, states, ops) && i < |ops|
    requires Inv(p, states[i], MapAfter(p, states, ops, i))
    ensures Inv(p, states[i + 1], MapAfter(p, states, ops, i + 1)) <==>
      StepOk(p, states[i], MapAfter(p, states, ops, i), ops[i])
  {
    StepKeepsInvIff(p, states[i], MapAfter(p, states, ops, i), ops[i]);
    assert states[i + 1] == Step(p, states[i], ops[i]);
  }

  lemma {:induction false} OkRunKeepsInv(p: Params, states: seq<Sys>, ops: seq<Op>, n: nat)
    requires p.plugin && p.size > 0 && IsRun(p, states, ops) && n <= |ops| && RunOk(p, states, ops, n)
    ensures Inv(p, states[n], MapAfter(p, states, ops, n))
  {
    if n > 0 {
      OkRunKeepsInv(p, states, ops, n - 1);
      RunStep(p, states, ops, n - 1);
    }
  }

  /** In every run the replay equals the table in all states exactly when all steps are OK. */
  lemma RunKeepsInvIff(p: Params, states: seq<Sys>, ops: seq<Op>)
    requires p.plugin && p.size > 0 && IsRun(p, states, ops)
    ensures (forall i :: 0 <= i <= |ops| ==> Inv(p, states[i], MapAfter(p, states, ops, i)))
      <==> RunOk(p, states, ops, |ops|)
  {
    if RunOk(p, states, ops, |ops|) {
      forall i | 0 <= i <= |ops| ensures Inv(p, states[i], MapAfter(p, states, ops, i)) {
        OkRunKeepsInv(p, states, ops, i);
      }
    }
    if forall i :: 0 <= i <= |ops| ==> Inv(p, states[i], MapAfter(p, states, ops, i)) {
      forall i | 0 <= i < |ops| ensures StepOk(p, states[i], MapAfter(p, states, ops, i), ops[i]) {
        RunStep(p, states, ops, i);
      }
    }
  }

  // ----- the intended discipline -----

  /** The key occurs in a learning event among the first `n` operations. */
  ghost predicate InPlay(ops: seq<Op>, n: nat, k: Key)
    requires n <= |ops|
  {
    exists i :: 0 <= i < n && ops[i].LearnOp? && ops[i].key == k
  }

  /** The hash is injective on the keys in play. */
  ghost predicate Separates(p: Params, ops: seq<Op>) {
    forall i, j :: 0 <= i < |ops| && 0 <= j < |ops| && ops[i].LearnOp? && ops[j].LearnOp? ==>
      (p.hash(ops[i].key) == p.hash(ops[j].key) ==> ops[i].key == ops[j].key)
  }

  /** NEW events that are accepted are for keys the table does not have. */
  ghost predicate OnlyAbsent(p: Params, states: seq<Sys>, ops: seq<Op>)
    requires |states| == |ops| + 1
  {
    forall i, n :: 0 <= i < |ops| && ops[i].LearnOp? && Acts(p, states[i], ops[i]) && n in states[i].ml.table
      ==> n.key != ops[i].key
  }

  /** Between two swaps the idle buffer is read. */
  ghost predicate KeepsUp(p: Params, states: seq<Sys>, ops: seq<Op>)
    requires |states| == |ops| + 1
  {
    forall i, j :: 0 <= i < j < |ops| && SwapsNow(p, states[i], ops[i]) && SwapsNow(p, states[j], ops[j])
      ==> ReadBetween(ops, i, j)
  }

  ghost predicate ReadBetween(ops: seq<Op>, i: nat, j: nat)
    requires j <= |ops|
  {
    exists r :: i < r < j && ops[r].ReadOp?
  }

  ghost predicate Disciplined(p: Params, states: seq<Sys>, ops: seq<Op>)
    requires |states| == |ops| + 1
  {
    Separates(p, ops) && OnlyAbsent(p, states, ops) && KeepsUp(p, states, ops)
  }

  /** An unread idle buffer comes from a swap after which nobody has read. */
  lemma {:induction false} UnreadSince(p: Params, states: seq<Sys>, ops: seq<Op>, n: nat) returns (i: nat)
    requires IsRun(p, states, ops) && n <= |ops| && states[n].unread
    ensures i < n && SwapsNow(p, states[i], ops[i]) && !ReadBetween(ops, i, n)
  {
    assert n > 0;
    var s, op := states[n - 1], ops[n - 1];
    assert states[n - 1 + 1] == Step(p, s, op);
    if SwapsNow(p, s, op) {
      i := n - 1;
    } else {
      i := UnreadSince(p, states, ops, n - 1);
      assert !op.ReadOp?;
    }
  }

  /** Only keys in play are in the current buffer and in the table. */
  ghost predicate AllInPlay(s: Sys, m: map<Key, Port>, ops: seq<Op>, n: nat)
    requires n <= |ops|
  {
    && (forall i :: 0 <= i < |s.ml.log.cur.nodes| ==> InPlay(ops, n, s.ml.log.cur.nodes[i].key))
    && (forall k :: k in m ==> InPlay(ops, n, k))
  }

  lemma InPlayLater(ops: seq<Op>, n: nat, k: Key)
    requires n < |ops|
    ensures InPlay(ops, n, k) ==> InPlay(ops, n + 1, k)
    ensures ops[n].LearnOp? ==> InPlay(ops, n + 1, ops[n].key)
  {
  }

  /** After an action the current buffer has the nodes it had, and that of the event. */
  lemma ActionNodes(l: Log, e: Event, size: nat, plugin: bool, n: Event)
    requires n in Action(l, e, size, plugin).cur.nodes
    ensures n == e || n in l.cur.nodes
  {
  }

  lemma StepNodes(p: Params, s: Sys, op: Op, n: Event)
    requires n in Step(p, s, op).ml.log.cur.nodes
    ensures n in s.ml.log.cur.nodes || (Acts(p, s, op) && n == EventOf(p, op))
  {
    if Acts(p, s, op) {
      ActionNodes(s.ml.log, EventOf(p, op), p.size, p.plugin, n);
    }
  }

  /** The key of an event that is logged next is in play. */
  lemma EventInPlay(p: Params, s: Sys, m: map<Key, Port>, ops: seq<Op>, n: nat)
    requires n < |ops| && TableIs(p, s.ml.table, m) && AllInPlay(s, m, ops, n) && Acts(p, s, ops[n])
    ensures InPlay(ops, n + 1, EventOf(p, ops[n]).key)
    ensures EventOf(p, ops[n]).hash == p.hash(EventOf(p, ops[n]).key)
  {
    if ops[n].AgeOp? {
      ExpireTable(p, s.ml.table, m, ops[n].node);
    }
    InPlayLater(ops, n, EventOf(p, ops[n]).key);
  }

  lemma StepAllInPlay(p: Params, s: Sys, m: map<Key, Port>, ops: seq<Op>, n: nat)
    requires n < |ops| && TableIs(p, s.ml.table, m) && AllInPlay(s, m, ops, n)
    ensures AllInPlay(Step(p, s, ops[n]), NextMap(p, s, m, ops[n]), ops, n + 1)
  {
    var s', m' := Step(p, s, ops[n]), NextMap(p, s, m, ops[n]);
    if Acts(p, s, ops[n]) {
      EventInPlay(p, s, m, ops, n);
    }
    forall i | 0 <= i < |s'.ml.log.cur.nodes| ensures InPlay(ops, n + 1, s'.ml.log.cur.nodes[i].key) {
      StepNodes(p, s, ops[n], s'.ml.log.cur.nodes[i]);
      InPlayLater(ops, n, s'.ml.log.cur.nodes[i].key);
    }
    forall k | k in m' ensures InPlay(ops, n + 1, k) {
      InPlayLater(ops, n, k);
    }
  }

  lemma NothingOverwritten(p: Params, s: Sys, m: map<Key, Port>, ops: seq<Op>, n: nat)
    requires n < |ops| && Inv(p, s, m) && AllInPlay(s, m, ops, n) && Acts(p, s, ops[n]) && Separates(p, ops)
    ensures Harmless(s.ml.log.cur.nodes, Base(s), EventOf(p, ops[n]))
  {
    var nodes, e := s.ml.log.cur.nodes, EventOf(p, ops[n]);
    EventInPlay(p, s, m, ops, n);
    var i := Slot(nodes, e.hash);
    if i < |nodes| {
      assert nodes[i].hash == p.hash(nodes[i].key);
      assert InPlay(ops, n, nodes[i].key);
    }
  }

  lemma KeyHasNode(p: Params, table: Table, m: map<Key, Port>, key: Key)
    requires TableIs(p, table, m)
    ensures key in m ==> exists n :: n in table && n.key == key
  {
    if key in m {
      assert Node(p.hash(key), key, m[key]) in table;
    }
  }

  lemma SwapFindsRead(p: Params, states: seq<Sys>, ops: seq<Op>, n: nat)
    requires IsRun(p, states, ops) && n < |ops| && KeepsUp(p, states, ops) && SwapsNow(p, states[n], ops[n])
    ensures !states[n].unread
  {
    if states[n].unread {
      var i := UnreadSince(p, states, ops, n);
    }
  }

  lemma DisciplineIsOk(p: Params, states: seq<Sys>, ops: seq<Op>, m: map<Key, Port>, n: nat)
    requires IsRun(p, states, ops) && n < |ops| && Disciplined(p, states, ops)
    requires Inv(p, states[n], m) && AllInPlay(states[n], m, ops, n)
    ensures StepOk(p, states[n], m, ops[n])
  {
    var s, op := states[n], ops[n];
    if Acts(p, s, op) {
      NothingOverwritten(p, s, m, ops, n);
    }
    if op.LearnOp? {
      KeyHasNode(p, s.ml.table, m, op.key);
    }
    if SwapsNow(p, s, op) {
      SwapFindsRead(p, states, ops, n);
    }
  }

  /** Event-log replay under the intended discipline: if the hash separates the keys in play,
      NEW events are for absent keys and the reader reads between consecutive swaps, then in
      every state of the run the batches it read plus the current buffer give the table. */
  lemma {:induction false} DisciplinedRunReplays(p: Params, states: seq<Sys>, ops: seq<Op>, n: nat)
    requires p.plugin && p.size > 0 && IsRun(p, states, ops) && Disciplined(p, states, ops) && n <= |ops|
    ensures Inv(p, states[n], MapAfter(p, states, ops, n))
    ensures AllInPlay(states[n], MapAfter(p, states, ops, n), ops, n)
    ensures RunOk(p, states, ops, n)
  {
    if n > 0 {
      var m := MapAfter(p, states, ops, n - 1);
      DisciplinedRunReplays(p, states, ops, n - 1);
      DisciplineIsOk(p, states, ops, m, n - 1);
      RunStep(p, states, ops, n - 1);
      StepAllInPlay(p, states[n - 1], m, ops, n - 1);
      assert states[n - 1 + 1] == Step(p, states[n - 1], ops[n - 1]);
    }
  }

  // ----- capacity in runs -----

  lemma StepKeepsRoom(p: Params, s: Sys, op: Op)
    requires p.plugin && HasRoom(s.ml.log, p.size)
    ensures HasRoom(Step(p, s, op).ml.log, p.size)
  {
    if Acts(p, s, op) {
      ActionKeepsRoom(s.ml.log, EventOf(p, op), p.size);
    }
  }

  lemma RoomAfter(p: Params, s: Sys, op: Op, s': Sys)
    requires p.plugin && HasRoom(s.ml.log, p.size) && s' == Step(p, s, op)
    ensures HasRoom(s'.ml.log, p.size)
  {
    StepKeepsRoom(p, s, op);
  }

  /** In every run with a plugin interface the buffer has room in all states, however hashes
      collide and whatever the reader does. */
  lemma {:induction false} RunHasRoom(p: Params, states: seq<Sys>, ops: seq<Op>, n: nat)
    requires p.plugin && p.size > 0 && IsRun(p, states, ops) && n <= |ops|
    ensures HasRoom(states[n].ml.log, p.size)
  {
    if n > 0 {
      RunHasRoom(p, states, ops, n - 1);
      RoomAfter(p, states[n - 1], ops[n - 1], states[n - 1 + 1]);
    }
  }

  /** So no event is ever given up. */
  lemma RunNeverGivesUp(p: Params, states: seq<Sys>, ops: seq<Op>, n: nat)
    requires p.plugin && p.size > 0 && IsRun(p, states, ops) && n < |ops| && Acts(p, states[n], ops[n])
    ensures !GivesUp(states[n].ml.log, EventOf(p, ops[n]), p.size)
  {
    RunHasRoom(p, states, ops, n);
    ActionKeepsRoom(states[n].ml.log, EventOf(p, ops[n]), p.size);
  }

  /** Two new addresses with the same hash: the event of the first is lost. */
  lemma CollisionExample(p: Params, states: seq<Sys>, k: Key, l: Key, port: Port)
    requires p.plugin && p.size > 2 && p.maxEntries > 1 && k != l && p.hash(k) == p.hash(l)
    requires IsRun(p, states, [LearnOp(k, port, true), LearnOp(l, port, true)])
    ensures k !in Replay(states[2].ml.log.cur.nodes, Base(states[2]))
    ensures Node(p.hash(k), k, port) in states[2].ml.table
  {
    var ops := [LearnOp(k, port, true), LearnOp(l, port, true)];
    assert states[0 + 1] == Step(p, states[0], ops[0]);
    assert states[1 + 1] == Step(p, states[1], ops[1]);
    assert states[1].ml.log.cur == Buffer([LearnEvent(p, k, port)], 1);
    assert states[2].ml.log.cur == Buffer([LearnEvent(p, l, port)], 1);
    ReplayMisses(states[2].ml.log.cur.nodes, Base(states[2]), k);
    assert At(Base(states[2]), k) == None;
  }

  function ExpireEvents(order: seq<Node<Key, Port>>): (es: seq<Event>)
    ensures |es| == |order|
  {
    if order == [] then [] else [ExpireEvent(order[0])] + ExpireEvents(order[1..])
  }

  /** A flush is a run of actions; if it has fewer entries than a whole buffer plus the free
      slots of the current one, it swaps the buffers at most once. */
  lemma FlushSwapsOnce(p: Params, s: Ml, order: seq<Node<Key, Port>>) returns (logs: seq<Log>)
    requires p.plugin && HasRoom(s.log, p.size)
    requires |order| < p.size + (p.size - s.log.cur.actualSize)
    ensures IsActionRun(logs, ExpireEvents(order), p.size)
    ensures logs[0] == s.log && logs[|order|] == ExpireAll(p, s, order).log
    ensures SwapCount(logs, ExpireEvents(order), p.size, |order|) <= 1
  {
    logs := FlushLogs(p, s, order);
    ShortBurstSwapsOnce(logs, ExpireEvents(order), p.size);
  }

  lemma {:induction false} FlushLogs(p: Params, s: Ml, order: seq<Node<Key, Port>>) returns (logs: seq<Log>)
    requires p.plugin && HasRoom(s.log, p.size)
    ensures IsActionRun(logs, ExpireEvents(order), p.size)
    ensures logs[0] == s.log && logs[|order|] == ExpireAll(p, s, order).log
    decreases |order|
  {
    if order == [] {
      logs := [s.log];
    } else {
      var e, s' := ExpireEvent(order[0]), Expire(p, s, order[0]);
      ActionKeepsRoom(s.log, e, p.size);
      var rest := FlushLogs(p, s', order[1..]);
      RunPrepended(s.log, e, rest, ExpireEvents(order[1..]), p.size);
      logs := [s.log] + rest;
      assert logs[|order|] == rest[|order| - 1];
    }
  }

  lemma ExpireNext(p: Params, s: Ml, nodes: seq<Node<Key, Port>>, i: nat)
    requires i < |nodes|
    ensures ExpireAll(p, s, nodes[i..]) == ExpireAll(p, Expire(p, s, nodes[i]), nodes[i + 1..])
    ensures nodes[i] in multiset(nodes[i..])
    ensures multiset(nodes[i..]) - multiset{nodes[i]} == multiset(nodes[i + 1..])
  {
    assert nodes[i..] == [nodes[i]] + nodes[i + 1..];
    assert nodes[i..][1..] == nodes[i + 1..];
  }

  // ----- the object -----

  class MacTable {
    const p: Params
    const table: Map<Key, Port>
    var buffers: seq<Buffer>
    var inUse: nat

    ghost predicate Valid()
      reads this, table
    {
      table.Valid() && table.hash == p.hash && |buffers| == 2 && inUse < 2
    }

    ghost function LogView(): Log
      reads this
      requires |buffers| == 2 && inUse < 2
    {
      Log(buffers[inUse], buffers[1 - inUse])
    }

    ghost function View(): Ml
      reads this, table
      requires Valid()
    {
      Ml(table.Nodes(), LogView())
    }

    constructor (p: Params, buckets: nat)
      requires buckets > 0
      ensures Valid() && this.p == p && fresh(table)
      ensures View() == Ml(multiset{}, Log(CLEARED, CLEARED))
    {
      this.p := p;
      table := new Map<Key, Port>(p.hash, buckets);
      buffers, inUse := [CLEARED, CLEARED], 0;
    }

    /** ops_fpa_mac_learning_process_mlearn. */
    method ProcessMlearn()
      requires |buffers| == 2 && inUse < 2
      modifies this
      ensures |buffers| == 2 && inUse < 2
      ensures LogView() == Process(old(LogView()), p.plugin)
    {
      if p.plugin && |buffers[inUse].nodes| > 0 {
        inUse := 1 - inUse;
        buffers := buffers[inUse := CLEARED];
      }
    }

    /** ops_fpa_mac_learning_mlearn_action_add. */
    method ActionAdd(e: Event)
      requires |buffers| == 2 && inUse < 2
      modifies this
      ensures |buffers| == 2 && inUse < 2
      ensures LogView() == Action(old(LogView()), e, p.size, p.plugin)
    {
      var b := buffers[inUse];
      var i := 0;
      while i < |b.nodes| && b.nodes[i].hash != e.hash
        invariant 0 <= i <= |b.nodes|
        invariant forall j :: 0 <= j < i ==> b.nodes[j].hash != e.hash
      {
        i := i + 1;
      }
      assert i == Slot(b.nodes, e.hash);
      if i < |b.nodes| {
        b := Buffer(b.nodes[i := e], b.actualSize);
      } else if b.actualSize < p.size {
        b := Buffer(b.nodes + [e], b.actualSize + 1);
      }
      buffers := buffers[inUse := b];
      if b.actualSize == p.size {
        ProcessMlearn();
      }
    }

    /** ops_fpa_mac_learning_learn and _insert; `known` says that the port exists. */
    method LearnEntry(key: Key, port: Port, known: bool) returns (err: bool)
      requires Valid()
      modifies this, table
      ensures Valid()
      ensures err == !Accepts(p, old(View()), known)
      ensures View() == Learn(p, old(View()), key, port, known)
    {
      if !known {
        return true;
      }
      var nodes := table.Snapshot();
      assert |multiset(nodes)| == |nodes|;
      if |nodes| >= p.maxEntries {
        return true;
      }
      table.Insert(key, port);
      ActionAdd(LearnEvent(p, key, port));
      return false;
    }

    /** ops_fpa_mac_learning_expire. */
    method ExpireNode(n: Node<Key, Port>)
      requires Valid() && n in table.Nodes()
      modifies this, table
      ensures Valid() && View() == Expire(p, old(View()), n)
    {
      table.Remove(n);
      ActionAdd(ExpireEvent(n));
    }

    /** ops_fpa_mac_learning_age_by_entry: by the hash index, nothing if absent. */
    method AgeByEntry(key: Key)
      requires Valid()
      modifies this, table
      ensures Valid()
      ensures (forall n :: n in old(View()).table ==> n.key != key) ==> View() == old(View())
      ensures (exists n :: n in old(View()).table && n.key == key) ==>
        exists n :: n in old(View()).table && n.key == key && View() == Expire(p, old(View()), n)
    {
      var r := table.FindNode(p.hash(key), key);
      IndexAgreesWithScan(table.buckets, p.hash, key);
      ScanIs(table.buckets, key);
      if r.Some? {
        ExpireNode(r.value);
      }
    }

    /** ops_fpa_mac_learning_lookup_by_vlan_and_mac: by scanning; the same node as the hash
        lookup finds. */
    method LookupByVlanAndMac(key: Key) returns (r: Option<Node<Key, Port>>)
      requires Valid()
      ensures r == Find(table.buckets, p.hash(key), key)
      ensures r.None? <==> forall n :: n in View().table ==> n.key != key
      ensures r.Some? ==> r.value in View().table && r.value.key == key
    {
      r := table.ScanNodes(key);
      IndexAgreesWithScan(table.buckets, p.hash, key);
      ScanIs(table.buckets, key);
    }

    /** ops_fpa_mac_learning_flush. */
    method Flush() returns (ghost order: seq<Node<Key, Port>>)
      requires Valid()
      modifies this, table
      ensures Valid() && multiset(order) == old(View()).table
      ensures View() == ExpireAll(p, old(View()), order) && View().table == multiset{}
    {
      var nodes := table.Snapshot();
      order := nodes;
      ghost var start := View();
      var i := 0;
      while i < |nodes|
        invariant Valid() && i <= |nodes|
        invariant table.Nodes() == multiset(nodes[i..])
        invariant ExpireAll(p, View(), nodes[i..]) == ExpireAll(p, start, nodes)
      {
        ExpireNext(p, View(), nodes, i);
        ExpireNode(nodes[i]);
        i := i + 1;
      }
    }

    /** ops_fpa_ml_hmap_get: the idle buffer, if it holds anything. */
    method HmapGet() returns (r: Option<Buffer>)
      requires Valid()
      ensures r == if LogView().idle.nodes == [] then None else Some(LogView().idle)
    {
      if |buffers[1 - inUse].nodes| > 0 {
        return Some(buffers[1 - inUse]);
      }
      return None;
    }
  }
}
