/** The learning table and its event log told by their history: what is learned, what each
    operation logs, and when the reader has caught up. */
module LearningHistory {
  import opened Options
  import opened Hmap
  import opened EventLog
  import opened MacLearning

  // ----- the log -----

  /** With room, an action stores its event in the current buffer, or, if that fills it, in the
      buffer that becomes idle; the next current buffer is then empty. */
  lemma ActionStores(l: Log, e: Event, size: nat)
    requires HasRoom(l, size)
    ensures var u := Action(l, e, size, true);
      if u.cur.nodes == [] then e in u.idle.nodes else e in u.cur.nodes && u.idle == l.idle
  {
    RecordNodes(l.cur, e, size);
  }

  /** The timer hands a non-empty buffer to the reader and clears the next; an empty one stays. */
  lemma TimerLaw(p: Params, s: Sys)
    requires p.plugin
    ensures var u := Step(p, s, TimerOp);
      && u.ml.log.idle == (if s.ml.log.cur.nodes != [] then s.ml.log.cur else s.ml.log.idle)
      && (s.ml.log.cur.nodes != [] ==> u.ml.log.cur == Buffer([], 0) && u.unread)
      && u.ml.table == s.ml.table && u.view == s.view
  {
  }

  // ----- learning and ageing -----

  /** The newest event is in the buffer it was logged to. */
  ghost predicate Logged(s: Sys, u: Sys, e: Event) {
    if u.ml.log.cur.nodes == [] then e in u.ml.log.idle.nodes && u.unread
    else e in u.ml.log.cur.nodes && u.ml.log.idle == s.ml.log.idle
  }

  /** Learning on a known port with a place in the table inserts exactly one node and logs a NEW
      event with the address and the port; otherwise nothing happens. */
  lemma LearnLaw(p: Params, s: Sys, key: Key, port: Port, known: bool)
    requires p.plugin && HasRoom(s.ml.log, p.size)
    ensures var u := Step(p, s, LearnOp(key, port, known));
      if known && |s.ml.table| < p.maxEntries then
        && u.ml.table == s.ml.table + multiset{Node(p.hash(key), key, port)}
        && Logged(s, u, Event(p.hash(key), key, port, Add))
      else u == s
  {
    if known && |s.ml.table| < p.maxEntries {
      ActionStores(s.ml.log, Event(p.hash(key), key, port, Add), p.size);
    }
  }

  /** Ageing a node removes exactly it and logs a deletion with its address and its port. */
  lemma AgeLaw(p: Params, s: Sys, n: Node<Key, Port>)
    requires p.plugin && HasRoom(s.ml.log, p.size)
    ensures var u := Step(p, s, AgeOp(n));
      if n in s.ml.table then
        && u.ml.table == s.ml.table - multiset{n}
        && Logged(s, u, Event(n.hash, n.key, n.value, Del))
      else u == s
  {
    if n in s.ml.table {
      ActionStores(s.ml.log, Event(n.hash, n.key, n.value, Del), p.size);
    }
  }

  /** A timer and a read after it leave the reader with exactly the learning table. */
  lemma ReaderCatchesUp(p: Params, s: Sys, m: map<Key, Port>)
    requires p.plugin && Inv(p, s, m) && StepOk(p, s, m, TimerOp)
    ensures Step(p, Step(p, s, TimerOp), ReadOp).view == m
    ensures TableIs(p, Step(p, Step(p, s, TimerOp), ReadOp).ml.table, m)
  {
    StepKeepsInvIff(p, s, m, TimerOp);
    var u := Step(p, s, TimerOp);
    assert LogIs(p, u, m) && u.ml.log.cur.nodes == [];
  }

  // ----- runs -----

  lemma LearnTableLaw(p: Params, s: Sys, op: Op)
    ensures op.LearnOp? && op.known && |s.ml.table| < p.maxEntries ==>
      Step(p, s, op).ml.table == s.ml.table + multiset{Node(p.hash(op.key), op.key, op.port)}
    ensures !(op.LearnOp? && op.known && |s.ml.table| < p.maxEntries) ==> Step(p, s, op).ml.table <= s.ml.table
  {
  }

  /** In every run, with or without a plugin interface, the table never has more entries than it
      may. */
  lemma {:induction false} RunBounded(p: Params, states: seq<Sys>, ops: seq<Op>, n: nat)
    requires IsRun(p, states, ops) && n <= |ops|
    ensures |states[n].ml.table| <= p.maxEntries
  {
    if n > 0 {
      RunBounded(p, states, ops, n - 1);
      LearnTableLaw(p, states[n - 1], ops[n - 1]);
      assert states[n - 1 + 1] == Step(p, states[n - 1], ops[n - 1]);
      if states[n].ml.table <= states[n - 1].ml.table {
        SubsetSize(states[n].ml.table, states[n - 1].ml.table);
      }
    }
  }

  lemma SubsetSize<T>(a: multiset<T>, b: multiset<T>)
    requires a <= b
    ensures |a| <= |b|
  {
    assert b == a + (b - a);
  }

  /** In every run each entry was learned, on that port, when the port existed. */
  lemma {:induction false} RunLearnsKnown(p: Params, states: seq<Sys>, ops: seq<Op>, n: nat, e: Node<Key, Port>)
    requires IsRun(p, states, ops) && n <= |ops| && e in states[n].ml.table
    ensures e.hash == p.hash(e.key) && exists i :: 0 <= i < n && ops[i] == LearnOp(e.key, e.value, true)
  {
    LearnTableLaw(p, states[n - 1], ops[n - 1]);
    assert states[n - 1 + 1] == Step(p, states[n - 1], ops[n - 1]);
    if e in states[n - 1].ml.table {
      RunLearnsKnown(p, states, ops, n - 1, e);
    } else {
      assert ops[n - 1] == LearnOp(e.key, e.value, true);
    }
  }

  // ----- the table under the intended discipline -----

  /** The node was learned and neither aged nor learned again since. */
  ghost predicate LastLearned(p: Params, states: seq<Sys>, ops: seq<Op>, n: nat, k: Key, port: Port)
    requires n <= |ops| < |states|
  {
    exists i :: 0 <= i < n && ops[i] == LearnOp(k, port, true) && |states[i].ml.table| < p.maxEntries
      && forall j :: i < j < n ==> !Removes(states[j], ops[j], k)
  }

  /** An entry for the key is aged. */
  predicate Removes(s: Sys, op: Op, k: Key) {
    op.AgeOp? && op.node.key == k && op.node in s.ml.table
  }

  lemma LastLearnedNext(p: Params, states: seq<Sys>, ops: seq<Op>, n: nat, k: Key, port: Port)
    requires n < |ops| < |states|
    ensures LastLearned(p, states, ops, n + 1, k, port) <==>
      || (ops[n] == LearnOp(k, port, true) && |states[n].ml.table| < p.maxEntries)
      || (LastLearned(p, states, ops, n, k, port) && !Removes(states[n], ops[n], k))
  {
  }

  lemma NextMapLaw(p: Params, s: Sys, m: map<Key, Port>, op: Op, k: Key, port: Port)
    requires TableIs(p, s.ml.table, m) && (op.LearnOp? && Acts(p, s, op) ==> op.key !in m)
    ensures At(NextMap(p, s, m, op), k) == Some(port) <==>
      || (op == LearnOp(k, port, true) && |s.ml.table| < p.maxEntries)
      || (At(m, k) == Some(port) && !Removes(s, op, k))
  {
  }

  /** In a disciplined run an address is in the table, with this port, exactly if it was learned
      there and not aged since; and what the reader has or is still to read says the same. */
  lemma {:induction false} TableIsHistory(p: Params, states: seq<Sys>, ops: seq<Op>, n: nat, k: Key, port: Port)
    requires p.plugin && p.size > 0 && IsRun(p, states, ops) && Disciplined(p, states, ops) && n <= |ops|
    ensures Node(p.hash(k), k, port) in states[n].ml.table <==> LastLearned(p, states, ops, n, k, port)
    ensures At(Replay(states[n].ml.log.cur.nodes, Base(states[n])), k) == Some(port) <==> LastLearned(p, states, ops, n, k, port)
  {
    MapIsHistory(p, states, ops, n, k, port);
    DisciplinedRunReplays(p, states, ops, n);
  }

  lemma {:induction false} MapIsHistory(p: Params, states: seq<Sys>, ops: seq<Op>, n: nat, k: Key, port: Port)
    requires p.plugin && p.size > 0 && IsRun(p, states, ops) && Disciplined(p, states, ops) && n <= |ops|
    ensures At(MapAfter(p, states, ops, n), k) == Some(port) <==> LastLearned(p, states, ops, n, k, port)
  {
    if n > 0 {
      var m := MapAfter(p, states, ops, n - 1);
      MapIsHistory(p, states, ops, n - 1, k, port);
      DisciplinedRunReplays(p, states, ops, n - 1);
      DisciplineIsOk(p, states, ops, m, n - 1);
      NextMapLaw(p, states[n - 1], m, ops[n - 1], k, port);
      LastLearnedNext(p, states, ops, n - 1, k, port);
    }
  }
}
