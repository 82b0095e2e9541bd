/** What the L2 configuration does to frames: the VLAN a frame is given when it enters a port,
    and whether it leaves a port and with its tag. The tables are read here as the switch
    reads them, entry by entry. */
module L2Frames {
  import opened Options
  import opened FlowTable
  import opened Vidx
  import opened VlanTables
  import opened Ofproto
  import opened L2Runs
  import opened L2Settings

  /** `tag` is the VLAN in the frame's tag, if it has one. */
  predicate Matches(b: VlanMatch, tag: Option<Vid>) {
    match tag case None => !b.tagged case Some(v) => b.tagged && b.vid == v
  }

  function VlanAfter(b: VlanMatch, tag: Option<Vid>): Option<Vid> {
    match b.newTag case SetVid(v) => Some(v) case Ignore => tag
  }

  /** The VLANs that the matching flows give to a frame entering the port. */
  ghost function Classified(t: Tables, pid: Pid, tag: Option<Vid>): set<Option<Vid>> {
    set f | f in t.flows && f.body.inPort == pid && Matches(f.body, tag) :: VlanAfter(f.body, tag)
  }

  /** Whether a frame of the VLAN leaves through the port, and if so whether its tag is popped. */
  function Sent(t: Tables, pid: Pid, v: Vid): Option<bool> {
    if Gid(pid, v) in t.groups then Some(t.groups[Gid(pid, v)]) else None
  }

  lemma ClassifiedIs(t: Tables, pid: Pid, tag: Option<Vid>, o: Option<Vid>)
    requires WellFormed(t)
    ensures o in Classified(t, pid, tag) <==>
      o.Some? && Ingress(o.value, tag.Some?) in FetchMap(t, pid) && (tag.Some? ==> o == tag)
  {
    if o in Classified(t, pid, tag) {
      var f :| f in t.flows && f.body.inPort == pid && Matches(f.body, tag) && o == VlanAfter(f.body, tag);
      assert f == FlowOf(f.body.inPort, Ingress(f.body.vid, f.body.tagged));
    }
    if o.Some? && Ingress(o.value, tag.Some?) in FetchMap(t, pid) && (tag.Some? ==> o == tag) {
      FetchIngress(t, pid, Ingress(o.value, tag.Some?));
      var f := FlowOf(pid, Ingress(o.value, tag.Some?));
      assert f in t.flows && Matches(f.body, tag) && VlanAfter(f.body, tag) == o;
    }
  }

  lemma SentIs(t: Tables, pid: Pid, v: Vid, pop: bool)
    requires WellFormed(t)
    ensures Sent(t, pid, v) == Some(pop) <==> Egress(v, pop) in FetchMap(t, pid)
  {
    FetchEgress(t, pid, Egress(v, pop));
  }

  /** What the settings promise: an untagged frame gets the port's own VLAN, a tagged frame
      keeps its trunk VLAN, and nothing enters or leaves on a disabled VLAN. */
  function IngressVlans(c: Settings, enabled: set<Vid>, tag: Option<Vid>): set<Option<Vid>> {
    match tag
    case None => if c.mode != Trunk && c.vlan in enabled then {Some(c.vlan)} else {}
    case Some(v) => if v in c.trunks && v in enabled then {tag} else {}
  }

  function EgressTag(c: Settings, enabled: set<Vid>, v: Vid): Option<bool> {
    if v !in enabled then None
    else if c.vlan == v && (c.mode == Access || c.mode == NativeUntagged) then Some(true)
    else if v in c.trunks || (c.vlan == v && c.mode == NativeTagged) then Some(false)
    else None
  }

  ghost predicate PortForwards(t: Tables, p: Pid, c: Settings, enabled: set<Vid>) {
    && (forall tag :: Classified(t, p, tag) == IngressVlans(c, enabled, tag))
    && (forall v :: Sent(t, p, v) == EgressTag(c, enabled, v))
  }

  ghost predicate PortSilent(t: Tables, p: Pid) {
    && (forall tag :: Classified(t, p, tag) == {})
    && (forall v :: Sent(t, p, v) == None)
  }

  lemma IngressLaw(t: Tables, p: Pid, c: Settings, enabled: set<Vid>, tag: Option<Vid>)
    requires WellFormed(t) && FetchMap(t, p) == On(Desired(c), enabled)
    ensures Classified(t, p, tag) == IngressVlans(c, enabled, tag)
  {
    forall o: Option<Vid> ensures o in Classified(t, p, tag) <==> o in IngressVlans(c, enabled, tag) {
      ClassifiedIs(t, p, tag, o);
      if o.Some? {
        DesiredMember(c, Ingress(o.value, tag.Some?));
      }
    }
  }

  lemma EgressLaw(t: Tables, p: Pid, c: Settings, enabled: set<Vid>, v: Vid)
    requires WellFormed(t) && FetchMap(t, p) == On(Desired(c), enabled)
    ensures Sent(t, p, v) == EgressTag(c, enabled, v)
  {
    SentIs(t, p, v, true);
    SentIs(t, p, v, false);
    DesiredMember(c, Egress(v, true));
    DesiredMember(c, Egress(v, false));
  }

  /** Under the reconciler invariant frames are treated as the settings promise. */
  lemma InvForwards(s: State, want: map<Pid, set<Vidx>>, p: Pid, c: Settings)
    requires Inv(s, want) && p in want && want[p] == Desired(c)
    ensures PortForwards(s.tables, p, c, s.enabled)
  {
    assert PortInv(s, want, p);
    forall tag ensures Classified(s.tables, p, tag) == IngressVlans(c, s.enabled, tag) {
      IngressLaw(s.tables, p, c, s.enabled, tag);
    }
    forall v ensures Sent(s.tables, p, v) == EgressTag(c, s.enabled, v) {
      EgressLaw(s.tables, p, c, s.enabled, v);
    }
  }

  /** A port that was never configured takes part in no VLAN. */
  lemma InvSilent(s: State, want: map<Pid, set<Vidx>>, p: Pid)
    requires Inv(s, want) && p !in want
    ensures PortSilent(s.tables, p)
  {
    assert PortInv(s, want, p);
    forall tag ensures Classified(s.tables, p, tag) == {} {
      forall o: Option<Vid> ensures o !in Classified(s.tables, p, tag) {
        ClassifiedIs(s.tables, p, tag, o);
      }
    }
    forall v ensures Sent(s.tables, p, v) == None {
      SentIs(s.tables, p, v, true);
      SentIs(s.tables, p, v, false);
    }
  }

  // ----- runs -----

  /** The port was configured with these settings, and with no others since. */
  ghost predicate LastConfig(ops: seq<Op>, n: nat, p: Pid, c: Settings)
    requires n <= |ops|
  {
    exists i :: 0 <= i < n && ops[i] == Config(p, c)
      && forall j :: i < j < n ==> !(ops[j].Config? && ops[j].pid == p)
  }

  /** The VLAN was enabled, and not disabled since. */
  ghost predicate LastEnabled(ops: seq<Op>, n: nat, v: Vid)
    requires n <= |ops|
  {
    exists i :: 0 <= i < n && ops[i] == Vlan(v, true) && forall j :: i < j < n ==> ops[j] != Vlan(v, false)
  }

  lemma LastConfigNext(ops: seq<Op>, n: nat, p: Pid, c: Settings)
    requires n < |ops|
    ensures LastConfig(ops, n + 1, p, c) <==>
      ops[n] == Config(p, c) || (LastConfig(ops, n, p, c) && !(ops[n].Config? && ops[n].pid == p))
  {
  }

  lemma LastEnabledNext(ops: seq<Op>, n: nat, v: Vid)
    requires n < |ops|
    ensures LastEnabled(ops, n + 1, v) <==> ops[n] == Vlan(v, true) || (LastEnabled(ops, n, v) && ops[n] != Vlan(v, false))
  {
  }

  lemma {:induction false} ConfIsLast(ops: seq<Op>, n: nat, p: Pid, c: Settings)
    requires n <= |ops|
    ensures p in Conf(ops, n) && Conf(ops, n)[p] == c <==> LastConfig(ops, n, p, c)
  {
    if n > 0 {
      ConfIsLast(ops, n - 1, p, c);
      LastConfigNext(ops, n - 1, p, c);
    }
  }

  lemma {:induction false} EnabledIsLast(ops: seq<Op>, n: nat, v: Vid)
    requires n <= |ops|
    ensures v in Enabled(ops, n) <==> LastEnabled(ops, n, v)
  {
    if n > 0 {
      EnabledIsLast(ops, n - 1, v);
      LastEnabledNext(ops, n - 1, v);
    }
  }

  /** End to end: in every state of a run of harmless operations, a port treats frames as its
      last settings and the last state of every VLAN promise, and a port that was never
      configured carries nothing. */
  lemma RunForwards(states: seq<State>, ops: seq<Op>, dup: Duplicate, n: nat, p: Pid, enabled: set<Vid>)
    requires IsRun(states, ops, dup) && HistoryOk(ops, |ops|) && n <= |ops|
    requires forall v :: v in enabled <==> LastEnabled(ops, n, v)
    ensures forall c :: LastConfig(ops, n, p, c) ==> PortForwards(states[n].tables, p, c, enabled)
    ensures (forall c :: !LastConfig(ops, n, p, c)) ==> PortSilent(states[n].tables, p)
  {
    OkHistoryIsSafe(states, ops, dup, |ops|);
    SafeRunKeepsInv(states, ops, dup, n);
    RunEnabled(states, ops, dup, n);
    ConfWanted(ops, n);
    forall v ensures v in enabled <==> v in states[n].enabled {
      EnabledIsLast(ops, n, v);
    }
    assert enabled == states[n].enabled;
    forall c | LastConfig(ops, n, p, c) ensures PortForwards(states[n].tables, p, c, enabled) {
      ConfIsLast(ops, n, p, c);
      InvForwards(states[n], Wanted(ops, n), p, c);
    }
    if forall c :: !LastConfig(ops, n, p, c) {
      if p in Conf(ops, n) {
        ConfIsLast(ops, n, p, Conf(ops, n)[p]);
      }
      InvSilent(states[n], Wanted(ops, n), p);
    }
  }
}
