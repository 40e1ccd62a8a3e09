/** NetworkManager's calls are runs of the state machine's process, from entering the call to its completion. */
module CallAgreement {
  import opened ClusterLink
  import opened ClusterProcess
  import opened NetworkNodes
  import opened NetworkWait
  import opened NetworkCalls
  import opened WaitAgreement

  // ---- Runs of one process on its own ----

  ghost predicate Enabled(c: Config, r: Role, v: View, acts: seq<Act>)
    decreases |acts|
  {
    acts == [] || (CanAct(c, v, acts[0]) && Enabled(c, r, DoAct(c, r, v, acts[0]), acts[1..]))
  }

  ghost function AfterActs(c: Config, r: Role, v: View, acts: seq<Act>): View
    requires Enabled(c, r, v, acts)
    decreases |acts|
  {
    if acts == [] then v else AfterActs(c, r, DoAct(c, r, v, acts[0]), acts[1..])
  }

  lemma {:induction false} Join(c: Config, r: Role, v: View, a: seq<Act>, b: seq<Act>)
    requires Enabled(c, r, v, a) && Enabled(c, r, AfterActs(c, r, v, a), b)
    ensures Enabled(c, r, v, a + b) && AfterActs(c, r, v, a + b) == AfterActs(c, r, AfterActs(c, r, v, a), b)
    decreases |a|
  {
    hide CanAct, DoAct;
    if a == [] {
      assert a + b == b;
    } else {
      assert (a + b)[0] == a[0] && (a + b)[1..] == a[1..] + b;
      Join(c, r, DoAct(c, r, v, a[0]), a[1..], b);
    }
  }

  lemma One(c: Config, r: Role, v: View, a: Act)
    requires CanAct(c, v, a)
    ensures Enabled(c, r, v, [a]) && AfterActs(c, r, v, [a]) == DoAct(c, r, v, a)
  {
    hide CanAct, DoAct;
    assert [a][1..] == [];
    var w := DoAct(c, r, v, a);
    assert Enabled(c, r, w, []) && AfterActs(c, r, w, []) == w;
  }

  // The node objects are what the process sees of its links.
  ghost predicate Matches(v: View, ss: seq<NodeState>) {
    && |v.outs| == |v.ins| == |ss|
    && forall i :: 0 <= i < |ss| ==> Linked(v.p.corked, v.outs[i], v.ins[i], ss[i])
  }

  ghost predicate Linked(corked: bool, sending: Link, receiving: Link, s: NodeState) {
    && s.connected && s.open && !s.refuses && s.corked == corked
    && s.wire == sending.wire && s.held == sending.held && Receives(receiving, s)
  }

  ghost predicate FlagsMatch(v: View, ss: seq<NodeState>) {
    |v.p.updated| == |ss| && forall i :: 0 <= i < |ss| ==> v.p.updated[i] == ss[i].updated
  }

  // These actions lead from v to w.
  ghost predicate Leads(c: Config, r: Role, v: View, acts: seq<Act>, w: View) {
    Enabled(c, r, v, acts) && AfterActs(c, r, v, acts) == w
  }

  lemma LeadsNone(c: Config, r: Role, v: View)
    ensures Leads(c, r, v, [], v)
  {}

  lemma LeadsOn(c: Config, r: Role, v: View, a: seq<Act>, w: View, b: seq<Act>, x: View)
    requires Leads(c, r, v, a, w) && Leads(c, r, w, b, x)
    ensures Leads(c, r, v, a + b, x)
  {
    Join(c, r, v, a, b);
  }

  lemma LeadsOne(c: Config, r: Role, v: View, a: Act)
    requires CanAct(c, v, a)
    ensures Leads(c, r, v, [a], DoAct(c, r, v, a))
  {
    One(c, r, v, a);
  }

  // ---- The loop of sendEndBlocks ----

  lemma SendStep(c: Config, r: Role, v: View, ss: seq<NodeState>)
    requires v.p.phase.Sending? && v.p.phase.next < |v.outs| && v.p.op < |c.ops| && Matches(v, ss)
    ensures CanAct(c, v, SendEnd)
    ensures var i, w := v.p.phase.next, DoAct(c, r, v, SendEnd);
            && w == v.(p := v.p.(phase := Sending(i + 1)), outs := w.outs)
            && Matches(w, ss[i := EndTo(ss[i], Temp(CallOf(c.ops[v.p.op])))])
  {
    hide Arrivals, CallOf, Temp;
  }

  lemma {:induction false} SendRun(c: Config, r: Role, v: View, ss: seq<NodeState>) returns (acts: seq<Act>, w: View)
    requires v.p.phase.Sending? && v.p.phase.next <= |v.outs| == |ss| && v.p.op < |c.ops|
    requires Matches(v, EndsTo(ss[..v.p.phase.next], Temp(CallOf(c.ops[v.p.op]))) + ss[v.p.phase.next..])
    ensures Leads(c, r, v, acts, w)
    ensures w == v.(p := v.p.(phase := Sending(|v.outs|)), outs := w.outs)
    ensures Matches(w, EndsTo(ss, Temp(CallOf(c.ops[v.p.op])))) && |w.outs| == |v.outs|
    decreases |ss| - v.p.phase.next
  {
    hide CanAct, DoAct, Leads, Linked, EndTo, EndsTo, CallOf, Temp;
    var k, temp := v.p.phase.next, Temp(CallOf(c.ops[v.p.op]));
    if k == |ss| {
      assert ss[..k] == ss && EndsTo(ss[..k], temp) + ss[k..] == EndsTo(ss, temp);
      LeadsNone(c, r, v);
      return [], v;
    }
    SendStep(c, r, v, EndsTo(ss[..k], temp) + ss[k..]);
    EndsToNext(ss, k, temp);
    LeadsOne(c, r, v, SendEnd);
    acts, w := SendRun(c, r, DoAct(c, r, v, SendEnd), ss);
    LeadsOn(c, r, v, [SendEnd], DoAct(c, r, v, SendEnd), acts, w);
    acts := [SendEnd] + acts;
  }

  // ---- The loops of updateAllNodes ----

  lemma ReceiveStep(c: Config, r: Role, v: View, j: nat, s: NodeState)
    requires v.p.phase == Waiting(Some(j)) && j < |v.ins| && j < |v.p.updated|
    requires Receives(v.ins[j], s) && s.inbox != []
    ensures CanAct(c, v, Receive)
    ensures var w, rest := DoAct(c, r, v, Receive), Handled(s.(inbox := s.inbox[1..]), s.inbox[0].packet);
            && Receives(w.ins[j], rest)
            && w == v.(p := w.p, ins := v.ins[j := w.ins[j]])
            && w.p == if IsEnd(s.inbox[0]) then v.p.(phase := Waiting(None), updated := v.p.updated[j := true]) else v.p
  {}

  lemma {:induction false} ReadRun(c: Config, r: Role, v: View, j: nat, s: NodeState) returns (acts: seq<Act>, w: View)
    requires v.p.phase == Waiting(Some(j)) && j < |v.ins| && j < |v.p.updated|
    requires Receives(v.ins[j], s) && HasFrame(s.inbox) && !s.updated
    ensures Leads(c, r, v, acts, w) && |w.ins| == |v.ins| && Receives(w.ins[j], Took(s))
    ensures w == v.(p := v.p.(phase := Waiting(None), updated := v.p.updated[j := true]), ins := v.ins[j := w.ins[j]])
    decreases |s.inbox|
  {
    hide CanAct, DoAct, Leads, Receives, Took;
    ReceiveStep(c, r, v, j, s);
    LeadsOne(c, r, v, Receive);
    w := DoAct(c, r, v, Receive);
    acts := [Receive];
    if IsEnd(s.inbox[0]) {
      TookLast(s);
    } else {
      TookNext(s);
      var more, x := ReadRun(c, r, w, j, Handled(s.(inbox := s.inbox[1..]), s.inbox[0].packet));
      LeadsOn(c, r, v, acts, w, more, x);
      acts, w := acts + more, x;
    }
  }

  // In updateAllNodes, between two nodes.
  ghost predicate Collects(c: Config, v: View, ss: seq<NodeState>) {
    v.p.phase == Waiting(None) && Matches(v, ss) && FlagsMatch(v, ss)
  }

  lemma VisitRun(c: Config, r: Role, v: View, ss: seq<NodeState>, i: nat) returns (acts: seq<Act>, w: View)
    requires Collects(c, v, ss) && i < |ss| && HasFrame(ss[i].inbox) && !ss[i].updated
    ensures Leads(c, r, v, acts, w) && Collects(c, w, ss[i := Took(ss[i])])
    ensures w == v.(p := v.p.(updated := w.p.updated), ins := w.ins)
  {
    var x := v.(p := v.p.(phase := Waiting(Some(i))));
    assert CanAct(c, v, Pick(i)) && DoAct(c, r, v, Pick(i)) == x;
    LeadsOne(c, r, v, Pick(i));
    hide CanAct, DoAct, Leads, Receives, Took, HasFrame;
    acts, w := ReadRun(c, r, x, i, ss[i]);
    LeadsOn(c, r, v, [Pick(i)], x, acts, w);
    acts := [Pick(i)] + acts;
    TookOnly(ss[i]);
  }

  lemma TookOnly(s: NodeState)
    requires HasFrame(s.inbox)
    ensures Took(s) == s.(updated := true, inbox := Took(s).inbox, handled := Took(s).handled)
  {}

  // However often and in whatever order the nodes are visited.
  lemma {:induction false} VisitsRun(c: Config, r: Role, v: View, ss: seq<NodeState>, seen: seq<nat>, asserts: bool)
    returns (acts: seq<Act>, w: View)
    requires Collects(c, v, ss) && AllSound(ss) && AllWaiting(ss) && Within(seen, |ss|)
    ensures Leads(c, r, v, acts, w) && Collects(c, w, Visits(NetworkNodes.Start(ss), seen, asserts).nodes)
    ensures w == v.(p := v.p.(updated := w.p.updated), ins := w.ins)
    decreases |seen|
  {
    hide Leads, Collects, ReadFrame, Took, HasFrame, NoStop, Tally, Visits;
    VisitsNone(ss, asserts);
    if seen == [] {
      LeadsNone(c, r, v);
      return [], v;
    }
    var front, i := seen[..|seen| - 1], seen[|seen| - 1];
    VisitsLast(ss, seen, asserts);
    acts, w := VisitsRun(c, r, v, ss, front, asserts);
    var p := Visits(NetworkNodes.Start(ss), front, asserts);
    VisitsAre(ss, front, asserts);
    SoundVisits(ss, front, asserts);
    ReadFrameIs(ss[i], asserts);
    if !p.nodes[i].updated {
      assert p.nodes[i] == ss[i];
      var more, x := VisitRun(c, r, w, p.nodes, i);
      LeadsOn(c, r, v, acts, w, more, x);
      acts, w := acts + more, x;
    }
  }

  lemma VisitsNone(ss: seq<NodeState>, asserts: bool)
    ensures Visits(NetworkNodes.Start(ss), [], asserts).nodes == ss
  {}

  lemma VisitsLast(ss: seq<NodeState>, seen: seq<nat>, asserts: bool)
    requires seen != [] && Within(seen, |ss|)
    ensures var p, i := Visits(NetworkNodes.Start(ss), seen[..|seen| - 1], asserts), seen[|seen| - 1];
            Visits(NetworkNodes.Start(ss), seen, asserts) == Visit(p, i, asserts)
  {}

  // A wait that returns, up to the point where the process can leave its own.
  lemma WaitRun(c: Config, r: Role, v: View, ss: seq<NodeState>, reports: seq<Report>, asserts: bool)
    returns (acts: seq<Act>, w: View)
    requires Collects(c, v, ss) && AllSound(ss) && AllWaiting(ss) && Known(reports, |ss|)
    requires Waited(ss, |ss|, reports, asserts).end.Finished?
    ensures Leads(c, r, v, acts, w) && Collects(c, w, Waited(ss, |ss|, reports, asserts).nodes)
    ensures w == v.(p := v.p.(updated := w.p.updated), ins := w.ins) && AllUpdated(w.p.updated)
  {
    hide Leads, Linked, Waited, Visits, Scanned, Tally, NoStop, Took, HasFrame, Visited, ReadsOnce;
    var k := WaitedAt(ss, |ss|, reports, asserts);
    var seen := Scanned(reports[..k]);
    KnownFront(reports, |ss|);
    VisitsAre(ss, seen, asserts);
    SoundVisits(ss, seen, asserts);
    SoundWait(ss, reports, asserts);
    acts, w := VisitsRun(c, r, v, ss, seen, asserts);
    assert Visits(NetworkNodes.Start(ss), seen, asserts).nodes == Waited(ss, |ss|, reports, asserts).nodes;
    forall i | 0 <= i < |ss| ensures Took(ss[i]).updated {
      TookOnly(ss[i]);
    }
  }

  // ---- The calls ----

  lemma StepEnter(c: Config, r: Role, v: View, ss: seq<NodeState>)
    requires CanAct(c, v, Enter) && Matches(v, ss)
    ensures var w, us, call := DoAct(c, r, v, Enter), SetUpdated(ss, false), CallOf(c.ops[v.p.op]);
            && w == v.(p := v.p.(phase := w.p.phase, updated := w.p.updated)) && Matches(w, us) && Matches(w, ss)
            && (if call.Barrier? && r.Master? then Collects(c, w, us) else w.p.phase == Sending(0))
            && (call.Update? ==> FlagsMatch(w, us))
  {
    hide Arrivals;
  }

  lemma SendNone(v: View, ss: seq<NodeState>, temp: int)
    requires Matches(v, ss)
    ensures Matches(v, EndsTo(ss[..0], temp) + ss[0..])
  {
    EndsToNone(ss, temp);
  }

  lemma StepSent(c: Config, r: Role, v: View, ss: seq<NodeState>)
    requires v.p.phase == Sending(|v.outs|) && v.p.op < |c.ops| && Matches(v, ss)
    requires !(CallOf(c.ops[v.p.op]).Barrier? && r.Master?)
    ensures CanAct(c, v, SendDone)
    ensures var w, call := DoAct(c, r, v, SendDone), CallOf(c.ops[v.p.op]);
            if call.Update? then w == v.(p := v.p.(phase := Uncorking))
            else && Collects(c, w, SetUpdated(ss, false))
                 && w == v.(p := v.p.(phase := Waiting(None), updated := w.p.updated))
  {
    hide Arrivals;
  }

  lemma StepUncork(c: Config, r: Role, v: View, ss: seq<NodeState>)
    requires v.p.phase.Uncorking? && Matches(v, ss) && FlagsMatch(v, ss) && AllOpen(ss)
    ensures CanAct(c, v, Uncork)
    ensures var w := DoAct(c, r, v, Uncork);
            && Collects(c, w, PushedAll(ss, false))
            && w == v.(p := v.p.(phase := Waiting(None), corked := false), outs := w.outs)
  {
    hide Arrivals;
  }

  lemma StepWaited(c: Config, r: Role, v: View, ss: seq<NodeState>)
    requires Collects(c, v, ss) && AllUpdated(v.p.updated) && v.p.op < |c.ops|
    ensures CanAct(c, v, WaitDone)
    ensures var w := DoAct(c, r, v, WaitDone);
            && Matches(w, ss)
            && w == v.(p := if CallOf(c.ops[v.p.op]).Barrier? && r.Master? then v.p.(phase := Sending(0))
                            else Returned(v.p))
  {
    hide Linked;
  }

  // The process behind its call.
  function Returned(p: Proc): Proc {
    p.(phase := Idle, op := p.op + 1, done := p.done + 1)
  }

  lemma SentFlags(v: View, us: seq<NodeState>, temp: int)
    requires FlagsMatch(v, us)
    ensures FlagsMatch(v, EndsTo(us, temp))
  {}

  // What a process does in one call, as the method does it: w is v after the call, with what was received
  // and sent, and the node objects are again what the process sees.
  ghost predicate CallDone(c: Config, r: Role, v: View, acts: seq<Act>, w: View, ss: seq<NodeState>) {
    && Leads(c, r, v, acts, w) && Matches(w, ss)
    && w.p == Returned(v.p).(corked := w.p.corked, updated := w.p.updated)
  }

  // update up to its wait.
  lemma SendsRun(c: Config, r: Role, v: View, ss: seq<NodeState>) returns (acts: seq<Act>, w: View)
    requires CanAct(c, v, Enter) && CallOf(c.ops[v.p.op]).Update? && Matches(v, ss) && AllSound(ss)
    ensures Leads(c, r, v, acts, w) && Collects(c, w, AllSent(ss, CallOf(c.ops[v.p.op]).temp))
    ensures w == v.(p := v.p.(phase := Waiting(None), corked := false, updated := w.p.updated), outs := w.outs)
  {
    hide DoAct, Leads, Matches, FlagsMatch, Collects, EndTo, EndsTo, SetUpdated, PushedAll, AllOpen, HasFrame, CallOf;
    var temp, us := CallOf(c.ops[v.p.op]).temp, SetUpdated(ss, false);
    StepEnter(c, r, v, ss);
    LeadsOne(c, r, v, Enter);
    var v1 := DoAct(c, r, v, Enter);
    SendNone(v1, us, temp);
    MatchesSize(v, ss);
    MatchesSize(v1, us);
    var sends, v2 := SendRun(c, r, v1, us);
    LeadsOn(c, r, v, [Enter], v1, sends, v2);
    MatchesSize(v2, EndsTo(us, temp));
    StepSent(c, r, v2, EndsTo(us, temp));
    LeadsOne(c, r, v2, SendDone);
    var v3 := DoAct(c, r, v2, SendDone);
    LeadsOn(c, r, v, [Enter] + sends, v2, [SendDone], v3);
    SentFlags(v1, us, temp);
    SameFlags(v1, v2, EndsTo(us, temp));
    SameMatch(v2, v3, EndsTo(us, temp));
    SentSound(ss, temp);
    StepUncork(c, r, v3, EndsTo(us, temp));
    LeadsOne(c, r, v3, Uncork);
    w := DoAct(c, r, v3, Uncork);
    LeadsOn(c, r, v, [Enter] + sends + [SendDone], v3, [Uncork], w);
    acts := [Enter] + sends + [SendDone] + [Uncork];
  }

  // update, from entering the call on, is a run of the process that completes it.
  lemma UpdateRun(c: Config, r: Role, v: View, ss: seq<NodeState>, reports: seq<Report>, asserts: bool)
    returns (acts: seq<Act>, w: View)
    requires CanAct(c, v, Enter) && CallOf(c.ops[v.p.op]).Update?
    requires Matches(v, ss) && AllSound(ss) && Known(reports, |ss|)
    requires Updated(ss, CallOf(c.ops[v.p.op]).temp, reports, asserts).end.Finished?
    ensures CallDone(c, r, v, acts, w, Updated(ss, CallOf(c.ops[v.p.op]).temp, reports, asserts).nodes)
    ensures !w.p.corked
  {
    hide DoAct, Leads, Matches, FlagsMatch, Collects, AllSent, Updated, Waited, AllUpdated, AllWaiting, AllSound,
         AllStayOpen, SentOpen, Known, CallOf;
    var temp := CallOf(c.ops[v.p.op]).temp;
    var sends, v1 := SendsRun(c, r, v, ss);
    SentSound(ss, temp);
    SoundStaysOpen(ss);
    SentSame(ss, temp);
    UpdatedIs(ss, temp, reports, asserts);
    var waits, v2 := WaitRun(c, r, v1, AllSent(ss, temp), reports, asserts);
    LeadsOn(c, r, v, sends, v1, waits, v2);
    StepWaited(c, r, v2, Waited(AllSent(ss, temp), |ss|, reports, asserts).nodes);
    LeadsOne(c, r, v2, WaitDone);
    w := DoAct(c, r, v2, WaitDone);
    acts := sends + waits + [WaitDone];
    LeadsOn(c, r, v, sends + waits, v2, [WaitDone], w);
  }

  lemma MatchesSize(v: View, ss: seq<NodeState>)
    requires Matches(v, ss)
    ensures |v.outs| == |v.ins| == |ss|
  {}

  lemma SameFlags(v: View, w: View, ss: seq<NodeState>)
    requires v.p.updated == w.p.updated
    ensures FlagsMatch(v, ss) == FlagsMatch(w, ss)
  {}

  lemma SameMatch(v: View, w: View, ss: seq<NodeState>)
    requires v.ins == w.ins && v.outs == w.outs && v.p.corked == w.p.corked && v.p.updated == w.p.updated
    ensures Matches(v, ss) == Matches(w, ss) && FlagsMatch(v, ss) == FlagsMatch(w, ss)
  {}

  // So is barrier, on the master and on a slave.
  lemma MasterRun(c: Config, v: View, ss: seq<NodeState>, reports: seq<Report>, asserts: bool)
    returns (acts: seq<Act>, w: View)
    requires CanAct(c, v, Enter) && CallOf(c.ops[v.p.op]).Barrier?
    requires Matches(v, ss) && AllSound(ss) && Known(reports, |ss|)
    requires MasterBarrier(ss, reports, asserts).end.Finished?
    ensures CallDone(c, Master, v, acts, w, MasterBarrier(ss, reports, asserts).nodes)
    ensures w.p.corked == v.p.corked
  {
    hide DoAct, Leads, Matches, FlagsMatch, Collects, EndTo, EndsTo, SetUpdated, Waited, AllUpdated, Sound, HasFrame,
         CallOf;
    var us := SetUpdated(ss, false);
    StepEnter(c, Master, v, ss);
    LeadsOne(c, Master, v, Enter);
    var v1 := DoAct(c, Master, v, Enter);
    SetSame(ss);
    SetSound(ss);
    var waits, v2 := WaitRun(c, Master, v1, us, reports, asserts);
    LeadsOn(c, Master, v, [Enter], v1, waits, v2);
    var ts := Waited(us, |ss|, reports, asserts).nodes;
    StepWaited(c, Master, v2, ts);
    LeadsOne(c, Master, v2, WaitDone);
    var v3 := DoAct(c, Master, v2, WaitDone);
    LeadsOn(c, Master, v, [Enter] + waits, v2, [WaitDone], v3);
    SendNone(v3, ts, 0);
    MatchesSize(v3, ts);
    var sends, v4 := SendRun(c, Master, v3, ts);
    LeadsOn(c, Master, v, [Enter] + waits + [WaitDone], v3, sends, v4);
    StepDone(c, v4, EndsTo(ts, 0));
    LeadsOne(c, Master, v4, SendDone);
    w := DoAct(c, Master, v4, SendDone);
    LeadsOn(c, Master, v, [Enter] + waits + [WaitDone] + sends, v4, [SendDone], w);
    acts := [Enter] + waits + [WaitDone] + sends + [SendDone];
  }

  lemma StepDone(c: Config, v: View, ss: seq<NodeState>)
    requires v.p.phase == Sending(|v.outs|) && v.p.op < |c.ops| && CallOf(c.ops[v.p.op]).Barrier? && Matches(v, ss)
    ensures CanAct(c, v, SendDone)
    ensures var w := DoAct(c, Master, v, SendDone); w == v.(p := Returned(v.p)) && Matches(w, ss)
  {
    hide Linked;
  }

  lemma SetSound(ss: seq<NodeState>)
    requires AllSound(ss)
    ensures AllSound(SetUpdated(ss, false)) && AllSound(SetUpdated(EndsTo(ss, 0), false))
    ensures EndCount(ss) == |ss|
  {
    hide HasFrame, EndCount;
    SoundCount(ss);
  }

  lemma SlaveRun(c: Config, v: View, ss: seq<NodeState>, reports: seq<Report>, asserts: bool)
    returns (acts: seq<Act>, w: View)
    requires CanAct(c, v, Enter) && CallOf(c.ops[v.p.op]).Barrier?
    requires Matches(v, ss) && AllSound(ss) && Known(reports, |ss|)
    requires SlaveBarrier(ss, reports, asserts).end.Finished?
    ensures CallDone(c, Slave, v, acts, w, SlaveBarrier(ss, reports, asserts).nodes)
    ensures w.p.corked == v.p.corked
  {
    hide DoAct, Leads, Matches, FlagsMatch, Collects, EndTo, EndsTo, SetUpdated, Waited, AllUpdated, Sound, HasFrame,
         CallOf;
    StepEnter(c, Slave, v, ss);
    LeadsOne(c, Slave, v, Enter);
    var v1 := DoAct(c, Slave, v, Enter);
    SendNone(v1, ss, 0);
    MatchesSize(v, ss);
    MatchesSize(v1, ss);
    var sends, v2 := SendRun(c, Slave, v1, ss);
    LeadsOn(c, Slave, v, [Enter], v1, sends, v2);
    MatchesSize(v2, EndsTo(ss, 0));
    StepSent(c, Slave, v2, EndsTo(ss, 0));
    LeadsOne(c, Slave, v2, SendDone);
    var v3 := DoAct(c, Slave, v2, SendDone);
    LeadsOn(c, Slave, v, [Enter] + sends, v2, [SendDone], v3);
    var us := SetUpdated(EndsTo(ss, 0), false);
    SetSame(EndsTo(ss, 0));
    SetSound(ss);
    var waits, v4 := WaitRun(c, Slave, v3, us, reports, asserts);
    LeadsOn(c, Slave, v, [Enter] + sends + [SendDone], v3, waits, v4);
    StepWaited(c, Slave, v4, Waited(us, |ss|, reports, asserts).nodes);
    LeadsOne(c, Slave, v4, WaitDone);
    w := DoAct(c, Slave, v4, WaitDone);
    LeadsOn(c, Slave, v, [Enter] + sends + [SendDone] + waits, v4, [WaitDone], w);
    acts := [Enter] + sends + [SendDone] + waits + [WaitDone];
  }
}
