/** Exactly when NetworkManager::update and NetworkManager::barrier return, and what that means. */
module NetworkCalls {
  import opened ClusterLink
  import opened NetworkNodes
  import opened NetworkWait

  // ---- When the calls return, for every state of the nodes and every sequence of reports ----

  // Sending to this node would not leave it without a socket.
  predicate StaysOpen(s: NodeState) {
    s.open && !(s.connected && s.refuses)
  }

  predicate AllStayOpen(ss: seq<NodeState>) {
    forall i :: 0 <= i < |ss| ==> StaysOpen(ss[i])
  }

  // update dereferences a node without a socket when it uncorks, also one that sendEndBlocks has just shut down.
  // Otherwise it returns when exactly as many visits count as end blocks went out.
  lemma UpdateReturnsIff(ss: seq<NodeState>, temp: int, reports: seq<Report>, asserts: bool)
    requires Known(reports, |ss|)
    ensures var end := Updated(ss, temp, reports, asserts).end;
            && (end.Crashed? <==> !AllStayOpen(ss))
            && (end.Finished? <==> AllStayOpen(ss) && EndsBy(ss, EndCount(ss), reports, asserts))
  {
    hide EndsBy, Waited, AllSent, SentOpen, AllStayOpen, AllWaiting, SameArrivals, Known;
    OpenIff(ss, temp);
    if AllStayOpen(ss) {
      var us := AllSent(ss, temp);
      SentSame(ss, temp);
      WaitedIs(us, EndCount(ss), reports, asserts);
      SameEnds(ss, us, EndCount(ss), reports, asserts);
    }
  }

  lemma OpenIff(ss: seq<NodeState>, temp: int)
    ensures SentOpen(ss, temp) <==> AllStayOpen(ss)
  {
    var ts := EndsTo(SetUpdated(ss, false), temp);
    assert forall i :: 0 <= i < |ss| ==> ts[i].open == StaysOpen(ss[i]);
  }

  lemma SentSame(ss: seq<NodeState>, temp: int)
    requires AllStayOpen(ss)
    ensures var us := AllSent(ss, temp);
            && AllWaiting(us) && SameArrivals(ss, us)
            && forall i :: 0 <= i < |ss| ==>
                 us[i] == Pushed(EndTo(ss[i].(updated := false), temp), false)
  {}

  lemma SetSame(ss: seq<NodeState>)
    ensures AllWaiting(SetUpdated(ss, false)) && SameArrivals(ss, SetUpdated(ss, false))
  {}

  // The master waits for as many visits as there are nodes, connected or not.
  lemma MasterReturnsIff(ss: seq<NodeState>, reports: seq<Report>, asserts: bool)
    requires Known(reports, |ss|)
    ensures var end := MasterBarrier(ss, reports, asserts).end;
            && (end.Finished? <==> EndsBy(ss, |ss|, reports, asserts)) && !end.Crashed?
  {
    hide EndsBy, Waited, SameArrivals, AllWaiting, Known;
    var us := SetUpdated(ss, false);
    SetSame(ss);
    WaitedIs(us, |ss|, reports, asserts);
    SameEnds(ss, us, |ss|, reports, asserts);
  }

  lemma SlaveReturnsIff(ss: seq<NodeState>, reports: seq<Report>, asserts: bool)
    requires Known(reports, |ss|)
    ensures var end := SlaveBarrier(ss, reports, asserts).end;
            && (end.Finished? <==> EndsBy(EndsTo(ss, 0), EndCount(ss), reports, asserts)) && !end.Crashed?
  {
    hide EndsBy, Waited, EndTo, SameArrivals, AllWaiting, Known;
    var us := SetUpdated(EndsTo(ss, 0), false);
    SetSame(EndsTo(ss, 0));
    WaitedIs(us, EndCount(ss), reports, asserts);
    SameEnds(EndsTo(ss, 0), us, EndCount(ss), reports, asserts);
  }

  // ---- A cluster that has lost nobody ----

  predicate Sound(s: NodeState) {
    s.connected && s.open && !s.refuses && HasFrame(s.inbox)
  }

  predicate AllSound(ss: seq<NodeState>) {
    forall i :: 0 <= i < |ss| ==> Sound(ss[i])
  }

  ghost predicate Covers(seen: seq<nat>, n: nat) {
    forall i :: 0 <= i < n ==> i in seen
  }

  // Before an exception leaves the reactor, every node was reported, or left over from an earlier report.
  ghost predicate AllReported(n: nat, reports: seq<Report>) {
    exists r :: 0 <= r <= |reports| && NoFailure(reports[..r]) && Covers(Scanned(reports[..r]), n)
  }

  lemma SoundVisits(ss: seq<NodeState>, seen: seq<nat>, asserts: bool)
    requires AllSound(ss) && Within(seen, |ss|)
    ensures NoStop(ss, seen, asserts)
    ensures |Tally(ss, seen, asserts)| <= |ss|
    ensures |Tally(ss, seen, asserts)| == |ss| <==> Covers(seen, |ss|)
  {
    hide Tally, LostVisits, HasFrame;
    TallyCount(ss, seen, asserts);
    NoLostVisits(ss, seen, asserts);
    CountOfAll(ss, seen, asserts);
  }

  lemma SoundEndsIff(ss: seq<NodeState>, reports: seq<Report>, asserts: bool)
    requires AllSound(ss) && Known(reports, |ss|)
    ensures EndsBy(ss, |ss|, reports, asserts) <==> AllReported(|ss|, reports)
  {
    hide Tally, NoStop, AllSound, Scanned;
    forall r | 0 <= r <= |reports|
      ensures EndsAfter(ss, |ss|, reports[..r], asserts) <==>
                NoFailure(reports[..r]) && Covers(Scanned(reports[..r]), |ss|)
    {
      SoundVisits(ss, Scanned(reports[..r]), asserts);
    }
  }

  lemma {:induction false} SoundCount(ss: seq<NodeState>)
    requires AllSound(ss)
    ensures EndCount(ss) == |ss| && |EndEvents(ss)| == |ss|
    ensures forall i :: 0 <= i < |ss| ==> EndEvents(ss)[i] == EndSent(i)
    decreases |ss|
  {
    if ss != [] {
      SoundCount(ss[..|ss| - 1]);
    }
  }

  // After update: what was held back is out, behind or before the end block, and one frame was read.
  ghost predicate UpdateDone(s: NodeState, p: Packet, t: NodeState) {
    && HasFrame(s.inbox)
    && t == Took(Pushed(Sent(s.(updated := false), p), false))
    && t.wire == (if s.corked then s.wire + s.held + [p] else s.wire + [p] + s.held)
  }

  ghost predicate BarrierDone(s: NodeState, t: NodeState) {
    HasFrame(s.inbox) && t == Took(Sent(s.(updated := false), EndBlock(0)))
  }

  // Each of n nodes was read once.
  ghost predicate ReadsOnce(es: seq<Event>, n: nat) {
    && |es| == n && OnceEach(es)
    && (forall k :: 0 <= k < |es| ==> es[k].FrameRead? && es[k].node < n)
    && (forall i :: 0 <= i < n ==> FrameRead(i) in es)
  }

  // A wait of a sound cluster that returned.
  lemma SoundWait(ss: seq<NodeState>, reports: seq<Report>, asserts: bool)
    requires AllSound(ss) && AllWaiting(ss) && Known(reports, |ss|)
    requires Waited(ss, |ss|, reports, asserts).end.Finished?
    ensures var p := Waited(ss, |ss|, reports, asserts);
            && ReadsOnce(p.events, |ss|)
            && forall i :: 0 <= i < |ss| ==> p.nodes[i] == Took(ss[i])
  {
    hide Waited, Tally, HasFrame, NoStop, ReadFrame, Scanned;
    var r := WaitedAt(ss, |ss|, reports, asserts);
    var p, seen := Waited(ss, |ss|, reports, asserts), Scanned(reports[..r]);
    KnownFront(reports, |ss|);
    SoundVisits(ss, seen, asserts);
    TallyOnce(ss, seen, asserts);
    forall i | 0 <= i < |ss| ensures p.nodes[i] == Took(ss[i]) && FrameRead(i) in p.events {
      ReadFrameIs(ss[i], asserts);
      TallyHas(ss, seen, i, asserts);
    }
    TallyOf(ss, seen, asserts);
  }

  lemma {:induction false} TallyOf(ss: seq<NodeState>, seen: seq<nat>, asserts: bool)
    requires AllSound(ss) && Within(seen, |ss|)
    ensures forall k :: 0 <= k < |Tally(ss, seen, asserts)| ==>
              Tally(ss, seen, asserts)[k].FrameRead? && Tally(ss, seen, asserts)[k].node < |ss|
    decreases |seen|
  {
    hide HasFrame;
    if seen != [] {
      TallyOf(ss, seen[..|seen| - 1], asserts);
    }
  }

  // In a sound cluster update returns if and only if every node is reported. Then every node got one end block, in
  // order, all output is out, and only after that each node was read, by exactly one frame.
  lemma UpdateOfSound(ss: seq<NodeState>, temp: int, reports: seq<Report>, asserts: bool)
    requires AllSound(ss) && Known(reports, |ss|)
    ensures var p := Updated(ss, temp, reports, asserts);
            && (p.end.Finished? <==> AllReported(|ss|, reports))
            && (p.end.Finished? ==>
                  && (forall i :: 0 <= i < |ss| ==> UpdateDone(ss[i], EndBlock(temp), p.nodes[i]))
                  && exists es :: ReadsOnce(es, |ss|) && p.events == EndEvents(ss) + [Corked(false)] + es)
  {
    hide EndsBy, Waited, AllReported, Took, HasFrame, ReadsOnce, EndEvents, Updated, AllSent, AllSound, UpdateDone;
    SoundStaysOpen(ss);
    UpdateReturnsIff(ss, temp, reports, asserts);
    SoundCount(ss);
    SoundEndsIff(ss, reports, asserts);
    SentSame(ss, temp);
    SentSound(ss, temp);
    UpdatedIs(ss, temp, reports, asserts);
    if Updated(ss, temp, reports, asserts).end.Finished? {
      SoundWait(AllSent(ss, temp), reports, asserts);
    }
  }

  lemma SoundStaysOpen(ss: seq<NodeState>)
    requires AllSound(ss)
    ensures AllStayOpen(ss)
  {}

  lemma UpdatedIs(ss: seq<NodeState>, temp: int, reports: seq<Report>, asserts: bool)
    requires AllSound(ss) && Known(reports, |ss|)
    ensures var p, q := Updated(ss, temp, reports, asserts), Waited(AllSent(ss, temp), |ss|, reports, asserts);
            p.end == q.end && p.nodes == q.nodes && p.events == EndEvents(ss) + [Corked(false)] + q.events
  {
    hide Waited, EndEvents, EndCount, AllSent, SentOpen, AllSound;
    SoundCount(ss);
    SentSound(ss, temp);
  }

  lemma SentSound(ss: seq<NodeState>, temp: int)
    requires AllSound(ss)
    ensures AllSound(AllSent(ss, temp)) && SentOpen(ss, temp)
    ensures forall i :: 0 <= i < |ss| ==>
              && AllSent(ss, temp)[i] == Pushed(Sent(ss[i].(updated := false), EndBlock(temp)), false)
              && UpdateDone(ss[i], EndBlock(temp), Took(AllSent(ss, temp)[i]))
  {
    hide HasFrame, FrameLength;
  }

  lemma TookThenSent(s: NodeState, p: Packet)
    requires HasFrame(s.inbox)
    ensures HasFrame(Sent(s, p).inbox) && Sent(Took(s), p) == Took(Sent(s, p))
  {}

  // So does barrier, on the master with reading first, on a slave with sending first.
  lemma MasterOfSound(ss: seq<NodeState>, reports: seq<Report>, asserts: bool)
    requires AllSound(ss) && Known(reports, |ss|)
    ensures var p := MasterBarrier(ss, reports, asserts);
            && (p.end.Finished? <==> AllReported(|ss|, reports))
            && (p.end.Finished? ==>
                  && (forall i :: 0 <= i < |ss| ==> BarrierDone(ss[i], p.nodes[i]))
                  && exists es :: ReadsOnce(es, |ss|) && p.events == es + EndEvents(ss))
  {
    hide EndsBy, Waited, AllReported, Took, HasFrame, ReadsOnce, EndEvents;
    MasterReturnsIff(ss, reports, asserts);
    SoundEndsIff(ss, reports, asserts);
    var us := SetUpdated(ss, false);
    var p := Waited(us, |ss|, reports, asserts);
    if p.end.Finished? {
      SoundWait(us, reports, asserts);
      forall i | 0 <= i < |ss| ensures BarrierDone(ss[i], EndTo(p.nodes[i], 0)) {
        TookSound(us[i]);
        TookThenSent(us[i], EndBlock(0));
      }
      forall i | 0 <= i < |ss|
        ensures ss[i].connected == p.nodes[i].connected && ss[i].refuses == p.nodes[i].refuses
      {
        TookSound(us[i]);
      }
      SameEndEvents(ss, p.nodes);
    }
  }

  lemma TookSound(s: NodeState)
    requires Sound(s)
    ensures Took(s).connected && !Took(s).refuses
  {}

  lemma {:induction false} SameEndEvents(ss: seq<NodeState>, ts: seq<NodeState>)
    requires |ss| == |ts|
    requires forall i :: 0 <= i < |ss| ==> ss[i].connected == ts[i].connected && ss[i].refuses == ts[i].refuses
    ensures EndEvents(ss) == EndEvents(ts) && EndCount(ss) == EndCount(ts)
    decreases |ss|
  {
    if ss != [] {
      SameEndEvents(ss[..|ss| - 1], ts[..|ss| - 1]);
    }
  }

  lemma SetSameEvents(ss: seq<NodeState>)
    ensures EndEvents(SetUpdated(ss, false)) == EndEvents(ss) && EndCount(SetUpdated(ss, false)) == EndCount(ss)
  {
    SameEndEvents(ss, SetUpdated(ss, false));
  }

  lemma SlaveOfSound(ss: seq<NodeState>, reports: seq<Report>, asserts: bool)
    requires AllSound(ss) && Known(reports, |ss|)
    ensures var p := SlaveBarrier(ss, reports, asserts);
            && (p.end.Finished? <==> AllReported(|ss|, reports))
            && (p.end.Finished? ==>
                  && (forall i :: 0 <= i < |ss| ==> BarrierDone(ss[i], p.nodes[i]))
                  && exists es :: ReadsOnce(es, |ss|) && p.events == EndEvents(ss) + es)
  {
    hide EndsBy, Waited, AllReported, Took, HasFrame, ReadsOnce, EndEvents;
    SlaveReturnsIff(ss, reports, asserts);
    SoundCount(ss);
    var us := SetUpdated(EndsTo(ss, 0), false);
    SoundEndsIff(EndsTo(ss, 0), reports, asserts);
    if SlaveBarrier(ss, reports, asserts).end.Finished? {
      SoundWait(us, reports, asserts);
    }
  }

  // ---- A master that has lost a node ----

  lemma EndEventsOnly(ss: seq<NodeState>, i: nat)
    ensures FrameRead(i) !in EndEvents(ss) && NodeLost(i) !in EndEvents(ss)
  {}

  // A barrier that returned has read a frame of every node if and only if no visit failed.
  lemma MasterReadsAllIff(ss: seq<NodeState>, reports: seq<Report>, asserts: bool)
    requires Known(reports, |ss|) && MasterBarrier(ss, reports, asserts).end.Finished?
    ensures var es := MasterBarrier(ss, reports, asserts).events;
            (forall i: nat :: i < |ss| ==> FrameRead(i) in es) <==> forall i: nat :: NodeLost(i) !in es
  {
    hide Waited, NoStop, Tally, LostVisits, Readable, EndEvents, EndsTo, Scanned;
    var us := SetUpdated(ss, false);
    var r := WaitedAt(us, |ss|, reports, asserts);
    KnownFront(reports, |ss|);
    var es, seen := MasterBarrier(ss, reports, asserts).events, Scanned(reports[..r]);
    CountOfAll(us, seen, asserts);
    NoLostVisits(us, seen, asserts);
    forall i: nat
      ensures FrameRead(i) in es <==> i in ReadIn(us, seen, asserts)
      ensures NodeLost(i) in es <==> i in seen && !Readable(us[i], asserts)
    {
      TallyHas(us, seen, i, asserts);
      EndEventsOnly(Waited(us, |ss|, reports, asserts).nodes, i);
    }
  }

  lemma {:induction false} ScannedGrows(reports: seq<Report>, r: nat)
    requires r <= |reports|
    ensures forall i :: i in Scanned(reports[..r]) ==> i in Scanned(reports)
    decreases |reports|
  {
    assert reports[..|reports|] == reports;
    if r < |reports| {
      var n := |reports| - 1;
      ScannedGrows(reports[..n], r);
      assert reports[..n][..r] == reports[..r];
    }
  }

  // With a lost node the barrier does not return as long as only nodes that can be read are reported.
  lemma MasterWaitsForLost(ss: seq<NodeState>, reports: seq<Report>, i: nat, asserts: bool)
    requires Known(reports, |ss|) && i < |ss| && !Readable(ss[i], asserts)
    requires forall j :: j in Scanned(reports) ==> Readable(ss[j], asserts)
    ensures !MasterBarrier(ss, reports, asserts).end.Finished?
  {
    hide Readable, Tally, LostVisits, Scanned, NoStop;
    MasterReturnsIff(ss, reports, asserts);
    if EndsBy(ss, |ss|, reports, asserts) {
      var r :| 0 <= r <= |reports| && EndsAfter(ss, |ss|, reports[..r], asserts);
      var seen := Scanned(reports[..r]);
      ScannedGrows(reports, r);
      NoLostVisits(ss, seen, asserts);
      CountOfAll(ss, seen, asserts);
    }
  }

  // One report of node i and then nothing but time-outs, after each of which it is visited again.
  function Repeated(i: nat, n: nat): (reports: seq<Report>)
    requires n > 0
    ensures |reports| == n
  {
    if n == 1 then [Arrived([i])] else Repeated(i, n - 1) + [TimedOut]
  }

  function Copies(i: nat, n: nat): (seen: seq<nat>)
    ensures |seen| == n && forall k :: 0 <= k < n ==> seen[k] == i
  {
    seq(n, _ => i)
  }

  lemma {:induction false} RepeatedScans(i: nat, n: nat)
    requires n > 0
    ensures var reports := Repeated(i, n);
            && Known(reports, i + 1) && NoFailure(reports)
            && ReadyNodes(reports) == [i] && Scanned(reports) == Copies(i, n)
  {
    var reports := Repeated(i, n);
    assert reports[..n - 1] == if n == 1 then [] else Repeated(i, n - 1);
    if n > 1 {
      RepeatedScans(i, n - 1);
    }
    assert Copies(i, n) == Copies(i, n - 1) + [i];
  }

  lemma {:induction false} CopiesCount(ss: seq<NodeState>, i: nat, n: nat)
    requires i < |ss| && !ss[i].open
    ensures NoStop(ss, Copies(i, n), false) && |Tally(ss, Copies(i, n), false)| == n
    decreases n
  {
    hide NoStop;
    if n == 0 {
      NothingVisited(ss, false);
    } else {
      CopiesCount(ss, i, n - 1);
      assert Copies(i, n)[..n - 1] == Copies(i, n - 1);
      NoStopLast(ss, Copies(i, n), false);
    }
  }

  lemma OnlyVisited(us: seq<NodeState>, i: nat, numNodes: nat, reports: seq<Report>)
    requires AllWaiting(us) && i < |us| && !us[i].open && Known(reports, |us|)
    requires forall j :: j in Scanned(reports) ==> j == i
    requires Waited(us, numNodes, reports, false).end.Finished?
    ensures var p := Waited(us, numNodes, reports, false);
            forall j :: 0 <= j < |us| ==> p.nodes[j].inbox == us[j].inbox
  {
    hide Tally, NoStop, Scanned, Known, Waited;
    var r := WaitedAt(us, numNodes, reports, false);
    ScannedGrows(reports, r);
    assert Visited(us[i], false) == Shut(us[i]);
  }

  lemma KnownBelow(reports: seq<Report>, m: nat, n: nat)
    requires Known(reports, m) && m <= n
    ensures Known(reports, n)
  {}

  // And a lost node that is reported can stand for all others: the barrier returns and has read nothing.
  lemma {:induction false} MasterReturnsUnread(ss: seq<NodeState>, i: nat)
    requires i < |ss| && !ss[i].open
    ensures var reports := Repeated(i, |ss|);
            && Known(reports, |ss|)
            && var p := MasterBarrier(ss, reports, false);
               p.end.Finished? && forall j :: 0 <= j < |ss| ==> p.nodes[j].inbox == ss[j].inbox
  {
    hide Repeated, Tally, NoStop, Scanned, Known, Waited;
    var reports := Repeated(i, |ss|);
    RepeatedScans(i, |ss|);
    CopiesCount(ss, i, |ss|);
    KnownBelow(reports, i + 1, |ss|);
    assert reports[..|reports|] == reports;
    assert EndsAfter(ss, |ss|, reports[..|ss|], false);
    MasterReturnsIff(ss, reports, false);
    OnlyVisited(SetUpdated(ss, false), i, |ss|, reports);
  }

  // ---- Counting past the mark ----

  lemma {:induction false} TallyGrows(ss: seq<NodeState>, seen: seq<nat>, more: seq<nat>, asserts: bool)
    requires Within(seen, |ss|) && Within(more, |ss|)
    ensures Within(seen + more, |ss|)
    ensures |Tally(ss, seen, asserts)| <= |Tally(ss, seen + more, asserts)|
    decreases |more|
  {
    hide Readable;
    if more == [] {
      assert seen + more == seen;
    } else {
      TallyGrows(ss, seen, more[..|more| - 1], asserts);
      assert (seen + more)[..|seen + more| - 1] == seen + more[..|more| - 1];
    }
  }

  lemma {:induction false} ScannedExtends(ss: seq<NodeState>, reports: seq<Report>, r: nat, asserts: bool)
    requires Known(reports, |ss|) && r <= |reports|
    ensures |Tally(ss, Scanned(reports[..r]), asserts)| <= |Tally(ss, Scanned(reports), asserts)|
    decreases |reports|
  {
    hide Tally, ReadyNodes;
    assert reports[..|reports|] == reports;
    if r < |reports| {
      var n := |reports| - 1;
      KnownFront(reports, |ss|);
      ScannedExtends(ss, reports[..n], r, asserts);
      assert reports[..n][..r] == reports[..r];
      TallyGrows(ss, Scanned(reports[..n]), if reports[n].Failed? then [] else ReadyNodes(reports), asserts);
    }
  }

  // completed_nodes is compared for equality: once too many visits have counted, no further report ends the wait.
  lemma OvershotNeverEnds(ss: seq<NodeState>, numNodes: nat, reports: seq<Report>, more: seq<Report>, asserts: bool)
    requires Known(reports, |ss|) && Known(reports + more, |ss|)
    requires |Tally(ss, Scanned(reports), asserts)| > numNodes && !EndsBy(ss, numNodes, reports, asserts)
    ensures !EndsBy(ss, numNodes, reports + more, asserts)
  {
    hide Tally, Scanned, Runs;
    var all, n := reports + more, |reports|;
    KnownFront(all, |ss|);
    assert all[..n] == reports;
    forall r | 0 <= r <= |all| ensures !EndsAfter(ss, numNodes, all[..r], asserts) {
      if r <= n {
        assert reports[..r] == all[..r];
      } else {
        assert all[..r][..n] == reports;
        ScannedExtends(ss, all[..r], n, asserts);
      }
    }
  }

  // That takes one connection that fails while it is read, and its handle reported again with another node's.
  lemma {:induction false} UpdateNeverReturns(ss: seq<NodeState>, temp: int, more: seq<Report>)
    requires |ss| == 2 && ss[0].connected && ss[0].open && !ss[0].refuses && SpoiltFrame(ss[0].inbox) && Sound(ss[1])
    requires Known(more, 2)
    ensures Known([Arrived([0]), Arrived([0, 1])] + more, 2)
    ensures !Updated(ss, temp, [Arrived([0]), Arrived([0, 1])] + more, false).end.Finished?
  {
    hide HasFrame, SpoiltFrame, Waited, Updated, NoStop, EndCount, Tally, Scanned, AllStayOpen, EndsBy;
    CountOfTwo(ss);
    TwoNeverEnd(ss);
    OvershotNeverEnds(ss, 2, [Arrived([0]), Arrived([0, 1])], more, false);
    UpdateReturnsIff(ss, temp, [Arrived([0]), Arrived([0, 1])] + more, false);
  }

  lemma {:induction false} TwoNeverEnd(ss: seq<NodeState>)
    requires |ss| == 2 && SpoiltFrame(ss[0].inbox) && Sound(ss[1])
    ensures var two := [Arrived([0]), Arrived([0, 1])];
            && Known(two, 2) && |Tally(ss, Scanned(two), false)| == 3 && !EndsBy(ss, 2, two, false)
  {
    hide HasFrame, SpoiltFrame, NoStop, Scanned, EndsBy;
    var one, two := [Arrived([0])], [Arrived([0]), Arrived([0, 1])];
    SpoiltIsNoFrame(ss[0].inbox);
    assert Tally(ss, [0], false) == [NodeLost(0)] && |Tally(ss, [0, 0, 1], false)| == 3 by {
      assert [0, 0, 1][..2] == [0, 0] && [0, 0][..1] == [0];
    }
    assert two[..1] == one && one[..0] == [];
    ScannedOfTwo();
    NothingVisited(ss, false);
    EndsByLast(ss, 2, one, false);
    EndsByLast(ss, 2, two, false);
  }

  lemma CountOfTwo(ss: seq<NodeState>)
    requires |ss| == 2 && forall i :: 0 <= i < 2 ==> ss[i].connected && !ss[i].refuses
    ensures EndCount(ss) == 2
  {
    assert EndCount(ss[..1]) == 1;
  }

  lemma ScannedOfTwo()
    ensures Scanned([Arrived([0])]) == [0] && Scanned([Arrived([0]), Arrived([0, 1])]) == [0, 0, 1]
  {
    assert [Arrived([0]), Arrived([0, 1])][..1] == [Arrived([0])];
    assert [Arrived([0])][..0] == [];
  }

  lemma SpoiltIsNoFrame(inbox: seq<Arrival>)
    requires SpoiltFrame(inbox)
    ensures !HasFrame(inbox)
  {}

  // ---- What sending and corking do to a node in any state ----

  // A connected node gets the end block behind everything before it; one that refuses loses its socket instead.
  lemma EndBlockGoesOut(ss: seq<NodeState>, temp: int, i: nat)
    requires i < |ss|
    ensures var s := ss[i];
            EndsTo(ss, temp)[i] ==
              if !s.connected then s
              else if s.refuses then s.(connected := false, open := false)
              else if s.corked then s.(held := s.held + [EndBlock(temp)])
              else s.(wire := s.wire + [EndBlock(temp)])
  {}

  ghost function Able(ss: seq<NodeState>): (s: set<nat>)
    ensures forall i: nat :: i in s <==> i < |ss| && ss[i].connected && !ss[i].refuses
  {
    set i: nat | i < |ss| && ss[i].connected && !ss[i].refuses
  }

  // The nodes that got one are counted, each once.
  lemma {:induction false} EndBlocksCounted(ss: seq<NodeState>)
    ensures EndCount(ss) == |Able(ss)|
    decreases |ss|
  {
    if ss == [] {
      assert Able(ss) == {};
    } else {
      var n := |ss| - 1;
      EndBlocksCounted(ss[..n]);
      var s := Able(ss[..n]);
      assert Able(ss) == if ss[n].connected && !ss[n].refuses then s + {n} else s;
    }
  }

  ghost predicate InNodeOrder(es: seq<Event>, n: nat) {
    && (forall k :: 0 <= k < |es| ==> (es[k].EndSent? || es[k].SendFailed?) && es[k].node < n)
    && forall j, k :: 0 <= j < k < |es| ==> es[j].node < es[k].node
  }

  // They are recorded in the order of the nodes, and so are those that refused.
  lemma {:induction false} EndBlocksInOrder(ss: seq<NodeState>, i: nat)
    ensures InNodeOrder(EndEvents(ss), |ss|)
    ensures EndSent(i) in EndEvents(ss) <==> i < |ss| && ss[i].connected && !ss[i].refuses
    ensures SendFailed(i) in EndEvents(ss) <==> i < |ss| && ss[i].connected && ss[i].refuses
    decreases |ss|
  {
    if ss != [] {
      EndBlocksInOrder(ss[..|ss| - 1], i);
    }
  }

  function SentOn(s: NodeState, ps: seq<Packet>): NodeState {
    if ps == [] then s else Sent(SentOn(s, ps[..|ps| - 1]), ps[|ps| - 1])
  }

  // Corking changes nothing else. What is sent on a corked node stays back, and goes out in order when it is uncorked,
  // behind what was held back before.
  lemma {:induction false} CorkKeepsBack(s: NodeState, ps: seq<Packet>)
    ensures Pushed(s, true) == s.(corked := true)
    ensures SentOn(Pushed(s, true), ps) == s.(corked := true, held := s.held + ps)
    ensures Pushed(SentOn(Pushed(s, true), ps), false) == s.(corked := false, wire := s.wire + s.held + ps, held := [])
    decreases |ps|
  {
    if ps != [] {
      CorkKeepsBack(s, ps[..|ps| - 1]);
      assert ps == ps[..|ps| - 1] + [ps[|ps| - 1]];
    }
  }

  // corkNetwork and uncorkNetwork do that to all nodes in front of the first one without a socket.
  lemma CorksAll(ss: seq<NodeState>, enable: bool, i: nat)
    requires i < |ss|
    ensures PushedAll(ss, enable)[i] ==
            if (exists k :: 0 <= k <= i && !ss[k].open) then ss[i]
            else if enable then ss[i].(corked := true)
            else ss[i].(corked := false, wire := ss[i].wire + ss[i].held, held := [])
  {
    assert i < FirstShut(ss) <==> forall k :: 0 <= k <= i ==> ss[k].open;
  }

  predicate ReadsOnly(es: seq<Event>) {
    forall k :: 0 <= k < |es| ==> es[k].FrameRead? || es[k].NodeLost?
  }

  lemma {:induction false} VisitsOnlyRead(p: Pass, seen: seq<nat>, asserts: bool)
    requires Within(seen, |p.nodes|) && ReadsOnly(p.events)
    ensures ReadsOnly(Visits(p, seen, asserts).events)
    decreases |seen|
  {
    hide ReadFrame;
    if seen != [] {
      VisitsOnlyRead(p, seen[..|seen| - 1], asserts);
    }
  }

  lemma {:induction false} WaitOnlyReads(ss: seq<NodeState>, numNodes: nat, reports: seq<Report>, asserts: bool)
    requires Known(reports, |ss|)
    ensures ReadsOnly(Waited(ss, numNodes, reports, asserts).events)
    decreases |reports|
  {
    hide Visits;
    if reports != [] {
      var front := reports[..|reports| - 1];
      WaitOnlyReads(ss, numNodes, front, asserts);
      VisitsOnlyRead(Waited(ss, numNodes, front, asserts), ReadyNodes(reports), asserts);
    }
  }

  // Whatever becomes of its wait, the master sends no end block before it is over; a slave has sent all before.
  lemma MasterSendsLast(ss: seq<NodeState>, reports: seq<Report>, asserts: bool)
    requires Known(reports, |ss|)
    ensures var p := MasterBarrier(ss, reports, asserts);
            if p.end.Finished? then exists es, ts :: ReadsOnly(es) && |ts| == |ss| && p.events == es + EndEvents(ts)
            else ReadsOnly(p.events)
    ensures var p := SlaveBarrier(ss, reports, asserts);
            EndEvents(ss) <= p.events && ReadsOnly(p.events[|EndEvents(ss)|..])
  {
    hide Waited, ReadsOnly, EndEvents;
    WaitOnlyReads(SetUpdated(ss, false), |ss|, reports, asserts);
    WaitOnlyReads(SetUpdated(EndsTo(ss, 0), false), EndCount(ss), reports, asserts);
    var us := SetUpdated(EndsTo(ss, 0), false);
    assert SlaveBarrier(ss, reports, asserts).events[|EndEvents(ss)|..] ==
           Waited(us, EndCount(ss), reports, asserts).events;
  }
}
