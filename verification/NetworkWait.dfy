/** Exactly when NetworkManager::updateAllNodes returns, and what it has then read. */
module NetworkWait {
  import opened ClusterLink
  import opened NetworkNodes

  // ---- The visits of a wait ----

  ghost predicate AllWaiting(ss: seq<NodeState>) {
    forall i :: 0 <= i < |ss| ==> !ss[i].updated
  }

  // Every visit reads a frame or loses the node; with assertions a lost node must not be visited again.
  ghost predicate NoStop(ss: seq<NodeState>, seen: seq<nat>, asserts: bool)
    requires Within(seen, |ss|)
  {
    forall k :: 0 <= k < |seen| ==>
      || Readable(ss[seen[k]], asserts)
      || (Loses(ss[seen[k]], asserts) && (asserts ==> seen[k] !in seen[..k]))
  }

  // The visits that count: the first one to a node that can be read, and every one to a node that is lost.
  function Tally(ss: seq<NodeState>, seen: seq<nat>, asserts: bool): seq<Event>
    requires Within(seen, |ss|)
  {
    if seen == [] then []
    else
      var front, i := seen[..|seen| - 1], seen[|seen| - 1];
      Tally(ss, front, asserts) +
      if !Readable(ss[i], asserts) then [NodeLost(i)] else if i in front then [] else [FrameRead(i)]
  }

  // The node after these visits.
  function Visited(s: NodeState, asserts: bool): NodeState {
    ReadFrame(s, asserts).0
  }

  ghost predicate VisitedAll(ss: seq<NodeState>, seen: seq<nat>, asserts: bool, ts: seq<NodeState>) {
    && |ts| == |ss|
    && forall i :: 0 <= i < |ss| ==> ts[i] == if i in seen then Visited(ss[i], asserts) else ss[i]
  }

  lemma NoStopLast(ss: seq<NodeState>, seen: seq<nat>, asserts: bool)
    requires seen != [] && Within(seen, |ss|)
    ensures var front, i := seen[..|seen| - 1], seen[|seen| - 1];
            NoStop(ss, seen, asserts) <==>
              && NoStop(ss, front, asserts)
              && (Readable(ss[i], asserts) || (Loses(ss[i], asserts) && (asserts ==> i !in front)))
  {
    hide Readable, Loses;
    var n := |seen| - 1;
    forall k | 0 <= k < n ensures seen[..n][..k] == seen[..k] {}
  }

  lemma VisitIs(ss: seq<NodeState>, seen: seq<nat>, i: nat, p: Pass, asserts: bool)
    requires AllWaiting(ss) && Within(seen, |ss|) && i < |ss|
    requires p.end.Going? && VisitedAll(ss, seen, asserts, p.nodes)
    requires i in seen ==> Readable(ss[i], asserts) || Loses(ss[i], asserts)
    ensures var q := Visit(p, i, asserts);
            && (q.end.Going? <==>
                  Readable(ss[i], asserts) || (Loses(ss[i], asserts) && (asserts ==> i !in seen)))
            && (q.end.Going? || q.end.Stuck? || q.end.Escaped? || q.end.Tripped?)
            && (q.end.Going? ==>
                  && q.completed - p.completed == |q.events| - |p.events|
                  && q.events == p.events + (if !Readable(ss[i], asserts) then [NodeLost(i)]
                                             else if i in seen then [] else [FrameRead(i)])
                  && VisitedAll(ss, seen + [i], asserts, q.nodes))
  {
    hide ReadFrame, Readable, Loses, Took;
    ReadFrameIs(ss[i], asserts);
    var s := p.nodes[i];
    if i in seen {
      assert s == ReadFrame(ss[i], asserts).0;
      if Loses(ss[i], asserts) {
        ReadAgain(s);
      }
    } else {
      assert s == ss[i];
      var (t, e) := ReadFrame(s, asserts);
      assert e.Ended? ==> e.end.Stuck? || e.end.Escaped? || e.end.Tripped?;
      assert e.Ended? ==> Visit(p, i, asserts).end == e.end;
      assert !e.Ended? ==> Visit(p, i, asserts).end == Going;
    }
  }

  lemma {:induction false} VisitsAre(ss: seq<NodeState>, seen: seq<nat>, asserts: bool)
    requires AllWaiting(ss) && Within(seen, |ss|)
    ensures var p := Visits(Start(ss), seen, asserts);
            && (p.end.Going? <==> NoStop(ss, seen, asserts))
            && (p.end.Going? || p.end.Stuck? || p.end.Escaped? || p.end.Tripped?)
            && (p.end.Going? ==> p.events == Tally(ss, seen, asserts) && p.completed == |p.events|
                                 && VisitedAll(ss, seen, asserts, p.nodes))
    decreases |seen|
  {
    hide Visit, Readable, Loses, Visited;
    if seen != [] {
      var front, i := seen[..|seen| - 1], seen[|seen| - 1];
      VisitsAre(ss, front, asserts);
      NoStopLast(ss, seen, asserts);
      var p := Visits(Start(ss), front, asserts);
      assert front + [i] == seen;
      if p.end.Going? {
        VisitIs(ss, front, i, p, asserts);
      } else {
        VisitStopped(p, i, asserts);
      }
    }
  }

  lemma VisitStopped(p: Pass, i: nat, asserts: bool)
    requires i < |p.nodes| && !p.end.Going?
    ensures Visit(p, i, asserts) == p
  {}

  // All nodes visited during these reports.
  function Scanned(reports: seq<Report>): (seen: seq<nat>)
    ensures forall n :: Known(reports, n) ==> Within(seen, n)
  {
    if reports == [] then []
    else
      var front := reports[..|reports| - 1];
      assert forall n :: Known(reports, n) ==> Known(front, n);
      Scanned(front) + if reports[|reports| - 1].Failed? then [] else ReadyNodes(reports)
  }

  ghost predicate NoFailure(reports: seq<Report>) {
    forall q :: 0 <= q < |reports| ==> !reports[q].Failed?
  }

  // Nothing goes wrong in these reports.
  ghost predicate Runs(ss: seq<NodeState>, reports: seq<Report>, asserts: bool)
    requires Known(reports, |ss|)
  {
    NoFailure(reports) && NoStop(ss, Scanned(reports), asserts)
  }

  // The wait can end when these reports are dealt with: nothing has gone wrong, and the count is right.
  ghost predicate EndsAfter(ss: seq<NodeState>, numNodes: nat, reports: seq<Report>, asserts: bool)
    requires Known(reports, |ss|)
  {
    Runs(ss, reports, asserts) && |Tally(ss, Scanned(reports), asserts)| == numNodes
  }

  ghost predicate EndsBy(ss: seq<NodeState>, numNodes: nat, reports: seq<Report>, asserts: bool)
    requires Known(reports, |ss|)
  {
    exists r :: 0 <= r <= |reports| && EndsAfter(ss, numNodes, reports[..r], asserts)
  }

  lemma EndsByLast(ss: seq<NodeState>, numNodes: nat, reports: seq<Report>, asserts: bool)
    requires Known(reports, |ss|) && reports != []
    ensures EndsBy(ss, numNodes, reports, asserts) <==>
              EndsBy(ss, numNodes, reports[..|reports| - 1], asserts) || EndsAfter(ss, numNodes, reports, asserts)
  {
    hide EndsAfter;
    var n := |reports| - 1;
    assert reports[..n + 1] == reports;
    forall r | 0 <= r <= n ensures reports[..n][..r] == reports[..r] {}
    if EndsBy(ss, numNodes, reports[..n], asserts) {
      var r :| 0 <= r <= n && EndsAfter(ss, numNodes, reports[..n][..r], asserts);
      assert EndsAfter(ss, numNodes, reports[..r], asserts);
    }
    if EndsBy(ss, numNodes, reports, asserts) && !EndsAfter(ss, numNodes, reports, asserts) {
      var r :| 0 <= r <= |reports| && EndsAfter(ss, numNodes, reports[..r], asserts);
      assert EndsAfter(ss, numNodes, reports[..n][..r], asserts);
    }
  }

  lemma NoStopFront(ss: seq<NodeState>, seen: seq<nat>, more: seq<nat>, asserts: bool)
    requires Within(seen, |ss|) && Within(more, |ss|) && NoStop(ss, seen + more, asserts)
    ensures NoStop(ss, seen, asserts)
  {
    hide Readable, Loses;
    forall k | 0 <= k < |seen|
      ensures (seen + more)[k] == seen[k] && (seen + more)[..k] == seen[..k]
    {}
  }

  lemma RunsLast(ss: seq<NodeState>, reports: seq<Report>, asserts: bool)
    requires Known(reports, |ss|) && reports != [] && Runs(ss, reports, asserts)
    ensures Runs(ss, reports[..|reports| - 1], asserts) && !reports[|reports| - 1].Failed?
  {
    NoStopFront(ss, Scanned(reports[..|reports| - 1]), ReadyNodes(reports), asserts);
    hide NoStop;
  }

  lemma KnownFront(reports: seq<Report>, n: nat)
    requires Known(reports, n)
    ensures forall r :: 0 <= r <= |reports| ==> Known(reports[..r], n)
  {}

  lemma NothingVisited(ss: seq<NodeState>, asserts: bool)
    ensures Visits(Start(ss), [], asserts) == Start(ss) && Tally(ss, [], asserts) == []
    ensures Runs(ss, [], asserts)
    ensures forall n: nat :: EndsBy(ss, n, [], asserts) <==> n == 0
  {
    assert EndsAfter(ss, 0, [][..0], asserts);
  }

  // For every sequence of reports and every state of the nodes: the wait returns if and only if, after some of the
  // reports, nothing has gone wrong and exactly numNodes visits count.
  lemma {:induction false} WaitedIs(ss: seq<NodeState>, numNodes: nat, reports: seq<Report>, asserts: bool)
    requires AllWaiting(ss) && Known(reports, |ss|)
    ensures var p := Waited(ss, numNodes, reports, asserts);
            && (p.end.Finished? <==> EndsBy(ss, numNodes, reports, asserts))
            && (p.end.Going? <==> Runs(ss, reports, asserts) && !EndsBy(ss, numNodes, reports, asserts))
            && (p.end.Going? ==> p == Visits(Start(ss), Scanned(reports), asserts))
            && !p.end.Crashed?
    decreases |reports|
  {
    hide NoStop, Tally, Visits, EndsBy, Known, ReadyNodes;
    VisitsAre(ss, Scanned(reports), asserts);
    if reports == [] {
      assert Scanned(reports) == [];
      NothingVisited(ss, asserts);
    } else {
      var front := reports[..|reports| - 1];
      KnownFront(reports, |ss|);
      WaitedIs(ss, numNodes, front, asserts);
      EndsByLast(ss, numNodes, reports, asserts);
      if Runs(ss, reports, asserts) {
        RunsLast(ss, reports, asserts);
      }
      VisitsCompose(Start(ss), Scanned(front), ReadyNodes(reports), asserts);
    }
  }

  // How visiting a node ends the call: by an assertion, also if the node was lost earlier; else by an exception
  // or by waiting for ever for its next frame.
  ghost function StopOf(s: NodeState, visited: bool, asserts: bool): End {
    if asserts && (!s.connected || visited) then Tripped else if BrokenFrame(s.inbox) then Escaped else Stuck
  }

  lemma VisitStops(ss: seq<NodeState>, seen: seq<nat>, i: nat, p: Pass, asserts: bool)
    requires AllWaiting(ss) && Within(seen, |ss|) && i < |ss|
    requires p.end.Going? && VisitedAll(ss, seen, asserts, p.nodes)
    requires i in seen ==> Readable(ss[i], asserts) || Loses(ss[i], asserts)
    requires !Visit(p, i, asserts).end.Going?
    ensures Visit(p, i, asserts).end == StopOf(ss[i], i in seen, asserts)
  {
    hide ReadFrame, Readable, Loses, Took, BrokenFrame, OnlyData;
    VisitIs(ss, seen, i, p, asserts);
    ReadFrameIs(ss[i], asserts);
    ReadEndIs(ss[i], asserts);
    if i in seen {
      ReadAgain(p.nodes[i]);
    } else {
      assert p.nodes[i] == ss[i];
      assert Ended(Visit(p, i, asserts).end) == ReadFrame(ss[i], asserts).1;
    }
  }

  // Visits that do not all succeed end at the first node that stops them.
  lemma {:induction false} VisitsStop(ss: seq<NodeState>, seen: seq<nat>, asserts: bool) returns (k: nat)
    requires AllWaiting(ss) && Within(seen, |ss|) && !Visits(Start(ss), seen, asserts).end.Going?
    ensures k < |seen| && NoStop(ss, seen[..k], asserts) && !NoStop(ss, seen[..k + 1], asserts)
    ensures Visits(Start(ss), seen, asserts).end == StopOf(ss[seen[k]], seen[k] in seen[..k], asserts)
    decreases |seen|
  {
    hide Visit, NoStop, StopOf, Readable, Loses, Visited;
    var n := |seen| - 1;
    VisitsAre(ss, seen, asserts);
    if seen == [] {
      NothingVisited(ss, asserts);
    }
    var front, i := seen[..n], seen[n];
    VisitsAre(ss, front, asserts);
    var p := Visits(Start(ss), front, asserts);
    assert seen[..n + 1] == seen;
    if p.end.Going? {
      NoStopLast(ss, seen, asserts);
      NoStopHas(ss, front, i, asserts);
      VisitStops(ss, front, i, p, asserts);
      k := n;
    } else {
      VisitStopped(p, i, asserts);
      k := VisitsStop(ss, front, asserts);
      assert front[..k] == seen[..k] && front[..k + 1] == seen[..k + 1];
    }
  }

  lemma NoStopHas(ss: seq<NodeState>, seen: seq<nat>, i: nat, asserts: bool)
    requires Within(seen, |ss|) && NoStop(ss, seen, asserts) && i < |ss|
    ensures i in seen ==> Readable(ss[i], asserts) || Loses(ss[i], asserts)
  {}

  // The k-th of these visits ends the wait, in this way.
  ghost predicate StopsAt(ss: seq<NodeState>, seen: seq<nat>, k: nat, end: End, asserts: bool) {
    && Within(seen, |ss|) && k < |seen| && NoStop(ss, seen[..k], asserts) && !NoStop(ss, seen[..k + 1], asserts)
    && end == StopOf(ss[seen[k]], seen[k] in seen[..k], asserts)
  }

  lemma LastStops(ss: seq<NodeState>, numNodes: nat, reports: seq<Report>, asserts: bool) returns (k: nat)
    requires AllWaiting(ss) && Known(reports, |ss|) && reports != [] && !reports[|reports| - 1].Failed?
    requires Known(reports[..|reports| - 1], |ss|)
    requires Waited(ss, numNodes, reports[..|reports| - 1], asserts).end.Going?
    requires var end := Waited(ss, numNodes, reports, asserts).end; !end.Going? && !end.Finished?
    ensures StopsAt(ss, Scanned(reports), k, Waited(ss, numNodes, reports, asserts).end, asserts)
  {
    hide NoStop, Tally, Visits, EndsBy, Known, ReadyNodes, StopOf, Runs;
    var front := reports[..|reports| - 1];
    WaitedIs(ss, numNodes, front, asserts);
    VisitsCompose(Start(ss), Scanned(front), ReadyNodes(reports), asserts);
    k := VisitsStop(ss, Scanned(reports), asserts);
  }

  // A wait that ends in any other way than by returning: it went on up to some report, and that one either is an
  // exception of the reactor or names a node that stops it.
  lemma {:induction false} WaitStops(ss: seq<NodeState>, numNodes: nat, reports: seq<Report>, asserts: bool)
    returns (r: nat, k: nat)
    requires AllWaiting(ss) && Known(reports, |ss|)
    requires var end := Waited(ss, numNodes, reports, asserts).end; !end.Going? && !end.Finished?
    ensures r < |reports| && Known(reports[..r], |ss|) && Waited(ss, numNodes, reports[..r], asserts).end.Going?
    ensures var end := Waited(ss, numNodes, reports, asserts).end;
            if reports[r].Failed? then end == Escaped else StopsAt(ss, Scanned(reports[..r + 1]), k, end, asserts)
    decreases |reports|
  {
    hide Visits, Known, ReadyNodes, StopsAt, Scanned;
    k := 0;
    KnownFront(reports, |ss|);
    var n := |reports| - 1;
    var front := reports[..n];
    assert reports[..n + 1] == reports;
    if Waited(ss, numNodes, front, asserts).end.Going? {
      r := n;
      if !reports[n].Failed? {
        k := LastStops(ss, numNodes, reports, asserts);
      }
    } else {
      r, k := WaitStops(ss, numNodes, front, asserts);
      assert front[..r] == reports[..r] && front[..r + 1] == reports[..r + 1];
    }
  }

  // What a wait that returned has done: it stopped at the first reports after which it could, the nodes visited
  // up to then are read or lost, each readable one read once, and the others are as they were.
  lemma {:induction false} WaitedAt(ss: seq<NodeState>, numNodes: nat, reports: seq<Report>, asserts: bool)
    returns (r: nat)
    requires AllWaiting(ss) && Known(reports, |ss|) && Waited(ss, numNodes, reports, asserts).end.Finished?
    ensures r <= |reports| && EndsAfter(ss, numNodes, reports[..r], asserts)
    ensures forall q :: 0 <= q < r ==> !EndsAfter(ss, numNodes, reports[..q], asserts)
    ensures var p, seen := Waited(ss, numNodes, reports, asserts), Scanned(reports[..r]);
            && VisitedAll(ss, seen, asserts, p.nodes) && p.completed == numNodes
            && p.events == Tally(ss, seen, asserts)
    decreases |reports|
  {
    hide NoStop, Tally, Visits, Known, ReadyNodes, VisitedAll;
    var n := |reports| - 1;
    NothingVisited(ss, asserts);
    KnownFront(reports, |ss|);
    WaitedIs(ss, numNodes, reports, asserts);
    VisitsAre(ss, Scanned(reports), asserts);
    assert reports[..|reports|] == reports;
    if reports != [] {
      WaitedIs(ss, numNodes, reports[..n], asserts);
    }
    if reports != [] && Waited(ss, numNodes, reports[..n], asserts).end.Finished? {
      r := WaitedAt(ss, numNodes, reports[..n], asserts);
      forall q | 0 <= q <= r ensures reports[..n][..q] == reports[..q] {}
    } else {
      r := |reports|;
      if reports != [] {
        VisitsCompose(Start(ss), Scanned(reports[..n]), ReadyNodes(reports), asserts);
        forall q | 0 <= q < r ensures !EndsAfter(ss, numNodes, reports[..q], asserts) {
          assert reports[..n][..q] == reports[..q];
        }
      }
    }
  }

  // ---- What the visits that count amount to ----

  ghost function ReadIn(ss: seq<NodeState>, seen: seq<nat>, asserts: bool): (s: set<nat>)
    ensures forall i: nat :: i in s <==> i in seen && i < |ss| && Readable(ss[i], asserts)
  {
    set i | i in seen && i < |ss| && Readable(ss[i], asserts)
  }

  function LostVisits(ss: seq<NodeState>, seen: seq<nat>, asserts: bool): nat
    requires Within(seen, |ss|)
  {
    if seen == [] then 0
    else
      LostVisits(ss, seen[..|seen| - 1], asserts) + if Readable(ss[seen[|seen| - 1]], asserts) then 0 else 1
  }

  // Each node that can be read counts once, a lost one as often as it is reported.
  lemma {:induction false} TallyCount(ss: seq<NodeState>, seen: seq<nat>, asserts: bool)
    requires Within(seen, |ss|)
    ensures |Tally(ss, seen, asserts)| == |ReadIn(ss, seen, asserts)| + LostVisits(ss, seen, asserts)
    decreases |seen|
  {
    hide Readable;
    if seen == [] {
      assert ReadIn(ss, seen, asserts) == {};
    } else {
      var front, i := seen[..|seen| - 1], seen[|seen| - 1];
      TallyCount(ss, front, asserts);
      var s := ReadIn(ss, front, asserts);
      if Readable(ss[i], asserts) {
        assert ReadIn(ss, seen, asserts) == s + {i};
      } else {
        assert ReadIn(ss, seen, asserts) == s;
      }
    }
  }

  lemma {:induction false} TallyHas(ss: seq<NodeState>, seen: seq<nat>, i: nat, asserts: bool)
    requires Within(seen, |ss|)
    ensures FrameRead(i) in Tally(ss, seen, asserts) <==> i in ReadIn(ss, seen, asserts)
    ensures NodeLost(i) in Tally(ss, seen, asserts) <==> i in seen && i < |ss| && !Readable(ss[i], asserts)
    decreases |seen|
  {
    hide Readable;
    if seen != [] {
      TallyHas(ss, seen[..|seen| - 1], i, asserts);
    }
  }

  // No frame is read twice.
  ghost predicate OnceEach(es: seq<Event>) {
    forall j, k :: 0 <= j < k < |es| && es[j].FrameRead? ==> es[j] != es[k]
  }

  lemma {:induction false} TallyOnce(ss: seq<NodeState>, seen: seq<nat>, asserts: bool)
    requires Within(seen, |ss|)
    ensures OnceEach(Tally(ss, seen, asserts))
    decreases |seen|
  {
    hide Readable;
    if seen != [] {
      var front, i := seen[..|seen| - 1], seen[|seen| - 1];
      TallyOnce(ss, front, asserts);
      TallyHas(ss, front, i, asserts);
    }
  }

  lemma SameSize(s: set<nat>, t: set<nat>)
    requires s <= t
    ensures |s| <= |t| && (|s| == |t| <==> s == t)
  {
    assert t == s + (t - s);
    assert |t| == |s| + |t - s|;
  }

  ghost function Indices(n: nat): (s: set<nat>)
    ensures |s| == n && forall i: nat :: i in s <==> i < n
  {
    if n == 0 then {} else Indices(n - 1) + {n - 1}
  }

  ghost predicate AllRead(ss: seq<NodeState>, seen: seq<nat>, asserts: bool) {
    forall i :: 0 <= i < |ss| ==> i in seen && Readable(ss[i], asserts)
  }

  // A count of as many as there are nodes means that all were read, if and only if no lost one was counted.
  lemma CountOfAll(ss: seq<NodeState>, seen: seq<nat>, asserts: bool)
    requires Within(seen, |ss|)
    ensures |ReadIn(ss, seen, asserts)| <= |ss|
    ensures |ReadIn(ss, seen, asserts)| == |ss| <==> AllRead(ss, seen, asserts)
    ensures |Tally(ss, seen, asserts)| == |ss| ==>
              (AllRead(ss, seen, asserts) <==> LostVisits(ss, seen, asserts) == 0)
  {
    hide Readable, Tally, LostVisits, Indices;
    TallyCount(ss, seen, asserts);
    SameSize(ReadIn(ss, seen, asserts), Indices(|ss|));
  }

  lemma {:induction false} NoLostVisits(ss: seq<NodeState>, seen: seq<nat>, asserts: bool)
    requires Within(seen, |ss|)
    ensures LostVisits(ss, seen, asserts) == 0 <==> forall i :: i in seen ==> Readable(ss[i], asserts)
    decreases |seen|
  {
    hide Readable;
    if seen != [] {
      NoLostVisits(ss, seen[..|seen| - 1], asserts);
      assert forall i :: i in seen <==> i in seen[..|seen| - 1] || i == seen[|seen| - 1];
    }
  }

  // Reading depends on these three fields only.
  ghost predicate SameArrivals(ss: seq<NodeState>, ts: seq<NodeState>) {
    && |ss| == |ts|
    && forall i :: 0 <= i < |ss| ==>
         ss[i].connected == ts[i].connected && ss[i].open == ts[i].open && ss[i].inbox == ts[i].inbox
  }

  lemma {:induction false} SameTally(ss: seq<NodeState>, ts: seq<NodeState>, seen: seq<nat>, asserts: bool)
    requires SameArrivals(ss, ts) && Within(seen, |ss|)
    ensures Tally(ss, seen, asserts) == Tally(ts, seen, asserts)
    ensures NoStop(ss, seen, asserts) == NoStop(ts, seen, asserts)
    decreases |seen|
  {
    hide HasFrame, SpoiltFrame, NoStop;
    if seen != [] {
      SameTally(ss, ts, seen[..|seen| - 1], asserts);
      NoStopLast(ss, seen, asserts);
      NoStopLast(ts, seen, asserts);
    } else {
      NothingVisited(ss, asserts);
      NothingVisited(ts, asserts);
    }
  }

  lemma SameEnds(ss: seq<NodeState>, ts: seq<NodeState>, numNodes: nat, reports: seq<Report>, asserts: bool)
    requires SameArrivals(ss, ts) && Known(reports, |ss|)
    ensures EndsBy(ss, numNodes, reports, asserts) == EndsBy(ts, numNodes, reports, asserts)
  {
    hide Tally, NoStop, Scanned;
    forall r | 0 <= r <= |reports|
      ensures EndsAfter(ss, numNodes, reports[..r], asserts) == EndsAfter(ts, numNodes, reports[..r], asserts)
    {
      SameTally(ss, ts, Scanned(reports[..r]), asserts);
    }
  }
}
