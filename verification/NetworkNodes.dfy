/** What the calls of NetworkManager do to the states of its nodes, lost and failing connections included. */
module NetworkNodes {
  import opened ClusterLink

  // What recvPacket yields next on an open socket: a packet; a ClusterException (wrong code, unknown type,
  // payload cut short); or an IOException (no header, payload that does not parse).
  datatype Arrival = Got(packet: Packet) | Unreadable | Broken

  // open says whether there is a socket at all, refuses whether sending on it fails. inbox is all that
  // will arrive on it, handled the history of dispatched packets.
  datatype NodeState = NodeState(connected: bool, open: bool, refuses: bool, updated: bool, corked: bool,
                                 inbox: seq<Arrival>, handled: seq<Packet>, held: seq<Packet>, wire: seq<Packet>)

  function Sent(s: NodeState, p: Packet): NodeState {
    if s.corked then s.(held := s.held + [p]) else s.(wire := s.wire + [p])
  }

  function Pushed(s: NodeState, enable: bool): NodeState {
    if enable then s.(corked := true) else s.(corked := false, wire := s.wire + s.held, held := [])
  }

  // Node::shutdown.
  function Shut(s: NodeState): NodeState {
    s.(connected := false, open := false)
  }

  function Handled(s: NodeState, p: Packet): NodeState {
    s.(handled := s.handled + [p], updated := s.updated || p.EndBlock?)
  }

  // ---- Reading one frame: everything up to and including the first end block ----

  predicate IsEnd(a: Arrival) {
    a.Got? && a.packet.EndBlock?
  }

  predicate IsData(a: Arrival) {
    a.Got? && a.packet.Data?
  }

  predicate HasFrame(inbox: seq<Arrival>) {
    inbox != [] && (IsEnd(inbox[0]) || (IsData(inbox[0]) && HasFrame(inbox[1..])))
  }

  // The first arrival that is not data is unreadable.
  predicate SpoiltFrame(inbox: seq<Arrival>) {
    inbox != [] && (inbox[0].Unreadable? || (IsData(inbox[0]) && SpoiltFrame(inbox[1..])))
  }

  // The first arrival that is not data is an exception nobody catches.
  predicate BrokenFrame(inbox: seq<Arrival>) {
    inbox != [] && (inbox[0].Broken? || (IsData(inbox[0]) && BrokenFrame(inbox[1..])))
  }

  predicate OnlyData(inbox: seq<Arrival>) {
    forall k :: 0 <= k < |inbox| ==> IsData(inbox[k])
  }

  function FrameLength(inbox: seq<Arrival>): (n: nat)
    requires HasFrame(inbox)
    ensures 1 <= n <= |inbox| && IsEnd(inbox[n - 1]) && forall k :: 0 <= k < n - 1 ==> IsData(inbox[k])
  {
    if IsEnd(inbox[0]) then 1 else 1 + FrameLength(inbox[1..])
  }

  function Contents(arrived: seq<Arrival>): (ps: seq<Packet>)
    requires forall k :: 0 <= k < |arrived| ==> arrived[k].Got?
    ensures |ps| == |arrived| && forall k :: 0 <= k < |ps| ==> ps[k] == arrived[k].packet
  {
    seq(|arrived|, k requires 0 <= k < |arrived| => arrived[k].packet)
  }

  lemma {:induction false} FrameLengthIs(inbox: seq<Arrival>, n: nat)
    requires 1 <= n <= |inbox| && IsEnd(inbox[n - 1]) && forall k :: 0 <= k < n - 1 ==> IsData(inbox[k])
    ensures HasFrame(inbox) && FrameLength(inbox) == n
    decreases n
  {
    if n > 1 {
      assert IsData(inbox[0]);
      FrameLengthIs(inbox[1..], n - 1);
    }
  }

  // What updateAllNodes takes from a node holds one end block, and nothing behind it.
  lemma FrameHasOneEnd(inbox: seq<Arrival>)
    requires HasFrame(inbox)
    ensures var n := FrameLength(inbox);
            Ends(Contents(inbox[..n])) == 1 && forall k :: 0 <= k < n ==> Ends(Contents(inbox[..k])) == 0
  {
    var n := FrameLength(inbox);
    NoEnds(Contents(inbox[..n - 1]));
    EndsAppend(Contents(inbox[..n - 1]), inbox[n - 1].packet);
    assert Contents(inbox[..n]) == Contents(inbox[..n - 1]) + [inbox[n - 1].packet];
    forall k | 0 <= k < n ensures Ends(Contents(inbox[..k])) == 0 {
      NoEnds(Contents(inbox[..k]));
    }
  }

  lemma {:induction false} NoEnds(ps: seq<Packet>)
    requires forall k :: 0 <= k < |ps| ==> !ps[k].EndBlock?
    ensures Ends(ps) == 0
  {
    if ps != [] {
      NoEnds(ps[..|ps| - 1]);
    }
  }

  // How a call, or a loop of it, stands or ends: it waits for the reactor; it returns; recvPacket never returns;
  // an IOException leaves it; an assertion ends the program (only in a build that has them); or a node without
  // a socket is dereferenced.
  datatype End = Going | Finished | Stuck | Escaped | Tripped | Crashed

  datatype ReadEnd = Read | Lost | Ended(end: End)

  // The inner loop of updateAllNodes with its exception handler.
  function ReadFrame(s: NodeState, asserts: bool): (NodeState, ReadEnd)
    decreases |s.inbox|
  {
    if s.updated then (s, Read)
    else if asserts && !s.connected then (s, Ended(Tripped))
    else if !s.open then (Shut(s), Lost)
    else if s.inbox == [] then (s, Ended(Stuck))
    else
      var rest := s.(inbox := s.inbox[1..]);
      match s.inbox[0]
      case Got(p) => ReadFrame(Handled(rest, p), asserts)
      case Unreadable => (Shut(rest), Lost)
      case Broken => (rest, Ended(Escaped))
  }

  // Whether a frame can be read from a node, or trying shuts it down.
  predicate Readable(s: NodeState, asserts: bool) {
    (asserts ==> s.connected) && s.open && HasFrame(s.inbox)
  }

  predicate Loses(s: NodeState, asserts: bool) {
    (asserts ==> s.connected) && (!s.open || SpoiltFrame(s.inbox))
  }

  // The node after its next frame was read.
  function Took(s: NodeState): NodeState
    requires HasFrame(s.inbox)
  {
    var n := FrameLength(s.inbox);
    s.(updated := true, inbox := s.inbox[n..], handled := s.handled + Contents(s.inbox[..n]))
  }

  // A frame is read packet by packet.
  lemma TookLast(s: NodeState)
    requires !s.updated && s.inbox != [] && IsEnd(s.inbox[0])
    ensures Handled(s.(inbox := s.inbox[1..]), s.inbox[0].packet) == Took(s)
  {
    assert Contents(s.inbox[..1]) == [s.inbox[0].packet];
  }

  lemma TookNext(s: NodeState)
    requires !s.updated && s.inbox != [] && IsData(s.inbox[0]) && HasFrame(s.inbox)
    ensures var rest := Handled(s.(inbox := s.inbox[1..]), s.inbox[0].packet);
            !rest.updated && HasFrame(rest.inbox) && Took(s) == Took(rest)
  {
    var p, n, tail := s.inbox[0].packet, FrameLength(s.inbox), s.inbox[1..];
    assert n == 1 + FrameLength(tail);
    ContentsNext(s.inbox, n);
    assert s.handled + ([p] + Contents(tail[..n - 1])) == s.handled + [p] + Contents(tail[..n - 1]);
  }

  lemma ContentsNext(inbox: seq<Arrival>, n: nat)
    requires 1 <= n <= |inbox| && forall k :: 0 <= k < n ==> inbox[k].Got?
    ensures Contents(inbox[..n]) == [inbox[0].packet] + Contents(inbox[1..][..n - 1])
    ensures inbox[n..] == inbox[1..][n - 1..]
  {}

  lemma {:induction false} ReadFrameIs(s: NodeState, asserts: bool)
    requires !s.updated
    ensures var (t, e) := ReadFrame(s, asserts);
            && (e.Read? <==> Readable(s, asserts)) && (e.Lost? <==> Loses(s, asserts))
            && (e.Read? ==> t == Took(s) && t.updated)
            && (e.Lost? ==> !t.updated && !t.connected && !t.open)
            && (e.Ended? ==> e.end.Stuck? || e.end.Escaped? || e.end.Tripped?)
    decreases |s.inbox|
  {
    hide FrameLength, Contents;
    if (asserts ==> s.connected) && s.open && s.inbox != [] && s.inbox[0].Got? {
      if IsEnd(s.inbox[0]) {
        TookLast(s);
      } else if HasFrame(s.inbox) {
        TookNext(s);
      }
      if IsData(s.inbox[0]) {
        ReadFrameIs(Handled(s.(inbox := s.inbox[1..]), s.inbox[0].packet), asserts);
      }
    }
  }

  // How reading ends the call: an assertion, an exception that escapes, or waiting for a frame that never comes.
  lemma {:induction false} ReadEndIs(s: NodeState, asserts: bool)
    requires !s.updated
    ensures var e := ReadFrame(s, asserts).1;
            && (e == Ended(Tripped) <==> asserts && !s.connected)
            && (e == Ended(Escaped) <==> (asserts ==> s.connected) && s.open && BrokenFrame(s.inbox))
            && (e == Ended(Stuck) <==> (asserts ==> s.connected) && s.open && OnlyData(s.inbox))
    decreases |s.inbox|
  {
    if s.inbox != [] && IsData(s.inbox[0]) {
      ReadEndIs(Handled(s.(inbox := s.inbox[1..]), s.inbox[0].packet), asserts);
      assert OnlyData(s.inbox) <==> OnlyData(s.inbox[1..]) by {
        assert forall k :: 1 <= k < |s.inbox| ==> s.inbox[k] == s.inbox[1..][k - 1];
      }
    }
  }

  lemma ReadAgain(t: NodeState)
    requires !t.updated && !t.connected && !t.open
    ensures ReadFrame(t, false) == (t, Lost) && ReadFrame(t, true) == (t, Ended(Tripped))
  {}

  // ---- The loops of updateAllNodes ----

  // What the manager did, in order: an end block went to a node or could not be sent to it, all corks were set
  // or cleared, a node's frame was read, or reading from a node failed and the node was shut down.
  datatype Event = EndSent(node: nat) | SendFailed(node: nat) | Corked(enable: bool) | FrameRead(node: nat)
                 | NodeLost(node: nat)

  // completed is completed_nodes.
  datatype Pass = Pass(nodes: seq<NodeState>, completed: nat, events: seq<Event>, end: End)

  function Start(ss: seq<NodeState>): Pass {
    Pass(ss, 0, [], Going)
  }

  // One ready node: skipped if it is updated, counted whether or not reading succeeds.
  function Visit(p: Pass, i: nat, asserts: bool): (q: Pass)
    requires i < |p.nodes|
    ensures |q.nodes| == |p.nodes|
  {
    if !p.end.Going? || p.nodes[i].updated then p
    else
      var (t, e) := ReadFrame(p.nodes[i], asserts);
      match e
      case Read => Pass(p.nodes[i := t], p.completed + 1, p.events + [FrameRead(i)], Going)
      case Lost => Pass(p.nodes[i := t], p.completed + 1, p.events + [NodeLost(i)], Going)
      case Ended(end) => Pass(p.nodes[i := t], p.completed, p.events, end)
  }

  predicate Within(seen: seq<nat>, n: nat) {
    forall k :: 0 <= k < |seen| ==> seen[k] < n
  }

  function Visits(p: Pass, seen: seq<nat>, asserts: bool): (q: Pass)
    requires Within(seen, |p.nodes|)
    ensures |q.nodes| == |p.nodes|
    decreases |seen|
  {
    if seen == [] then p else Visit(Visits(p, seen[..|seen| - 1], asserts), seen[|seen| - 1], asserts)
  }

  lemma {:induction false} VisitsCompose(p: Pass, a: seq<nat>, b: seq<nat>, asserts: bool)
    requires Within(a, |p.nodes|) && Within(b, |p.nodes|)
    ensures Within(a + b, |p.nodes|)
    ensures Visits(p, a + b, asserts) == Visits(Visits(p, a, asserts), b, asserts)
    decreases |b|
  {
    if b == [] {
      assert a + b == a;
    } else {
      VisitsCompose(p, a, b[..|b| - 1], asserts);
      assert (a + b)[..|a + b| - 1] == a + b[..|b| - 1];
    }
  }

  // Once the call ends, nothing is read any more.
  lemma {:induction false} VisitsStay(p: Pass, seen: seq<nat>, k: nat, asserts: bool)
    requires Within(seen, |p.nodes|) && k <= |seen| && !Visits(p, seen[..k], asserts).end.Going?
    ensures Visits(p, seen, asserts) == Visits(p, seen[..k], asserts)
    decreases |seen| - k
  {
    if k == |seen| {
      assert seen[..k] == seen;
    } else {
      assert seen[..k + 1][..k] == seen[..k];
      VisitsStay(p, seen, k + 1, asserts);
    }
  }

  // What the reactor yields: the nodes behind the handles with an event, lost ones included as their handles
  // are never taken out of the selector; a TimeoutException; or another IOException of select.
  datatype Report = Arrived(nodes: seq<nat>) | TimedOut | Failed

  ghost predicate Known(reports: seq<Report>, n: nat) {
    forall q :: 0 <= q < |reports| && reports[q].Arrived? ==> Within(reports[q].nodes, n)
  }

  // ready_nodes when the last of these reports is dealt with: a time-out leaves it as it was.
  function ReadyNodes(reports: seq<Report>): (seen: seq<nat>)
    ensures forall n :: Known(reports, n) ==> Within(seen, n)
  {
    if reports == [] then []
    else
      var last := reports[|reports| - 1];
      if last.Arrived? then last.nodes else ReadyNodes(reports[..|reports| - 1])
  }

  // completed_nodes is compared with numNodes only between reports.
  function Checked(p: Pass, numNodes: nat): Pass {
    if p.end.Going? && p.completed == numNodes then p.(end := Finished) else p
  }

  // updateAllNodes, given what the reactor yields; still Going if it would wait for another report.
  function Waited(ss: seq<NodeState>, numNodes: nat, reports: seq<Report>, asserts: bool): (q: Pass)
    requires Known(reports, |ss|)
    ensures |q.nodes| == |ss|
    decreases |reports|
  {
    if reports == [] then Checked(Start(ss), numNodes)
    else
      var p := Waited(ss, numNodes, reports[..|reports| - 1], asserts);
      if !p.end.Going? then p
      else if reports[|reports| - 1].Failed? then p.(end := Escaped)
      else Checked(Visits(p, ReadyNodes(reports), asserts), numNodes)
  }

  function NextNodes(report: Report, readyNodes: seq<nat>): seq<nat> {
    if report.Arrived? then report.nodes else readyNodes
  }

  lemma WaitedFirst(ss: seq<NodeState>, numNodes: nat, asserts: bool)
    ensures Known([], |ss|) && ReadyNodes([]) == []
    ensures Waited(ss, numNodes, [], asserts) == Checked(Start(ss), numNodes)
  {}

  lemma WaitedNext(ss: seq<NodeState>, numNodes: nat, reports: seq<Report>, r: nat, asserts: bool)
    requires Known(reports, |ss|) && r < |reports|
    ensures Known(reports[..r], |ss|) && Known(reports[..r + 1], |ss|)
    ensures var p, q := Waited(ss, numNodes, reports[..r], asserts), Waited(ss, numNodes, reports[..r + 1], asserts);
            var ready := NextNodes(reports[r], ReadyNodes(reports[..r]));
            && ready == ReadyNodes(reports[..r + 1]) && Within(ready, |ss|)
            && q == if !p.end.Going? then p else if reports[r].Failed? then p.(end := Escaped)
                    else Checked(Visits(p, ready, asserts), numNodes)
  {
    assert reports[..r + 1][..r] == reports[..r];
  }

  lemma {:induction false} WaitedStays(ss: seq<NodeState>, numNodes: nat, reports: seq<Report>, r: nat, asserts: bool)
    requires Known(reports, |ss|) && r <= |reports|
    requires !Waited(ss, numNodes, reports[..r], asserts).end.Going?
    ensures Waited(ss, numNodes, reports, asserts) == Waited(ss, numNodes, reports[..r], asserts)
    decreases |reports| - r
  {
    if r == |reports| {
      assert reports[..r] == reports;
    } else {
      assert reports[..r + 1][..r] == reports[..r];
      WaitedStays(ss, numNodes, reports, r + 1, asserts);
    }
  }

  // ---- sendEndBlocks, the corks and the two calls ----

  function SetUpdated(ss: seq<NodeState>, updated: bool): (ts: seq<NodeState>)
    ensures |ts| == |ss| && forall i :: 0 <= i < |ts| ==> ts[i] == ss[i].(updated := updated)
  {
    seq(|ss|, i requires 0 <= i < |ss| => ss[i].(updated := updated))
  }

  // A node that is not connected is skipped, one on which sending fails is shut down.
  function EndTo(s: NodeState, temp: int): NodeState {
    if !s.connected then s else if s.refuses then Shut(s) else Sent(s, EndBlock(temp))
  }

  function EndsTo(ss: seq<NodeState>, temp: int): (ts: seq<NodeState>)
    ensures |ts| == |ss| && forall i :: 0 <= i < |ts| ==> ts[i] == EndTo(ss[i], temp)
  {
    seq(|ss|, i requires 0 <= i < |ss| => EndTo(ss[i], temp))
  }

  function EndEvents(ss: seq<NodeState>): seq<Event> {
    if ss == [] then []
    else
      var n := |ss| - 1;
      EndEvents(ss[..n]) +
      if !ss[n].connected then [] else if ss[n].refuses then [SendFailed(n)] else [EndSent(n)]
  }

  // The number sendEndBlocks returns.
  function EndCount(ss: seq<NodeState>): nat {
    if ss == [] then 0
    else
      var n := |ss| - 1;
      EndCount(ss[..n]) + if ss[n].connected && !ss[n].refuses then 1 else 0
  }

  lemma EndsToNone(ss: seq<NodeState>, temp: int)
    ensures EndsTo(ss[..0], temp) + ss[0..] == ss && EndEvents(ss[..0]) == [] && EndCount(ss[..0]) == 0
  {}

  lemma EndsToNext(ss: seq<NodeState>, i: nat, temp: int)
    requires i < |ss|
    ensures var ts := EndsTo(ss[..i], temp) + ss[i..];
            ts[i] == ss[i] && ts[i := EndTo(ss[i], temp)] == EndsTo(ss[..i + 1], temp) + ss[i + 1..]
    ensures EndEvents(ss[..i + 1]) == EndEvents(ss[..i]) + if !ss[i].connected then []
                                                           else if ss[i].refuses then [SendFailed(i)] else [EndSent(i)]
    ensures EndCount(ss[..i + 1]) == EndCount(ss[..i]) + if ss[i].connected && !ss[i].refuses then 1 else 0
  {
    hide EndTo;
    assert ss[..i + 1][..i] == ss[..i];
  }

  // The first node without a socket.
  function FirstShut(ss: seq<NodeState>): (k: nat)
    ensures k <= |ss| && (k < |ss| ==> !ss[k].open) && forall i :: 0 <= i < k ==> ss[i].open
  {
    if ss == [] then 0
    else
      var n := |ss| - 1;
      var k := FirstShut(ss[..n]);
      if k < n then k else if ss[n].open then n + 1 else n
  }

  // corkNetwork and uncorkNetwork get as far as the first node without a socket.
  function PushedAll(ss: seq<NodeState>, enable: bool): (ts: seq<NodeState>)
    ensures |ts| == |ss|
    ensures forall i :: 0 <= i < |ts| ==> ts[i] == if i < FirstShut(ss) then Pushed(ss[i], enable) else ss[i]
  {
    seq(|ss|, i requires 0 <= i < |ss| => if i < FirstShut(ss) then Pushed(ss[i], enable) else ss[i])
  }

  predicate AllOpen(ss: seq<NodeState>) {
    forall i :: 0 <= i < |ss| ==> ss[i].open
  }

  // The nodes when update has uncorked the network, or tried to.
  function AllSent(ss: seq<NodeState>, temp: int): (ts: seq<NodeState>)
    ensures |ts| == |ss|
  {
    PushedAll(EndsTo(SetUpdated(ss, false), temp), false)
  }

  // Nobody has lost its socket by then.
  predicate SentOpen(ss: seq<NodeState>, temp: int) {
    AllOpen(EndsTo(SetUpdated(ss, false), temp))
  }

  function Updated(ss: seq<NodeState>, temp: int, reports: seq<Report>, asserts: bool): (q: Pass)
    requires Known(reports, |ss|)
    ensures |q.nodes| == |ss|
  {
    if !SentOpen(ss, temp) then Pass(AllSent(ss, temp), 0, EndEvents(ss), Crashed)
    else
      var p := Waited(AllSent(ss, temp), EndCount(ss), reports, asserts);
      p.(events := EndEvents(ss) + [Corked(false)] + p.events)
  }

  function MasterBarrier(ss: seq<NodeState>, reports: seq<Report>, asserts: bool): (q: Pass)
    requires Known(reports, |ss|)
    ensures |q.nodes| == |ss|
  {
    var p := Waited(SetUpdated(ss, false), |ss|, reports, asserts);
    if !p.end.Finished? then p else p.(nodes := EndsTo(p.nodes, 0), events := p.events + EndEvents(p.nodes))
  }

  function SlaveBarrier(ss: seq<NodeState>, reports: seq<Report>, asserts: bool): (q: Pass)
    requires Known(reports, |ss|)
    ensures |q.nodes| == |ss|
  {
    var p := Waited(SetUpdated(EndsTo(ss, 0), false), EndCount(ss), reports, asserts);
    p.(events := EndEvents(ss) + p.events)
  }
}
