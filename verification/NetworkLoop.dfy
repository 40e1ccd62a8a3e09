/** NetworkManager's loops over its nodes, as the source runs them, on node objects updated in place. */
module NetworkLoop {
  import opened ClusterLink
  import opened NetworkNodes
  import opened NetworkWait
  import opened NetworkCalls

  // How recvPacket ends: with a packet, with one of two exceptions, or never.
  datatype Received = Delivered(packet: Packet) | ClusterException | IOException | Never

  class Node {
    var connected: bool
    var open: bool
    var refuses: bool
    var updated: bool
    var corked: bool
    var inbox: seq<Arrival>
    var handled: seq<Packet>
    var held: seq<Packet>
    var wire: seq<Packet>

    function State(): NodeState
      reads this
    {
      NodeState(connected, open, refuses, updated, corked, inbox, handled, held, wire)
    }

    method Shutdown()
      modifies this`connected, this`open
      ensures State() == Shut(old(State()))
    {
      connected, open := false, false;
    }

    // False stands for the ClusterException of a failed send.
    method Send(p: Packet) returns (ok: bool)
      requires open
      modifies this`held, this`wire
      ensures ok == !refuses && State() == if ok then Sent(old(State()), p) else old(State())
    {
      ok := !refuses;
      if ok {
        if corked { held := held + [p]; } else { wire := wire + [p]; }
      }
    }

    method SetNoPush(enable: bool)
      requires open
      modifies this`corked, this`held, this`wire
      ensures State() == Pushed(old(State()), enable)
    {
      if !enable {
        wire, held := wire + held, [];
      }
      corked := enable;
    }

    method RecvPacket() returns (r: Received)
      modifies this`inbox
      ensures inbox == if old(open) && old(inbox) != [] then old(inbox)[1..] else old(inbox)
      ensures r == if !open then ClusterException
                   else if old(inbox) == [] then Never
                   else match old(inbox)[0]
                        case Got(p) => Delivered(p)
                        case Unreadable => ClusterException
                        case Broken => IOException
    {
      if !open {
        return ClusterException;
      }
      if inbox == [] {
        return Never;
      }
      var a := inbox[0];
      inbox := inbox[1..];
      match a
      case Got(p) => r := Delivered(p);
      case Unreadable => r := ClusterException;
      case Broken => r := IOException;
    }

    // handlePacket with this node: the flag is set by the packet type alone.
    method HandlePacket(p: Packet)
      modifies this`updated, this`handled
      ensures State() == Handled(old(State()), p)
    {
      handled := handled + [p];
      if p.EndBlock? {
        updated := true;
      }
    }

    // The inner loop of updateAllNodes, with the handler of its exceptions.
    method ReadUntilUpdated(asserts: bool) returns (e: ReadEnd)
      modifies this
      ensures (State(), e) == ReadFrame(old(State()), asserts)
    {
      while !updated
        invariant ReadFrame(State(), asserts) == ReadFrame(old(State()), asserts)
        decreases |inbox|, !updated
      {
        if asserts && !connected {
          return Ended(Tripped);
        }
        var r := RecvPacket();
        match r
        case Delivered(p) => HandlePacket(p);
        case ClusterException =>
          Shutdown();
          return Lost;
        case IOException => return Ended(Escaped);
        case Never => return Ended(Stuck);
      }
      e := Read;
    }
  }

  lemma {:induction false} ReadKeepsSocket(s: NodeState, asserts: bool)
    requires s.connected ==> s.open
    ensures ReadFrame(s, asserts).0.connected ==> ReadFrame(s, asserts).0.open
    decreases |s.inbox|
  {
    if s.inbox != [] && s.inbox[0].Got? {
      ReadKeepsSocket(Handled(s.(inbox := s.inbox[1..]), s.inbox[0].packet), asserts);
    }
  }

  // asserts says whether the build has assertions.
  class NetworkManager {
    const nodes: seq<Node>
    const asserts: bool
    var log: seq<Event>

    // A node is connected only after it was given a socket.
    ghost predicate Valid()
      reads nodes
    {
      && (forall i, j :: 0 <= i < j < |nodes| ==> nodes[i] != nodes[j])
      && forall i :: 0 <= i < |nodes| && nodes[i].connected ==> nodes[i].open
    }

    ghost function States(): (ss: seq<NodeState>)
      reads this, nodes
      ensures |ss| == |nodes| && forall i :: 0 <= i < |nodes| ==> ss[i] == nodes[i].State()
    {
      seq(|nodes|, i requires 0 <= i < |nodes| reads this, nodes => nodes[i].State())
    }

    // What the calls have done since the log was base.
    ghost predicate At(base: seq<Event>, p: Pass)
      reads this, nodes
    {
      States() == p.nodes && log == base + p.events
    }

    constructor (nodes: seq<Node>, asserts: bool)
      ensures this.nodes == nodes && this.asserts == asserts && log == []
    {
      this.nodes, this.asserts, log := nodes, asserts, [];
    }

    method SetAllUpdated(updated: bool) returns (num: nat)
      requires Valid()
      modifies nodes
      ensures Valid() && num == |nodes| && States() == NetworkNodes.SetUpdated(old(States()), updated)
    {
      num := 0;
      while num < |nodes|
        invariant num <= |nodes| && Valid()
        invariant forall i :: 0 <= i < num ==> nodes[i].State() == old(nodes[i].State()).(updated := updated)
        invariant forall i :: num <= i < |nodes| ==> nodes[i].State() == old(nodes[i].State())
      {
        nodes[num].updated := updated;
        num := num + 1;
      }
    }

    // The body of the loop over the nodes, with the handler of its exception.
    method SendEndBlock(i: nat, temp: int) returns (sent: bool)
      requires Valid() && i < |nodes|
      modifies this`log, nodes[i]
      ensures Valid() && States() == old(States())[i := EndTo(old(States())[i], temp)]
      ensures sent == (old(nodes[i].connected) && !old(nodes[i].refuses))
      ensures log == old(log) + if !old(nodes[i].connected) then [] else if sent then [EndSent(i)] else [SendFailed(i)]
    {
      sent := false;
      if nodes[i].connected {
        sent := nodes[i].Send(EndBlock(temp));
        if sent {
          log := log + [EndSent(i)];
        } else {
          log := log + [SendFailed(i)];
          nodes[i].Shutdown();
        }
      }
    }

    method SendEndBlocks(temp: int) returns (num: nat)
      requires Valid()
      modifies this, nodes
      ensures Valid() && States() == EndsTo(old(States()), temp)
      ensures num == EndCount(old(States())) && log == old(log) + EndEvents(old(States()))
    {
      hide EndTo, EndsTo, States, EndEvents, EndCount;
      ghost var start := States();
      EndsToNone(start, temp);
      num := 0;
      var i := 0;
      while i < |nodes|
        invariant 0 <= i <= |nodes| && Valid()
        invariant num == EndCount(start[..i]) && log == old(log) + EndEvents(start[..i])
        invariant States() == EndsTo(start[..i], temp) + start[i..]
      {
        EndsToNext(start, i, temp);
        var sent := SendEndBlock(i, temp);
        if sent {
          num := num + 1;
        }
        i := i + 1;
      }
      assert start[..i] == start && EndsTo(start[..i], temp) + start[i..] == EndsTo(start, temp);
    }

    // corkNetwork and uncorkNetwork; crashed stands for dereferencing a socket that is not there.
    method SetNoPush(enable: bool) returns (crashed: bool)
      requires Valid()
      modifies this, nodes
      ensures Valid() && crashed == !AllOpen(old(States())) && States() == PushedAll(old(States()), enable)
      ensures log == old(log) + if crashed then [] else [Corked(enable)]
    {
      hide Pushed, FirstShut;
      ghost var start := States();
      var i := 0;
      while i < |nodes|
        invariant 0 <= i <= FirstShut(start) && Valid() && log == old(log)
        invariant forall k :: 0 <= k < i ==> nodes[k].State() == Pushed(start[k], enable)
        invariant forall k :: i <= k < |nodes| ==> nodes[k].State() == start[k]
      {
        assert nodes[i].State() == start[i];
        if !nodes[i].open {
          return true;
        }
        nodes[i].SetNoPush(enable);
        i := i + 1;
      }
      log := log + [Corked(enable)];
      crashed := false;
    }

    method ReadNode(i: nat) returns (e: ReadEnd)
      requires Valid() && i < |nodes|
      modifies nodes[i]
      ensures Valid()
      ensures (States(), e) ==
                (old(States())[i := ReadFrame(old(States())[i], asserts).0], ReadFrame(old(States())[i], asserts).1)
    {
      hide ReadFrame;
      ReadKeepsSocket(nodes[i].State(), asserts);
      ghost var ss := States();
      e := nodes[i].ReadUntilUpdated(asserts);
      assert States() == ss[i := nodes[i].State()];
    }

    // One node of ready_nodes.
    method UpdateNode(i: nat, completed: nat, ghost base: seq<Event>, ghost p: Pass) returns (completed': nat, end: End)
      requires Valid() && At(base, p) && completed == p.completed && p.end.Going? && i < |nodes|
      modifies this, nodes
      ensures Valid() && At(base, Visit(p, i, asserts))
      ensures completed' == Visit(p, i, asserts).completed && end == Visit(p, i, asserts).end
    {
      hide ReadFrame;
      completed', end := completed, Going;
      assert nodes[i].updated == p.nodes[i].updated;
      if nodes[i].updated {
        return;
      }
      var e := ReadNode(i);
      match e
      case Read =>
        log := log + [FrameRead(i)];
        completed' := completed + 1;
      case Lost =>
        log := log + [NodeLost(i)];
        completed' := completed + 1;
      case Ended(stop) =>
        end := stop;
    }

    // The loop over ready_nodes; it is left where the call ends.
    method UpdateReported(readyNodes: seq<nat>, completed: nat, ghost base: seq<Event>, ghost p: Pass)
        returns (completed': nat, end: End)
      requires Valid() && At(base, p) && completed == p.completed && p.end.Going? && Within(readyNodes, |nodes|)
      modifies this, nodes
      ensures Valid() && At(base, Visits(p, readyNodes, asserts))
      ensures completed' == Visits(p, readyNodes, asserts).completed && end == Visits(p, readyNodes, asserts).end
    {
      hide Visit, States;
      ghost var q := p;
      completed', end := completed, Going;
      var k := 0;
      while k < |readyNodes| && end.Going?
        invariant 0 <= k <= |readyNodes| && Valid() && At(base, q) && q == Visits(p, readyNodes[..k], asserts)
        invariant completed' == q.completed && end == q.end
      {
        assert readyNodes[..k + 1][..k] == readyNodes[..k];
        completed', end := UpdateNode(readyNodes[k], completed', base, q);
        q := Visit(q, readyNodes[k], asserts);
        k := k + 1;
      }
      if k < |readyNodes| {
        VisitsStay(p, readyNodes, k, asserts);
      }
      assert readyNodes[..|readyNodes|] == readyNodes;
    }

    // reports is what the reactor yields while the method is called. Where they are used up it waits for more.
    method UpdateAllNodes(numNodes: nat, reports: seq<Report>) returns (end: End)
      requires Valid() && Known(reports, |nodes|)
      modifies this, nodes
      ensures Valid() && end == Waited(old(States()), numNodes, reports, asserts).end
      ensures At(old(log), Waited(old(States()), numNodes, reports, asserts))
    {
      hide Visits, ReadyNodes, Known, Waited, States;
      ghost var start, base, p := States(), log, Checked(Start(States()), numNodes);
      var completed, readyNodes: seq<nat> := 0, [];
      end := Going;
      var r := 0;
      WaitedFirst(start, numNodes, asserts);
      assert reports[..0] == [];
      while end.Going? && completed != numNodes && r < |reports|
        invariant 0 <= r <= |reports| && Valid() && At(base, p)
        invariant Known(reports[..r], |start|) && p == Waited(start, numNodes, reports[..r], asserts)
        invariant completed == p.completed && readyNodes == ReadyNodes(reports[..r])
        invariant p.end == if end.Going? && completed == numNodes then Finished else end
        decreases |reports| - r
      {
        WaitedNext(start, numNodes, reports, r, asserts);
        p := Waited(start, numNodes, reports[..r + 1], asserts);
        match reports[r] {
          case Arrived(nodes) => readyNodes := nodes;
          case TimedOut =>
          case Failed => end := Escaped;
        }
        if end.Going? {
          completed, end := UpdateReported(readyNodes, completed, base, Waited(start, numNodes, reports[..r], asserts));
        }
        r := r + 1;
      }
      if end.Going? && completed == numNodes {
        end := Finished;
      }
      if r < |reports| {
        WaitedStays(start, numNodes, reports, r, asserts);
      }
      assert reports[..|reports|] == reports;
    }

    // update up to the wait.
    method SendAll(temp: int) returns (numNodes: nat, crashed: bool)
      requires Valid()
      modifies this, nodes
      ensures Valid() && States() == AllSent(old(States()), temp)
      ensures numNodes == EndCount(old(States())) && crashed == !SentOpen(old(States()), temp)
      ensures log == old(log) + EndEvents(old(States())) + if crashed then [] else [Corked(false)]
    {
      hide EndEvents, EndCount, EndTo, EndsTo, SetUpdated, PushedAll, AllOpen, States;
      SetSameEvents(States());
      var _ := SetAllUpdated(false);
      numNodes := SendEndBlocks(temp);
      crashed := SetNoPush(false);
    }

    method Update(temp: int, reports: seq<Report>) returns (end: End)
      requires Valid() && Known(reports, |nodes|)
      modifies this, nodes
      ensures Valid() && end == Updated(old(States()), temp, reports, asserts).end
      ensures At(old(log), Updated(old(States()), temp, reports, asserts))
      ensures end.Finished? <==>
                AllStayOpen(old(States())) && EndsBy(old(States()), EndCount(old(States())), reports, asserts)
    {
      hide Waited, EndEvents, EndCount, AllSent, SentOpen, EndsBy, AllStayOpen, Known, States;
      UpdateReturnsIff(States(), temp, reports, asserts);
      var numNodes, crashed := SendAll(temp);
      if crashed {
        return Crashed;
      }
      end := UpdateAllNodes(numNodes, reports);
    }

    // The master waits for getNumNodes() nodes, connected or not, a slave for those it has sent an end block.
    method Barrier(master: bool, reports: seq<Report>) returns (end: End)
      requires Valid() && Known(reports, |nodes|)
      modifies this, nodes
      ensures var p := if master then MasterBarrier(old(States()), reports, asserts)
                       else SlaveBarrier(old(States()), reports, asserts);
              Valid() && end == p.end && At(old(log), p)
      ensures end.Finished? <==>
                if master then EndsBy(old(States()), |nodes|, reports, asserts)
                else EndsBy(EndsTo(old(States()), 0), EndCount(old(States())), reports, asserts)
    {
      hide MasterBarrier, SlaveBarrier, EndsBy, EndsTo, EndCount, Known, States;
      if master {
        end := BarrierOfMaster(reports);
      } else {
        end := BarrierOfSlave(reports);
      }
    }

    method BarrierOfMaster(reports: seq<Report>) returns (end: End)
      requires Valid() && Known(reports, |nodes|)
      modifies this, nodes
      ensures Valid() && end == MasterBarrier(old(States()), reports, asserts).end
      ensures At(old(log), MasterBarrier(old(States()), reports, asserts))
      ensures end.Finished? <==> EndsBy(old(States()), |nodes|, reports, asserts)
    {
      hide Waited, EndEvents, EndCount, EndTo, EndsTo, SetUpdated, EndsBy, Known, States;
      MasterReturnsIff(States(), reports, asserts);
      var numNodes := |nodes|;
      var _ := SetAllUpdated(false);
      end := UpdateAllNodes(numNodes, reports);
      if end.Finished? {
        var _ := SendEndBlocks(0);
      }
    }

    method BarrierOfSlave(reports: seq<Report>) returns (end: End)
      requires Valid() && Known(reports, |nodes|)
      modifies this, nodes
      ensures Valid() && end == SlaveBarrier(old(States()), reports, asserts).end
      ensures At(old(log), SlaveBarrier(old(States()), reports, asserts))
      ensures end.Finished? <==> EndsBy(EndsTo(old(States()), 0), EndCount(old(States())), reports, asserts)
    {
      hide Waited, EndEvents, EndCount, EndTo, EndsTo, SetUpdated, EndsBy, Known, States;
      SlaveReturnsIff(States(), reports, asserts);
      var numNodes := SendEndBlocks(0);
      var _ := SetAllUpdated(false);
      end := UpdateAllNodes(numNodes, reports);
    }
  }
}
