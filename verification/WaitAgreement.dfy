/** The waiting process of the state machine and the loop of updateAllNodes read the same packets. */
module WaitAgreement {
  import opened ClusterLink
  import opened ClusterProcess
  import opened NetworkNodes

  // The packets of a link as recvPacket yields them.
  function Arrivals(ps: seq<Packet>): (arrived: seq<Arrival>)
    ensures |arrived| == |ps| && forall k :: 0 <= k < |ps| ==> arrived[k] == Got(ps[k])
  {
    seq(|ps|, k requires 0 <= k < |ps| => Got(ps[k]))
  }

  ghost predicate Reads(c: Config, r: Role, v: View, acts: seq<Act>)
    decreases |acts|, 0
  {
    acts == [] ||
    (var front, a := acts[..|acts| - 1], acts[|acts| - 1];
     Reads(c, r, v, front) && (a.Pick? || a.Receive?) && CanAct(c, AfterReads(c, r, v, front), a))
  }

  // The process reads everything without anybody else moving: all packets have arrived already.
  ghost function AfterReads(c: Config, r: Role, v: View, acts: seq<Act>): View
    requires Reads(c, r, v, acts)
    decreases |acts|, 1
  {
    if acts == [] then v
    else DoAct(c, r, AfterReads(c, r, v, acts[..|acts| - 1]), acts[|acts| - 1])
  }

  // k packets of a link were read, the last one its first end block if the node is updated.
  ghost predicate LinkRead(l: Link, m: Link, updated: bool, focused: bool, k: nat) {
    && k <= |l.wire| && m.wire == l.wire[k..] && m.got == l.got + l.wire[..k]
    && (if updated then k > 0 && l.wire[k - 1].EndBlock? && forall i :: 0 <= i < k - 1 ==> !l.wire[i].EndBlock?
        else (forall i :: 0 <= i < k ==> !l.wire[i].EndBlock?) && (!focused ==> k == 0))
  }

  ghost predicate PartlyRead(l: Link, m: Link, updated: bool, focused: bool) {
    exists k: nat :: LinkRead(l, m, updated, focused, k)
  }

  ghost predicate AllPartlyRead(v: View, w: View) {
    && |w.ins| == |v.ins| == |w.p.updated| && w.p.phase.Waiting?
    && (w.p.phase.focus.Some? ==>
          w.p.phase.focus.value < |w.p.updated| && !w.p.updated[w.p.phase.focus.value])
    && forall j :: 0 <= j < |v.ins| ==>
         PartlyRead(v.ins[j], w.ins[j], w.p.updated[j], w.p.phase.focus == Some(j))
  }

  lemma TakeReads(l: Link, m: Link, wait: nat)
    requires PartlyRead(l, m, false, true) && m.wire != []
    ensures m.wire[0].EndBlock? ==> PartlyRead(l, Take(m, wait), true, false)
    ensures !m.wire[0].EndBlock? ==> PartlyRead(l, Take(m, wait), false, true)
  {
    var k: nat :| LinkRead(l, m, false, true, k);
    assert l.wire[k..][0] == l.wire[k] && l.wire[k..][1..] == l.wire[k + 1..];
    assert l.wire[..k + 1] == l.wire[..k] + [l.wire[k]];
    assert LinkRead(l, Take(m, wait), m.wire[0].EndBlock?, !m.wire[0].EndBlock?, k + 1);
  }

  lemma PickReads(l: Link, m: Link)
    requires PartlyRead(l, m, false, false)
    ensures PartlyRead(l, m, false, true)
  {
    var k: nat :| LinkRead(l, m, false, false, k);
    assert LinkRead(l, m, false, true, k);
  }

  lemma ReadKeeps(c: Config, r: Role, v: View, w: View, a: Act)
    requires AllPartlyRead(v, w) && CanAct(c, w, a) && (a.Pick? || a.Receive?)
    ensures AllPartlyRead(v, DoAct(c, r, w, a))
  {
    hide PartlyRead, Take;
    if a.Pick? {
      PickReads(v.ins[a.from], w.ins[a.from]);
    } else {
      var j := w.p.phase.focus.value;
      TakeReads(v.ins[j], w.ins[j], w.p.done);
    }
  }

  lemma {:induction false} ReadsKeep(c: Config, r: Role, v: View, acts: seq<Act>)
    requires v.p.phase == Waiting(None) && v.p.updated == NoneUpdated(|v.ins|)
    requires Reads(c, r, v, acts)
    ensures AllPartlyRead(v, AfterReads(c, r, v, acts))
    decreases |acts|
  {
    hide DoAct, CanAct;
    if acts == [] {
      forall j | 0 <= j < |v.ins| ensures PartlyRead(v.ins[j], v.ins[j], false, false) {
        assert LinkRead(v.ins[j], v.ins[j], false, false, 0);
      }
    } else {
      ReadsKeep(c, r, v, acts[..|acts| - 1]);
      ReadKeeps(c, r, v, AfterReads(c, r, v, acts[..|acts| - 1]), acts[|acts| - 1]);
    }
  }

  // Whatever order the nodes are picked in, a completed wait has taken exactly the next frame of every link.
  lemma WaitTakesFrames(c: Config, r: Role, v: View, acts: seq<Act>, j: nat)
    requires v.p.phase == Waiting(None) && v.p.updated == NoneUpdated(|v.ins|)
    requires Reads(c, r, v, acts) && AllUpdated(AfterReads(c, r, v, acts).p.updated) && j < |v.ins|
    ensures HasFrame(Arrivals(v.ins[j].wire))
    ensures var n, w := FrameLength(Arrivals(v.ins[j].wire)), AfterReads(c, r, v, acts);
            && |w.ins| == |v.ins|
            && w.ins[j].wire == v.ins[j].wire[n..] && w.ins[j].got == v.ins[j].got + v.ins[j].wire[..n]
  {
    ReadsKeep(c, r, v, acts);
    var w := AfterReads(c, r, v, acts);
    assert w.p.updated[j];
    var k: nat :| LinkRead(v.ins[j], w.ins[j], true, w.p.phase.focus == Some(j), k);
    assert forall i :: 0 <= i < k - 1 ==> v.ins[j].wire[i].Data?;
    FrameLengthIs(Arrivals(v.ins[j].wire), k);
  }

  // A node that is what a process sees of its links.
  ghost predicate Receives(l: Link, s: NodeState) {
    s.inbox == Arrivals(l.wire) && s.handled == l.got
  }

  // That is what updateAllNodes does to a node whose inbox is the link's wire.
  lemma AgreesWithLoop(c: Config, r: Role, v: View, acts: seq<Act>, j: nat, s: NodeState, asserts: bool)
    requires v.p.phase == Waiting(None) && v.p.updated == NoneUpdated(|v.ins|)
    requires Reads(c, r, v, acts) && AllUpdated(AfterReads(c, r, v, acts).p.updated) && j < |v.ins|
    requires s.connected && s.open && !s.updated && Receives(v.ins[j], s)
    ensures var (t, e) := ReadFrame(s, asserts);
            e.Read? && |AfterReads(c, r, v, acts).ins| == |v.ins| && Receives(AfterReads(c, r, v, acts).ins[j], t)
  {
    WaitTakesFrames(c, r, v, acts, j);
    ReadFrameIs(s, asserts);
    var wire := v.ins[j].wire;
    var n := FrameLength(s.inbox);
    assert s.inbox[n..] == Arrivals(wire[n..]) && Contents(s.inbox[..n]) == wire[..n];
  }
}
