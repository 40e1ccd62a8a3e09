/** One direction of a master-slave connection: a corkable sender, a FIFO socket, and its history. */
module ClusterLink {

  // handlePacket tells end blocks from everything else by the packet type alone;
  // the value an end block carries is never looked at.
  datatype Packet = EndBlock(temp: int) | Data(id: int)

  // sent and got are histories: all packets ever passed to send(), and all packets dispatched.
  // tags[j] is the number of the receiver's wait in which packet j was dispatched.
  datatype Link = Link(held: seq<Packet>, wire: seq<Packet>, sent: seq<Packet>, got: seq<Packet>, tags: seq<nat>)

  const IDLE_LINK := Link([], [], [], [], [])

  // Node::send: a corked connection holds the packet back.
  function Put(l: Link, p: Packet, corked: bool): Link {
    if corked then l.(held := l.held + [p], sent := l.sent + [p])
    else l.(wire := l.wire + [p], sent := l.sent + [p])
  }

  // setNoPush(false): everything held back goes out.
  function Flush(l: Link): Link {
    l.(wire := l.wire + l.held, held := [])
  }

  // Node::recvPacket followed by handlePacket.
  function Take(l: Link, wait: nat): Link
    requires l.wire != []
  {
    l.(wire := l.wire[1..], got := l.got + [l.wire[0]], tags := l.tags + [wait])
  }

  function Load(l: Link): nat {
    |l.held| + |l.wire|
  }

  // The number of end blocks in a stretch of packets.
  function Ends(ps: seq<Packet>): nat {
    if ps == [] then 0
    else Ends(ps[..|ps| - 1]) + if ps[|ps| - 1].EndBlock? then 1 else 0
  }

  lemma EndsAppend(ps: seq<Packet>, p: Packet)
    ensures Ends(ps + [p]) == Ends(ps) + if p.EndBlock? then 1 else 0
  {
    assert (ps + [p])[..|ps|] == ps;
  }

  lemma {:induction false} EndsConcat(ps: seq<Packet>, qs: seq<Packet>)
    ensures Ends(ps + qs) == Ends(ps) + Ends(qs)
  {
    if qs == [] {
      assert ps + qs == ps;
    } else {
      var n := |qs| - 1;
      assert ps + qs == (ps + qs[..n]) + [qs[n]];
      EndsAppend(ps + qs[..n], qs[n]);
      EndsConcat(ps, qs[..n]);
    }
  }

  lemma {:induction false} EndsMonotone(ps: seq<Packet>, i: nat, j: nat)
    requires i <= j <= |ps|
    ensures Ends(ps[..i]) <= Ends(ps[..j])
  {
    assert ps[..j] == ps[..i] + ps[i..j];
    EndsConcat(ps[..i], ps[i..j]);
  }

  // The link carries its packets in order, and each one is dispatched in the wait
  // whose number is the count of end blocks sent before it.
  ghost predicate LinkOk(l: Link, endsSent: nat, endsGot: nat, corked: bool) {
    && l.sent == l.got + l.wire + l.held
    && Ends(l.sent) == endsSent
    && Ends(l.got) == endsGot
    && (!corked ==> l.held == [])
    && |l.tags| == |l.got|
    && forall j :: 0 <= j < |l.tags| ==> l.tags[j] == Ends(l.sent[..j])
  }

  lemma LoadChanges(l: Link, p: Packet, corked: bool, wait: nat)
    ensures Load(Put(l, p, corked)) == Load(l) + 1
    ensures Load(Flush(l)) == Load(l)
    ensures l.wire != [] ==> Load(Take(l, wait)) == Load(l) - 1
  {}

  lemma CorkKeepsLink(l: Link, endsSent: nat, endsGot: nat, corked: bool)
    requires LinkOk(l, endsSent, endsGot, corked)
    ensures LinkOk(l, endsSent, endsGot, true)
  {}

  lemma PutKeepsLink(l: Link, p: Packet, endsSent: nat, endsGot: nat, corked: bool)
    requires LinkOk(l, endsSent, endsGot, corked)
    ensures LinkOk(Put(l, p, corked), endsSent + if p.EndBlock? then 1 else 0, endsGot, corked)
  {
    EndsAppend(l.sent, p);
    var l' := Put(l, p, corked);
    assert l'.sent == l'.got + l'.wire + l'.held;
    forall j | 0 <= j < |l'.tags| ensures l'.tags[j] == Ends(l'.sent[..j]) {
      assert l'.sent[..j] == l.sent[..j];
    }
  }

  lemma FlushKeepsLink(l: Link, endsSent: nat, endsGot: nat, corked: bool)
    requires LinkOk(l, endsSent, endsGot, corked)
    ensures LinkOk(Flush(l), endsSent, endsGot, false)
  {
    var l' := Flush(l);
    assert l'.sent == l'.got + l'.wire + l'.held;
  }

  lemma TakeKeepsLink(l: Link, endsSent: nat, endsGot: nat, corked: bool)
    requires LinkOk(l, endsSent, endsGot, corked) && l.wire != []
    ensures LinkOk(Take(l, endsGot), endsSent, endsGot + if l.wire[0].EndBlock? then 1 else 0, corked)
  {
    EndsAppend(l.got, l.wire[0]);
    var l' := Take(l, endsGot);
    assert l'.sent == l'.got + l'.wire + l'.held;
    assert l.sent[..|l.got|] == l.got;
  }

  lemma LinkBounds(l: Link, endsSent: nat, endsGot: nat, corked: bool)
    requires LinkOk(l, endsSent, endsGot, corked)
    ensures endsGot <= endsSent
    ensures !corked && l.wire == [] ==> endsGot == endsSent
  {
    EndsConcat(l.got, l.wire + l.held);
    assert l.sent == l.got + (l.wire + l.held);
  }

  // The end blocks that have left the sender, dispatched or still on the way.
  function Delivered(l: Link): nat {
    Ends(l.got + l.wire)
  }

  lemma DeliveredChanges(l: Link, p: Packet, corked: bool, wait: nat)
    ensures Delivered(Put(l, p, corked)) >= Delivered(l)
    ensures corked ==> Delivered(Put(l, p, corked)) == Delivered(l)
    ensures Delivered(Flush(l)) >= Delivered(l)
    ensures l.wire != [] ==> Delivered(Take(l, wait)) == Delivered(l)
  {
    assert l.got + (l.wire + [p]) == (l.got + l.wire) + [p];
    EndsAppend(l.got + l.wire, p);
    assert l.got + (l.wire + l.held) == (l.got + l.wire) + l.held;
    EndsConcat(l.got + l.wire, l.held);
    if l.wire != [] {
      assert (l.got + [l.wire[0]]) + l.wire[1..] == l.got + l.wire;
    }
  }

  lemma DeliveredBounds(l: Link, endsSent: nat, endsGot: nat, corked: bool)
    requires LinkOk(l, endsSent, endsGot, corked)
    ensures endsGot <= Delivered(l) <= endsSent
    ensures !corked ==> Delivered(l) == endsSent
    ensures l.wire == [] ==> Delivered(l) == endsGot
  {
    EndsConcat(l.got, l.wire);
    EndsConcat(l.got + l.wire, l.held);
    assert l.wire == [] ==> l.got + l.wire == l.got;
    assert l.held == [] ==> l.sent == l.got + l.wire;
  }

  // Packet j lies in the frame numbered by the end blocks sent before it. It is dispatched at most once, in order,
  // in the wait of that number, and once the receiver has completed that wait it has been dispatched.
  ghost predicate InFrame(l: Link, j: nat, done: nat)
    requires j < |l.sent|
  {
    var frame := Ends(l.sent[..j]);
    && (j < |l.got| ==> j < |l.tags| && l.got[j] == l.sent[j] && l.tags[j] == frame)
    && (frame < done ==> j < |l.got|)
  }

  lemma FrameAlignment(l: Link, endsSent: nat, endsGot: nat, corked: bool, j: nat, done: nat)
    requires LinkOk(l, endsSent, endsGot, corked) && j < |l.sent| && done <= endsGot
    ensures InFrame(l, j, done)
  {
    assert l.sent[..|l.got|] == l.got;
    if j >= |l.got| {
      EndsMonotone(l.sent, |l.got|, j);
    }
  }
}
