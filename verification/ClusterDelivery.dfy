/** What plugins and sendEndBlocks hand to a connection in a run, and that it all arrives in the right frames. */
module ClusterDelivery {
  import opened ClusterLink
  import opened ClusterProcess
  import opened Cluster

  // ---- One step ----

  // The value of the end block each operation sends.
  function EndValue(op: Op): int {
    match op
    case Start => 0
    case Ready => 0
    case PreDraw => 2
    case Swap => 0
    case PostPostFrame => 3
    case DirectUpdate(temp) => temp
  }

  // What action a hands over for node j.
  function HandedBy(c: Config, p: Proc, a: Act, j: nat): seq<Packet> {
    match a
    case SendData(to, id) => if to == j then [Data(id)] else []
    case SendEnd => if p.phase == Sending(j) && p.op < |c.ops| then [EndBlock(EndValue(c.ops[p.op]))] else []
    case _ => []
  }

  // The node action a receives from.
  function ReceivesFrom(p: Proc, a: Act): Option<nat> {
    if a.Receive? && p.phase.Waiting? then p.phase.focus else None
  }

  // A corked connection keeps what is handed over until it is uncorked, then it all goes out in order;
  // an open one lets it out at once.
  lemma OutMoves(c: Config, r: Role, v: View, a: Act, j: nat)
    requires CanAct(c, v, a) && j < |v.outs|
    ensures var l, m, packets := v.outs[j], DoAct(c, r, v, a).outs[j], HandedBy(c, v.p, a, j);
            && m.sent == l.sent + packets && m.got == l.got && m.tags == l.tags
            && (if a.Uncork? then m.wire == l.wire + l.held && m.held == []
                else if v.p.corked then m.wire == l.wire && m.held == l.held + packets
                else m.wire == l.wire + packets && m.held == l.held)
  {}

  // Nothing but the first packet under way leaves a connection at its other end, and nothing enters it there.
  lemma InMoves(c: Config, r: Role, v: View, a: Act, j: nat)
    requires CanAct(c, v, a) && j < |v.ins|
    ensures var l, m := v.ins[j], DoAct(c, r, v, a).ins[j];
            && m.sent == l.sent && m.held == l.held
            && (if ReceivesFrom(v.p, a) == Some(j) then
                  l.wire != [] && l.wire == [l.wire[0]] + m.wire && m.got == l.got + [l.wire[0]]
                else m.wire == l.wire && m.got == l.got)
  {}

  // ---- Runs ----

  ghost function HandedDown(c: Config, s0: State, run: seq<Step>, i: nat): seq<Packet>
    requires Legal(c, s0, run)
  {
    if run == [] then []
    else
      var front := run[..|run| - 1];
      HandedDown(c, s0, front, i) +
      match run[|run| - 1]
      case MasterStep(a) => HandedBy(c, After(c, s0, front).master, a, i)
      case SlaveStep(_, _) => []
  }

  ghost function HandedUp(c: Config, s0: State, run: seq<Step>, i: nat): seq<Packet>
    requires Legal(c, s0, run)
  {
    if run == [] then []
    else
      var front, s := run[..|run| - 1], After(c, s0, run[..|run| - 1]);
      HandedUp(c, s0, front, i) +
      match run[|run| - 1]
      case MasterStep(_) => []
      case SlaveStep(k, a) => if k == i && i < |s.slaves| then HandedBy(c, s.slaves[i], a, 0) else []
  }

  // The history of a connection is what the run has handed over to it, packet by packet.
  lemma {:induction false} SentIsHanded(c: Config, s0: State, run: seq<Step>, i: nat)
    requires Initial(c, s0) && Legal(c, s0, run) && i < |s0.slaves|
    ensures var s := After(c, s0, run);
            && Shaped(s) && |s.slaves| == |s0.slaves|
            && s.down[i].sent == HandedDown(c, s0, run, i) && s.up[i].sent == HandedUp(c, s0, run, i)
    decreases |run|
  {
    hide DoAct, CanAct, HandedBy;
    if run != [] {
      var front := run[..|run| - 1];
      SentIsHanded(c, s0, front, i);
      var s := After(c, s0, front);
      match run[|run| - 1]
      case MasterStep(a) =>
        OutMoves(c, Master, MasterView(s), a, i);
        InMoves(c, Master, MasterView(s), a, i);
      case SlaveStep(k, a) =>
        OutMoves(c, Slave, SlaveView(s, k), a, 0);
        InMoves(c, Slave, SlaveView(s, k), a, 0);
    }
  }

  // Packet j handed over lies in the frame numbered by the end blocks handed over before it. What has arrived is it,
  // unchanged and in that frame; and once the receiver has completed the call of that number, it has arrived.
  ghost predicate Arrives(handed: seq<Packet>, l: Link, j: nat, done: nat)
    requires j < |handed|
  {
    var frame := Ends(handed[..j]);
    && (j < |l.got| ==> j < |l.tags| && l.got[j] == handed[j] && l.tags[j] == frame)
    && (frame < done ==> j < |l.got|)
  }

  lemma PacketsArrive(c: Config, s0: State, run: seq<Step>, i: nat, j: nat)
    requires Initial(c, s0) && Legal(c, s0, run) && i < |s0.slaves|
    ensures var s, down, up := After(c, s0, run), HandedDown(c, s0, run, i), HandedUp(c, s0, run, i);
            && Shaped(s) && i < |s.slaves|
            && (j < |down| ==> Arrives(down, s.down[i], j, s.slaves[i].done))
            && (j < |up| ==> Arrives(up, s.up[i], j, s.master.done))
            && |s.down[i].got| <= |down| && |s.up[i].got| <= |up|
  {
    hide After, Legal, HandedDown, HandedUp, Ends, LinkOk;
    SentIsHanded(c, s0, run, i);
    FramesAligned(c, s0, run, i, j);
    NoMoreThanSent(c, s0, run, i);
  }

  lemma NoMoreThanSent(c: Config, s0: State, run: seq<Step>, i: nat)
    requires Initial(c, s0) && Legal(c, s0, run) && i < |s0.slaves|
    ensures var s := After(c, s0, run);
            Shaped(s) && i < |s.slaves| && |s.down[i].got| <= |s.down[i].sent| && |s.up[i].got| <= |s.up[i].sent|
  {
    RunKeepsInv(c, s0, run);
    var s := After(c, s0, run);
    assert DownOk(c, s, i) && UpOk(c, s, i);
    hide After, Legal, Ends;
  }

  // In a completed run everything handed over before the last end block has arrived, and the end blocks are
  // as many as the calls.
  lemma AllArrived(c: Config, s0: State, run: seq<Step>, i: nat, j: nat)
    requires Initial(c, s0) && Legal(c, s0, run) && AllFinished(c, After(c, s0, run)) && i < |s0.slaves|
    ensures var s, down, up := After(c, s0, run), HandedDown(c, s0, run, i), HandedUp(c, s0, run, i);
            && Shaped(s) && i < |s.slaves| && Ends(down) == Ends(up) == |Calls(c)|
            && (j < |down| && Ends(down[..j]) < |Calls(c)| ==> j < |s.down[i].got| && s.down[i].got[j] == down[j])
            && (j < |up| && Ends(up[..j]) < |Calls(c)| ==> j < |s.up[i].got| && s.up[i].got[j] == up[j])
  {
    hide After, Legal, HandedDown, HandedUp, Ends, CallsUpTo;
    SentIsHanded(c, s0, run, i);
    PacketsArrive(c, s0, run, i, j);
    NothingLeftOver(c, s0, run, i);
    RunKeepsInv(c, s0, run);
    ProcsOk(c, After(c, s0, run));
  }

  // However many packets the plugins of each machine have to send, there is a start with them.
  lemma AnyLoadStarts(c: Config, masterData: nat, loads: seq<nat>) returns (s0: State)
    ensures Initial(c, s0) && s0.master.data == masterData && |s0.slaves| == |loads|
    ensures forall i :: 0 <= i < |loads| ==> s0.slaves[i].data == loads[i]
  {
    var idle := seq(|loads|, _ => IDLE_LINK);
    s0 := State(Proc(0, 0, Idle, false, [], masterData),
                seq(|loads|, i requires 0 <= i < |loads| => Proc(0, 0, Idle, false, [], loads[i])), idle, idle);
  }

  // A plugin that has packets left can hand one to any slave at any time, and the run records it.
  lemma MasterCanHand(c: Config, s0: State, run: seq<Step>, i: nat, id: int)
    requires Initial(c, s0) && Legal(c, s0, run) && i < |s0.slaves| && After(c, s0, run).master.data > 0
    ensures var t := MasterStep(SendData(i, id));
            && CanStep(c, After(c, s0, run), t) && Legal(c, s0, run + [t])
            && HandedDown(c, s0, run + [t], i) == HandedDown(c, s0, run, i) + [Data(id)]
  {
    RunKeepsInv(c, s0, run);
    var t := MasterStep(SendData(i, id));
    StepExtends(c, s0, run, t);
    assert (run + [t])[..|run|] == run;
  }

  lemma SlaveCanHand(c: Config, s0: State, run: seq<Step>, i: nat, id: int)
    requires Initial(c, s0) && Legal(c, s0, run) && i < |s0.slaves|
    requires i < |After(c, s0, run).slaves| && After(c, s0, run).slaves[i].data > 0
    ensures var t := SlaveStep(i, SendData(0, id));
            && CanStep(c, After(c, s0, run), t) && Legal(c, s0, run + [t])
            && HandedUp(c, s0, run + [t], i) == HandedUp(c, s0, run, i) + [Data(id)]
  {
    RunKeepsInv(c, s0, run);
    var t := SlaveStep(i, SendData(0, id));
    StepExtends(c, s0, run, t);
    assert (run + [t])[..|run|] == run;
  }

  // ---- The calls of the kernel's program ----

  function KernelCalls(frames: nat, swapLock: bool, plugins: bool): seq<Call> {
    if frames == 0 then [Barrier, Barrier]
    else
      KernelCalls(frames - 1, swapLock, plugins) + (if plugins then [Update(2)] else [])
      + (if swapLock then [Barrier] else []) + if plugins then [Update(3)] else []
  }

  lemma CallsAppend(c: Config, d: Config, ops: seq<Op>)
    requires d == c.(ops := c.ops + ops)
    ensures Calls(d) == Calls(c) + MoreCalls(c, ops)
  {
    CallsAppendTo(c, d, ops, |ops|);
    assert ops[..|ops|] == ops;
  }

  function MoreCalls(c: Config, ops: seq<Op>): seq<Call> {
    Calls(c.(ops := ops))
  }

  lemma {:induction false} CallsAppendTo(c: Config, d: Config, ops: seq<Op>, k: nat)
    requires d == c.(ops := c.ops + ops) && k <= |ops|
    ensures CallsUpTo(d, |c.ops| + k) == Calls(c) + CallsUpTo(c.(ops := ops), k)
  {
    if k == 0 {
      SameCalls(c, d, |c.ops|);
    } else {
      CallsAppendTo(c, d, ops, k - 1);
    }
  }

  lemma {:induction false} SameCalls(c: Config, d: Config, k: nat)
    requires c.plugins == d.plugins && k <= |c.ops| <= |d.ops| && d.ops[..|c.ops|] == c.ops
    ensures CallsUpTo(c, k) == CallsUpTo(d, k)
  {
    if k > 0 {
      SameCalls(c, d, k - 1);
    }
  }

  // Two barriers, then in every frame update 2, the swap barrier and update 3, as far as there is a plugin and a lock.
  lemma {:induction false} KernelCallsAre(c: Config, frames: nat, swapLock: bool)
    requires c.ops == KernelOps(frames, swapLock)
    ensures Calls(c) == KernelCalls(frames, swapLock, c.plugins)
    decreases frames
  {
    hide CallsUpTo;
    if frames == 0 {
      CallsOf(c);
    } else {
      var d := c.(ops := KernelOps(frames - 1, swapLock));
      var frame := if swapLock then [PreDraw, Swap, PostPostFrame] else [PreDraw, PostPostFrame];
      KernelCallsAre(d, frames - 1, swapLock);
      CallsAppend(d, c, frame);
      CallsOf(c.(ops := frame));
    }
  }

  lemma CallsOf(c: Config)
    requires |c.ops| <= 3
    ensures Calls(c) == (if |c.ops| > 0 && MakesCall(c, c.ops[0]) then [CallOf(c.ops[0])] else [])
                        + (if |c.ops| > 1 && MakesCall(c, c.ops[1]) then [CallOf(c.ops[1])] else [])
                        + (if |c.ops| > 2 && MakesCall(c, c.ops[2]) then [CallOf(c.ops[2])] else [])
  {
    var ops := c.ops;
    assert CallsUpTo(c, 0) == [];
    assert |ops| > 0 ==> CallsUpTo(c, 1) == if MakesCall(c, ops[0]) then [CallOf(ops[0])] else [];
    assert |ops| > 1 ==> CallsUpTo(c, 2) == CallsUpTo(c, 1) + if MakesCall(c, ops[1]) then [CallOf(ops[1])] else [];
    assert |ops| > 2 ==> CallsUpTo(c, 3) == CallsUpTo(c, 2) + if MakesCall(c, ops[2]) then [CallOf(ops[2])] else [];
  }
}
