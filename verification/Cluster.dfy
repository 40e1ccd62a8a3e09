/** The end-block protocol: one master, any number of slaves, FIFO links, and every interleaving. */
module Cluster {
  import opened ClusterLink
  import opened ClusterProcess

  // down[i] and up[i] join the master with slave i.
  datatype State = State(master: Proc, slaves: seq<Proc>, down: seq<Link>, up: seq<Link>)

  datatype Step = MasterStep(a: Act) | SlaveStep(i: nat, a: Act)

  ghost predicate Shaped(s: State) {
    |s.slaves| == |s.down| == |s.up|
  }

  predicate AtStart(p: Proc) {
    p.op == 0 && p.done == 0 && p.phase.Idle? && !p.corked
  }

  ghost predicate Initial(c: Config, s: State) {
    && Shaped(s)
    && AtStart(s.master) && (forall i :: 0 <= i < |s.slaves| ==> AtStart(s.slaves[i]))
    && (forall i :: 0 <= i < |s.down| ==> s.down[i] == IDLE_LINK)
    && (forall i :: 0 <= i < |s.up| ==> s.up[i] == IDLE_LINK)
  }

  function MasterView(s: State): View {
    View(s.master, s.down, s.up)
  }

  function SlaveView(s: State, i: nat): View
    requires i < |s.slaves| && i < |s.up| && i < |s.down|
  {
    View(s.slaves[i], [s.up[i]], [s.down[i]])
  }

  ghost predicate CanStep(c: Config, s: State, t: Step) {
    match t
    case MasterStep(a) => CanAct(c, MasterView(s), a)
    case SlaveStep(i, a) => i < |s.slaves| && i < |s.up| && i < |s.down| && CanAct(c, SlaveView(s, i), a)
  }

  ghost function DoStep(c: Config, s: State, t: Step): State
    requires CanStep(c, s, t)
  {
    match t
    case MasterStep(a) =>
      var w := DoAct(c, Master, MasterView(s), a);
      State(w.p, s.slaves, w.outs, w.ins)
    case SlaveStep(i, a) =>
      var w := DoAct(c, Slave, SlaveView(s, i), a);
      State(s.master, s.slaves[i := w.p], s.down[i := w.ins[0]], s.up[i := w.outs[0]])
  }

  // ---- Runs ----

  ghost predicate Legal(c: Config, s: State, run: seq<Step>)
    decreases |run|, 0
  {
    run == [] ||
    (Legal(c, s, run[..|run| - 1]) && CanStep(c, After(c, s, run[..|run| - 1]), run[|run| - 1]))
  }

  ghost function After(c: Config, s: State, run: seq<Step>): State
    requires Legal(c, s, run)
    decreases |run|, 1
  {
    if run == [] then s else DoStep(c, After(c, s, run[..|run| - 1]), run[|run| - 1])
  }

  // ---- The invariant: every end block is accounted for by the two program counters ----

  ghost predicate DownOk(c: Config, s: State, i: nat)
    requires Shaped(s) && i < |s.slaves|
  {
    LinkOk(s.down[i], EndsSent(c, Master, s.master, i), EndsGot(c, Slave, s.slaves[i], 0), s.master.corked)
  }

  ghost predicate UpOk(c: Config, s: State, i: nat)
    requires Shaped(s) && i < |s.slaves|
  {
    LinkOk(s.up[i], EndsSent(c, Slave, s.slaves[i], 0), EndsGot(c, Master, s.master, i), s.slaves[i].corked)
  }

  ghost predicate Inv(c: Config, s: State) {
    && Shaped(s)
    && ProcOk(c, Master, s.master, |s.slaves|)
    && (forall i :: 0 <= i < |s.slaves| ==> ProcOk(c, Slave, s.slaves[i], 1))
    && (forall i :: 0 <= i < |s.slaves| ==> DownOk(c, s, i))
    && (forall i :: 0 <= i < |s.slaves| ==> UpOk(c, s, i))
  }

  lemma InitialInv(c: Config, s: State)
    requires Initial(c, s)
    ensures Inv(c, s)
  {}

  // What the slaves' program counters say about the far ends of the master's links.
  ghost function FarGots(c: Config, s: State): (g: seq<nat>)
    ensures |g| == |s.slaves|
  {
    seq(|s.slaves|, i requires 0 <= i < |s.slaves| => EndsGot(c, Slave, s.slaves[i], 0))
  }

  ghost function FarSents(c: Config, s: State): (g: seq<nat>)
    ensures |g| == |s.slaves|
  {
    seq(|s.slaves|, i requires 0 <= i < |s.slaves| => EndsSent(c, Slave, s.slaves[i], 0))
  }

  ghost function FarCorks(s: State): (g: seq<bool>)
    ensures |g| == |s.slaves|
  {
    seq(|s.slaves|, i requires 0 <= i < |s.slaves| => s.slaves[i].corked)
  }

  lemma MasterViewOk(c: Config, s: State)
    requires Inv(c, s)
    ensures ViewOk(c, Master, MasterView(s), FarGots(c, s), FarSents(c, s), FarCorks(s))
  {
    hide LinkOk, ProcOk, EndsSent, EndsGot;
    var n := |s.slaves|;
    forall i | 0 <= i < n
      ensures LinkOk(s.down[i], EndsSent(c, Master, s.master, i), FarGots(c, s)[i], s.master.corked)
      ensures LinkOk(s.up[i], FarSents(c, s)[i], EndsGot(c, Master, s.master, i), FarCorks(s)[i])
    {
      assert DownOk(c, s, i) && UpOk(c, s, i);
    }
  }

  lemma SlaveViewOk(c: Config, s: State, i: nat)
    requires Inv(c, s) && i < |s.slaves|
    ensures ViewOk(c, Slave, SlaveView(s, i), [EndsGot(c, Master, s.master, i)], [EndsSent(c, Master, s.master, i)],
                   [s.master.corked])
  {
    hide LinkOk, ProcOk, EndsSent, EndsGot;
    assert DownOk(c, s, i) && UpOk(c, s, i);
  }

  lemma MasterStepKeepsInv(c: Config, s: State, a: Act)
    requires Inv(c, s) && CanStep(c, s, MasterStep(a))
    ensures Inv(c, DoStep(c, s, MasterStep(a)))
  {
    hide LinkOk, DoAct, CanAct, ProcOk, EndsSent, EndsGot;
    MasterViewOk(c, s);
    ActKeepsView(c, Master, MasterView(s), a, FarGots(c, s), FarSents(c, s), FarCorks(s));
    var s' := DoStep(c, s, MasterStep(a));
    forall i | 0 <= i < |s.slaves| ensures DownOk(c, s', i) && UpOk(c, s', i) {
      assert FarGots(c, s)[i] == EndsGot(c, Slave, s'.slaves[i], 0);
      assert FarSents(c, s)[i] == EndsSent(c, Slave, s'.slaves[i], 0);
    }
  }

  lemma SlaveStepKeepsInv(c: Config, s: State, i: nat, a: Act)
    requires Inv(c, s) && CanStep(c, s, SlaveStep(i, a))
    ensures Inv(c, DoStep(c, s, SlaveStep(i, a)))
  {
    hide LinkOk, DoAct, CanAct, ProcOk, EndsSent, EndsGot;
    SlaveViewOk(c, s, i);
    ActKeepsView(c, Slave, SlaveView(s, i), a, [EndsGot(c, Master, s.master, i)], [EndsSent(c, Master, s.master, i)],
                 [s.master.corked]);
    var s' := DoStep(c, s, SlaveStep(i, a));
    forall k | 0 <= k < |s.slaves| ensures DownOk(c, s', k) && UpOk(c, s', k) {
      assert DownOk(c, s, k) && UpOk(c, s, k);
    }
  }

  lemma {:induction false} RunKeepsInv(c: Config, s: State, run: seq<Step>)
    requires Initial(c, s) && Legal(c, s, run)
    ensures Inv(c, After(c, s, run)) && |After(c, s, run).slaves| == |s.slaves|
    decreases |run|
  {
    hide Inv, DoAct, CanAct;
    if run == [] {
      InitialInv(c, s);
    } else {
      RunKeepsInv(c, s, run[..|run| - 1]);
      match run[|run| - 1]
      case MasterStep(a) => MasterStepKeepsInv(c, After(c, s, run[..|run| - 1]), a);
      case SlaveStep(i, a) => SlaveStepKeepsInv(c, After(c, s, run[..|run| - 1]), i, a);
    }
  }

  // ---- Safety ----

  lemma CountsOnLinks(c: Config, s: State, i: nat)
    requires Inv(c, s) && i < |s.slaves|
    ensures Ends(s.down[i].sent) == EndsSent(c, Master, s.master, i)
    ensures Ends(s.down[i].got) == EndsGot(c, Slave, s.slaves[i], 0) <= EndsSent(c, Master, s.master, i)
    ensures Ends(s.up[i].sent) == EndsSent(c, Slave, s.slaves[i], 0)
    ensures Ends(s.up[i].got) == EndsGot(c, Master, s.master, i) <= EndsSent(c, Slave, s.slaves[i], 0)
  {
    assert DownOk(c, s, i) && UpOk(c, s, i);
    hide EndsSent, EndsGot;
    LinkBounds(s.down[i], EndsSent(c, Master, s.master, i), EndsGot(c, Slave, s.slaves[i], 0), s.master.corked);
    LinkBounds(s.up[i], EndsSent(c, Slave, s.slaves[i], 0), EndsGot(c, Master, s.master, i), s.slaves[i].corked);
  }

  ghost predicate Entered(p: Proc, k: nat) {
    p.done > k || (p.done == k && !p.phase.Idle?)
  }

  lemma BarrierSafetyAt(c: Config, s: State, k: nat, i: nat, j: nat)
    requires Inv(c, s) && k < |Calls(c)| && Calls(c)[k].Barrier? && i < |s.slaves| && j < |s.slaves|
    requires s.slaves[i].done > k
    ensures Entered(s.slaves[j], k) && Ends(s.up[j].sent) > k
    ensures Entered(s.master, k) && Ends(s.up[j].got) > k
  {
    CountsOnLinks(c, s, i);
    CountsOnLinks(c, s, j);
    ProcsOk(c, s);
    hide Inv;
  }

  // When one slave has returned from barrier k, every slave has entered it
  // and the master has dispatched an end block for it from every slave.
  lemma BarrierSafety(c: Config, s0: State, run: seq<Step>, k: nat, i: nat, j: nat)
    requires Initial(c, s0) && Legal(c, s0, run)
    requires k < |Calls(c)| && Calls(c)[k].Barrier? && i < |s0.slaves| && j < |s0.slaves|
    requires i < |After(c, s0, run).slaves| && After(c, s0, run).slaves[i].done > k
    ensures var s := After(c, s0, run);
            && j < |s.slaves| && j < |s.up|
            && Entered(s.slaves[j], k) && Ends(s.up[j].sent) > k
            && Entered(s.master, k) && Ends(s.up[j].got) > k
  {
    RunKeepsInv(c, s0, run);
    hide Inv, After, Legal;
    BarrierSafetyAt(c, After(c, s0, run), k, i, j);
    ProcsOk(c, After(c, s0, run));
  }

  function Distance(x: nat, y: nat): nat {
    if x < y then y - x else x - y
  }

  lemma SkewAt(c: Config, s: State, i: nat, j: nat)
    requires Inv(c, s) && i < |s.slaves| && j < |s.slaves|
    ensures Distance(s.master.done, s.slaves[i].done) <= 1
    ensures Distance(s.slaves[i].done, s.slaves[j].done) <= 2
    ensures (forall k :: 0 <= k < |Calls(c)| ==> Calls(c)[k].Barrier?) ==>
              Distance(s.slaves[i].done, s.slaves[j].done) <= 1
  {
    CountsOnLinks(c, s, i);
    CountsOnLinks(c, s, j);
    ProcsOk(c, s);
    hide Inv;
  }

  // On every link, in both directions, every packet ever sent is dispatched exactly in its own frame.
  lemma FramesAligned(c: Config, s0: State, run: seq<Step>, i: nat, j: nat)
    requires Initial(c, s0) && Legal(c, s0, run) && i < |s0.slaves|
    ensures var s := After(c, s0, run);
            && i < |s.slaves| && Shaped(s)
            && (j < |s.down[i].sent| ==> InFrame(s.down[i], j, s.slaves[i].done))
            && (j < |s.up[i].sent| ==> InFrame(s.up[i], j, s.master.done))
  {
    RunKeepsInv(c, s0, run);
    var s := After(c, s0, run);
    assert DownOk(c, s, i) && UpOk(c, s, i);
    hide LinkOk, InFrame, After, Legal;
    if j < |s.down[i].sent| {
      FrameAlignment(s.down[i], EndsSent(c, Master, s.master, i), EndsGot(c, Slave, s.slaves[i], 0),
                     s.master.corked, j, s.slaves[i].done);
    }
    if j < |s.up[i].sent| {
      FrameAlignment(s.up[i], EndsSent(c, Slave, s.slaves[i], 0), EndsGot(c, Master, s.master, i),
                     s.slaves[i].corked, j, s.master.done);
    }
  }

  lemma SkewBound(c: Config, s0: State, run: seq<Step>, i: nat, j: nat)
    requires Initial(c, s0) && Legal(c, s0, run) && i < |s0.slaves| && j < |s0.slaves|
    ensures var s := After(c, s0, run);
            && i < |s.slaves| && j < |s.slaves|
            && Distance(s.master.done, s.slaves[i].done) <= 1
            && Distance(s.slaves[i].done, s.slaves[j].done) <= 2
            && ((forall k :: 0 <= k < |Calls(c)| ==> Calls(c)[k].Barrier?) ==>
                  Distance(s.slaves[i].done, s.slaves[j].done) <= 1)
  {
    RunKeepsInv(c, s0, run);
    hide Inv, After, Legal;
    SkewAt(c, After(c, s0, run), i, j);
  }

  // ---- How far a cluster gets ----

  function FirstHang(c: Config, k: nat): (h: nat)
    requires k <= |c.ops|
    ensures k <= h <= |c.ops| && (h < |c.ops| ==> Hangs(c, h)) && forall j :: k <= j < h ==> !Hangs(c, j)
    decreases |c.ops| - k
  {
    if k == |c.ops| || Hangs(c, k) then k else FirstHang(c, k + 1)
  }

  // The operation no process of a cluster with n slaves ever completes, or the end of the program.
  function RestAt(c: Config, n: nat): (h: nat)
    ensures h <= |c.ops| && (h < |c.ops| ==> n > 0 && Hangs(c, h))
    ensures n > 0 ==> forall j :: 0 <= j < h ==> !Hangs(c, j)
  {
    if n == 0 then |c.ops| else FirstHang(c, 0)
  }

  // Nobody is past operation h; if it hangs, the master has no end block for it from a slave
  // and has sent none.
  ghost predicate Before(c: Config, s: State, h: nat) {
    && Shaped(s) && s.master.op <= h && (forall i :: 0 <= i < |s.slaves| ==> s.slaves[i].op <= h)
    && Prompt(MasterView(s)) && (forall i :: 0 <= i < |s.slaves| ==> Prompt(SlaveView(s, i)))
    && (Hangs(c, h) && s.master.op == h ==> s.master.phase.Idle? || s.master.phase.Waiting?)
    && (Hangs(c, h) ==> forall i :: 0 <= i < |s.slaves| && s.slaves[i].op == h ==> HeldBack(s, i))
  }

  // The end blocks slave i sent since its last completed call have not left it.
  ghost predicate HeldBack(s: State, i: nat)
    requires i < |s.slaves| && i < |s.up|
  {
    Delivered(s.up[i]) <= s.slaves[i].done
  }

  lemma InitialBefore(c: Config, s: State)
    requires Initial(c, s)
    ensures Before(c, s, RestAt(c, |s.slaves|))
  {
    assert Delivered(IDLE_LINK) == 0;
  }

  lemma ProcsOk(c: Config, s: State)
    requires Inv(c, s)
    ensures Shaped(s) && ProcOk(c, Master, s.master, |s.slaves|)
    ensures forall i :: 0 <= i < |s.slaves| ==> ProcOk(c, Slave, s.slaves[i], 1)
  {}

  // A process before operation h has sent and collected no more than the calls before h.
  lemma EndsBelow(c: Config, r: Role, p: Proc, n: nat, h: nat, j: nat)
    requires ProcOk(c, r, p, n) && p.op < h <= |c.ops|
    ensures EndsSent(c, r, p, j) <= |CallsUpTo(c, h)| && EndsGot(c, r, p, j) <= |CallsUpTo(c, h)|
    ensures InCall(p) ==> p.done < |CallsUpTo(c, h)|
  {
    CallAt(c, p.op);
    CallsPrefix(c, p.op + 1, h);
  }

  // The master cannot have collected all end blocks of a hanging barrier, nor a slave the master's.
  lemma NobodyPasses(c: Config, s: State, h: nat, i: nat)
    requires Inv(c, s) && Before(c, s, h) && Hangs(c, h) && i < |s.slaves|
    ensures s.master.op == h ==> EndsGot(c, Master, s.master, i) <= s.master.done
    ensures s.slaves[i].op == h ==> EndsGot(c, Slave, s.slaves[i], 0) <= s.slaves[i].done
  {
    CountsOnLinks(c, s, i);
    ProcsOk(c, s);
    assert UpOk(c, s, i);
    DeliveredBounds(s.up[i], EndsSent(c, Slave, s.slaves[i], 0), EndsGot(c, Master, s.master, i), s.slaves[i].corked);
    hide Inv, LinkOk, CallsUpTo, Calls, Prompt;
    if s.slaves[i].op < h {
      EndsBelow(c, Slave, s.slaves[i], 1, h, 0);
    }
    if s.master.op < h {
      EndsBelow(c, Master, s.master, |s.slaves|, h, i);
    }
  }

  lemma MasterStaysBefore(c: Config, s: State, a: Act, h: nat)
    requires Inv(c, s) && CanStep(c, s, MasterStep(a)) && h == RestAt(c, |s.slaves|) && Before(c, s, h)
    ensures var v := MasterView(s); var w := DoAct(c, Master, v, a);
            && w.p.op <= h && (w.p.done > v.p.done ==> v.p.op < h)
            && (Hangs(c, h) && w.p.op == h ==> w.p.phase.Idle? || w.p.phase.Waiting?)
  {
    var v := MasterView(s);
    OpsCompleteOneByOne(c, Master, v, a);
    ProcsOk(c, s);
    if Hangs(c, h) {
      NobodyPasses(c, s, h, 0);
      if s.master.op == h {
        HangHolds(c, Master, v, a);
      }
    }
    hide Inv, ProcOk, DoAct, CanAct, Prompt, EndsGot, EndsSent;
  }

  lemma MasterStepKeepsBefore(c: Config, s: State, a: Act, h: nat)
    requires Inv(c, s) && CanStep(c, s, MasterStep(a)) && h == RestAt(c, |s.slaves|) && Before(c, s, h)
    ensures Before(c, DoStep(c, s, MasterStep(a)), h)
  {
    var v := MasterView(s);
    MasterStaysBefore(c, s, a, h);
    MasterViewOk(c, s);
    hide Inv, ViewOk, ProcOk, DoAct, CanAct, Delivered, EndsGot, EndsSent;
    if |s.slaves| > 0 {
      ActKeepsPrompt(c, Master, v, a, FarGots(c, s), FarSents(c, s), FarCorks(s));
    }
    var s' := DoStep(c, s, MasterStep(a));
    forall i | 0 <= i < |s.slaves| ensures Delivered(s'.up[i]) == Delivered(s.up[i]) && Prompt(SlaveView(s', i)) {
      ReadingDeliversNothing(c, Master, v, a, i);
      assert Prompt(SlaveView(s, i));
      assert SlaveView(s, i).outs[0] == s.up[i];
    }
    assert Prompt(MasterView(s'));
  }

  lemma SlaveStaysBefore(c: Config, s: State, i: nat, a: Act, h: nat)
    requires Inv(c, s) && CanStep(c, s, SlaveStep(i, a)) && h == RestAt(c, |s.slaves|) && Before(c, s, h)
    requires Inv(c, DoStep(c, s, SlaveStep(i, a)))
    ensures var v := SlaveView(s, i); var w := DoAct(c, Slave, v, a);
            && w.p.op <= h && (w.p.done > v.p.done ==> v.p.op < h)
            && (Hangs(c, h) && w.p.op == h ==> Delivered(w.outs[0]) <= w.p.done)
  {
    var v := SlaveView(s, i);
    var s' := DoStep(c, s, SlaveStep(i, a));
    OpsCompleteOneByOne(c, Slave, v, a);
    ProcsOk(c, s);
    assert s'.slaves[i] == DoAct(c, Slave, v, a).p && s'.up[i] == DoAct(c, Slave, v, a).outs[0];
    if Hangs(c, h) {
      NobodyPasses(c, s, h, i);
      if s.slaves[i].op == h {
        HangHolds(c, Slave, v, a);
        assert HeldBack(s, i);
      } else if s'.slaves[i].op == h {
        assert UpOk(c, s', i);
        DeliveredBounds(s'.up[i], EndsSent(c, Slave, s'.slaves[i], 0), EndsGot(c, Master, s'.master, i),
                        s'.slaves[i].corked);
      }
    }
    hide Inv, ProcOk, DoAct, CanAct, Prompt, EndsGot, Delivered;
  }

  lemma SlaveStepKeepsBefore(c: Config, s: State, i: nat, a: Act, h: nat)
    requires Inv(c, s) && CanStep(c, s, SlaveStep(i, a)) && h == RestAt(c, |s.slaves|) && Before(c, s, h)
    requires Inv(c, DoStep(c, s, SlaveStep(i, a)))
    ensures Before(c, DoStep(c, s, SlaveStep(i, a)), h)
  {
    var v := SlaveView(s, i);
    var s' := DoStep(c, s, SlaveStep(i, a));
    var w := DoAct(c, Slave, v, a);
    assert s' == State(s.master, s.slaves[i := w.p], s.down[i := w.ins[0]], s.up[i := w.outs[0]]);
    SlaveStaysBefore(c, s, i, a, h);
    SlaveViewOk(c, s, i);
    hide Inv, ViewOk, DoStep, DoAct, CanStep, CanAct, Delivered, EndsGot, EndsSent, RestAt, Hangs;
    ActKeepsPrompt(c, Slave, v, a, [EndsGot(c, Master, s.master, i)], [EndsSent(c, Master, s.master, i)],
                   [s.master.corked]);
    ReadingDeliversNothing(c, Slave, v, a, 0);
    forall k | 0 <= k < |s.slaves| ensures Prompt(SlaveView(s', k)) {
      assert Prompt(SlaveView(s, k));
    }
    forall j | 0 <= j < |s.slaves| ensures Delivered(s'.down[j]) == Delivered(MasterView(s).outs[j]) {}
    assert Prompt(MasterView(s'));
  }

  lemma {:induction false} RunStaysBefore(c: Config, s: State, run: seq<Step>)
    requires Initial(c, s) && Legal(c, s, run)
    ensures Before(c, After(c, s, run), RestAt(c, |s.slaves|))
    decreases |run|
  {
    hide Before, RestAt, Inv, DoStep, CanStep;
    var h := RestAt(c, |s.slaves|);
    if run == [] {
      InitialBefore(c, s);
    } else {
      var front := run[..|run| - 1];
      var s' := After(c, s, front);
      RunStaysBefore(c, s, front);
      RunKeepsInv(c, s, front);
      RunKeepsInv(c, s, run);
      match run[|run| - 1]
      case MasterStep(a) => MasterStepKeepsBefore(c, s', a, h);
      case SlaveStep(i, a) => SlaveStepKeepsBefore(c, s', i, a, h);
    }
  }

  // ---- Progress ----

  ghost predicate Finished(c: Config, p: Proc) {
    p.op == |c.ops| && p.phase.Idle?
  }

  ghost predicate AllFinished(c: Config, s: State) {
    Finished(c, s.master) && forall i :: 0 <= i < |s.slaves| ==> Finished(c, s.slaves[i])
  }

  // At the end of the program, or waiting in operation h.
  ghost predicate Rests(c: Config, p: Proc, h: nat) {
    p.op == h && if h == |c.ops| then p.phase.Idle? else p.phase.Waiting?
  }

  ghost predicate AllRest(c: Config, s: State, h: nat) {
    Rests(c, s.master, h) && forall i :: 0 <= i < |s.slaves| ==> Rests(c, s.slaves[i], h)
  }

  // The process sits in updateAllNodes and node j, not yet updated, has nothing to read.
  ghost predicate BlockedOn(v: View, j: nat) {
    v.p.phase.Waiting? && j < |v.p.updated| && j < |v.ins| && !v.p.updated[j] && v.ins[j].wire == []
  }

  lemma ActOrBlocked(c: Config, r: Role, v: View) returns (able: bool, a: Act, j: nat)
    requires ProcOk(c, r, v.p, |v.ins|) && |v.outs| == |v.ins| && v.p.op < |c.ops|
    ensures able ==> CanAct(c, v, a) && !a.SendData?
    ensures !able ==> BlockedOn(v, j)
  {
    able, a, j := true, Enter, 0;
    match v.p.phase
    case Idle => a := if Corks(c.ops[v.p.op]) then Cork else Enter;
    case Plugins => a := if c.plugins then Enter else Skip;
    case Sending(next) => a := if next < |v.outs| then SendEnd else SendDone;
    case Uncorking => a := Uncork;
    case Waiting(None) =>
      if AllUpdated(v.p.updated) {
        a := WaitDone;
      } else {
        j :| 0 <= j < |v.p.updated| && !v.p.updated[j];
        able, a := v.ins[j].wire != [], Pick(j);
      }
    case Waiting(Some(from)) => able, a, j := v.ins[from].wire != [], Receive, from;
  }

  lemma LinkAccounts(c: Config, s: State, i: nat)
    requires Inv(c, s) && i < |s.slaves|
    ensures !s.master.corked ==> Delivered(s.down[i]) == EndsSent(c, Master, s.master, i)
    ensures !s.slaves[i].corked ==> Delivered(s.up[i]) == EndsSent(c, Slave, s.slaves[i], 0)
    ensures s.down[i].wire == [] ==> Delivered(s.down[i]) == EndsGot(c, Slave, s.slaves[i], 0)
    ensures s.up[i].wire == [] ==> Delivered(s.up[i]) == EndsGot(c, Master, s.master, i)
  {
    assert DownOk(c, s, i) && UpOk(c, s, i);
    hide Inv, LinkOk, EndsSent, EndsGot;
    DeliveredBounds(s.down[i], EndsSent(c, Master, s.master, i), EndsGot(c, Slave, s.slaves[i], 0), s.master.corked);
    DeliveredBounds(s.up[i], EndsSent(c, Slave, s.slaves[i], 0), EndsGot(c, Master, s.master, i), s.slaves[i].corked);
  }

  // A slave that the master is waiting for before operation h can go on.
  lemma MasterBlockedMeansSlaveMoves(c: Config, s: State, h: nat, j: nat)
    requires Inv(c, s) && h == RestAt(c, |s.slaves|) && Before(c, s, h)
    requires j < |s.slaves| && s.master.op < h && BlockedOn(MasterView(s), j)
    ensures s.slaves[j].op < h && !BlockedOn(SlaveView(s, j), 0)
  {
    ProcsOk(c, s);
    LinkAccounts(c, s, j);
    assert Prompt(SlaveView(s, j)) && SlaveView(s, j).outs[0] == s.up[j];
    EndsBelow(c, Master, s.master, |s.slaves|, h, j);
    assert !Hangs(c, s.master.op);
    assert s.slaves[j].op < h ==> !Hangs(c, s.slaves[j].op);
    hide Inv, Delivered, Calls, CallsUpTo, RestAt, Hangs;
  }

  // When the master rests, a blocked slave rests too.
  lemma SlaveBlockedRests(c: Config, s: State, h: nat, i: nat)
    requires Inv(c, s) && h == RestAt(c, |s.slaves|) && Before(c, s, h)
    requires i < |s.slaves| && Rests(c, s.master, h) && BlockedOn(SlaveView(s, i), 0)
    ensures Rests(c, s.slaves[i], h)
  {
    ProcsOk(c, s);
    LinkAccounts(c, s, i);
    assert MasterView(s).outs[i] == s.down[i];
    if s.slaves[i].op < h {
      EndsBelow(c, Slave, s.slaves[i], 1, h, 0);
    }
    hide Inv, Delivered, Calls, CallsUpTo, RestAt, Hangs;
  }

  // Until all processes rest, some process can go on, even if no plugin sends anything.
  lemma Progress(c: Config, s: State, h: nat) returns (t: Step)
    requires Inv(c, s) && h == RestAt(c, |s.slaves|) && Before(c, s, h) && !AllRest(c, s, h)
    ensures CanStep(c, s, t) && !t.a.SendData?
  {
    ProcsOk(c, s);
    hide Inv, CanAct, LinkOk, Calls, CallsUpTo, Hangs, Prompt, HeldBack;
    var able, a, j, i := false, Enter, 0, 0;
    if Rests(c, s.master, h) {
      i :| 0 <= i < |s.slaves| && !Rests(c, s.slaves[i], h);
      able, a, j := ActOrBlocked(c, Slave, SlaveView(s, i));
      if !able {
        SlaveBlockedRests(c, s, h, i);
      }
      return SlaveStep(i, a);
    }
    able, a, j := ActOrBlocked(c, Master, MasterView(s));
    if able {
      return MasterStep(a);
    }
    MasterBlockedMeansSlaveMoves(c, s, h, j);
    i := j;
    able, a, j := ActOrBlocked(c, Slave, SlaveView(s, i));
    t := SlaveStep(i, a);
  }

  // ---- Termination ----

  ghost function Ranks(c: Config, ps: seq<Proc>): nat
    requires forall i :: 0 <= i < |ps| ==> ProcOk(c, Slave, ps[i], 1)
  {
    if ps == [] then 0 else Ranks(c, ps[..|ps| - 1]) + Rank(c, Slave, ps[|ps| - 1], 1)
  }

  lemma {:induction false} RanksUpdate(c: Config, ps: seq<Proc>, i: nat, p: Proc)
    requires forall k :: 0 <= k < |ps| ==> ProcOk(c, Slave, ps[k], 1)
    requires i < |ps| && ProcOk(c, Slave, p, 1)
    ensures Ranks(c, ps[i := p]) + Rank(c, Slave, ps[i], 1) == Ranks(c, ps) + Rank(c, Slave, p, 1)
  {
    hide ProcOk, Rank;
    var n := |ps| - 1;
    if i < n {
      assert ps[i := p][..n] == ps[..n][i := p];
      RanksUpdate(c, ps[..n], i, p);
    } else {
      assert ps[i := p][..n] == ps[..n];
    }
  }

  ghost function Measure(c: Config, s: State): nat
    requires Inv(c, s)
  {
    ProcsOk(c, s);
    Rank(c, Master, s.master, |s.slaves|) + Ranks(c, s.slaves) + Loads(s.down) + Loads(s.up)
  }

  lemma StepDecreases(c: Config, s: State, t: Step)
    requires Inv(c, s) && CanStep(c, s, t) && Inv(c, DoStep(c, s, t))
    ensures Measure(c, DoStep(c, s, t)) < Measure(c, s)
  {
    hide Measure, Inv, DoAct, CanAct;
    match t
    case MasterStep(a) => MasterStepDecreases(c, s, a);
    case SlaveStep(i, a) => SlaveStepDecreases(c, s, i, a);
  }

  lemma MasterStepDecreases(c: Config, s: State, a: Act)
    requires Inv(c, s) && CanStep(c, s, MasterStep(a)) && Inv(c, DoStep(c, s, MasterStep(a)))
    ensures Measure(c, DoStep(c, s, MasterStep(a))) < Measure(c, s)
  {
    ProcsOk(c, s);
    ProcsOk(c, DoStep(c, s, MasterStep(a)));
    hide Inv, DoAct, CanAct, ProcOk, Rank, Loads;
    ActDecreases(c, Master, MasterView(s), a);
  }

  lemma SlaveStepDecreases(c: Config, s: State, i: nat, a: Act)
    requires Inv(c, s) && CanStep(c, s, SlaveStep(i, a)) && Inv(c, DoStep(c, s, SlaveStep(i, a)))
    ensures Measure(c, DoStep(c, s, SlaveStep(i, a))) < Measure(c, s)
  {
    var s' := DoStep(c, s, SlaveStep(i, a));
    ProcsOk(c, s);
    ProcsOk(c, s');
    hide Inv, DoAct, CanAct, ProcOk, Rank, Load;
    var w := DoAct(c, Slave, SlaveView(s, i), a);
    assert w.p == s'.slaves[i];
    ActDecreases(c, Slave, SlaveView(s, i), a);
    SingleLoad(s.up[i]);
    SingleLoad(s.down[i]);
    SingleLoad(w.outs[0]);
    SingleLoad(w.ins[0]);
    assert w.outs == [w.outs[0]] && w.ins == [w.ins[0]];
    hide Loads;
    RanksUpdate(c, s.slaves, i, w.p);
    LoadsUpdate(s.up, i, w.outs[0]);
    LoadsUpdate(s.down, i, w.ins[0]);
  }

  lemma SingleLoad(l: Link)
    ensures Loads([l]) == Load(l)
  {
    assert [l][..0] == [];
  }

  // No run is longer than the measure of its first state.
  lemma {:induction false} Termination(c: Config, s: State, run: seq<Step>)
    requires Initial(c, s) && Legal(c, s, run)
    ensures Inv(c, s) && Inv(c, After(c, s, run))
    ensures |run| + Measure(c, After(c, s, run)) <= Measure(c, s)
    decreases |run|
  {
    InitialInv(c, s);
    RunKeepsInv(c, s, run);
    hide Inv, DoAct, CanAct, Measure;
    if run != [] {
      var prefix := run[..|run| - 1];
      Termination(c, s, prefix);
      StepDecreases(c, After(c, s, prefix), run[|run| - 1]);
    }
  }

  // A run that cannot go on has stopped with every process at operation RestAt: at the end of the program,
  // or waiting in the first barrier that is reached with a cork in place.
  lemma Outcome(c: Config, s0: State, run: seq<Step>)
    requires Initial(c, s0) && Legal(c, s0, run)
    requires forall t :: CanStep(c, After(c, s0, run), t) ==> t.a.SendData?
    ensures var s, h := After(c, s0, run), RestAt(c, |s0.slaves|);
            AllRest(c, s, h) && (AllFinished(c, s) <==> h == |c.ops|)
  {
    var s, h := After(c, s0, run), RestAt(c, |s0.slaves|);
    RunKeepsInv(c, s0, run);
    RunStaysBefore(c, s0, run);
    hide CanStep, Inv, Before, RestAt;
    if !AllRest(c, s, h) {
      var t := Progress(c, s, h);
    }
  }

  // A process waits behind a cork in a hanging barrier and nowhere else, so with a plugin never.
  lemma CorkedWaits(c: Config, s0: State, run: seq<Step>, i: nat)
    requires Initial(c, s0) && Legal(c, s0, run) && i < |s0.slaves|
    ensures var s := After(c, s0, run);
            && i < |s.slaves|
            && (s.master.phase.Waiting? ==> s.master.corked == Hangs(c, s.master.op))
            && (s.slaves[i].phase.Waiting? ==> s.slaves[i].corked == Hangs(c, s.slaves[i].op))
    ensures c.plugins ==> forall k :: !Hangs(c, k)
  {
    RunKeepsInv(c, s0, run);
    ProcsOk(c, After(c, s0, run));
    forall k | 0 <= k < |c.ops| ensures c.plugins ==> !Hangs(c, k) {
      CorkedIff(c, k);
    }
    hide Inv, After, Legal;
  }

  // No process ever gets past that operation.
  lemma NeverPast(c: Config, s0: State, run: seq<Step>, i: nat)
    requires Initial(c, s0) && Legal(c, s0, run) && i < |s0.slaves|
    ensures var s, h := After(c, s0, run), RestAt(c, |s0.slaves|);
            i < |s.slaves| && s.master.op <= h && s.slaves[i].op <= h
  {
    RunKeepsInv(c, s0, run);
    RunStaysBefore(c, s0, run);
    hide Inv, RestAt, After, Legal;
  }

  // In a completed run every end block that was sent has been read, on every link.
  lemma NothingLeftOver(c: Config, s0: State, run: seq<Step>, i: nat)
    requires Initial(c, s0) && Legal(c, s0, run) && AllFinished(c, After(c, s0, run)) && i < |s0.slaves|
    ensures var s := After(c, s0, run);
            && Shaped(s) && i < |s.slaves|
            && Ends(s.down[i].got) == Ends(s.down[i].sent) == |Calls(c)|
            && Ends(s.up[i].got) == Ends(s.up[i].sent) == |Calls(c)|
  {
    var s := After(c, s0, run);
    RunKeepsInv(c, s0, run);
    CountsOnLinks(c, s, i);
    ProcsOk(c, s);
    hide Inv, After, Legal, CallsUpTo;
  }

  lemma StepExtends(c: Config, s0: State, run: seq<Step>, t: Step)
    requires Legal(c, s0, run) && CanStep(c, After(c, s0, run), t)
    ensures Legal(c, s0, run + [t]) && After(c, s0, run + [t]) == DoStep(c, After(c, s0, run), t)
  {
    assert (run + [t])[..|run|] == run;
  }

  // From wherever a run has got to, it can be continued until all processes rest.
  lemma CanRest(c: Config, s0: State, run: seq<Step>) returns (full: seq<Step>)
    requires Initial(c, s0) && Legal(c, s0, run)
    ensures run <= full && Legal(c, s0, full) && AllRest(c, After(c, s0, full), RestAt(c, |s0.slaves|))
  {
    RunKeepsInv(c, s0, run);
    full := RestFrom(c, s0, run);
  }

  lemma RestFrom(c: Config, s0: State, run: seq<Step>) returns (full: seq<Step>)
    requires Initial(c, s0) && Legal(c, s0, run) && Inv(c, After(c, s0, run))
    ensures run <= full && Legal(c, s0, full) && AllRest(c, After(c, s0, full), RestAt(c, |s0.slaves|))
    decreases Measure(c, After(c, s0, run))
  {
    var s, h := After(c, s0, run), RestAt(c, |s0.slaves|);
    RunKeepsInv(c, s0, run);
    RunStaysBefore(c, s0, run);
    hide Inv, CanStep, DoStep, Measure, AllRest, Before, RestAt;
    if AllRest(c, s, h) {
      return run;
    }
    var t := Progress(c, s, h);
    StepExtends(c, s0, run, t);
    RunKeepsInv(c, s0, run + [t]);
    StepDecreases(c, s, t);
    full := RestFrom(c, s0, run + [t]);
  }

  // ---- When that is the end of the program ----

  // A cork is in place when preDraw or postPostFrame came without plugins and no direct update since.
  lemma {:induction false} CorkedIff(c: Config, k: nat)
    requires k <= |c.ops|
    ensures CorkedBefore(c, k) <==>
              !c.plugins && exists i :: 0 <= i < k && StaysCorked(c, i, k)
    decreases k
  {
    if k > 0 {
      CorkedIff(c, k - 1);
      var op := c.ops[k - 1];
      if Corks(op) {
        assert StaysCorked(c, k - 1, k);
      } else {
        forall i | 0 <= i < k ensures StaysCorked(c, i, k) <==> StaysCorked(c, i, k - 1) && !op.DirectUpdate? {
          assert i == k - 1 ==> !Corks(c.ops[i]);
        }
        var m := k - 1;
        if i :| 0 <= i < m && StaysCorked(c, i, m) {
          assert StaysCorked(c, i, k) || op.DirectUpdate?;
        }
      }
    }
  }

  predicate StaysCorked(c: Config, i: nat, k: nat) {
    i < k <= |c.ops| && Corks(c.ops[i]) && forall j :: i < j < k ==> !c.ops[j].DirectUpdate?
  }

  // Every run that cannot go on has completed the program if and only if there are no slaves, or a plugin,
  // or no barrier follows preDraw or postPostFrame without a direct update in between.
  lemma CompletesIff(c: Config, s0: State, run: seq<Step>)
    requires Initial(c, s0) && Legal(c, s0, run)
    requires forall t :: CanStep(c, After(c, s0, run), t) ==> t.a.SendData?
    ensures AllFinished(c, After(c, s0, run)) <==>
              || |s0.slaves| == 0 || c.plugins
              || forall i, k :: 0 <= i < k < |c.ops| && CallOf(c.ops[k]).Barrier? ==> !StaysCorked(c, i, k)
  {
    Outcome(c, s0, run);
    forall k | 0 <= k < |c.ops|
      ensures Hangs(c, k) <==>
                CallOf(c.ops[k]).Barrier? && !c.plugins && exists i :: 0 <= i < k && StaysCorked(c, i, k)
    {
      CorkedIff(c, k);
    }
    hide StaysCorked, Hangs, Initial, Legal, After, CanStep, AllFinished, CallOf;
    assert RestAt(c, |s0.slaves|) == |c.ops| <==> |s0.slaves| == 0 || forall k :: 0 <= k < |c.ops| ==> !Hangs(c, k);
  }

  // The kernel's own program: the barrier of start, the barrier once the cluster is ready, then frames.
  function KernelOps(frames: nat, swapLock: bool): seq<Op> {
    if frames == 0 then [Start, Ready]
    else
      var frame := if swapLock then [PreDraw, Swap, PostPostFrame] else [PreDraw, PostPostFrame];
      KernelOps(frames - 1, swapLock) + frame
  }

  lemma {:induction false} KernelBarriers(frames: nat, swapLock: bool)
    ensures var ops := KernelOps(frames, swapLock);
            && |ops| >= 2 && ops[0] == Start && ops[1] == Ready
            && (forall i :: 0 <= i < |ops| ==> !ops[i].DirectUpdate?)
            && (forall i :: 2 <= i < |ops| ==> if swapLock then !ops[i].Start? && !ops[i].Ready? else Corks(ops[i]))
            && (frames > 0 && swapLock ==> |ops| > 3 && ops[2] == PreDraw && ops[3] == Swap)
  {
    if frames > 0 {
      KernelBarriers(frames - 1, swapLock);
    }
  }

  // With slaves, the kernel's program is completed by every run if and only if there is a plugin,
  // or no software swap lock, or no frame.
  lemma KernelCompletesIff(c: Config, s0: State, run: seq<Step>, frames: nat, swapLock: bool)
    requires c.ops == KernelOps(frames, swapLock) && |s0.slaves| > 0
    requires Initial(c, s0) && Legal(c, s0, run)
    requires forall t :: CanStep(c, After(c, s0, run), t) ==> t.a.SendData?
    ensures AllFinished(c, After(c, s0, run)) <==> c.plugins || !swapLock || frames == 0
  {
    CompletesIff(c, s0, run);
    KernelBarriers(frames, swapLock);
    hide Initial, Legal, After, CanStep, AllFinished;
    if frames > 0 && swapLock {
      assert StaysCorked(c, 2, 3) && CallOf(c.ops[3]).Barrier?;
    } else {
      assert frames == 0 ==> |c.ops| == 2;
    }
  }
}
