/** One process of the cluster: what NetworkManager::update and NetworkManager::barrier do to its own links. */
module ClusterProcess {
  import opened ClusterLink

  // The network calls: ClusterManager::update and ClusterManager::barrier.
  datatype Call = Update(temp: int) | Barrier

  // What the kernel does on every machine of the cluster, in order: the barrier of ClusterManager::start,
  // the barrier once the cluster is ready, preDraw, swapBarrier under a software swap lock, postPostFrame,
  // and direct calls of update.
  datatype Op = Start | Ready | PreDraw | Swap | PostPostFrame | DirectUpdate(temp: int)

  datatype Role = Master | Slave

  // ops is the program every process follows; plugins says whether any plugin is registered.
  datatype Config = Config(ops: seq<Op>, plugins: bool)

  datatype Option<T> = None | Some(value: T)

  // ---- The program ----

  predicate Corks(op: Op) {
    op.PreDraw? || op.PostPostFrame?
  }

  function CallOf(op: Op): Call {
    match op
    case PreDraw => Update(2)
    case PostPostFrame => Update(3)
    case DirectUpdate(temp) => Update(temp)
    case _ => Barrier
  }

  // preDraw and postPostFrame call update only if there is a plugin.
  predicate MakesCall(c: Config, op: Op) {
    Corks(op) ==> c.plugins
  }

  function CallsUpTo(c: Config, k: nat): seq<Call>
    requires k <= |c.ops|
  {
    if k == 0 then []
    else CallsUpTo(c, k - 1) + if MakesCall(c, c.ops[k - 1]) then [CallOf(c.ops[k - 1])] else []
  }

  function Calls(c: Config): seq<Call> {
    CallsUpTo(c, |c.ops|)
  }

  lemma {:induction false} CallsPrefix(c: Config, j: nat, k: nat)
    requires j <= k <= |c.ops|
    ensures CallsUpTo(c, j) <= CallsUpTo(c, k)
    decreases k
  {
    if j < k {
      CallsPrefix(c, j, k - 1);
    }
  }

  // Operation j makes the call that is numbered by the calls before it.
  lemma CallAt(c: Config, j: nat)
    requires j < |c.ops|
    ensures var d := |CallsUpTo(c, j)|;
            && d <= |CallsUpTo(c, j + 1)| == (if MakesCall(c, c.ops[j]) then d + 1 else d) <= |Calls(c)|
            && (MakesCall(c, c.ops[j]) ==> Calls(c)[d] == CallOf(c.ops[j]))
  {
    CallsPrefix(c, j + 1, |c.ops|);
    assert MakesCall(c, c.ops[j]) ==> CallsUpTo(c, j + 1)[|CallsUpTo(c, j)|] == CallOf(c.ops[j]);
  }

  // Whether a process is corked when it gets to operation k.
  function CorkedBefore(c: Config, k: nat): bool
    requires k <= |c.ops|
  {
    k > 0 &&
    match c.ops[k - 1]
    case PreDraw => !c.plugins
    case PostPostFrame => !c.plugins
    case DirectUpdate(_) => false
    case _ => CorkedBefore(c, k - 1)
  }

  // Operation k is a barrier that is reached with a cork in place.
  predicate Hangs(c: Config, k: nat) {
    k < |c.ops| && CallOf(c.ops[k]).Barrier? && CorkedBefore(c, k)
  }

  // ---- One process ----

  // Where a process is: between operations, among the plugins behind corkNetwork, in the loop of
  // sendEndBlocks, before uncorkNetwork, or in updateAllNodes, possibly blocked in recvPacket on one node.
  datatype Phase = Idle | Plugins | Sending(next: nat) | Uncorking | Waiting(focus: Option<nat>)

  // op counts completed operations and done completed calls, updated holds the mUpdated flag of each node,
  // data is the number of packets the plugins will still send.
  datatype Proc = Proc(op: nat, done: nat, phase: Phase, corked: bool, updated: seq<bool>, data: nat)

  // A process with the links to and from its nodes.
  datatype View = View(p: Proc, outs: seq<Link>, ins: seq<Link>)

  datatype Act =
    | Cork                          // preDraw, postPostFrame: corkNetwork
    | Skip                          // no update is needed
    | SendData(to: nat, id: int)    // a plugin sends a packet
    | Enter                         // the update or barrier call
    | SendEnd                       // one round of the loop in sendEndBlocks
    | SendDone
    | Uncork                        // uncorkNetwork
    | Pick(from: nat)               // the reactor reported a node that is not updated
    | Receive                       // recvPacket and handlePacket on that node
    | WaitDone                      // completed_nodes == numNodes

  function NoneUpdated(n: nat): (u: seq<bool>)
    ensures |u| == n
  {
    seq(n, _ => false)
  }

  predicate AllUpdated(updated: seq<bool>) {
    forall j :: 0 <= j < |updated| ==> updated[j]
  }

  predicate CanAct(c: Config, v: View, a: Act) {
    var p := v.p;
    match a
    case Cork => p.phase.Idle? && p.op < |c.ops| && Corks(c.ops[p.op])
    case Skip => p.phase.Plugins? && p.op < |c.ops| && !c.plugins
    case SendData(to, _) => p.data > 0 && to < |v.outs|
    case Enter => p.op < |c.ops| && if Corks(c.ops[p.op]) then p.phase.Plugins? && c.plugins else p.phase.Idle?
    case SendEnd => p.phase.Sending? && p.phase.next < |v.outs| && p.op < |c.ops|
    case SendDone => p.phase.Sending? && p.phase.next == |v.outs| && p.op < |c.ops|
    case Uncork => p.phase.Uncorking?
    case Pick(from) =>
      && p.phase == Waiting(None) && from < |v.ins| && from < |p.updated|
      && !p.updated[from] && v.ins[from].wire != []
    case Receive =>
      && p.phase.Waiting? && p.phase.focus.Some? && p.phase.focus.value < |v.ins|
      && p.phase.focus.value < |p.updated| && v.ins[p.phase.focus.value].wire != []
    case WaitDone => p.phase == Waiting(None) && p.op < |c.ops| && AllUpdated(p.updated)
  }

  function Temp(call: Call): int {
    match call case Update(temp) => temp case Barrier => 0
  }

  function DoAct(c: Config, r: Role, v: View, a: Act): (w: View)
    requires CanAct(c, v, a)
    ensures |w.outs| == |v.outs| && |w.ins| == |v.ins|
  {
    var p := v.p;
    match a
    case Cork => v.(p := p.(corked := true, phase := Plugins))
    case Skip => v.(p := p.(phase := Idle, op := p.op + 1))
    case SendData(to, id) =>
      v.(p := p.(data := p.data - 1), outs := v.outs[to := Put(v.outs[to], Data(id), p.corked)])
    case Enter =>
      if CallOf(c.ops[p.op]).Update? then
        v.(p := p.(phase := Sending(0), updated := NoneUpdated(|v.ins|)))
      else if r.Master? then
        v.(p := p.(phase := Waiting(None), updated := NoneUpdated(|v.ins|)))
      else
        v.(p := p.(phase := Sending(0)))
    case SendEnd =>
      var j := p.phase.next;
      v.(p := p.(phase := Sending(j + 1)),
         outs := v.outs[j := Put(v.outs[j], EndBlock(Temp(CallOf(c.ops[p.op]))), p.corked)])
    case SendDone =>
      if CallOf(c.ops[p.op]).Update? then
        v.(p := p.(phase := Uncorking))
      else if r.Master? then
        v.(p := p.(phase := Idle, op := p.op + 1, done := p.done + 1))
      else
        v.(p := p.(phase := Waiting(None), updated := NoneUpdated(|v.ins|)))
    case Uncork =>
      v.(p := p.(phase := Waiting(None), corked := false),
         outs := seq(|v.outs|, j requires 0 <= j < |v.outs| => Flush(v.outs[j])))
    case Pick(from) => v.(p := p.(phase := Waiting(Some(from))))
    case Receive =>
      var j := p.phase.focus.value;
      var w := v.(ins := v.ins[j := Take(v.ins[j], p.done)]);
      if v.ins[j].wire[0].EndBlock? then w.(p := p.(phase := Waiting(None), updated := p.updated[j := true])) else w
    case WaitDone =>
      if CallOf(c.ops[p.op]).Barrier? && r.Master? then
        v.(p := p.(phase := Sending(0)))
      else
        v.(p := p.(phase := Idle, op := p.op + 1, done := p.done + 1))
  }

  // ---- What a process has sent and collected, read off its program counter ----

  predicate InCall(p: Proc) {
    p.phase.Sending? || p.phase.Uncorking? || p.phase.Waiting?
  }

  // The master waits first and then sends only in a barrier; in every other call sending comes first.
  predicate WaitsFirst(c: Config, r: Role, p: Proc) {
    p.op < |c.ops| && CallOf(c.ops[p.op]).Barrier? && r.Master?
  }

  function EndsSent(c: Config, r: Role, p: Proc, j: nat): nat {
    p.done + match p.phase
             case Idle => 0
             case Plugins => 0
             case Sending(next) => if j < next then 1 else 0
             case Uncorking => 1
             case Waiting(_) => if WaitsFirst(c, r, p) then 0 else 1
  }

  function EndsGot(c: Config, r: Role, p: Proc, j: nat): nat {
    p.done + match p.phase
             case Idle => 0
             case Plugins => 0
             case Sending(_) => if WaitsFirst(c, r, p) then 1 else 0
             case Uncorking => 0
             case Waiting(_) => if j < |p.updated| && p.updated[j] then 1 else 0
  }

  // The two counters agree with the program.
  ghost predicate CountersOk(c: Config, p: Proc) {
    && p.op <= |c.ops| && p.done == |CallsUpTo(c, p.op)| <= |Calls(c)|
    && (!p.phase.Idle? ==> p.op < |c.ops|)
    && (p.phase.Plugins? ==> Corks(c.ops[p.op]))
    && (InCall(p) ==> MakesCall(c, c.ops[p.op]) && p.done < |Calls(c)| && Calls(c)[p.done] == CallOf(c.ops[p.op]))
  }

  // The cork is in place exactly where the program has put it and not yet undone it.
  ghost predicate CorkOk(c: Config, p: Proc)
    requires CountersOk(c, p)
  {
    p.corked == match p.phase
                case Idle => CorkedBefore(c, p.op)
                case Plugins => true
                case Waiting(_) => Hangs(c, p.op)
                case _ => Corks(c.ops[p.op]) || CorkedBefore(c, p.op)
  }

  ghost predicate ProcOk(c: Config, r: Role, p: Proc, n: nat) {
    && CountersOk(c, p) && CorkOk(c, p)
    && (p.phase.Sending? ==> p.phase.next <= n)
    && (p.phase.Uncorking? ==> CallOf(c.ops[p.op]).Update?)
    && ((p.phase.Sending? || p.phase.Uncorking?) && CallOf(c.ops[p.op]).Update? ==>
          |p.updated| == n && forall j :: 0 <= j < n ==> !p.updated[j])
    && (p.phase.Waiting? ==>
          && |p.updated| == n
          && (p.phase.focus.Some? ==> p.phase.focus.value < n && !p.updated[p.phase.focus.value]))
  }

  lemma ActKeepsCounters(c: Config, r: Role, v: View, a: Act)
    requires CountersOk(c, v.p) && CorkOk(c, v.p) && CanAct(c, v, a)
    requires v.p.phase.Uncorking? ==> CallOf(c.ops[v.p.op]).Update?
    ensures var q := DoAct(c, r, v, a).p; CountersOk(c, q) && CorkOk(c, q)
  {
    hide Calls, CallsUpTo, Put, Flush, Take, AllUpdated;
    if v.p.op < |c.ops| {
      CallAt(c, v.p.op);
    }
  }

  // gots, sents and corks describe the far ends of the links.
  ghost predicate ViewOk(c: Config, r: Role, v: View, gots: seq<nat>, sents: seq<nat>, corks: seq<bool>) {
    && |v.ins| == |v.outs| == |gots| == |sents| == |corks|
    && ProcOk(c, r, v.p, |v.outs|)
    && (forall j :: 0 <= j < |v.outs| ==> LinkOk(v.outs[j], EndsSent(c, r, v.p, j), gots[j], v.p.corked))
    && (forall j :: 0 <= j < |v.ins| ==> LinkOk(v.ins[j], sents[j], EndsGot(c, r, v.p, j), corks[j]))
  }

  lemma ActKeepsView(c: Config, r: Role, v: View, a: Act, gots: seq<nat>, sents: seq<nat>, corks: seq<bool>)
    requires ViewOk(c, r, v, gots, sents, corks) && CanAct(c, v, a)
    ensures ViewOk(c, r, DoAct(c, r, v, a), gots, sents, corks)
  {
    hide ViewOk, DoAct;
    match a
    case Cork => OutActKeepsView(c, r, v, a, gots, sents, corks);
    case SendData(to, id) => OutActKeepsView(c, r, v, a, gots, sents, corks);
    case SendEnd => OutActKeepsView(c, r, v, a, gots, sents, corks);
    case Uncork => UncorkKeepsView(c, r, v, gots, sents, corks);
    case Receive => ReceiveKeepsView(c, r, v, gots, sents, corks);
    case _ => ControlActKeepsView(c, r, v, a, gots, sents, corks);
  }

  lemma OutActKeepsView(c: Config, r: Role, v: View, a: Act, gots: seq<nat>, sents: seq<nat>, corks: seq<bool>)
    requires ViewOk(c, r, v, gots, sents, corks) && CanAct(c, v, a) && (a.Cork? || a.SendData? || a.SendEnd?)
    ensures ViewOk(c, r, DoAct(c, r, v, a), gots, sents, corks)
  {
    hide LinkOk, Put;
    var p, w := v.p, DoAct(c, r, v, a);
    match a
    case Cork =>
      forall j | 0 <= j < |w.outs| ensures LinkOk(w.outs[j], EndsSent(c, r, w.p, j), gots[j], true) {
        CorkKeepsLink(v.outs[j], EndsSent(c, r, p, j), gots[j], p.corked);
      }
    case SendData(to, id) =>
      PutKeepsLink(v.outs[to], Data(id), EndsSent(c, r, p, to), gots[to], p.corked);
    case SendEnd =>
      var j := p.phase.next;
      PutKeepsLink(v.outs[j], EndBlock(Temp(CallOf(c.ops[p.op]))), EndsSent(c, r, p, j), gots[j], p.corked);
  }

  lemma UncorkKeepsView(c: Config, r: Role, v: View, gots: seq<nat>, sents: seq<nat>, corks: seq<bool>)
    requires ViewOk(c, r, v, gots, sents, corks) && CanAct(c, v, Uncork)
    ensures ViewOk(c, r, DoAct(c, r, v, Uncork), gots, sents, corks)
  {
    hide LinkOk, Flush;
    var p, w := v.p, DoAct(c, r, v, Uncork);
    forall j | 0 <= j < |w.outs| ensures LinkOk(w.outs[j], EndsSent(c, r, w.p, j), gots[j], false) {
      FlushKeepsLink(v.outs[j], EndsSent(c, r, p, j), gots[j], p.corked);
    }
  }

  lemma ReceiveKeepsView(c: Config, r: Role, v: View, gots: seq<nat>, sents: seq<nat>, corks: seq<bool>)
    requires ViewOk(c, r, v, gots, sents, corks) && CanAct(c, v, Receive)
    ensures ViewOk(c, r, DoAct(c, r, v, Receive), gots, sents, corks)
  {
    hide LinkOk, Take;
    var j := v.p.phase.focus.value;
    TakeKeepsLink(v.ins[j], sents[j], EndsGot(c, r, v.p, j), corks[j]);
  }

  lemma ControlActKeepsView(c: Config, r: Role, v: View, a: Act, gots: seq<nat>, sents: seq<nat>, corks: seq<bool>)
    requires ViewOk(c, r, v, gots, sents, corks) && CanAct(c, v, a)
    requires a.Skip? || a.Enter? || a.SendDone? || a.Pick? || a.WaitDone?
    ensures ViewOk(c, r, DoAct(c, r, v, a), gots, sents, corks)
  {
    hide LinkOk, Calls, CallsUpTo;
    ActKeepsCounters(c, r, v, a);
  }

  // What was sent in completed operations is on its way.
  ghost predicate Prompt(v: View) {
    forall j :: 0 <= j < |v.outs| ==> Delivered(v.outs[j]) >= v.p.done
  }

  // Only a process that completes a hanging barrier could leave an end block behind.
  lemma ActKeepsPrompt(c: Config, r: Role, v: View, a: Act, gots: seq<nat>, sents: seq<nat>, corks: seq<bool>)
    requires ViewOk(c, r, v, gots, sents, corks) && CanAct(c, v, a) && Prompt(v)
    requires DoAct(c, r, v, a).p.done > v.p.done ==> !Hangs(c, v.p.op)
    ensures Prompt(DoAct(c, r, v, a))
  {
    hide LinkOk, Delivered, Put, Flush, Take, Calls, CallsUpTo;
    var w := DoAct(c, r, v, a);
    forall j | 0 <= j < |v.outs| ensures Delivered(w.outs[j]) >= w.p.done {
      DeliveredBounds(v.outs[j], EndsSent(c, r, v.p, j), gots[j], v.p.corked);
      if a.SendData? {
        DeliveredChanges(v.outs[j], Data(a.id), v.p.corked, 0);
      } else if a.SendEnd? {
        DeliveredChanges(v.outs[j], EndBlock(Temp(CallOf(c.ops[v.p.op]))), v.p.corked, 0);
      } else if a.Uncork? {
        DeliveredChanges(v.outs[j], EndBlock(0), v.p.corked, 0);
      }
    }
  }

  // In a hanging barrier, as long as node 0 is not updated, the master goes on waiting and
  // a slave's end block stays behind its cork.
  lemma HangHolds(c: Config, r: Role, v: View, a: Act)
    requires ProcOk(c, r, v.p, |v.outs|) && |v.ins| == |v.outs| > 0 && CanAct(c, v, a)
    requires Hangs(c, v.p.op) && EndsGot(c, r, v.p, 0) <= v.p.done
    requires r.Master? ==> v.p.phase.Idle? || v.p.phase.Waiting?
    ensures var w := DoAct(c, r, v, a);
            && w.p.op == v.p.op && w.p.done == v.p.done
            && (r.Master? ==> w.p.phase.Idle? || w.p.phase.Waiting?)
            && (r.Slave? ==> forall j :: 0 <= j < |v.outs| ==> Delivered(w.outs[j]) == Delivered(v.outs[j]))
  {
    hide Delivered, Put, Flush, Take, Calls, CallsUpTo;
    forall j | 0 <= j < |v.outs|
      ensures r.Slave? ==> Delivered(DoAct(c, r, v, a).outs[j]) == Delivered(v.outs[j])
    {
      if a.SendData? {
        DeliveredChanges(v.outs[j], Data(a.id), v.p.corked, 0);
      } else if a.SendEnd? {
        DeliveredChanges(v.outs[j], EndBlock(Temp(CallOf(c.ops[v.p.op]))), v.p.corked, 0);
      }
    }
  }

  // The far ends of the links a process reads see no difference.
  lemma ReadingDeliversNothing(c: Config, r: Role, v: View, a: Act, j: nat)
    requires CanAct(c, v, a) && j < |v.ins|
    ensures Delivered(DoAct(c, r, v, a).ins[j]) == Delivered(v.ins[j])
  {
    hide Delivered, Put, Flush, Take;
    if a.Receive? {
      DeliveredChanges(v.ins[j], EndBlock(0), false, v.p.done);
    }
  }

  lemma OpsCompleteOneByOne(c: Config, r: Role, v: View, a: Act)
    requires CanAct(c, v, a)
    ensures var w := DoAct(c, r, v, a);
            && (w.p.op == v.p.op || (v.p.op < |c.ops| && w.p.op == v.p.op + 1 && w.p.phase.Idle?))
            && v.p.done <= w.p.done <= v.p.done + 1 && (w.p.done > v.p.done ==> w.p.op > v.p.op)
  {
    hide Put, Flush, Take;
  }

  // ---- A measure every act decreases ----

  function Pending(updated: seq<bool>): nat {
    if updated == [] then 0
    else Pending(updated[..|updated| - 1]) + if updated[|updated| - 1] then 0 else 1
  }

  lemma {:induction false} PendingUpdate(u: seq<bool>, j: nat)
    requires j < |u| && !u[j]
    ensures Pending(u) == Pending(u[j := true]) + 1
  {
    var n := |u| - 1;
    assert u[j := true][..n] == if j < n then u[..n][j := true] else u[..n];
    if j < n {
      PendingUpdate(u[..n], j);
    }
  }

  lemma {:induction false} PendingBound(u: seq<bool>)
    ensures Pending(u) <= |u|
  {
    if u != [] {
      PendingBound(u[..|u| - 1]);
    }
  }

  function Loads(ls: seq<Link>): nat {
    if ls == [] then 0 else Loads(ls[..|ls| - 1]) + Load(ls[|ls| - 1])
  }

  lemma {:induction false} LoadsUpdate(ls: seq<Link>, j: nat, l: Link)
    requires j < |ls|
    ensures Loads(ls[j := l]) + Load(ls[j]) == Loads(ls) + Load(l)
  {
    var n := |ls| - 1;
    if j < n {
      assert ls[j := l][..n] == ls[..n][j := l];
      LoadsUpdate(ls[..n], j, l);
    } else {
      assert ls[j := l][..n] == ls[..n];
    }
  }

  lemma {:induction false} LoadsSame(ls: seq<Link>, ks: seq<Link>)
    requires |ls| == |ks| && forall j :: 0 <= j < |ls| ==> Load(ls[j]) == Load(ks[j])
    ensures Loads(ls) == Loads(ks)
  {
    if ls != [] {
      LoadsSame(ls[..|ls| - 1], ks[..|ks| - 1]);
    }
  }

  function WaitLeft(p: Proc): nat {
    2 * Pending(p.updated) + if p.phase.Waiting? && p.phase.focus.Some? then 1 else 2
  }

  // Acts left in the current operation, with room for the packets still to be taken.
  function CallLeft(c: Config, r: Role, p: Proc, n: nat): nat
    requires ProcOk(c, r, p, n) && !p.phase.Idle?
  {
    match p.phase
    case Plugins => 4 * n + 7
    case Sending(next) =>
      2 * (n - next) + 2 + (if WaitsFirst(c, r, p) then 0 else 2 * n + 3)
    case Uncorking => 2 * n + 3
    case Waiting(_) => WaitLeft(p) + if WaitsFirst(c, r, p) then 2 * n + 2 else 0
  }

  function OpsLeft(ops: nat, n: nat): nat {
    if ops == 0 then 0 else OpsLeft(ops - 1, n) + 4 * n + 9
  }

  function Rank(c: Config, r: Role, p: Proc, n: nat): nat
    requires ProcOk(c, r, p, n)
  {
    2 * p.data +
    if p.phase.Idle? then OpsLeft(|c.ops| - p.op, n)
    else OpsLeft(|c.ops| - p.op - 1, n) + CallLeft(c, r, p, n)
  }

  lemma {:induction false} PendingNone(n: nat)
    ensures Pending(NoneUpdated(n)) <= n
  {
    PendingBound(NoneUpdated(n));
  }

  lemma ControlActDecreases(c: Config, r: Role, v: View, a: Act)
    requires ProcOk(c, r, v.p, |v.outs|) && |v.ins| == |v.outs| && CanAct(c, v, a)
    requires ProcOk(c, r, DoAct(c, r, v, a).p, |v.outs|)
    requires !a.SendData? && !a.SendEnd? && !a.Uncork? && !a.Receive?
    ensures var w := DoAct(c, r, v, a);
            w.outs == v.outs && w.ins == v.ins && Rank(c, r, w.p, |v.outs|) < Rank(c, r, v.p, |v.outs|)
  {
    hide Pending, Calls, CallsUpTo, CorkOk;
    PendingNone(|v.outs|);
  }

  lemma ActDecreases(c: Config, r: Role, v: View, a: Act)
    requires ProcOk(c, r, v.p, |v.outs|) && |v.ins| == |v.outs| && CanAct(c, v, a)
    requires ProcOk(c, r, DoAct(c, r, v, a).p, |v.outs|)
    ensures var w := DoAct(c, r, v, a);
            Rank(c, r, w.p, |v.outs|) + Loads(w.outs) + Loads(w.ins)
            < Rank(c, r, v.p, |v.outs|) + Loads(v.outs) + Loads(v.ins)
  {
    hide Loads, Load, Put, Take, Flush, Pending, Calls, CallsUpTo, CorkOk, OpsLeft;
    var p, w, n := v.p, DoAct(c, r, v, a), |v.outs|;
    match a
    case SendData(to, id) =>
      LoadChanges(v.outs[to], Data(id), p.corked, 0);
      LoadsUpdate(v.outs, to, w.outs[to]);
    case SendEnd =>
      LoadChanges(v.outs[p.phase.next], EndBlock(Temp(CallOf(c.ops[p.op]))), p.corked, 0);
      LoadsUpdate(v.outs, p.phase.next, w.outs[p.phase.next]);
    case Uncork =>
      PendingBound(w.p.updated);
      forall j | 0 <= j < n ensures Load(v.outs[j]) == Load(w.outs[j]) {
        LoadChanges(v.outs[j], EndBlock(0), p.corked, 0);
      }
      LoadsSame(v.outs, w.outs);
    case Receive =>
      var j := p.phase.focus.value;
      LoadChanges(v.ins[j], EndBlock(0), false, p.done);
      LoadsUpdate(v.ins, j, w.ins[j]);
      PendingUpdate(p.updated, j);
    case _ => ControlActDecreases(c, r, v, a);
  }
}
