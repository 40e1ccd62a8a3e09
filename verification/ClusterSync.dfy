/** Both sides of the clock synchronisation running against each other over a byte stream. */
module ClusterSync {
  import opened VprTypes
  import opened PacketBytes
  import opened ClockTolerance
  import opened ClusterDelta

  // The statement of getClusterDelta's loop body that comes next, and likewise of clientClusterDelta's.
  datatype ConnectorAt = Greeting | AwaitGreeting | Expecting | AwaitVerdict | ConnectorDone
  datatype ClientAt = AwaitHello | Replying | AwaitExpected | Responding | ClientDone

  // The client's clock is theta ahead of the connector's. The run starts at local time start.
  datatype Config = Config(theta: int, start: int)

  // times records when the messages of the current round were handled.
  datatype State = State(connector: Party, client: Party, at: ConnectorAt, peer: ClientAt,
                         toClient: Bytes, toConnector: Bytes, time: int, times: Times)

  function Initial(c: Config): State {
    State(FRESH, FRESH, Greeting, AwaitHello, [], [], c.start, Times(c.start, c.start, c.start, c.start, c.start))
  }

  // The number of bytes a side asks readn for next; 0 if its next statement does not read.
  function ConnectorReads(at: ConnectorAt): nat {
    match at case AwaitGreeting => 8 case AwaitVerdict => 1 case _ => 0
  }

  function ClientReads(peer: ClientAt): nat {
    match peer case AwaitHello => 8 case AwaitExpected => 8 case _ => 0
  }

  predicate ConnectorCan(s: State) {
    !s.at.ConnectorDone? && |s.toConnector| >= ConnectorReads(s.at)
  }

  predicate ClientCan(s: State) {
    !s.peer.ClientDone? && |s.toClient| >= ClientReads(s.peer)
  }

  predicate InTime(c: Config, s: State, now: int) {
    s.time <= now <= c.start + LONGEST
  }

  function ConnectorStep(c: Config, s: State, now: int): State
    requires ConnectorCan(s)
  {
    var clock := Clock(now);
    match s.at
    case Greeting =>
      var (p, b) := CreateHandshake(ClearIntervals(s.connector), clock);
      s.(connector := p, toClient := s.toClient + b, at := AwaitGreeting, times := s.times.(sent := now))
    case AwaitGreeting =>
      s.(connector := ReceiveHandshake(s.connector, s.toConnector[..8], clock), toConnector := s.toConnector[8..],
         at := Expecting, times := s.times.(received := now))
    case Expecting =>
      var (p, b) := CreateExpectedTime(s.connector, clock);
      s.(connector := p, toClient := s.toClient + b, at := AwaitVerdict, times := s.times.(resent := now))
    case AwaitVerdict =>
      var p := ReceiveResponse(s.connector, s.toConnector[..1]);
      s.(connector := p, toConnector := s.toConnector[1..], at := if p.accept then ConnectorDone else Greeting)
    case ConnectorDone => s
  }

  function ClientStep(c: Config, s: State, now: int): State
    requires ClientCan(s)
  {
    var clock := Clock(now + c.theta);
    match s.peer
    case AwaitHello =>
      s.(client := ReceiveHandshake(ClearIntervals(s.client), s.toClient[..8], clock), toClient := s.toClient[8..],
         peer := Replying)
    case Replying =>
      var (p, b) := CreateHandshake(s.client, clock);
      s.(client := p, toConnector := s.toConnector + b, peer := AwaitExpected, times := s.times.(remote := now))
    case AwaitExpected =>
      s.(client := ReceiveExpectedTime(s.client, s.toClient[..8], clock), toClient := s.toClient[8..],
         peer := Responding, times := s.times.(judged := now))
    case Responding =>
      s.(toConnector := s.toConnector + CreateResponse(s.client),
         peer := if s.client.accept then ClientDone else AwaitHello)
    case ClientDone => s
  }

  datatype Step = Step(byConnector: bool, now: int)

  predicate CanStep(c: Config, s: State, t: Step) {
    InTime(c, s, t.now) && if t.byConnector then ConnectorCan(s) else ClientCan(s)
  }

  function DoStep(c: Config, s: State, t: Step): State
    requires CanStep(c, s, t)
  {
    (if t.byConnector then ConnectorStep(c, s, t.now) else ClientStep(c, s, t.now)).(time := t.now)
  }

  predicate Legal(c: Config, ts: seq<Step>)
    decreases |ts|, 0
  {
    ts == [] || (Legal(c, ts[..|ts| - 1]) && CanStep(c, After(c, ts[..|ts| - 1]), ts[|ts| - 1]))
  }

  function After(c: Config, ts: seq<Step>): State
    requires Legal(c, ts)
    decreases |ts|, 1
  {
    if ts == [] then Initial(c) else DoStep(c, After(c, ts[..|ts| - 1]), ts[|ts| - 1])
  }

  // ---- The eight states of a round ----

  // Where in the round both sides are; 8 only when the synchronisation is over, 9 never.
  function Phase(s: State): nat {
    match (s.at, s.peer)
    case (Greeting, AwaitHello) => 0
    case (AwaitGreeting, AwaitHello) => 1
    case (AwaitGreeting, Replying) => 2
    case (AwaitGreeting, AwaitExpected) => 3
    case (Expecting, AwaitExpected) => 4
    case (AwaitVerdict, AwaitExpected) => 5
    case (AwaitVerdict, Responding) => 6
    case (AwaitVerdict, AwaitHello) => 7
    case (AwaitVerdict, ClientDone) => 7
    case (ConnectorDone, ClientDone) => 8
    case _ => 9
  }

  function Greeted(t: Times): Party {
    FRESH.(localSend := Clock(t.sent))
  }

  function Answered(c: Config, t: Times): Party {
    ReceiveHandshake(Greeted(t), Uint64Bytes(Clock(t.remote + c.theta)), Clock(t.received))
  }

  ghost predicate ConnectorOk(c: Config, s: State) {
    match Phase(s)
    case 0 => s.connector.rejections == 0 && !s.connector.accept
    case 1 => s.connector == Greeted(s.times)
    case 2 => s.connector == Greeted(s.times)
    case 3 => s.connector == Greeted(s.times)
    case 4 => s.connector == Answered(c, s.times)
    case 8 => s.connector == Measured(s.times, c.theta).(accept := true)
    case _ => s.connector == Measured(s.times, c.theta)
  }

  ghost predicate ClientOk(s: State) {
    && s.client.rejections <= MOST_REJECTIONS
    && (if s.client.accept then Phase(s) >= 6 && AcceptedWithin(s.times, s.client.rejections)
        else Phase(s) <= 7)
    && (s.peer.ClientDone? <==> s.client.accept && Phase(s) >= 7)
    && (!s.client.accept && Phase(s) >= 6 ==> s.client.rejections > 0)
  }

  ghost predicate WiresOk(c: Config, s: State) {
    && s.toClient == (match Phase(s)
                      case 1 => Uint64Bytes(Clock(s.times.sent))
                      case 5 => Uint64Bytes(s.connector.expected)
                      case _ => [])
    && s.toConnector == (match Phase(s)
                         case 3 => Uint64Bytes(Clock(s.times.remote + c.theta))
                         case 7 => BoolBytes(s.client.accept)
                         case _ => [])
  }

  predicate TimesOk(c: Config, s: State) {
    var t, k := s.times, Phase(s);
    && c.start <= s.time <= c.start + LONGEST && c.start <= t.sent
    && t.sent <= s.time
    && (k >= 3 ==> t.sent <= t.remote <= s.time)
    && (k >= 4 ==> t.remote <= t.received <= s.time)
    && (k >= 5 ==> t.received <= t.resent <= s.time)
    && (k >= 6 ==> t.resent <= t.judged <= s.time)
  }

  ghost predicate Inv(c: Config, s: State) {
    Phase(s) <= 8 && ConnectorOk(c, s) && ClientOk(s) && WiresOk(c, s) && TimesOk(c, s)
  }

  // The number of the round, counted by the client's rejections.
  function Round(s: State): int {
    if Phase(s) >= 6 && !s.client.accept then s.client.rejections - 1 else s.client.rejections
  }

  function StepsTaken(s: State): int {
    8 * Round(s) + Phase(s)
  }

  lemma ConnectorStepKeepsInv(c: Config, s: State, now: int)
    requires Inv(c, s) && ConnectorCan(s) && InTime(c, s, now)
    ensures var u := ConnectorStep(c, s, now).(time := now);
            Inv(c, u) && StepsTaken(u) == StepsTaken(s) + 1
  {
    hide Uint64Bytes, Read, Below, AcceptedWithin, Plus, Minus;
    if Phase(s) == 3 {
      var b := Uint64Bytes(Clock(s.times.remote + c.theta));
      assert b[..8] == b && b[8..] == [];
    }
  }

  lemma JudgingMeasuresNothing(t: Times, now: int, theta: int)
    ensures Measured(t.(judged := now), theta) == Measured(t, theta)
  {}

  lemma ClientStepKeepsInv(c: Config, s: State, now: int)
    requires Inv(c, s) && ClientCan(s) && InTime(c, s, now)
    ensures var u := ClientStep(c, s, now).(time := now);
            Inv(c, u) && StepsTaken(u) == StepsTaken(s) + 1
  {
    hide Uint64Bytes, Read, Below, Measured, Plus, Minus;
    if Phase(s) == 5 {
      var b := Uint64Bytes(s.connector.expected);
      assert b[..8] == b && b[8..] == [];
      var t := s.times.(judged := now);
      JudgingMeasuresNothing(s.times, now, c.theta);
      if s.client.rejections == MOST_REJECTIONS {
        AnyErrorAccepted(Judged(s.client, t, c.theta).error);
      }
      if Judged(s.client, t, c.theta).accept {
        AcceptedBound(s.client, t, c.theta);
      }
    }
  }

  lemma {:induction false} RunKeepsInv(c: Config, ts: seq<Step>)
    requires Legal(c, ts)
    ensures Inv(c, After(c, ts)) && StepsTaken(After(c, ts)) == |ts|
    decreases |ts|
  {
    hide Inv, DoStep;
    if ts == [] {
      InitialInv(c);
    } else {
      var s, t := After(c, ts[..|ts| - 1]), ts[|ts| - 1];
      RunKeepsInv(c, ts[..|ts| - 1]);
      StepKeepsInv(c, s, t);
    }
  }

  lemma InitialInv(c: Config)
    ensures Inv(c, Initial(c)) && StepsTaken(Initial(c)) == 0
  {}

  lemma StepKeepsInv(c: Config, s: State, t: Step)
    requires Inv(c, s) && CanStep(c, s, t)
    ensures Inv(c, DoStep(c, s, t)) && StepsTaken(DoStep(c, s, t)) == StepsTaken(s) + 1
  {
    hide Inv, StepsTaken;
    if t.byConnector {
      ConnectorStepKeepsInv(c, s, t.now);
    } else {
      ClientStepKeepsInv(c, s, t.now);
    }
  }

  // ---- What every run guarantees ----

  predicate Over(s: State) {
    s.at.ConnectorDone? && s.peer.ClientDone?
  }

  lemma InFlight(c: Config, s: State)
    requires Phase(s) <= 8 && WiresOk(c, s)
    ensures s.toClient == [] || s.toConnector == []
    ensures s.toClient == [] || |s.toClient| == ClientReads(s.peer)
    ensures s.toConnector == [] || |s.toConnector| == ConnectorReads(s.at)
  {
    hide Uint64Bytes, Clock;
  }

  // At most one message is in flight, and it is exactly what its receiver asks for next.
  lemma OneMessageInFlight(c: Config, ts: seq<Step>)
    requires Legal(c, ts)
    ensures var s := After(c, ts);
            && (s.toClient == [] || s.toConnector == [])
            && (s.toClient == [] || |s.toClient| == ClientReads(s.peer))
            && (s.toConnector == [] || |s.toConnector| == ConnectorReads(s.at))
  {
    hide After, Legal, WiresOk, ConnectorOk, ClientOk, TimesOk, Phase;
    RunKeepsInv(c, ts);
    InFlight(c, After(c, ts));
  }

  // It is always exactly one side's turn, until both are done.
  lemma OneSideMoves(c: Config, ts: seq<Step>)
    requires Legal(c, ts)
    ensures var s := After(c, ts);
            if Over(s) then !ConnectorCan(s) && !ClientCan(s) else ConnectorCan(s) != ClientCan(s)
  {
    hide Uint64Bytes, ConnectorOk, TimesOk;
    RunKeepsInv(c, ts);
  }

  // Twelve rounds of eight steps are the most there can be, whatever the clocks and delays.
  lemma Termination(c: Config, ts: seq<Step>)
    requires Legal(c, ts)
    ensures |ts| <= 8 * (MOST_REJECTIONS + 1)
    ensures |ts| == 8 * (MOST_REJECTIONS + 1) ==> Over(After(c, ts))
    ensures Over(After(c, ts)) ==> |ts| == 8 * (After(c, ts).client.rejections + 1)
  {
    hide ConnectorOk, WiresOk, TimesOk, AcceptedWithin;
    RunKeepsInv(c, ts);
  }

  // A side that leaves its loop has accepted; the other one leaves in the same round and has accepted too.
  lemma Agreement(c: Config, ts: seq<Step>)
    requires Legal(c, ts)
    ensures var s := After(c, ts);
            && (s.at.ConnectorDone? ==> Over(s) && s.connector.accept && s.client.accept)
            && (s.peer.ClientDone? ==> s.client.accept && (Over(s) || (s.at.AwaitVerdict? && ConnectorCan(s)
                                         && ConnectorStep(c, s, s.time).at.ConnectorDone?)))
  {
    hide Uint64Bytes, TimesOk, AcceptedWithin;
    RunKeepsInv(c, ts);
  }

  // The offset returned, for every run and every pair of clocks.
  lemma OffsetReturned(c: Config, ts: seq<Step>)
    requires Legal(c, ts) && Over(After(c, ts))
    ensures var s := After(c, ts); var t := s.times;
            && Ordered(t)
            && s.connector.delta == Clock(c.theta + OffsetError(t))
            && Abs(OffsetError(t)) <= (t.received - t.sent + 1) / 2
            && AcceptedWithin(t, s.client.rejections)
  {
    RunKeepsInv(c, ts);
    OffsetBound(After(c, ts).times, c.theta);
    hide Measured, AcceptedWithin, OffsetError, WiresOk;
  }
}
