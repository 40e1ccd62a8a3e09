/** The two loops of cluster::ClusterDelta, each over the bytes it will receive, and both connected. */
module ClusterDeltaLoop {
  import opened VprTypes
  import opened PacketBytes
  import opened ClockTolerance
  import opened ClusterDelta

  // One side: the object, what it will still receive, what it has sent, what its clock will show.
  datatype Side = Side(party: Party, incoming: Bytes, output: Bytes, clock: seq<Uint64>)

  function ConnectorRound(s: Side): Side
    requires |s.incoming| >= 9 && |s.clock| >= 3
  {
    var (p, hello) := CreateHandshake(ClearIntervals(s.party), s.clock[0]);
    var q := ReceiveHandshake(p, s.incoming[..8], s.clock[1]);
    var (r, expected) := CreateExpectedTime(q, s.clock[2]);
    Side(ReceiveResponse(r, s.incoming[8..9]), s.incoming[9..], s.output + hello + expected, s.clock[3..])
  }

  function ClientRound(s: Side): Side
    requires |s.incoming| >= 16 && |s.clock| >= 3
  {
    var p := ReceiveHandshake(ClearIntervals(s.party), s.incoming[..8], s.clock[0]);
    var (q, answer) := CreateHandshake(p, s.clock[1]);
    var r := ReceiveExpectedTime(q, s.incoming[8..16], s.clock[2]);
    Side(r, s.incoming[16..], s.output + answer + CreateResponse(r), s.clock[3..])
  }

  // Enough arrives for the connector's loop to end: round after round, until a verdict is not zero.
  predicate VerdictComes(incoming: Bytes, readings: nat)
    decreases |incoming|
  {
    |incoming| >= 9 && readings >= 3 && (incoming[8] != 0 || VerdictComes(incoming[9..], readings - 3))
  }

  lemma VerdictDecides(s: Side)
    requires |s.incoming| >= 9 && |s.clock| >= 3
    ensures ConnectorRound(s).party.accept == (s.incoming[8] != 0)
  {}

  function ConnectorLoop(s: Side): (r: Side)
    requires s.party.accept || VerdictComes(s.incoming, |s.clock|)
    ensures r.party.accept
    decreases |s.incoming|
  {
    if s.party.accept then s else ConnectorLoop(ConnectorRound(s))
  }

  // Enough arrives for the client's loop to end: round after round, until one is accepted.
  predicate AcceptanceComes(s: Side)
    decreases |s.incoming|
  {
    |s.incoming| >= 16 && |s.clock| >= 3 && (ClientRound(s).party.accept || AcceptanceComes(ClientRound(s)))
  }

  function ClientLoop(s: Side): (r: Side)
    requires s.party.accept || AcceptanceComes(s)
    ensures r.party.accept
    decreases |s.incoming|
  {
    if s.party.accept then s else ClientLoop(ClientRound(s))
  }

  lemma RejectionCounts(s: Side)
    requires |s.incoming| >= 16 && |s.clock| >= 3 && s.party.rejections <= MOST_REJECTIONS
    ensures var r := ClientRound(s).party;
            if r.accept then r.rejections == s.party.rejections
            else r.rejections == s.party.rejections + 1 <= MOST_REJECTIONS
  {
    hide Below;
    if s.party.rejections == MOST_REJECTIONS {
      AnyErrorAccepted(ClientRound(s).party.error);
    }
  }

  // Bytes and clock readings for twelve rounds are always enough, whatever they are.
  lemma {:induction false} TwelveRoundsAccept(s: Side)
    requires s.party.rejections <= MOST_REJECTIONS
    requires var rounds := MOST_REJECTIONS + 1 - s.party.rejections;
             |s.incoming| >= 16 * rounds && |s.clock| >= 3 * rounds
    ensures AcceptanceComes(s)
    decreases |s.incoming|
  {
    RejectionCounts(s);
    var r := ClientRound(s);
    assert |r.incoming| == |s.incoming| - 16 && |r.clock| == |s.clock| - 3;
    hide ClientRound;
    if !r.party.accept {
      TwelveRoundsAccept(r);
    }
  }

  // ---- Both sides together ----

  // The connector's clock and the client's, theta ahead of it, show the times of these rounds. What the
  // client's clock shows when the first message of a round arrives is of no consequence.
  predicate ClocksShow(ts: seq<Times>, theta: int, connector: seq<Uint64>, client: seq<Uint64>) {
    ts == [] ||
    (var t := ts[0];
     && |connector| >= 3 && connector[..3] == [Clock(t.sent), Clock(t.received), Clock(t.resent)]
     && |client| >= 3 && client[1..3] == [Clock(t.remote + theta), Clock(t.judged + theta)]
     && ClocksShow(ts[1..], theta, connector[3..], client[3..]))
  }

  lemma ConnectorRoundIs(a: Side, t: Times, theta: int, verdict: bool)
    requires !a.party.accept && a.party.rejections == 0 && |a.incoming| >= 9 && |a.clock| >= 3
    requires a.clock[..3] == [Clock(t.sent), Clock(t.received), Clock(t.resent)]
    requires a.incoming[..8] == Uint64Bytes(Clock(t.remote + theta)) && a.incoming[8..9] == BoolBytes(verdict)
    ensures ConnectorRound(a).party == Measured(t, theta).(accept := verdict)
  {
    assert a.clock[0] == a.clock[..3][0] && a.clock[1] == a.clock[..3][1] && a.clock[2] == a.clock[..3][2];
    hide Uint64Bytes, Read, Plus, Minus;
  }

  lemma ConnectorRoundSends(a: Side)
    requires |a.incoming| >= 9 && |a.clock| >= 3
    ensures var r := ConnectorRound(a);
            && r.incoming == a.incoming[9..] && r.clock == a.clock[3..]
            && r.output == a.output + (Uint64Bytes(a.clock[0]) + Uint64Bytes(r.party.expected))
  {
    hide Uint64Bytes, Read, Plus, Minus;
  }

  lemma ClientRoundIs(b: Side, t: Times, theta: int)
    requires |b.incoming| >= 16 && |b.clock| >= 3
    requires b.clock[2] == Clock(t.judged + theta)
    requires b.incoming[8..16] == Uint64Bytes(Measured(t, theta).expected)
    ensures var r, j := ClientRound(b).party, Judged(b.party, t, theta);
            r.accept == j.accept && r.rejections == j.rejections
  {
    hide Uint64Bytes, Read, Plus, Minus, Below, Measured;
  }

  lemma ClientRoundSends(b: Side)
    requires |b.incoming| >= 16 && |b.clock| >= 3
    ensures var r := ClientRound(b);
            && r.incoming == b.incoming[16..] && r.clock == b.clock[3..]
            && r.output == b.output + (Uint64Bytes(b.clock[1]) + BoolBytes(r.party.accept))
  {
    hide Uint64Bytes, Read, Plus, Minus, Below, BoolBytes;
  }

  lemma {:induction false} ConnectorOnlySends(s: Side)
    requires s.party.accept || VerdictComes(s.incoming, |s.clock|)
    ensures s.output <= ConnectorLoop(s).output
    decreases |s.incoming|
  {
    if !s.party.accept {
      ConnectorRoundSends(s);
      VerdictDecides(s);
      hide ConnectorRound;
      ConnectorOnlySends(ConnectorRound(s));
    }
  }

  lemma {:induction false} ClientOnlySends(s: Side)
    requires s.party.accept || AcceptanceComes(s)
    ensures s.output <= ClientLoop(s).output
    decreases |s.incoming|
  {
    if !s.party.accept {
      ClientRoundSends(s);
      hide ClientRound;
      ClientOnlySends(ClientRound(s));
    }
  }

  // Each side receives what the other one sends from now on.
  ghost predicate Connected(a: Side, b: Side) {
    && (a.party.accept || VerdictComes(a.incoming, |a.clock|)) && (b.party.accept || AcceptanceComes(b))
    && ConnectorLoop(a).output == a.output + b.incoming && ClientLoop(b).output == b.output + a.incoming
  }

  // What a side sends first is what the other one receives first.
  lemma SplitStream(sent: Bytes, x: Bytes, stream: Bytes, all: Bytes)
    requires sent + x <= all == sent + stream
    ensures |x| <= |stream| && stream[..|x|] == x && all == (sent + x) + stream[|x|..]
  {
    assert all[|sent|..] == stream;
    assert all[|sent|..|sent| + |x|] == (sent + x)[|sent|..];
  }

  lemma ConnectorSendsFirst(a: Side, stream: Bytes)
    requires !a.party.accept && VerdictComes(a.incoming, |a.clock|)
    requires ConnectorLoop(a).output == a.output + stream
    ensures var a' := ConnectorRound(a);
            && |stream| >= 16 && stream[8..16] == Uint64Bytes(a'.party.expected)
            && a'.party.accept == (a.incoming[8] != 0)
            && (a'.party.accept || VerdictComes(a'.incoming, |a'.clock|))
            && ConnectorLoop(a').output == a'.output + stream[16..]
  {
    var a' := ConnectorRound(a);
    ConnectorRoundSends(a);
    VerdictDecides(a);
    hide ConnectorRound, Uint64Bytes;
    ConnectorOnlySends(a');
    var x := Uint64Bytes(a.clock[0]) + Uint64Bytes(a'.party.expected);
    SplitStream(a.output, x, stream, ConnectorLoop(a').output);
    assert x[8..16] == Uint64Bytes(a'.party.expected) && stream[..16][8..16] == stream[8..16];
  }

  lemma ClientSendsFirst(b: Side, stream: Bytes)
    requires !b.party.accept && AcceptanceComes(b)
    requires ClientLoop(b).output == b.output + stream
    ensures var b' := ClientRound(b);
            && |stream| >= 9 && stream[..8] == Uint64Bytes(b.clock[1]) && stream[8..9] == BoolBytes(b'.party.accept)
            && (b'.party.accept || AcceptanceComes(b'))
            && ClientLoop(b').output == b'.output + stream[9..]
  {
    var b' := ClientRound(b);
    ClientRoundSends(b);
    hide ClientRound, Uint64Bytes;
    ClientOnlySends(b');
    var y := Uint64Bytes(b.clock[1]) + BoolBytes(b'.party.accept);
    SplitStream(b.output, y, stream, ClientLoop(b').output);
    assert y[..8] == Uint64Bytes(b.clock[1]) && y[8..9] == BoolBytes(b'.party.accept);
    assert stream[..9][..8] == stream[..8] && stream[..9][8..9] == stream[8..9];
  }

  // A round of both sides is the measurement and the judgement of its times; then both go on, or both stop.
  lemma RoundTogether(a: Side, b: Side, t: Times, theta: int)
    requires !a.party.accept && a.party.rejections == 0 && !b.party.accept && Connected(a, b)
    requires a.clock[..3] == [Clock(t.sent), Clock(t.received), Clock(t.resent)]
    requires b.clock[1..3] == [Clock(t.remote + theta), Clock(t.judged + theta)]
    ensures var a', b', j := ConnectorRound(a), ClientRound(b), Judged(b.party, t, theta);
            && a'.party == Measured(t, theta).(accept := j.accept)
            && b'.party.accept == j.accept && b'.party.rejections == j.rejections
            && a'.incoming == a.incoming[9..] && b'.incoming == b.incoming[16..]
            && a'.clock == a.clock[3..] && b'.clock == b.clock[3..]
            && Connected(a', b')
  {
    hide ConnectorRound, ClientRound, Measured, Judged, Uint64Bytes, Clock;
    ConnectorSendsFirst(a, b.incoming);
    ClientSendsFirst(b, a.incoming);
    ConnectorRoundSends(a);
    ClientRoundSends(b);
    assert b.clock[1] == b.clock[1..3][0] && b.clock[2] == b.clock[1..3][1];
    ConnectorRoundIs(a, t, theta, ClientRound(b).party.accept);
    ClientRoundIs(b, t, theta);
  }

  // The offset p holds is the true one up to the error of round t, which half the round trip bounds
  // and, as the round was accepted, the tolerance.
  predicate RightOffset(p: Party, t: Times, theta: int, rejections: nat) {
    && p.delta == Clock(theta + OffsetError(t))
    && Abs(OffsetError(t)) <= (t.received - t.sent + 1) / 2
    && AcceptedWithin(t, rejections)
  }

  lemma RoundsArrive(a: Side, b: Side)
    requires !a.party.accept && !b.party.accept && Connected(a, b)
    ensures |a.incoming| >= 9 && |a.clock| >= 3 && |b.incoming| >= 16 && |b.clock| >= 3
  {}

  lemma LoopsStop(a: Side, b: Side)
    ensures a.party.accept ==> ConnectorLoop(a) == a
    ensures b.party.accept ==> ClientLoop(b) == b
  {}

  lemma LoopsGoOn(a: Side, b: Side)
    requires !a.party.accept && !b.party.accept && Connected(a, b)
    ensures ConnectorLoop(a) == ConnectorLoop(ConnectorRound(a)) && ClientLoop(b) == ClientLoop(ClientRound(b))
    ensures |a.incoming| == |ConnectorRound(a).incoming| + 9 && |b.incoming| == |ClientRound(b).incoming| + 16
  {
    ConnectorRoundSends(a);
    ClientRoundSends(b);
    hide ConnectorRound, ClientRound;
  }

  // What a round leaves to the next one.
  lemma RoundLeaves(a: Side, b: Side, t: Times, theta: int)
    requires !a.party.accept && a.party.rejections == 0 && !b.party.accept && b.party.rejections <= MOST_REJECTIONS
    requires Connected(a, b)
    requires a.clock[..3] == [Clock(t.sent), Clock(t.received), Clock(t.resent)]
    requires b.clock[1..3] == [Clock(t.remote + theta), Clock(t.judged + theta)]
    ensures var a', b' := ConnectorRound(a), ClientRound(b);
            && Connected(a', b') && a'.party.accept == b'.party.accept && a'.party.rejections == 0
            && a'.clock == a.clock[3..] && b'.clock == b.clock[3..]
            && b'.party.rejections == (if b'.party.accept then b.party.rejections else b.party.rejections + 1)
            && (!b'.party.accept ==> b'.party.rejections <= MOST_REJECTIONS)
  {
    hide ConnectorRound, ClientRound, Clock, Connected, Plus, Minus, Read, Uint64Bytes, Below;
    RoundsArrive(a, b);
    RoundTogether(a, b, t, theta);
    RejectionCounts(b);
  }

  lemma NothingMore(a: Side, b: Side)
    requires a.party.accept && b.party.accept && Connected(a, b)
    ensures a.incoming == [] && b.incoming == []
  {
    assert a.output + b.incoming == a.output + [];
    assert b.output + a.incoming == b.output + [];
    assert (a.output + b.incoming)[|a.output|..] == b.incoming;
    assert (b.output + a.incoming)[|b.output|..] == a.incoming;
  }

  // What the round says in which both stop.
  lemma LastRound(a: Side, b: Side, t: Times, theta: int)
    requires !a.party.accept && a.party.rejections == 0 && !b.party.accept && b.party.rejections <= MOST_REJECTIONS
    requires Connected(a, b) && Ordered(t) && ClientRound(b).party.accept
    requires a.clock[..3] == [Clock(t.sent), Clock(t.received), Clock(t.resent)]
    requires b.clock[1..3] == [Clock(t.remote + theta), Clock(t.judged + theta)]
    ensures ConnectorRound(a).incoming == [] && ClientRound(b).incoming == []
    ensures RightOffset(ConnectorRound(a).party, t, theta, b.party.rejections)
  {
    hide ConnectorRound, ClientRound, Judged, Measured, OffsetError, AcceptedWithin, Ordered, Latency, Clock, Connected;
    RoundsArrive(a, b);
    RoundTogether(a, b, t, theta);
    OffsetBound(t, theta);
    AcceptedBound(b.party, t, theta);
    NothingMore(ConnectorRound(a), ClientRound(b));
  }

  lemma ClocksShowFirst(ts: seq<Times>, theta: int, connector: seq<Uint64>, client: seq<Uint64>)
    requires ts != [] && ClocksShow(ts, theta, connector, client)
    ensures |connector| >= 3 && connector[..3] == [Clock(ts[0].sent), Clock(ts[0].received), Clock(ts[0].resent)]
    ensures |client| >= 3 && client[1..3] == [Clock(ts[0].remote + theta), Clock(ts[0].judged + theta)]
    ensures ClocksShow(ts[1..], theta, connector[3..], client[3..])
  {}

  // Whatever the clocks show and however long the messages take: when each side receives what the other sends,
  // both make the same number of rounds, all bytes are used up, and the offset returned is the true one
  // within the bounds of the last round.
  lemma {:induction false} Synchronised(a: Side, b: Side, ts: seq<Times>, theta: int) returns (n: nat)
    requires !a.party.accept && a.party.rejections == 0 && !b.party.accept && b.party.rejections <= MOST_REJECTIONS
    requires Connected(a, b) && ClocksShow(ts, theta, a.clock, b.clock)
    requires |ts| > MOST_REJECTIONS - b.party.rejections && forall i :: 0 <= i < |ts| ==> Ordered(ts[i])
    ensures 1 <= n <= MOST_REJECTIONS + 1 - b.party.rejections
    ensures |a.incoming| == 9 * n && |b.incoming| == 16 * n
    ensures ClientLoop(b).party.rejections == b.party.rejections + n - 1
    ensures RightOffset(ConnectorLoop(a).party, ts[n - 1], theta, ClientLoop(b).party.rejections)
    decreases |ts|
  {
    hide *;
    RoundsArrive(a, b);
    var a', b', rest := ConnectorRound(a), ClientRound(b), ts[1..];
    LoopsStop(a', b');
    ClocksShowFirst(ts, theta, a.clock, b.clock);
    LoopsGoOn(a, b);
    RoundLeaves(a, b, ts[0], theta);
    if b'.party.accept {
      LastRound(a, b, ts[0], theta);
      n := 1;
    } else {
      n := Synchronised(a', b', rest, theta);
      n := n + 1;
    }
  }

  // ---- Such streams exist for all clocks ----

  datatype Streams = Streams(toConnector: Bytes, toClient: Bytes)

  predicate Accepts(t: Times, theta: int, rejections: nat) {
    Judged(FRESH.(rejections := rejections), t, theta).accept
  }

  function Answers(t: Times, theta: int, rejections: nat): Bytes {
    Uint64Bytes(Clock(t.remote + theta)) + BoolBytes(Accepts(t, theta, rejections))
  }

  function Asks(t: Times, theta: int): Bytes {
    Uint64Bytes(Clock(t.sent)) + Uint64Bytes(Measured(t, theta).expected)
  }

  // What the two sides say to each other in these rounds, until the client accepts.
  function Talk(ts: seq<Times>, theta: int, rejections: nat): Streams {
    if ts == [] then Streams([], [])
    else
      var rest := if Accepts(ts[0], theta, rejections) then Streams([], []) else Talk(ts[1..], theta, rejections + 1);
      Streams(Answers(ts[0], theta, rejections) + rest.toConnector, Asks(ts[0], theta) + rest.toClient)
  }

  lemma TalkSplits(ts: seq<Times>, theta: int, rejections: nat)
    requires ts != []
    ensures var s, accept := Talk(ts, theta, rejections), Accepts(ts[0], theta, rejections);
            && |s.toConnector| >= 9 && |s.toClient| >= 16
            && s.toConnector[..9] == Answers(ts[0], theta, rejections) && s.toClient[..16] == Asks(ts[0], theta)
            && Streams(s.toConnector[9..], s.toClient[16..]) ==
                 if accept then Streams([], []) else Talk(ts[1..], theta, rejections + 1)
  {
    hide Uint64Bytes, BoolBytes, Measured, Accepts, Clock;
    assert |Answers(ts[0], theta, rejections)| == 9 && |Asks(ts[0], theta)| == 16;
  }

  lemma SameVerdict(p: Party, t: Times, theta: int)
    ensures Judged(p, t, theta).accept == Accepts(t, theta, p.rejections)
  {
    hide Below, Read, Gap, Measured;
  }

  lemma MeasuredNeverRejects(t: Times, theta: int)
    ensures Measured(t, theta).rejections == 0
  {
    hide Read, Plus, Minus;
  }

  lemma AnsweredRound(a: Side, t: Times, theta: int, rejections: nat)
    requires !a.party.accept && a.party.rejections == 0 && |a.incoming| >= 9 && |a.clock| >= 3
    requires a.clock[..3] == [Clock(t.sent), Clock(t.received), Clock(t.resent)]
    requires a.incoming[..9] == Answers(t, theta, rejections)
    ensures var a', accept := ConnectorRound(a), Accepts(t, theta, rejections);
            && a'.party == Measured(t, theta).(accept := accept) && accept == (a.incoming[8] != 0)
            && a'.incoming == a.incoming[9..] && a'.clock == a.clock[3..] && a'.output == a.output + Asks(t, theta)
  {
    hide ConnectorRound, Measured, Uint64Bytes, Clock, Accepts, BoolBytes;
    var accept := Accepts(t, theta, rejections);
    var x, y := Uint64Bytes(Clock(t.remote + theta)), BoolBytes(accept);
    assert a.incoming[..9][..8] == a.incoming[..8] && a.incoming[..9][8..9] == a.incoming[8..9];
    assert (x + y)[..8] == x && (x + y)[8..9] == y;
    assert a.clock[0] == a.clock[..3][0];
    ConnectorRoundIs(a, t, theta, accept);
    ConnectorRoundSends(a);
    VerdictDecides(a);
  }

  lemma AskedRound(b: Side, t: Times, theta: int)
    requires !b.party.accept && b.party.rejections <= MOST_REJECTIONS && |b.incoming| >= 16 && |b.clock| >= 3
    requires b.clock[1..3] == [Clock(t.remote + theta), Clock(t.judged + theta)]
    requires b.incoming[..16] == Asks(t, theta)
    ensures var b', accept := ClientRound(b), Accepts(t, theta, b.party.rejections);
            && b'.party.accept == accept
            && (!accept ==> b'.party.rejections == b.party.rejections + 1 <= MOST_REJECTIONS)
            && b'.incoming == b.incoming[16..] && b'.clock == b.clock[3..]
            && b'.output == b.output + Answers(t, theta, b.party.rejections)
  {
    hide ClientRound, Measured, Uint64Bytes, Clock, Accepts, BoolBytes, Judged, Below;
    var x, y := Uint64Bytes(Clock(t.sent)), Uint64Bytes(Measured(t, theta).expected);
    assert b.incoming[..16][8..16] == b.incoming[8..16] && (x + y)[8..16] == y;
    assert b.clock[1] == b.clock[1..3][0] && b.clock[2] == b.clock[1..3][1];
    ClientRoundIs(b, t, theta);
    ClientRoundSends(b);
    SameVerdict(b.party, t, theta);
    RejectionCounts(b);
  }

  // Sides that are connected after a round were connected before it.
  lemma ConnectorBefore(a: Side, asked: Bytes, stream: Bytes)
    requires !a.party.accept && |a.incoming| >= 9 && |a.clock| >= 3
    requires var a' := ConnectorRound(a);
             && (a'.party.accept || VerdictComes(a'.incoming, |a'.clock|))
             && a'.output == a.output + asked && ConnectorLoop(a').output == a'.output + stream
    ensures VerdictComes(a.incoming, |a.clock|) && ConnectorLoop(a).output == a.output + (asked + stream)
  {
    hide ConnectorRound;
    ConnectorRoundSends(a);
    VerdictDecides(a);
    var a' := ConnectorRound(a);
    assert a'.incoming == a.incoming[9..] && a'.clock == a.clock[3..];
    assert a.output + asked + stream == a.output + (asked + stream);
  }

  lemma ClientBefore(b: Side, answered: Bytes, stream: Bytes)
    requires !b.party.accept && |b.incoming| >= 16 && |b.clock| >= 3
    requires var b' := ClientRound(b);
             && (b'.party.accept || AcceptanceComes(b'))
             && b'.output == b.output + answered && ClientLoop(b').output == b'.output + stream
    ensures AcceptanceComes(b) && ClientLoop(b).output == b.output + (answered + stream)
  {
    hide ClientRound;
  }

  lemma ConnectedBefore(a: Side, b: Side, asked: Bytes, answered: Bytes)
    requires !a.party.accept && |a.incoming| >= 9 && |a.clock| >= 3
    requires !b.party.accept && |b.incoming| >= 16 && |b.clock| >= 3
    requires Connected(ConnectorRound(a), ClientRound(b))
    requires a.incoming == answered + ConnectorRound(a).incoming && b.incoming == asked + ClientRound(b).incoming
    requires ConnectorRound(a).output == a.output + asked && ClientRound(b).output == b.output + answered
    ensures Connected(a, b)
  {
    hide ConnectorRound, ClientRound, VerdictComes, AcceptanceComes, ConnectorLoop, ClientLoop;
    ConnectorBefore(a, asked, ClientRound(b).incoming);
    ClientBefore(b, answered, ConnectorRound(a).incoming);
  }

  lemma BothDone(a: Side, b: Side)
    requires a.party.accept && b.party.accept && a.incoming == [] && b.incoming == []
    ensures Connected(a, b)
  {
    assert a.output + [] == a.output && b.output + [] == b.output;
  }

  // For all times of at least twelve rounds the talk connects the two sides, so Synchronised applies to it.
  lemma {:induction false} TalkConnects(a: Side, b: Side, ts: seq<Times>, theta: int)
    requires !a.party.accept && a.party.rejections == 0 && !b.party.accept && b.party.rejections <= MOST_REJECTIONS
    requires |ts| > MOST_REJECTIONS - b.party.rejections && ClocksShow(ts, theta, a.clock, b.clock)
    requires Streams(a.incoming, b.incoming) == Talk(ts, theta, b.party.rejections)
    ensures Connected(a, b)
    decreases |ts|
  {
    hide *;
    var t := ts[0];
    TalkSplits(ts, theta, b.party.rejections);
    ClocksShowFirst(ts, theta, a.clock, b.clock);
    AnsweredRound(a, t, theta, b.party.rejections);
    AskedRound(b, t, theta);
    MeasuredNeverRejects(t, theta);
    var a', b' := ConnectorRound(a), ClientRound(b);
    assert a'.party.accept == b'.party.accept && a'.party.rejections == 0;
    if b'.party.accept {
      BothDone(a', b');
    } else {
      TalkConnects(a', b', ts[1..], theta);
    }
    assert a.incoming == a.incoming[..9] + a.incoming[9..] && b.incoming == b.incoming[..16] + b.incoming[16..];
    ConnectedBefore(a, b, Asks(t, theta), Answers(t, theta, b.party.rejections));
  }

  // Two new objects, and nothing but the clocks given: both return, with the offset as Synchronised says.
  lemma NewSidesSynchronise(ts: seq<Times>, theta: int, connector: seq<Uint64>, client: seq<Uint64>)
    returns (a: Side, b: Side, n: nat)
    requires |ts| > MOST_REJECTIONS && ClocksShow(ts, theta, connector, client)
    requires forall i :: 0 <= i < |ts| ==> Ordered(ts[i])
    ensures a == Side(FRESH, a.incoming, [], connector) && b == Side(FRESH, b.incoming, [], client)
    ensures Connected(a, b) && 1 <= n <= MOST_REJECTIONS + 1
    ensures RightOffset(ConnectorLoop(a).party, ts[n - 1], theta, n - 1)
  {
    hide Talk, ClocksShow, RightOffset, AcceptanceComes, VerdictComes, ConnectorLoop, ClientLoop;
    var talk := Talk(ts, theta, 0);
    a, b := Side(FRESH, talk.toConnector, [], connector), Side(FRESH, talk.toClient, [], client);
    TalkConnects(a, b, ts, theta);
    n := Synchronised(a, b, ts, theta);
  }
}
