/** cluster::ClusterDelta: the two sides of the clock synchronisation, and what a round computes. */
module ClusterDelta {
  import opened VprTypes
  import opened PacketBytes
  import opened ClockTolerance

  // mTol is 2 to the power 1.5^rejections.
  datatype Party = Party(localSend: Uint64, localReceive: Uint64, remoteSend: Uint64, expected: Uint64,
                         latency: Uint64, delta: Uint64, error: Uint64, accept: bool, rejections: nat)

  const FRESH := Party(0, 0, 0, 0, 0, 0, 0, false, 0)

  // vpr::Interval adds and subtracts unsigned 64-bit microseconds.
  function Plus(x: Uint64, y: Uint64): Uint64 { (x + y) % UINT64 }
  function Minus(x: Uint64, y: Uint64): Uint64 { (x - y) % UINT64 }

  function ClearIntervals(p: Party): Party {
    FRESH.(accept := p.accept, rejections := p.rejections)
  }

  function Read(b: Bytes): Uint64
    requires |b| == 8
  {
    ReadUint64(b).value
  }

  lemma ReadBack(v: Uint64)
    ensures Read(Uint64Bytes(v)) == v
  {
    Uint64Back(v, []);
    assert Uint64Bytes(v) + [] == Uint64Bytes(v);
  }

  function CreateHandshake(p: Party, now: Uint64): (Party, Bytes) {
    (p.(localSend := now), Uint64Bytes(now))
  }

  function ReceiveHandshake(p: Party, b: Bytes, now: Uint64): Party
    requires |b| == 8
  {
    p.(localReceive := now, remoteSend := Read(b))
  }

  function CreateExpectedTime(p: Party, now: Uint64): (Party, Bytes) {
    var latency := Minus(p.localReceive, p.localSend) / 2;
    var delta := Minus(Minus(p.remoteSend, p.localSend), latency);
    var expected := Plus(Plus(now, delta), latency);
    (p.(latency := latency, delta := delta, localSend := now, expected := expected), Uint64Bytes(expected))
  }

  function Gap(expected: Uint64, now: Uint64): Uint64 {
    if expected > now then Minus(expected, now) else Minus(now, expected)
  }

  function ReceiveExpectedTime(p: Party, b: Bytes, now: Uint64): Party
    requires |b| == 8
  {
    var expected := Read(b);
    var error := Gap(expected, now);
    var accept := Below(error, p.rejections);
    p.(localReceive := now, expected := expected, error := error, accept := accept,
       rejections := if accept then p.rejections else p.rejections + 1)
  }

  function CreateResponse(p: Party): Bytes {
    BoolBytes(p.accept)
  }

  function ReceiveResponse(p: Party, b: Bytes): Party
    requires |b| == 1
  {
    p.(accept := ReadBool(b).value)
  }

  // ---- What one round measures ----

  // Two clocks running at equal rate, the remote one ahead by theta; a clock shows the low 64 bits.
  function Clock(t: int): Uint64 { t % UINT64 }

  // The local times at which a round's messages were handled: the connector's first message was
  // stamped at sent, the client's at remote, received at received, the second stamped at resent
  // and received by the client at judged.
  datatype Times = Times(sent: int, remote: int, received: int, resent: int, judged: int)

  // No round lasts 2^62 microseconds.
  const LONGEST := 0x4000_0000_0000_0000

  predicate Ordered(t: Times) {
    t.sent <= t.remote <= t.received <= t.resent <= t.judged <= t.sent + LONGEST
  }

  function Latency(t: Times): int {
    (t.received - t.sent) / 2
  }

  // How far the computed offset is from the true one.
  function OffsetError(t: Times): int {
    t.remote - t.sent - Latency(t)
  }

  // How far the client finds its clock from the time it was told to expect.
  function SignedError(t: Times): int {
    OffsetError(t) - (t.judged - t.resent - Latency(t))
  }

  function Abs(x: int): nat {
    if x < 0 then -x else x
  }

  // The connector after its second message, and the client after judging it.
  function Measured(t: Times, theta: int): Party {
    var p := FRESH.(localSend := Clock(t.sent));
    var q := ReceiveHandshake(p, Uint64Bytes(Clock(t.remote + theta)), Clock(t.received));
    CreateExpectedTime(q, Clock(t.resent)).0
  }

  function Judged(client: Party, t: Times, theta: int): Party {
    ReceiveExpectedTime(client, Uint64Bytes(Measured(t, theta).expected), Clock(t.judged + theta))
  }

  lemma ModPlus(x: int, y: int)
    ensures Plus(x % UINT64, y % UINT64) == (x + y) % UINT64
  {
    assert x == UINT64 * (x / UINT64) + x % UINT64 && y == UINT64 * (y / UINT64) + y % UINT64;
    SameRest(x + y, x % UINT64 + y % UINT64, x / UINT64 + y / UINT64);
  }

  lemma ModMinus(x: int, y: int)
    ensures Minus(x % UINT64, y % UINT64) == (x - y) % UINT64
  {
    assert x == UINT64 * (x / UINT64) + x % UINT64 && y == UINT64 * (y / UINT64) + y % UINT64;
    SameRest(x - y, x % UINT64 - y % UINT64, x / UINT64 - y / UINT64);
  }

  lemma SameRest(x: int, y: int, k: int)
    requires x == y + UINT64 * k
    ensures x % UINT64 == y % UINT64
  {
    var r := y % UINT64;
    assert x == UINT64 * (y / UINT64 + k) + r;
  }

  // The computed offset is within half the measured round trip, rounded up, of the true one.
  lemma OffsetBound(t: Times, theta: int)
    requires Ordered(t)
    ensures Measured(t, theta).latency == Latency(t)
    ensures Measured(t, theta).delta == Clock(theta + OffsetError(t))
    ensures Abs(OffsetError(t)) <= (t.received - t.sent + 1) / 2
    ensures Measured(t, theta).expected == Clock(t.judged + theta + SignedError(t))
  {
    ReadBack(Clock(t.remote + theta));
    hide Read, Uint64Bytes, Plus, Minus;
    ModMinus(t.received, t.sent);
    assert Latency(t) == Latency(t) % UINT64;
    ModMinus(t.remote + theta, t.sent);
    ModMinus(t.remote + theta - t.sent, Latency(t));
    ModPlus(t.resent, theta + OffsetError(t));
    ModPlus(t.resent + theta + OffsetError(t), Latency(t));
  }

  // Everything a round leaves in the connector's fields.
  lemma MeasuredFields(t: Times, theta: int)
    requires Ordered(t)
    ensures Measured(t, theta) ==
            Party(Clock(t.resent), Clock(t.received), Clock(t.remote + theta), Clock(t.judged + theta + SignedError(t)),
                  Latency(t), Clock(theta + OffsetError(t)), 0, false, 0)
  {
    OffsetBound(t, theta);
    ReadBack(Clock(t.remote + theta));
    hide Read, Uint64Bytes, Plus, Minus;
  }

  // And what its end leaves in the client's: the other fields stay.
  lemma JudgedFields(client: Party, t: Times, theta: int)
    requires Ordered(t)
    ensures var j := Judged(client, t, theta);
            && j == client.(localReceive := Clock(t.judged + theta),
                            expected := Clock(t.judged + theta + SignedError(t)), error := j.error,
                            accept := Below(j.error, client.rejections), rejections := j.rejections)
            && j.rejections == if j.accept then client.rejections else client.rejections + 1
  {
    OffsetBound(t, theta);
    ReadBack(Measured(t, theta).expected);
    hide Read, Uint64Bytes, Measured, Below;
  }

  // A round starts with all times cleared, but with the verdict and the tolerance there were.
  lemma Cleared(p: Party)
    ensures ClearIntervals(p) == Party(0, 0, 0, 0, 0, 0, 0, p.accept, p.rejections)
  {}

  lemma ErrorBounded(t: Times)
    requires Ordered(t)
    ensures Abs(SignedError(t)) < 2 * LONGEST
  {}

  // The error the client computes, for every reading of its clock: the true one
  // unless the expected time lies on the other side of the clock's turn.
  lemma ErrorComputed(client: Party, t: Times, theta: int)
    requires Ordered(t)
    ensures var now := Clock(t.judged + theta);
            Judged(client, t, theta).error ==
              if 0 <= now + SignedError(t) < UINT64 then Abs(SignedError(t)) else UINT64 - Abs(SignedError(t))
  {
    OffsetBound(t, theta);
    ErrorBounded(t);
    ReadBack(Measured(t, theta).expected);
    ClockShift(t.judged + theta, SignedError(t));
    GapOnTheClock(Clock(t.judged + theta), SignedError(t));
    hide Read, Uint64Bytes, Measured, Below, SignedError, OffsetError, Latency, Ordered, Abs, Gap, Clock;
  }

  lemma ClockShift(x: int, e: int)
    ensures Clock(Clock(x) + e) == Clock(x + e)
  {
    SameRest(x + e, Clock(x) + e, x / UINT64);
  }

  lemma GapOnTheClock(now: Uint64, e: int)
    requires -2 * LONGEST < e < 2 * LONGEST
    ensures Gap(Clock(now + e), now) == if 0 <= now + e < UINT64 then Abs(e) else UINT64 - Abs(e)
  {
    TurnOnce(now + e);
    var told := Clock(now + e);
    TurnOnce(told - now);
    TurnOnce(now - told);
  }

  lemma TurnOnce(x: int)
    requires -UINT64 < x < 2 * UINT64
    ensures x % UINT64 == if x < 0 then x + UINT64 else if x < UINT64 then x else x - UINT64
  {}

  // The offset is within the tolerance plus the gap between the estimated latency and the second message's delay.
  predicate AcceptedWithin(t: Times, rejections: nat) {
    Below(Abs(OffsetError(t) - (t.judged - t.resent - Latency(t))), rejections)
  }

  // That is so for every accepted round, also when a clock turns.
  lemma AcceptedBound(client: Party, t: Times, theta: int)
    requires Ordered(t) && client.rejections <= MOST_REJECTIONS && Judged(client, t, theta).accept
    ensures AcceptedWithin(t, client.rejections)
  {
    hide Below;
    ErrorComputed(client, t, theta);
    ErrorBounded(t);
    var e := Abs(SignedError(t));
    if Judged(client, t, theta).error != e {
      if client.rejections == MOST_REJECTIONS {
        AnyErrorAccepted(e);
      } else {
        HugeErrorRejected(UINT64 - e, client.rejections);
      }
    }
  }

  lemma {:induction false} HugeErrorRejected(error: nat, n: nat)
    requires error >= UINT64 / 2 && n < MOST_REJECTIONS
    ensures !Below(error, n)
    decreases MOST_REJECTIONS - n
  {
    if n == MOST_REJECTIONS - 1 {
      PowOf58();
      LargeErrorRejected(error);
    } else {
      HugeErrorRejected(error, n + 1);
      if Below(error, n) {
        BelowStays(error, n);
      }
    }
  }

  lemma PowOf58()
    ensures Pow(2, 58) <= UINT64 / 2
  {
    assert Pow(2, 8) == 256;
    PowSum(2, 8, 8);
    PowSum(2, 16, 16);
    PowSum(2, 32, 16);
    PowSum(2, 48, 8);
    PowSum(2, 56, 2);
    assert Pow(2, 2) == 4;
  }
}
