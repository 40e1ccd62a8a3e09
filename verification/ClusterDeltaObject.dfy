/** The ClusterDelta object with its two loops, over a socket and a clock whose future is given. */
module ClusterDeltaObject {
  import opened VprTypes
  import opened PacketBytes
  import opened ClockTolerance
  import opened ClusterDelta
  import opened ClusterDeltaLoop

  class DeltaObject {
    var localSendTime: Uint64
    var localReceiveTime: Uint64
    var remoteSendTime: Uint64
    var expectedRemoteTime: Uint64
    var latencyTime: Uint64
    var delta: Uint64
    var errorTime: Uint64
    var accept: bool
    var rejections: nat
    var incoming: Bytes
    var output: Bytes
    var clock: seq<Uint64>

    function View(): Party
      reads this
    {
      Party(localSendTime, localReceiveTime, remoteSendTime, expectedRemoteTime, latencyTime, delta, errorTime,
            accept, rejections)
    }

    function ViewAll(): Side
      reads this
    {
      Side(View(), incoming, output, clock)
    }

    constructor (incoming: Bytes, clock: seq<Uint64>)
      ensures ViewAll() == Side(FRESH, incoming, [], clock)
    {
      localSendTime, localReceiveTime, remoteSendTime, expectedRemoteTime := 0, 0, 0, 0;
      latencyTime, delta, errorTime, accept, rejections := 0, 0, 0, false, 0;
      this.incoming, this.output, this.clock := incoming, [], clock;
    }

    method SetNow() returns (now: Uint64)
      requires clock != []
      modifies this`clock
      ensures now == old(clock)[0] && clock == old(clock)[1..]
    {
      now, clock := clock[0], clock[1..];
    }

    method GetPacket(num: nat) returns (b: Bytes)
      requires |incoming| >= num
      modifies this`incoming
      ensures b == old(incoming)[..num] && incoming == old(incoming)[num..]
    {
      b, incoming := incoming[..num], incoming[num..];
    }

    method ClearIntervals()
      modifies this
      ensures ViewAll() == old(ViewAll()).(party := ClusterDelta.ClearIntervals(old(View())))
    {
      localSendTime, localReceiveTime, remoteSendTime := 0, 0, 0;
      expectedRemoteTime, latencyTime, delta, errorTime := 0, 0, 0, 0;
    }

    method CreateHandshake()
      requires clock != []
      modifies this
      ensures var (p, b) := ClusterDelta.CreateHandshake(old(View()), old(clock)[0]);
              ViewAll() == Side(p, old(incoming), old(output) + b, old(clock)[1..])
    {
      localSendTime := SetNow();
      output := output + Uint64Bytes(localSendTime);
    }

    method ReceiveHandshake()
      requires clock != [] && |incoming| >= 8
      modifies this
      ensures ViewAll() == Side(ClusterDelta.ReceiveHandshake(old(View()), old(incoming)[..8], old(clock)[0]),
                                old(incoming)[8..], old(output), old(clock)[1..])
    {
      var b := GetPacket(8);
      localReceiveTime := SetNow();
      remoteSendTime := Read(b);
    }

    method CreateExpectedTime()
      requires clock != []
      modifies this
      ensures var (p, b) := ClusterDelta.CreateExpectedTime(old(View()), old(clock)[0]);
              ViewAll() == Side(p, old(incoming), old(output) + b, old(clock)[1..])
    {
      latencyTime := Minus(localReceiveTime, localSendTime) / 2;
      delta := Minus(Minus(remoteSendTime, localSendTime), latencyTime);
      localSendTime := SetNow();
      expectedRemoteTime := Plus(Plus(localSendTime, delta), latencyTime);
      output := output + Uint64Bytes(expectedRemoteTime);
    }

    method ReceiveExpectedTime()
      requires clock != [] && |incoming| >= 8
      modifies this
      ensures ViewAll() == Side(ClusterDelta.ReceiveExpectedTime(old(View()), old(incoming)[..8], old(clock)[0]),
                                old(incoming)[8..], old(output), old(clock)[1..])
    {
      hide Below, Read, Minus;
      var b := GetPacket(8);
      localReceiveTime := SetNow();
      expectedRemoteTime := Read(b);
      if expectedRemoteTime > localReceiveTime {
        errorTime := Minus(expectedRemoteTime, localReceiveTime);
      } else {
        errorTime := Minus(localReceiveTime, expectedRemoteTime);
      }
      if Below(errorTime, rejections) {
        accept := true;
      } else {
        accept := false;
        rejections := rejections + 1;
      }
    }

    method CreateResponse()
      modifies this
      ensures ViewAll() == old(ViewAll()).(output := old(output) + ClusterDelta.CreateResponse(old(View())))
    {
      output := output + BoolBytes(accept);
    }

    method ReceiveResponse()
      requires |incoming| >= 1
      modifies this
      ensures ViewAll() == old(ViewAll()).(party := ClusterDelta.ReceiveResponse(old(View()), old(incoming)[..1]),
                                           incoming := old(incoming)[1..])
    {
      var b := GetPacket(1);
      accept := ReadBool(b).value;
    }

    method GetClusterDelta() returns (d: Uint64)
      requires accept || VerdictComes(incoming, |clock|)
      modifies this
      ensures ViewAll() == ConnectorLoop(old(ViewAll())) && accept && d == delta
    {
      hide ClusterDelta.CreateHandshake, ClusterDelta.ReceiveHandshake, ClusterDelta.CreateExpectedTime,
           ClusterDelta.ReceiveResponse, ClusterDelta.ClearIntervals;
      while accept == false
        invariant accept || VerdictComes(incoming, |clock|)
        invariant ConnectorLoop(ViewAll()) == ConnectorLoop(old(ViewAll()))
        decreases |incoming|, !accept
      {
        ghost var s := ViewAll();
        VerdictDecides(s);
        ClearIntervals();
        CreateHandshake();
        ReceiveHandshake();
        CreateExpectedTime();
        ReceiveResponse();
        assert s.incoming[8..][..1] == s.incoming[8..9] && s.incoming[8..][1..] == s.incoming[9..];
        assert ViewAll() == ConnectorRound(s);
      }
      d := delta;
    }

    method ClientClusterDelta()
      requires accept || AcceptanceComes(ViewAll())
      modifies this
      ensures ViewAll() == ClientLoop(old(ViewAll())) && accept
    {
      hide ClusterDelta.CreateHandshake, ClusterDelta.ReceiveHandshake, ClusterDelta.ReceiveExpectedTime,
           ClusterDelta.CreateResponse, ClusterDelta.ClearIntervals;
      while accept == false
        invariant accept || AcceptanceComes(ViewAll())
        invariant ClientLoop(ViewAll()) == ClientLoop(old(ViewAll()))
        decreases |incoming|, !accept
      {
        ghost var s := ViewAll();
        ClearIntervals();
        ReceiveHandshake();
        CreateHandshake();
        ReceiveExpectedTime();
        CreateResponse();
        assert s.incoming[8..][..8] == s.incoming[8..16] && s.incoming[8..][8..] == s.incoming[16..];
        assert ViewAll() == ClientRound(s);
      }
    }
  }
}
