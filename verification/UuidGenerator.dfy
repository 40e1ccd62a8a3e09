/** The generator's functions as the source runs them, on its static variables and its state file. */
module UuidGenerator {
  import opened VprTypes
  import opened UuidV1

  // get_current_time's loop on the readings to come. The last reading is remembered nowhere, so it is
  // compared with 0 for ever: any other reading is the timestamp, and the count starts again.
  function Spin(readings: seq<Uint64>, tick: nat): (r: (Uint64, nat, seq<Uint64>))
    requires tick <= UUIDS_PER_TICK && exists k :: 0 <= k < |readings| && readings[k] != 0
    ensures readings[0] != 0 ==> r == (readings[0], 0, readings[1..])
    ensures r.1 <= UUIDS_PER_TICK
    decreases |readings|
  {
    if readings[0] != 0 then (readings[0], 0, readings[1..])
    else if tick < UUIDS_PER_TICK then (tick + 1, tick + 1, readings[1..])
    else
      assert readings[1..] != [] && exists k :: 0 <= k < |readings[1..]| && readings[1..][k] != 0 by {
        var k :| 0 <= k < |readings| && readings[k] != 0;
        assert readings[1..][k - 1] != 0;
      }
      Spin(readings[1..], tick)
  }

  // While the clock reads zero the count of 1024 is used up first, one a call; after that zeros are skipped.
  lemma {:induction false} SpinOnZeros(readings: seq<Uint64>, tick: nat, k: nat)
    requires tick <= 1024 && k < |readings| && readings[k] != 0 && forall i :: 0 <= i < k ==> readings[i] == 0
    ensures Spin(readings, tick) == if k > 0 && tick < 1024 then (tick + 1, tick + 1, readings[1..])
                                    else (readings[k], 0, readings[k + 1..])
    decreases k
  {
    if k > 0 && tick == 1024 {
      SpinOnZeros(readings[1..], tick, k - 1);
    }
  }

  class UuidObject {
    const node: Node

    // read_state, write_state and the state file
    var st: Saved
    var readInited: bool
    var file: File
    var writeInited: bool
    var nextSave: Uint64
    // get_current_time
    var timeInited: bool
    var timeLast: Uint64
    var uuidsThisTick: nat
    // true_random
    var randInited: bool
    // What the clock and rand() will yield.
    var readings: seq<Uint64>
    var randoms: seq<Uint16>

    function View(): Generator
      reads this
    {
      Generator(st, readInited, file, writeInited, nextSave)
    }

    ghost predicate Valid()
      reads this
    {
      timeLast == 0 && uuidsThisTick <= UUIDS_PER_TICK
    }

    constructor (node: Node, file: File, readings: seq<Uint64>, randoms: seq<Uint16>)
      ensures Valid() && !timeInited && !randInited && View() == Generator(Saved(0, 0, 0), false, file, false, 0)
      ensures this.node == node && this.readings == readings && this.randoms == randoms
    {
      this.node := node;
      st, readInited, this.file, writeInited, nextSave := Saved(0, 0, 0), false, file, false, 0;
      timeInited, timeLast, uuidsThisTick, randInited := false, 0, 0, false;
      this.readings, this.randoms := readings, randoms;
    }

    method GetSystemTime() returns (now: Uint64)
      requires readings != []
      modifies this`readings
      ensures now == old(readings)[0] && readings == old(readings)[1..]
    {
      now, readings := readings[0], readings[1..];
    }

    method GetCurrentTime() returns (timestamp: Uint64)
      requires Valid() && (timeInited || readings != [])
      requires var rs := if timeInited then readings else readings[1..];
               exists k :: 0 <= k < |rs| && rs[k] != 0
      modifies this`timeInited, this`uuidsThisTick, this`readings
      ensures Valid() && timeInited
      ensures (timestamp, uuidsThisTick, readings) ==
                if old(timeInited) then Spin(old(readings), old(uuidsThisTick))
                else Spin(old(readings)[1..], UUIDS_PER_TICK)
    {
      if !timeInited {
        var _ := GetSystemTime();
        uuidsThisTick := UUIDS_PER_TICK;
        timeInited := true;
      }
      ghost var start, tick := readings, uuidsThisTick;
      var now: Uint64;
      while true
        invariant Valid() && timeInited && uuidsThisTick == tick
        invariant exists k :: 0 <= k < |readings| && readings[k] != 0
        invariant Spin(start, tick) == Spin(readings, tick)
        decreases |readings|
      {
        ghost var rs := readings;
        var k :| 0 <= k < |readings| && readings[k] != 0;
        now := GetSystemTime();
        if timeLast != now {
          uuidsThisTick := 0;
          break;
        }
        if uuidsThisTick < UUIDS_PER_TICK {
          uuidsThisTick := uuidsThisTick + 1;
          break;
        }
        assert k > 0 && readings[k - 1] != 0;
      }
      timestamp := (now + uuidsThisTick) % UINT64;
    }

    method ReadState() returns (found: bool)
      modifies this`st, this`readInited
      ensures Loaded(found, View()) == UuidV1.ReadState(old(View()))
    {
      if !readInited {
        if file.Missing? {
          return false;
        }
        st := file.saved;
        readInited := true;
      }
      found := true;
    }

    method WriteState(clockSeq: Uint16, timestamp: Uint64)
      modifies this`st, this`file, this`writeInited, this`nextSave
      ensures View() == UuidV1.WriteState(old(View()), Saved(timestamp, node, clockSeq))
    {
      if !writeInited {
        nextSave := timestamp;
        writeInited := true;
      }
      st := Saved(timestamp, node, clockSeq);
      if timestamp >= nextSave {
        file := Holding(st);
        nextSave := (timestamp + SAVE_INTERVAL) % UINT64;
      }
    }

    // The first call reads the clock for a seed; what rand() then yields is given.
    method TrueRandom() returns (r: Uint16)
      requires randoms != [] && (randInited || readings != [])
      modifies this`randInited, this`readings, this`randoms
      ensures randInited && r == old(randoms)[0] && randoms == old(randoms)[1..]
      ensures readings == if old(randInited) then old(readings) else old(readings)[1..]
    {
      if !randInited {
        var _ := GetSystemTime();
        randInited := true;
      }
      r, randoms := randoms[0], randoms[1..];
    }

    // Whether the next call draws a random clock sequence.
    function Draws(): bool
      reads this
    {
      var l := UuidV1.ReadState(View());
      !l.found || node != l.generator.state.node
    }

    // With a clock that does not read zero, one call is one Create at the reading.
    method UuidCreate() returns (uuid: Uuid)
      requires Valid() && randoms != []
      requires |readings| >= 3 && readings[0] != 0 && readings[1] != 0
      modifies this
      ensures Valid() && timeInited
      ensures var time := if old(timeInited) then old(readings)[0] else old(readings)[1];
              (View(), uuid) == Create(old(View()), time, node, old(randoms)[0])
      ensures randInited == (old(randInited) || old(Draws()))
      ensures randoms == if old(Draws()) then old(randoms)[1..] else old(randoms)
      ensures var clocked := if old(timeInited) then 1 else 2;
              var seeded := if old(Draws()) && !old(randInited) then 1 else 0;
              readings == old(readings)[clocked + seeded..]
    {
      assert timeInited || readings[1..][0] != 0;
      var timestamp := GetCurrentTime();
      var found := ReadState();
      var clockSeq := st.clockSeq;
      if !found || node != st.node {
        clockSeq := TrueRandom();
      } else if timestamp < st.time {
        clockSeq := (clockSeq + 1) % UINT16;
      }
      uuid := Format(clockSeq, timestamp, node);
      WriteState(clockSeq, timestamp);
    }
  }
}
