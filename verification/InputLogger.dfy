/** The logger object, with the list of nodes that recording appends to and compression erases from. */
module InputLogger {
  import opened InputLog

  // The nodes while compressing: the compressed front of s, then what is left of s from i on.
  ghost predicate Compressing<D>(eq: Comparison<D>, s: seq<Entry<D>>, i: nat, cur: nat, nodes: seq<Entry<D>>) {
    && 1 <= i <= |s|
    && cur == |Destutter(eq, s[..i])| && nodes == Destutter(eq, s[..i]) + s[i..]
  }

  lemma CompressStep<D>(eq: Comparison<D>, s: seq<Entry<D>>, i: nat, cur: nat, nodes: seq<Entry<D>>)
    requires Compressing(eq, s, i, cur, nodes) && cur != |nodes|
    ensures i < |s| && 1 <= cur < |nodes|
    ensures if eq(nodes[cur], nodes[cur - 1]) then Compressing(eq, s, i + 1, cur, nodes[..cur] + nodes[cur + 1..])
            else Compressing(eq, s, i + 1, cur + 1, nodes)
  {
    var d, rest := Destutter(eq, s[..i]), s[i + 1..];
    assert s[i..] == [s[i]] + rest;
    DestutterStep(eq, s, i);
    hide Destutter;
    assert nodes[cur] == s[i] && nodes[cur - 1] == d[cur - 1];
    assert nodes[..cur] == d && nodes[cur + 1..] == rest;
    assert nodes == (d + [s[i]]) + rest;
  }

  lemma DestutterStep<D>(eq: Comparison<D>, s: seq<Entry<D>>, i: nat)
    requires 1 <= i < |s|
    ensures var d := Destutter(eq, s[..i]);
            && d != []
            && Destutter(eq, s[..i + 1]) == if eq(s[i], d[|d| - 1]) then d else d + [s[i]]
  {
    assert s[..i + 1][..i] == s[..i];
  }

  lemma CompressDone<D>(eq: Comparison<D>, s: seq<Entry<D>>, i: nat, nodes: seq<Entry<D>>)
    requires Compressing(eq, s, i, |nodes|, nodes)
    ensures nodes == Destutter(eq, s)
  {
    assert s[..i] == s;
  }

  class LoggerObject<D> {
    const isEqual: Comparison<D>
    var curState: State
    var sleepFramesLeft: nat
    var activeStamp: string
    var nodes: seq<Entry<D>>
    var nextSample: nat
    ghost var shown: seq<D>

    ghost function View(): Logger<D>
      reads this
    {
      Logger(curState, sleepFramesLeft, activeStamp, nodes, nextSample, shown)
    }

    constructor (isEqual: Comparison<D>)
      ensures this.isEqual == isEqual && View() == Logger(Inactive, 0, "", [], 0, [])
      ensures Inv(View())
    {
      this.isEqual := isEqual;
      curState, sleepFramesLeft, activeStamp, nodes, nextSample, shown := Inactive, 0, "", [], 0, [];
    }

    method Process(f: Frame<D>)
      requires !PlayTrips(View())
      modifies this
      ensures View() == InputLog.Process(isEqual, old(View()), f)
    {
      if sleepFramesLeft == 0 {
        if curState != Playing {
          if f.startStop {
            if curState == Recording {
              StopRecording();
            } else {
              StartRecording();
            }
          } else if f.stamp && curState == Recording {
            StampRecord(f.id);
          }
        }
        if curState == Recording {
          AddRecordingSample(f.devices);
        } else if curState == Playing {
          PlayNextSample();
        }
      } else {
        sleepFramesLeft := sleepFramesLeft - 1;
      }
    }

    method StartRecording()
      modifies this
      ensures View() == old(View()).(state := Recording, log := [])
    {
      nodes := [];
      curState := Recording;
    }

    method StopRecording()
      modifies this
      ensures View() == InputLog.StopRecording(isEqual, old(View()))
    {
      CompressSamples();
      curState := Inactive;
      sleepFramesLeft := SLEEP_FRAMES;
    }

    method StampRecord(id: string)
      requires curState == Recording
      modifies this
      ensures View() == old(View()).(log := old(nodes) + [Stamp(id)])
    {
      nodes := nodes + [Stamp(id)];
    }

    method AddRecordingSample(devices: D)
      modifies this
      ensures View() == old(View()).(log := old(nodes) + [Sample(devices)])
    {
      nodes := nodes + [Sample(devices)];
    }

    method Load(log: seq<Entry<D>>)
      requires curState == Inactive
      modifies this
      ensures View() == old(View()).(log := log)
    {
      nodes := log;
    }

    method Play()
      requires curState == Inactive
      modifies this
      ensures View() == StartPlaying(old(View()))
    {
      nextSample := 0;
      activeStamp := "";
      if nextSample == |nodes| {
        return;
      }
      curState := Playing;
    }

    method PlayNextSample()
      requires nextSample < |nodes| && nodes[nextSample].Sample?
      modifies this
      ensures View() == PlayNext(old(View()))
    {
      shown := shown + [nodes[nextSample].data];
      nextSample := nextSample + 1;
      activeStamp := "";
      if nextSample != |nodes| {
        if nodes[nextSample].Stamp? {
          activeStamp := nodes[nextSample].id;
          nextSample := nextSample + 1;
        }
      }
      if nextSample == |nodes| {
        curState := Inactive;
        sleepFramesLeft := SLEEP_FRAMES;
      }
    }

    // Erases every node that equals the one now before it.
    method CompressSamples()
      modifies this
      ensures View() == old(View()).(log := Destutter(isEqual, old(nodes)))
    {
      var cur := 0;
      if |nodes| == cur {
        return;
      }
      cur := cur + 1;
      ghost var i := 1;
      assert Compressing(isEqual, nodes, i, cur, nodes);
      while cur != |nodes|
        invariant i <= |old(nodes)| && Compressing(isEqual, old(nodes), i, cur, nodes)
        invariant View() == old(View()).(log := nodes)
        decreases |old(nodes)| - i
      {
        CompressStep(isEqual, old(nodes), i, cur, nodes);
        if isEqual(nodes[cur], nodes[cur - 1]) {
          nodes := nodes[..cur] + nodes[cur + 1..];
        } else {
          cur := cur + 1;
        }
        assert i + 1 <= |old(nodes)|;
        i := i + 1;
      }
      CompressDone(isEqual, old(nodes), i, nodes);
    }
  }
}
