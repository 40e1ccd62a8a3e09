/** gadget::Reactor: which nodes have something to read, from the selector's handles. */
module Reactor {

  // The nodes behind the handles that reported an event, in the selector's order.
  function Ready(handles: seq<int>, demux: map<int, nat>, events: set<int>): (nodes: seq<nat>)
    requires forall h :: h in handles ==> h in demux
  {
    if handles == [] then []
    else
      var h := handles[|handles| - 1];
      Ready(handles[..|handles| - 1], demux, events) + if h in events then [demux[h]] else []
  }

  // A node is reported if and only if its own handle has an event.
  lemma {:induction false} ReportedIff(handles: seq<int>, demux: map<int, nat>, events: set<int>, h: int)
    requires forall g :: g in handles ==> g in demux
    requires h in handles && forall g :: g in handles && demux[g] == demux[h] ==> g == h
    ensures demux[h] in Ready(handles, demux, events) <==> h in events
    decreases |handles|
  {
    var n := |handles| - 1;
    if h in handles[..n] {
      ReportedIff(handles[..n], demux, events, h);
    } else {
      assert handles[n] == h;
      NotReported(handles[..n], demux, events, demux[h]);
    }
  }

  lemma {:induction false} NotReported(handles: seq<int>, demux: map<int, nat>, events: set<int>, node: nat)
    requires forall g :: g in handles ==> g in demux && demux[g] != node
    ensures node !in Ready(handles, demux, events)
    decreases |handles|
  {
    if handles != [] {
      NotReported(handles[..|handles| - 1], demux, events, node);
    }
  }

  // The order of the report is the selector's.
  lemma {:induction false} ReadyInOrder(handles: seq<int>, more: seq<int>, demux: map<int, nat>, events: set<int>)
    requires forall h :: h in handles + more ==> h in demux
    ensures Ready(handles + more, demux, events) == Ready(handles, demux, events) + Ready(more, demux, events)
    decreases |more|
  {
    if more == [] {
      assert handles + more == handles;
    } else {
      var n := |more| - 1;
      assert (handles + more)[..|handles| + n] == handles + more[..n];
      ReadyInOrder(handles, more[..n], demux, events);
    }
  }

  lemma ReadyOne(h: int, demux: map<int, nat>, events: set<int>)
    requires h in demux
    ensures Ready([h], demux, events) == if h in events then [demux[h]] else []
  {
    assert [h][..0] == [];
  }

  predicate Distinct(nodes: seq<nat>) {
    forall i, j :: 0 <= i < j < |nodes| ==> nodes[i] != nodes[j]
  }

  // No node behind two handles: no report names a node twice.
  lemma {:induction false} ReportedOnce(handles: seq<int>, demux: map<int, nat>, events: set<int>)
    requires forall i :: 0 <= i < |handles| ==> handles[i] in demux
    requires forall i, j :: 0 <= i < j < |handles| ==> demux[handles[i]] != demux[handles[j]]
    ensures Distinct(Ready(handles, demux, events))
    decreases |handles|
  {
    if handles != [] {
      var n := |handles| - 1;
      ReportedOnce(handles[..n], demux, events);
      assert handles[n] in demux;
      NotReported(handles[..n], demux, events, demux[handles[n]]);
    }
  }

  predicate Different(handles: seq<int>) {
    forall i, j :: 0 <= i < j < |handles| ==> handles[i] != handles[j]
  }

  lemma ErasedOnce(handles: seq<int>, i: nat)
    requires Different(handles) && i < |handles|
    ensures var rest := handles[..i] + handles[i + 1..];
            Different(rest) && forall h :: h in rest <==> h in handles && h != handles[i]
  {
    var rest := handles[..i] + handles[i + 1..];
    forall h ensures h in rest <==> h in handles && h != handles[i] {
      if h in handles && h != handles[i] {
        var k :| 0 <= k < |handles| && handles[k] == h;
        assert h == if k < i then rest[k] else rest[k - 1];
      }
    }
  }

  class ReactorObject {
    var demuxTable: map<int, nat>
    var selector: seq<int>

    // The selector watches exactly the handles of the table, each once.
    ghost predicate Valid()
      reads this
    {
      && (forall h :: h in selector <==> h in demuxTable)
      && Different(selector)
    }

    constructor ()
      ensures Valid() && demuxTable == map[]
    {
      demuxTable, selector := map[], [];
    }

    method AddNode(handle: int, node: nat)
      requires Valid()
      modifies this
      ensures Valid()
      ensures demuxTable == if handle in old(demuxTable) then old(demuxTable) else old(demuxTable)[handle := node]
      ensures selector == if handle in old(demuxTable) then old(selector) else old(selector) + [handle]
    {
      if handle !in demuxTable {
        demuxTable := demuxTable[handle := node];
        selector := selector + [handle];
      }
    }

    method RemoveNode(handle: int)
      requires Valid()
      modifies this
      ensures Valid() && demuxTable == old(demuxTable) - {handle}
      ensures if handle !in old(demuxTable) then selector == old(selector)
              else exists i :: 0 <= i < |old(selector)| && old(selector)[i] == handle
                    && selector == old(selector)[..i] + old(selector)[i + 1..]
    {
      if handle in demuxTable {
        demuxTable := demuxTable - {handle};
        var i :| 0 <= i < |selector| && selector[i] == handle;
        ErasedOnce(selector, i);
        selector := selector[..i] + selector[i + 1..];
      } else {
        assert demuxTable - {handle} == demuxTable;
      }
    }

    // events are the handles for which select set an event mask; the call may also have timed out.
    method GetReadyNodes(numEvents: nat, events: set<int>) returns (readyNodes: seq<nat>)
      requires Valid()
      ensures readyNodes == if numEvents > 0 then Ready(selector, demuxTable, events) else []
    {
      readyNodes := [];
      if numEvents > 0 {
        var i := 0;
        while i < |selector|
          invariant 0 <= i <= |selector|
          invariant readyNodes == Ready(selector[..i], demuxTable, events)
        {
          var h := selector[i];
          if h in events {
            readyNodes := readyNodes + [demuxTable[h]];
          }
          assert selector[..i + 1][..i] == selector[..i];
          i := i + 1;
        }
        assert selector[..i] == selector;
      }
    }
  }
}
