/** The reports of the reactor as updateAllNodes receives them: which nodes they name, and when that ends a call. */
module ReactorReports {
  import opened Reactor
  import opened NetworkNodes
  import opened NetworkWait
  import opened NetworkCalls

  // How one select ends: with events on some handles, with a TimeoutException, or with another IOException.
  datatype Selected = Events(handles: set<int>) | NoEvent | Raised

  // The reactor's table: every handle belongs to one of n nodes, and every node has exactly one handle.
  ghost predicate TableOf(handles: seq<int>, demux: map<int, nat>, n: nat) {
    && (forall h :: h in handles ==> h in demux && demux[h] < n)
    && (forall g, h :: g in handles && h in handles && demux[g] == demux[h] ==> g == h)
    && forall i :: 0 <= i < n ==> HasHandle(handles, demux, i)
  }

  ghost predicate HasHandle(handles: seq<int>, demux: map<int, nat>, i: nat) {
    exists h :: h in handles && h in demux && demux[h] == i
  }

  // What getReadyNodes yields for it.
  function ReportOf(handles: seq<int>, demux: map<int, nat>, s: Selected): Report
    requires forall h :: h in handles ==> h in demux
  {
    match s
    case Events(events) => Arrived(Ready(handles, demux, events))
    case NoEvent => TimedOut
    case Raised => Failed
  }

  function ReportsOf(handles: seq<int>, demux: map<int, nat>, ss: seq<Selected>): (reports: seq<Report>)
    requires forall h :: h in handles ==> h in demux
    ensures |reports| == |ss| && forall q :: 0 <= q < |ss| ==> reports[q] == ReportOf(handles, demux, ss[q])
  {
    seq(|ss|, q requires 0 <= q < |ss| => ReportOf(handles, demux, ss[q]))
  }

  lemma {:induction false} ReadyWithin(handles: seq<int>, demux: map<int, nat>, events: set<int>, n: nat)
    requires forall h :: h in handles ==> h in demux && demux[h] < n
    ensures Within(Ready(handles, demux, events), n)
    decreases |handles|
  {
    if handles != [] {
      ReadyWithin(handles[..|handles| - 1], demux, events, n);
    }
  }

  // So the reports are ones updateAllNodes can be given.
  lemma ReportsKnown(handles: seq<int>, demux: map<int, nat>, ss: seq<Selected>, n: nat)
    requires forall h :: h in handles ==> h in demux && demux[h] < n
    ensures Known(ReportsOf(handles, demux, ss), n)
  {
    forall q | 0 <= q < |ss| && ss[q].Events? ensures Within(Ready(handles, demux, ss[q].handles), n) {
      ReadyWithin(handles, demux, ss[q].handles, n);
    }
  }

  ghost predicate HadEvent(ss: seq<Selected>, h: int) {
    exists q :: 0 <= q < |ss| && ss[q].Events? && h in ss[q].handles
  }

  // A node is visited if and only if its own handle has had an event; time-outs only visit again.
  lemma {:induction false} VisitedIff(handles: seq<int>, demux: map<int, nat>, ss: seq<Selected>, n: nat, h: int)
    requires TableOf(handles, demux, n) && h in handles
    ensures var reports := ReportsOf(handles, demux, ss);
            && (demux[h] in Scanned(reports) <==> HadEvent(ss, h))
            && (demux[h] in ReadyNodes(reports) ==> HadEvent(ss, h))
    decreases |ss|
  {
    hide Ready;
    var reports := ReportsOf(handles, demux, ss);
    if ss != [] {
      var m := |ss| - 1;
      VisitedIff(handles, demux, ss[..m], n, h);
      assert reports[..m] == ReportsOf(handles, demux, ss[..m]);
      assert HadEvent(ss, h) <==> HadEvent(ss[..m], h) || (ss[m].Events? && h in ss[m].handles);
      if ss[m].Events? {
        ReportedIff(handles, demux, ss[m].handles, h);
      }
    }
  }

  ghost predicate EachHadEvent(handles: seq<int>, ss: seq<Selected>) {
    forall h :: h in handles ==> HadEvent(ss, h)
  }

  // Every watched handle has had an event before a select raises.
  ghost predicate AllHadEvents(handles: seq<int>, ss: seq<Selected>) {
    exists r :: 0 <= r <= |ss| && (forall q :: 0 <= q < r ==> !ss[q].Raised?) && EachHadEvent(handles, ss[..r])
  }

  lemma CoveredIff(handles: seq<int>, demux: map<int, nat>, ss: seq<Selected>, n: nat)
    requires TableOf(handles, demux, n)
    ensures Covers(Scanned(ReportsOf(handles, demux, ss)), n) <==> EachHadEvent(handles, ss)
  {
    hide Scanned, HadEvent, Ready;
    var seen := Scanned(ReportsOf(handles, demux, ss));
    forall h | h in handles ensures demux[h] in seen <==> HadEvent(ss, h) {
      VisitedIff(handles, demux, ss, n, h);
    }
    if EachHadEvent(handles, ss) {
      forall i | 0 <= i < n ensures i in seen {
        assert HasHandle(handles, demux, i);
        var h :| h in handles && h in demux && demux[h] == i;
        assert HadEvent(ss, h);
      }
    }
  }

  lemma ReportedIffEvents(handles: seq<int>, demux: map<int, nat>, ss: seq<Selected>, n: nat)
    requires TableOf(handles, demux, n)
    ensures AllReported(n, ReportsOf(handles, demux, ss)) <==> AllHadEvents(handles, ss)
  {
    hide Scanned, EachHadEvent, Covers, Ready;
    var reports := ReportsOf(handles, demux, ss);
    forall r | 0 <= r <= |ss|
      ensures NoFailure(reports[..r]) <==> forall q :: 0 <= q < r ==> !ss[q].Raised?
      ensures Covers(Scanned(reports[..r]), n) <==> EachHadEvent(handles, ss[..r])
    {
      assert reports[..r] == ReportsOf(handles, demux, ss[..r]);
      CoveredIff(handles, demux, ss[..r], n);
    }
  }

  // In a sound cluster every call returns if and only if every node's socket becomes readable before a select raises.
  lemma CallsReturnIff(nodes: seq<NodeState>, temp: int, handles: seq<int>, demux: map<int, nat>, ss: seq<Selected>,
                       asserts: bool)
    requires AllSound(nodes) && TableOf(handles, demux, |nodes|)
    ensures var reports := ReportsOf(handles, demux, ss);
            && Known(reports, |nodes|)
            && (Updated(nodes, temp, reports, asserts).end.Finished? <==> AllHadEvents(handles, ss))
            && (MasterBarrier(nodes, reports, asserts).end.Finished? <==> AllHadEvents(handles, ss))
            && (SlaveBarrier(nodes, reports, asserts).end.Finished? <==> AllHadEvents(handles, ss))
  {
    hide AllSound, AllReported, AllHadEvents, Updated, MasterBarrier, SlaveBarrier, Known;
    var reports := ReportsOf(handles, demux, ss);
    ReportsKnown(handles, demux, ss, |nodes|);
    ReportedIffEvents(handles, demux, ss, |nodes|);
    UpdateOfSound(nodes, temp, reports, asserts);
    MasterOfSound(nodes, reports, asserts);
    SlaveOfSound(nodes, reports, asserts);
  }
}
