/** The version 1 UUID generator of leach-uuid: field packing, saved state, and what a run of calls yields. */
module UuidV1 {
  import opened VprTypes

  const UUIDS_PER_TICK := 1024
  const TIME_RANGE := 0x1000_0000_0000_0000
  const SEQUENCE_RANGE := 0x4000
  const SAVE_INTERVAL := 10 * 10 * 1000 * 1000

  // nodeID, six bytes read as one number.
  type Node = x: int | 0 <= x < UINT16 * UINT32

  datatype Uuid = Uuid(timeLow: Uint32, timeMid: Uint16, timeHiAndVersion: Uint16,
                       clockSeqHiAndReserved: Uint8, clockSeqLow: Uint8, node: Node)

  // format_uuid_v1: the masks and shifts as arithmetic.
  function Format(clockSeq: Uint16, timestamp: Uint64, node: Node): Uuid {
    Uuid(timestamp % UINT32, timestamp / UINT32 % UINT16, timestamp / (UINT32 * UINT16) % 0x1000 + 0x1000,
         clockSeq / 0x100 % 0x40 + 0x80, clockSeq % 0x100, node)
  }

  // Time, clock sequence and node can be read off a UUID, and it is marked as version 1
  // of the variant of RFC 4122 (sections 4.1.1 to 4.1.5).
  lemma FieldsBack(c: Uint16, t: Uint64, node: Node)
    ensures var u := Format(c, t, node);
            && u.timeLow + UINT32 * u.timeMid + UINT32 * UINT16 * (u.timeHiAndVersion % 0x1000) == t % TIME_RANGE
            && u.clockSeqLow as int + 0x100 * (u.clockSeqHiAndReserved % 0x40) == c % SEQUENCE_RANGE
            && u.node == node
            && u.timeHiAndVersion / 0x1000 == 1 && u.clockSeqHiAndReserved / 0x40 == 2
  {
    TimeFields(t);
    SequenceFields(c);
  }

  // uuid_compare: the first field that differs decides.
  function Compare(u: Uuid, v: Uuid): int {
    if u.timeLow != v.timeLow then Sign(u.timeLow, v.timeLow)
    else if u.timeMid != v.timeMid then Sign(u.timeMid, v.timeMid)
    else if u.timeHiAndVersion != v.timeHiAndVersion then Sign(u.timeHiAndVersion, v.timeHiAndVersion)
    else if u.clockSeqHiAndReserved != v.clockSeqHiAndReserved then
      Sign(u.clockSeqHiAndReserved, v.clockSeqHiAndReserved)
    else if u.clockSeqLow != v.clockSeqLow then Sign(u.clockSeqLow, v.clockSeqLow)
    else Sign(u.node, v.node)
  }

  function Sign(x: int, y: int): int {
    if x < y then -1 else if x > y then 1 else 0
  }

  lemma CompareIsTotalOrder(u: Uuid, v: Uuid, w: Uuid)
    ensures Compare(u, v) == 0 <==> u == v
    ensures Compare(u, v) == -Compare(v, u)
    ensures Compare(u, v) <= 0 && Compare(v, w) <= 0 ==> Compare(u, w) <= 0
  {}

  // The UUID as a number of 128 bits, its fields in the order they are declared in.
  function Number(u: Uuid): nat {
    ((((u.timeLow * UINT16 + u.timeMid) * UINT16 + u.timeHiAndVersion) * 0x100 + u.clockSeqHiAndReserved) * 0x100
     + u.clockSeqLow) * (UINT16 * UINT32) + u.node
  }

  // The result says which of the two numbers is the smaller one.
  lemma CompareIsNumeric(u: Uuid, v: Uuid)
    ensures Compare(u, v) == if Number(u) < Number(v) then -1 else if Number(u) > Number(v) then 1 else 0
  {}

  // The fields carry the low 60 bits of the time and the low 14 bits of the clock sequence, and no more.
  lemma FormatInjective(c: Uint16, t: Uint64, d: Uint16, u: Uint64, node: Node)
    ensures Format(c, t, node) == Format(d, u, node) <==>
            t % TIME_RANGE == u % TIME_RANGE && c % SEQUENCE_RANGE == d % SEQUENCE_RANGE
  {
    TimeFields(t);
    TimeFields(u);
    SequenceFields(c);
    SequenceFields(d);
    SameDigits(t % UINT32, t / UINT32 % UINT16, t / (UINT32 * UINT16) % 0x1000,
               u % UINT32, u / UINT32 % UINT16, u / (UINT32 * UINT16) % 0x1000);
  }

  lemma SameDigits(a: Uint32, b: Uint16, c: int, a': Uint32, b': Uint16, c': int)
    ensures a + UINT32 * b + UINT32 * UINT16 * c == a' + UINT32 * b' + UINT32 * UINT16 * c' <==>
            a == a' && b == b' && c == c'
  {}

  lemma TimeFields(t: Uint64)
    ensures t % TIME_RANGE ==
            t % UINT32 + UINT32 * (t / UINT32 % UINT16) + UINT32 * UINT16 * (t / (UINT32 * UINT16) % 0x1000)
  {
    assert t / UINT32 / UINT16 == t / (UINT32 * UINT16);
    assert t / UINT32 / UINT16 / 0x1000 == t / TIME_RANGE;
  }

  lemma SequenceFields(c: Uint16)
    ensures c % SEQUENCE_RANGE == c % 0x100 + 0x100 * (c / 0x100 % 0x40)
  {}

  // ---- One call ----

  datatype Saved = Saved(time: Uint64, node: Node, clockSeq: Uint16)

  datatype File = Missing | Holding(saved: Saved)

  // The static variables of the module, and the state file. Each function has its own "inited".
  datatype Generator = Generator(state: Saved, read: bool, file: File, saving: bool, nextSave: Uint64)

  datatype Loaded = Loaded(found: bool, generator: Generator)

  function ReadState(g: Generator): Loaded {
    if g.read then Loaded(true, g)
    else if g.file.Missing? then Loaded(false, g)
    else Loaded(true, g.(state := g.file.saved, read := true))
  }

  function WriteState(g: Generator, s: Saved): Generator {
    var nextSave := if g.saving then g.nextSave else s.time;
    var h := g.(state := s, saving := true, nextSave := nextSave);
    if s.time >= nextSave then h.(file := Holding(s), nextSave := (s.time + SAVE_INTERVAL) % UINT64) else h
  }

  // The clock sequence for this call; random is the next value of true_random.
  function ClockSeq(l: Loaded, time: Uint64, node: Node, random: Uint16): Uint16 {
    if !l.found || node != l.generator.state.node then random
    else if time < l.generator.state.time then (l.generator.state.clockSeq + 1) % UINT16
    else l.generator.state.clockSeq
  }

  function Create(g: Generator, time: Uint64, node: Node, random: Uint16): (Generator, Uuid) {
    var l := ReadState(g);
    var clockSeq := ClockSeq(l, time, node, random);
    (WriteState(l.generator, Saved(time, node, clockSeq)), Format(clockSeq, time, node))
  }

  // ---- A run of calls in one process ----

  datatype Call = Call(time: Uint64, random: Uint16)

  function After(g: Generator, node: Node, calls: seq<Call>): Generator
    decreases |calls|
  {
    if calls == [] then g
    else
      var c := calls[|calls| - 1];
      Create(After(g, node, calls[..|calls| - 1]), c.time, node, c.random).0
  }

  // The UUID that call i returns.
  function UuidAt(g: Generator, node: Node, calls: seq<Call>, i: nat): Uuid
    requires i < |calls|
  {
    Create(After(g, node, calls[..i]), calls[i].time, node, calls[i].random).1
  }

  // How often the clock went backwards after call i and up to call j.
  function BackSteps(calls: seq<Call>, i: nat, j: nat): (n: nat)
    requires i <= j < |calls|
    ensures n <= j - i
  {
    if i == j then 0
    else BackSteps(calls, i, j - 1) + if calls[j].time < calls[j - 1].time then 1 else 0
  }

  // The state a process is in after its first call, whatever file there was.
  predicate Running(g: Generator, node: Node) {
    g.state.node == node && g.saving && (g.read || g.file == Holding(g.state))
  }

  lemma FirstCall(g: Generator, node: Node, c: Call)
    requires !g.saving && !g.read
    ensures var h := Create(g, c.time, node, c.random).0; Running(h, node) && h.state.time == c.time
  {}

  // The clock sequence of the first call: the saved one, one further if the clock is behind the saved time;
  // a random one if nothing was saved, or by another node.
  lemma FirstSequence(g: Generator, node: Node, c: Call)
    requires !g.saving && !g.read
    ensures Create(g, c.time, node, c.random).0.state.clockSeq ==
              if g.file.Holding? && g.file.saved.node == node then
                (g.file.saved.clockSeq + if c.time < g.file.saved.time then 1 else 0) % UINT16
              else c.random
  {}

  lemma NextCall(g: Generator, node: Node, c: Call)
    requires Running(g, node)
    ensures var h := Create(g, c.time, node, c.random).0;
            && Running(h, node) && h.state.time == c.time
            && h.state.clockSeq == (g.state.clockSeq + if c.time < g.state.time then 1 else 0) % UINT16
  {}

  // After any number of calls the clock sequence has advanced once for every step back, modulo 2^16.
  lemma {:induction false} SequenceCountsBackSteps(g: Generator, node: Node, calls: seq<Call>, i: nat, j: nat)
    requires !g.saving && !g.read && i <= j < |calls|
    ensures var a, b := After(g, node, calls[..i + 1]), After(g, node, calls[..j + 1]);
            && Running(b, node) && b.state.time == calls[j].time
            && b.state.clockSeq == (a.state.clockSeq + BackSteps(calls, i, j)) % UINT16
    decreases j
  {
    hide After, Create, Running;
    AfterCall(g, node, calls, j);
    if j == 0 {
      FirstCall(g, node, calls[0]);
    } else if i == j {
      SequenceCountsBackSteps(g, node, calls, j - 1, j - 1);
      NextCall(After(g, node, calls[..j]), node, calls[j]);
    } else {
      SequenceCountsBackSteps(g, node, calls, i, j - 1);
      NextCall(After(g, node, calls[..j]), node, calls[j]);
      var a, n := After(g, node, calls[..i + 1]).state.clockSeq, BackSteps(calls, i, j - 1);
      AddAgain(a, n, BackSteps(calls, i, j) - n);
    }
  }

  lemma AddAgain(a: int, n: int, d: int)
    ensures ((a + n) % UINT16 + d) % UINT16 == (a + (n + d)) % UINT16
  {}

  lemma AfterCall(g: Generator, node: Node, calls: seq<Call>, j: nat)
    requires j < |calls|
    ensures After(g, node, calls[..j + 1]) == Create(After(g, node, calls[..j]), calls[j].time, node, calls[j].random).0
    ensures j == 0 ==> After(g, node, calls[..j]) == g
  {
    assert calls[..j + 1][..j] == calls[..j];
  }

  lemma UuidIsFormatted(g: Generator, node: Node, calls: seq<Call>, i: nat)
    requires i < |calls|
    ensures UuidAt(g, node, calls, i) == Format(After(g, node, calls[..i + 1]).state.clockSeq, calls[i].time, node)
  {
    assert calls[..i + 1][..i] == calls[..i];
  }

  // Exactly when two calls of one process return the same UUID, for any clock readings at all.
  lemma SameUuidIff(g: Generator, node: Node, calls: seq<Call>, i: nat, j: nat)
    requires !g.saving && !g.read && i <= j < |calls|
    ensures UuidAt(g, node, calls, i) == UuidAt(g, node, calls, j) <==>
            calls[i].time % TIME_RANGE == calls[j].time % TIME_RANGE && BackSteps(calls, i, j) % SEQUENCE_RANGE == 0
  {
    hide After, Create, UuidAt, Format, BackSteps, Running;
    var a := After(g, node, calls[..i + 1]).state.clockSeq;
    var b := After(g, node, calls[..j + 1]).state.clockSeq;
    UuidIsFormatted(g, node, calls, i);
    UuidIsFormatted(g, node, calls, j);
    SequenceCountsBackSteps(g, node, calls, i, j);
    FormatInjective(a, calls[i].time, b, calls[j].time, node);
    SequenceDistance(a, BackSteps(calls, i, j));
  }

  lemma SequenceDistance(a: Uint16, n: nat)
    ensures a % SEQUENCE_RANGE == (a + n) % UINT16 % SEQUENCE_RANGE <==> n % SEQUENCE_RANGE == 0
  {
    assert (a + n) % UINT16 % SEQUENCE_RANGE == (a + n) % SEQUENCE_RANGE;
  }

  // Without a step back, times that differ from call to call only grow.
  lemma {:induction false} TimesGrow(calls: seq<Call>, i: nat, j: nat)
    requires i < j < |calls| && BackSteps(calls, i, j) == 0
    requires forall k :: 0 < k < |calls| ==> calls[k].time != calls[k - 1].time
    ensures calls[i].time < calls[j].time
    decreases j
  {
    if i < j - 1 {
      TimesGrow(calls, i, j - 1);
    }
  }

  // Fewer than 2^14 steps back, readings below 2^60 that change between calls: all UUIDs differ.
  lemma AllDistinct(g: Generator, node: Node, calls: seq<Call>)
    requires !g.saving && !g.read
    requires forall k :: 0 <= k < |calls| ==> calls[k].time < TIME_RANGE
    requires forall k :: 0 < k < |calls| ==> calls[k].time != calls[k - 1].time
    requires calls != [] ==> BackSteps(calls, 0, |calls| - 1) < SEQUENCE_RANGE
    ensures forall i, j :: 0 <= i < j < |calls| ==> UuidAt(g, node, calls, i) != UuidAt(g, node, calls, j)
  {
    hide UuidAt;
    forall i, j | 0 <= i < j < |calls| ensures UuidAt(g, node, calls, i) != UuidAt(g, node, calls, j) {
      SameUuidIff(g, node, calls, i, j);
      BackStepsInside(calls, i, j);
      if BackSteps(calls, i, j) == 0 {
        TimesGrow(calls, i, j);
      }
    }
  }

  lemma {:induction false} BackStepsSplit(calls: seq<Call>, i: nat, j: nat, k: nat)
    requires i <= j <= k < |calls|
    ensures BackSteps(calls, i, k) == BackSteps(calls, i, j) + BackSteps(calls, j, k)
    decreases k
  {
    if j < k {
      BackStepsSplit(calls, i, j, k - 1);
    }
  }

  lemma BackStepsInside(calls: seq<Call>, i: nat, j: nat)
    requires i <= j < |calls|
    ensures BackSteps(calls, i, j) <= BackSteps(calls, 0, |calls| - 1)
  {
    BackStepsSplit(calls, 0, i, |calls| - 1);
    BackStepsSplit(calls, i, j, |calls| - 1);
  }

  // The counter meant for repeated readings never helps: reading the clock twice at the same time
  // gives the same UUID twice.
  lemma RepeatedReadingCollides(g: Generator, node: Node, calls: seq<Call>, i: nat)
    requires !g.saving && !g.read && i + 1 < |calls| && calls[i].time == calls[i + 1].time
    ensures UuidAt(g, node, calls, i) == UuidAt(g, node, calls, i + 1)
  {
    SameUuidIff(g, node, calls, i, i + 1);
    assert BackSteps(calls, i, i) == 0;
  }

  // ---- The state file, and a process started after another one ----

  lemma FirstSave(g: Generator, node: Node, c: Call)
    requires !g.saving && !g.read
    ensures var h := Create(g, c.time, node, c.random).0;
            h.file == Holding(h.state) && h.nextSave == (c.time + 100_000_000) % UINT64
  {}

  lemma NextSave(g: Generator, node: Node, c: Call)
    requires Running(g, node)
    ensures var h := Create(g, c.time, node, c.random).0;
            if c.time >= g.nextSave then h.file == Holding(h.state) && h.nextSave == (c.time + 100_000_000) % UINT64
            else h.file == g.file && h.nextSave == g.nextSave
  {}

  // The file holds the state after one of the calls, and all later ones came less than ten seconds after that one.
  lemma {:induction false} LastSave(g: Generator, node: Node, calls: seq<Call>) returns (k: nat)
    requires !g.saving && !g.read && calls != []
    requires forall i :: 0 <= i < |calls| ==> calls[i].time + 100_000_000 < UINT64
    ensures k < |calls| && After(g, node, calls).file == Holding(After(g, node, calls[..k + 1]).state)
    ensures forall i :: k < i < |calls| ==> calls[i].time < calls[k].time + 100_000_000
    ensures After(g, node, calls).nextSave == calls[k].time + 100_000_000
    decreases |calls|
  {
    hide Create, Running;
    var n := |calls| - 1;
    AfterCall(g, node, calls, n);
    assert calls[..n + 1] == calls;
    if n == 0 {
      FirstSave(g, node, calls[0]);
      k := 0;
    } else {
      k := LastSave(g, node, calls[..n]);
      assert calls[..n][..k + 1] == calls[..k + 1];
      SequenceCountsBackSteps(g, node, calls, n - 1, n - 1);
      NextSave(After(g, node, calls[..n]), node, calls[n]);
      if calls[n].time >= After(g, node, calls[..n]).nextSave {
        k := n;
      }
    }
  }

  // A process that finds the state after call k of an earlier one goes on as that one would have.
  lemma {:induction false} RestartContinues(g: Generator, h: Generator, node: Node, calls: seq<Call>, later: seq<Call>,
                                            j: nat)
    requires !g.saving && !g.read && !h.saving && !h.read && calls != [] && j < |later|
    requires h.file == Holding(After(g, node, calls).state)
    ensures After(h, node, later[..j + 1]).state == After(g, node, calls + later[..j + 1]).state
    decreases j
  {
    hide Create, Running;
    var n := |calls|;
    var all := calls + later[..j + 1];
    assert all[..n + j] == calls + later[..j] && all[..n + j + 1] == all;
    AfterCall(h, node, later, j);
    AfterCall(g, node, all, n + j);
    SequenceCountsBackSteps(g, node, all, n + j - 1, n + j - 1);
    assert all[..n + j - 1 + 1] == all[..n + j];
    NextCall(After(g, node, all[..n + j]), node, later[j]);
    SameNode(g, node, all, n + j);
    if j == 0 {
      assert calls + later[..0] == calls;
      FirstCall(h, node, later[0]);
      FirstSequence(h, node, later[0]);
      RunningNode(After(h, node, later[..1]), node);
      SameNode(g, node, calls, n - 1);
      assert calls[..n] == calls;
    } else {
      RestartContinues(g, h, node, calls, later, j - 1);
      SequenceCountsBackSteps(h, node, later, j - 1, j - 1);
      NextCall(After(h, node, later[..j]), node, later[j]);
      RunningNode(After(h, node, later[..j + 1]), node);
    }
  }

  lemma RunningNode(g: Generator, node: Node)
    requires Running(g, node)
    ensures g.state == Saved(g.state.time, node, g.state.clockSeq)
  {}

  lemma SameNode(g: Generator, node: Node, calls: seq<Call>, i: nat)
    requires !g.saving && !g.read && i < |calls|
    ensures var s := After(g, node, calls[..i + 1]).state; s == Saved(calls[i].time, node, s.clockSeq)
  {
    SequenceCountsBackSteps(g, node, calls, i, i);
  }

  // So the UUIDs of both are those of one run through all the calls.
  lemma {:induction false} RestartIsOneRun(g: Generator, h: Generator, node: Node, calls: seq<Call>, later: seq<Call>,
                                           j: nat)
    requires !g.saving && !g.read && !h.saving && !h.read && calls != [] && j < |later|
    requires h.file == Holding(After(g, node, calls).state)
    ensures UuidAt(h, node, later, j) == UuidAt(g, node, calls + later, |calls| + j)
  {
    hide After, Create, UuidAt, Format;
    var all := calls + later;
    assert all[..|calls| + j + 1] == calls + later[..j + 1] && all[|calls| + j] == later[j];
    RestartContinues(g, h, node, calls, later, j);
    UuidIsFormatted(h, node, later, j);
    UuidIsFormatted(g, node, all, |calls| + j);
  }

  lemma SameCallSameUuid(g: Generator, node: Node, calls: seq<Call>, more: seq<Call>, i: nat)
    requires i < |calls|
    ensures UuidAt(g, node, calls + more, i) == UuidAt(g, node, calls, i)
  {
    assert (calls + more)[..i] == calls[..i];
  }

  // If the earlier process saved its last call, the bound on the steps back holds for both together.
  lemma DistinctAcrossRestart(g: Generator, h: Generator, node: Node, calls: seq<Call>, later: seq<Call>)
    requires !g.saving && !g.read && !h.saving && !h.read && calls != []
    requires h.file == Holding(After(g, node, calls).state)
    requires var all := calls + later;
             && (forall k :: 0 <= k < |all| ==> all[k].time < TIME_RANGE)
             && (forall k :: 0 < k < |all| ==> all[k].time != all[k - 1].time)
             && BackSteps(all, 0, |all| - 1) < SEQUENCE_RANGE
    ensures forall i, j :: 0 <= i < |calls| && 0 <= j < |later| ==>
              UuidAt(g, node, calls, i) != UuidAt(h, node, later, j)
  {
    hide UuidAt, After, BackSteps;
    var all := calls + later;
    AllDistinct(g, node, all);
    forall i, j | 0 <= i < |calls| && 0 <= j < |later|
      ensures UuidAt(g, node, calls, i) != UuidAt(h, node, later, j)
    {
      RestartIsOneRun(g, h, node, calls, later, j);
      SameCallSameUuid(g, node, calls, later, i);
      assert UuidAt(g, node, all, i) != UuidAt(g, node, all, |calls| + j);
    }
  }

  // In general the file holds an earlier call k, and what came after it is forgotten. Exactly then a later process
  // repeats a UUID of the forgotten calls: the times agree, and so do the steps back since call k.
  lemma RestartRepeatsIff(g: Generator, h: Generator, node: Node, calls: seq<Call>, later: seq<Call>,
                          k: nat, i: nat, j: nat)
    requires !g.saving && !g.read && !h.saving && !h.read && k <= i < |calls| && j < |later|
    requires h.file == Holding(After(g, node, calls[..k + 1]).state)
    ensures UuidAt(g, node, calls, i) == UuidAt(h, node, later, j) <==>
              && calls[i].time % TIME_RANGE == later[j].time % TIME_RANGE
              && (BackSteps(calls, k, i) - BackSteps([calls[k]] + later, 0, j + 1)) % SEQUENCE_RANGE == 0
  {
    hide After, Create, UuidAt, Format, BackSteps, Running;
    var known := calls[..k + 1];
    var all := known + later;
    RestartContinues(g, h, node, known, later, j);
    UuidIsFormatted(g, node, calls, i);
    UuidIsFormatted(h, node, later, j);
    SequenceCountsBackSteps(g, node, calls, k, i);
    SequenceCountsBackSteps(g, node, all, k, k + 1 + j);
    assert all[..k + 1] == known && all[..k + 1 + j + 1] == known + later[..j + 1];
    BackStepsFrom(all, k, [calls[k]] + later, j + 1);
    var a := After(g, node, known).state.clockSeq;
    var m, n := BackSteps(calls, k, i), BackSteps(all, k, k + 1 + j);
    FormatInjective((a + m) % UINT16, calls[i].time, (a + n) % UINT16, later[j].time, node);
    SequencesAgree(a, m, n);
  }

  lemma SequencesAgree(a: nat, m: nat, n: nat)
    ensures (a + m) % UINT16 % SEQUENCE_RANGE == (a + n) % UINT16 % SEQUENCE_RANGE <==> (m - n) % SEQUENCE_RANGE == 0
  {
    LowBits(a + m);
    LowBits(a + n);
    SameLowBits(a + m, a + n);
  }

  lemma LowBits(x: nat)
    ensures x % UINT16 % SEQUENCE_RANGE == x % SEQUENCE_RANGE
  {
    assert x == SEQUENCE_RANGE * (4 * (x / UINT16)) + x % UINT16;
  }

  lemma SameLowBits(x: nat, y: nat)
    ensures x % SEQUENCE_RANGE == y % SEQUENCE_RANGE <==> (x - y) % SEQUENCE_RANGE == 0
  {
    var r, q := x % SEQUENCE_RANGE, y % SEQUENCE_RANGE;
    assert x - y == SEQUENCE_RANGE * (x / SEQUENCE_RANGE - y / SEQUENCE_RANGE) + (r - q);
  }

  lemma {:induction false} BackStepsFrom(calls: seq<Call>, k: nat, tail: seq<Call>, j: nat)
    requires k < |calls| && tail == calls[k..] && j < |tail|
    ensures BackSteps(calls, k, k + j) == BackSteps(tail, 0, j)
    decreases j
  {
    if j > 0 {
      BackStepsFrom(calls, k, tail, j - 1);
    }
  }
}
