/** gadget::InputLogger: a log of input samples and stamps, recorded, compressed and played back frame by frame. */
module InputLog {

  // One child of the root node. A sample holds the serialised devices.
  datatype Entry<D> = Sample(data: D) | Stamp(id: string)

  // Node::isEqual under the configured ignore lists.
  type Comparison<!D> = (Entry<D>, Entry<D>) -> bool

  ghost predicate Equivalence<D(!new)>(eq: Comparison<D>) {
    && (forall x :: eq(x, x))
    && (forall x, y :: eq(x, y) ==> eq(y, x) && (x.Sample? <==> y.Sample?))
    && (forall x, y, z :: eq(x, y) && eq(y, z) ==> eq(x, z))
  }

  lemma SameToBoth<D(!new)>(eq: Comparison<D>, x: Entry<D>, y: Entry<D>, e: Entry<D>)
    requires Equivalence(eq) && eq(y, e)
    ensures eq(x, y) == eq(x, e) && y.Sample? == e.Sample?
    ensures eq(x, e) ==> x.Sample? == e.Sample?
  {}

  // ---- Logs ----

  // What playback needs: samples, each with at most one stamp behind it.
  predicate WellFormed<D>(log: seq<Entry<D>>) {
    && (log != [] ==> log[0].Sample?)
    && forall i :: 0 <= i < |log| - 1 ==> log[i].Sample? || log[i + 1].Sample?
  }

  // What recording leaves behind after every frame.
  predicate Recorded<D>(log: seq<Entry<D>>) {
    log != [] && WellFormed(log) && log[|log| - 1].Sample?
  }

  function Samples<D>(log: seq<Entry<D>>): seq<D> {
    if log == [] then []
    else Samples(log[..|log| - 1]) + if log[|log| - 1].Sample? then [log[|log| - 1].data] else []
  }

  // ---- Compression ----

  // An entry equal to the last one kept is dropped.
  function Destutter<D>(eq: Comparison<D>, s: seq<Entry<D>>): (r: seq<Entry<D>>)
    ensures |r| <= |s| && (s != [] ==> r != [] && r[0] == s[0])
  {
    if |s| <= 1 then s
    else
      var d, x := Destutter(eq, s[..|s| - 1]), s[|s| - 1];
      if eq(x, d[|d| - 1]) then d else d + [x]
  }

  // For any comparison: an entry is kept unless it, as the first argument, equals the last one kept.
  lemma KeptUnlessEqual<D>(eq: Comparison<D>, s: seq<Entry<D>>, x: Entry<D>)
    ensures Destutter<D>(eq, []) == [] && Destutter(eq, [x]) == [x]
    ensures s != [] ==> var d := Destutter(eq, s);
                        Destutter(eq, s + [x]) == if eq(x, d[|d| - 1]) then d else d + [x]
  {
    assert (s + [x])[..|s|] == s;
  }

  // The entries that differ from their own predecessor in the log.
  function Changes<D>(eq: Comparison<D>, s: seq<Entry<D>>): seq<Entry<D>> {
    if |s| <= 1 then s
    else Changes(eq, s[..|s| - 1]) + if eq(s[|s| - 1], s[|s| - 2]) then [] else [s[|s| - 1]]
  }

  lemma {:induction false} LastIsEquivalent<D(!new)>(eq: Comparison<D>, s: seq<Entry<D>>)
    requires Equivalence(eq) && s != []
    ensures var d := Destutter(eq, s); eq(s[|s| - 1], d[|d| - 1])
  {}

  lemma {:induction false} DestutterIsChanges<D(!new)>(eq: Comparison<D>, s: seq<Entry<D>>)
    requires Equivalence(eq)
    ensures Destutter(eq, s) == Changes(eq, s)
    decreases |s|
  {
    if |s| > 1 {
      var t := s[..|s| - 1];
      var d := Destutter(eq, t);
      DestutterIsChanges(eq, t);
      LastIsEquivalent(eq, t);
      SameToBoth(eq, s[|s| - 1], s[|s| - 2], d[|d| - 1]);
      hide Equivalence;
    }
  }

  predicate StutterFree<D>(eq: Comparison<D>, s: seq<Entry<D>>) {
    forall i :: 0 < i < |s| ==> !eq(s[i], s[i - 1])
  }

  lemma {:induction false} NoStutterLeft<D>(eq: Comparison<D>, s: seq<Entry<D>>)
    ensures StutterFree(eq, Destutter(eq, s))
    decreases |s|
  {
    if |s| > 1 {
      NoStutterLeft(eq, s[..|s| - 1]);
    }
  }

  lemma {:induction false} NothingToDrop<D>(eq: Comparison<D>, s: seq<Entry<D>>)
    requires StutterFree(eq, s)
    ensures Destutter(eq, s) == s
    decreases |s|
  {
    if |s| > 1 {
      NothingToDrop(eq, s[..|s| - 1]);
      assert s == s[..|s| - 1] + [s[|s| - 1]];
    }
  }

  lemma {:induction false} DestutterIdempotent<D>(eq: Comparison<D>, s: seq<Entry<D>>)
    ensures Destutter(eq, Destutter(eq, s)) == Destutter(eq, s)
  {
    NoStutterLeft(eq, s);
    NothingToDrop(eq, Destutter(eq, s));
  }

  // Every stamp of a log with the entry it marks, the one right before it.
  function Marks<D>(s: seq<Entry<D>>): seq<(Entry<D>, Entry<D>)> {
    if |s| <= 1 then []
    else Marks(s[..|s| - 1]) + if s[|s| - 1].Stamp? then [(s[|s| - 2], s[|s| - 1])] else []
  }

  ghost predicate SameMarks<D>(eq: Comparison<D>, m: seq<(Entry<D>, Entry<D>)>, n: seq<(Entry<D>, Entry<D>)>) {
    && |m| == |n|
    && forall k :: 0 <= k < |m| ==> m[k].1 == n[k].1 && eq(m[k].0, n[k].0) && m[k].0.Sample? && n[k].0.Sample?
  }

  lemma MarksAppend<D>(s: seq<Entry<D>>, x: Entry<D>)
    requires s != []
    ensures x.Stamp? ==> Marks(s + [x]) == Marks(s) + [(s[|s| - 1], x)]
    ensures x.Sample? ==> Marks(s + [x]) == Marks(s)
  {
    var r := s + [x];
    assert r[..|r| - 1] == s && r[|r| - 2] == s[|s| - 1] && r[|r| - 1] == x;
  }

  lemma SameMarksAppend<D>(eq: Comparison<D>, m: seq<(Entry<D>, Entry<D>)>, n: seq<(Entry<D>, Entry<D>)>,
                           a: Entry<D>, b: Entry<D>, x: Entry<D>)
    requires SameMarks(eq, m, n) && eq(a, b) && a.Sample? && b.Sample?
    ensures SameMarks(eq, m + [(a, x)], n + [(b, x)])
  {}

  lemma WellFormedAppend<D>(s: seq<Entry<D>>, x: Entry<D>)
    requires s != []
    ensures WellFormed(s + [x]) <==> WellFormed(s) && (x.Sample? || s[|s| - 1].Sample?)
  {
    var r := s + [x];
    assert forall i :: 0 <= i < |s| ==> r[i] == s[i];
    assert r[|s| - 1] == s[|s| - 1] && r[|s|] == x;
  }

  // Compressing a well-formed log loses no stamp, keeps their order, and each still marks
  // a sample equivalent to the one it marked.
  lemma {:induction false} StampsSurvive<D(!new)>(eq: Comparison<D>, s: seq<Entry<D>>)
    requires Equivalence(eq) && WellFormed(s)
    ensures SameMarks(eq, Marks(s), Marks(Destutter(eq, s)))
    ensures WellFormed(Destutter(eq, s))
    ensures Recorded(s) ==> Recorded(Destutter(eq, s))
    decreases |s|
  {
    if |s| > 1 {
      var t, x := s[..|s| - 1], s[|s| - 1];
      var d := Destutter(eq, t);
      assert s == t + [x];
      WellFormedAppend(t, x);
      WellFormedAppend(d, x);
      StampsSurvive(eq, t);
      LastIsEquivalent(eq, t);
      SameToBoth(eq, x, t[|t| - 1], d[|d| - 1]);
      MarksAppend(t, x);
      MarksAppend(d, x);
      if x.Stamp? {
        SameMarksAppend(eq, Marks(t), Marks(d), t[|t| - 1], d[|d| - 1], x);
      }
      hide Equivalence, WellFormed, Marks, SameMarks;
    }
  }

  // ---- The logger ----

  datatype State = Inactive | Recording | Playing

  // log is the list of children of the root node, empty as long as there is no root node;
  // shown is the history of samples the devices were set to.
  datatype Logger<D> = Logger(state: State, sleep: nat, activeStamp: string, log: seq<Entry<D>>, next: nat,
                              shown: seq<D>)

  // One frame: the two buttons, the stamp a user would type in, the current state of the devices.
  datatype Frame<D> = Frame(startStop: bool, stamp: bool, id: string, devices: D)

  datatype Event<D> = Tick(frame: Frame<D>) | Play | Load(log: seq<Entry<D>>)

  const SLEEP_FRAMES := 10

  // One of playNextSample's assertions fails.
  predicate PlayTrips<D>(v: Logger<D>) {
    v.state.Playing? && v.sleep == 0 && !(v.next < |v.log| && v.log[v.next].Sample?)
  }

  predicate Trips<D>(v: Logger<D>, e: Event<D>) {
    match e
    case Tick(_) => PlayTrips(v)
    case Play => !v.state.Inactive?
    case Load(_) => !v.state.Inactive?
  }

  function StopRecording<D>(eq: Comparison<D>, v: Logger<D>): Logger<D> {
    v.(state := Inactive, sleep := SLEEP_FRAMES, log := Destutter(eq, v.log))
  }

  function Buttons<D>(eq: Comparison<D>, v: Logger<D>, f: Frame<D>): Logger<D> {
    if f.startStop then
      if v.state.Recording? then StopRecording(eq, v) else v.(state := Recording, log := [])
    else if f.stamp && v.state.Recording? then v.(log := v.log + [Stamp(f.id)])
    else v
  }

  function PlayNext<D>(v: Logger<D>): Logger<D>
    requires v.next < |v.log| && v.log[v.next].Sample?
  {
    var stamped := v.next + 1 < |v.log| && v.log[v.next + 1].Stamp?;
    var next := v.next + if stamped then 2 else 1;
    var w := v.(shown := v.shown + [v.log[v.next].data], next := next,
                activeStamp := if stamped then v.log[v.next + 1].id else "");
    if next == |v.log| then w.(state := Inactive, sleep := SLEEP_FRAMES) else w
  }

  function Process<D>(eq: Comparison<D>, v: Logger<D>, f: Frame<D>): Logger<D> {
    if v.sleep > 0 then v.(sleep := v.sleep - 1)
    else if v.state.Playing? then
      if PlayTrips(v) then v else PlayNext(v)
    else
      var w := Buttons(eq, v, f);
      if w.state.Recording? then w.(log := w.log + [Sample(f.devices)]) else w
  }

  function StartPlaying<D>(v: Logger<D>): Logger<D> {
    v.(next := 0, activeStamp := "", state := if v.log == [] then v.state else Playing)
  }

  // An event that trips an assertion is left without effect.
  function Next<D>(eq: Comparison<D>, v: Logger<D>, e: Event<D>): Logger<D> {
    if Trips(v, e) then v
    else
      match e
      case Tick(f) => Process(eq, v, f)
      case Play => StartPlaying(v)
      case Load(log) => v.(log := log)
  }

  function After<D>(eq: Comparison<D>, v: Logger<D>, es: seq<Event<D>>): Logger<D> {
    if es == [] then v else Next(eq, After(eq, v, es[..|es| - 1]), es[|es| - 1])
  }

  ghost predicate Inv<D>(v: Logger<D>) {
    && WellFormed(v.log)
    && (v.state.Recording? ==> Recorded(v.log) && v.sleep == 0)
    && (v.state.Playing? ==> v.next < |v.log| && v.log[v.next].Sample?)
  }

  lemma PlayNextKeepsInv<D>(v: Logger<D>)
    requires Inv(v) && v.state.Playing?
    ensures Inv(PlayNext(v))
  {
    var next := PlayNext(v).next;
    assert next < |v.log| ==> v.log[next - 1].Sample? || v.log[next].Sample?;
  }

  lemma RecordKeepsInv<D(!new)>(eq: Comparison<D>, v: Logger<D>, f: Frame<D>)
    requires Equivalence(eq) && Inv(v) && v.sleep == 0 && !v.state.Playing?
    ensures Inv(Process(eq, v, f))
  {
    if v.state.Recording? {
      StampsSurvive(eq, v.log);
      WellFormedAppend(v.log, Stamp(f.id));
      WellFormedAppend(v.log, Sample(f.devices));
      WellFormedAppend(v.log + [Stamp(f.id)], Sample(f.devices));
    } else {
      assert [] + [Sample(f.devices)] == [Sample(f.devices)];
      assert WellFormed([Sample(f.devices)]);
    }
    hide Equivalence, Destutter, SameMarks, WellFormed;
  }

  lemma NextKeepsInv<D(!new)>(eq: Comparison<D>, v: Logger<D>, e: Event<D>)
    requires Equivalence(eq) && Inv(v)
    requires e.Load? ==> WellFormed(e.log)
    ensures Inv(Next(eq, v, e)) && (e.Tick? ==> !Trips(v, e))
  {
    if e.Tick? && v.sleep == 0 {
      if v.state.Playing? {
        PlayNextKeepsInv(v);
      } else {
        RecordKeepsInv(eq, v, e.frame);
      }
    }
    hide Equivalence, Buttons, PlayNext;
  }

  // Whatever is recorded, loaded (if well formed) and played, in any order: no frame trips an assertion.
  lemma {:induction false} RunNeverTrips<D(!new)>(eq: Comparison<D>, v: Logger<D>, es: seq<Event<D>>)
    requires Equivalence(eq) && Inv(v)
    requires forall i :: 0 <= i < |es| && es[i].Load? ==> WellFormed(es[i].log)
    ensures Inv(After(eq, v, es)) && forall f :: !Trips(After(eq, v, es), Tick(f))
    decreases |es|
  {
    if es != [] {
      RunNeverTrips(eq, v, es[..|es| - 1]);
      NextKeepsInv(eq, After(eq, v, es[..|es| - 1]), es[|es| - 1]);
    }
  }

  // ---- What a recording holds, and what playing it shows ----

  // The log of a recording session, from what its frames saw.
  function Session<D>(fs: seq<Frame<D>>): (log: seq<Entry<D>>) {
    if fs == [] then []
    else
      var f := fs[|fs| - 1];
      Session(fs[..|fs| - 1]) + (if f.stamp && |fs| > 1 then [Stamp(f.id)] else []) + [Sample(f.devices)]
  }

  function Ticks<D>(fs: seq<Frame<D>>): (es: seq<Event<D>>)
    ensures |es| == |fs| && forall i :: 0 <= i < |fs| ==> es[i] == Tick(fs[i])
  {
    seq(|fs|, i requires 0 <= i < |fs| => Tick(fs[i]))
  }

  lemma AfterTick<D>(eq: Comparison<D>, v: Logger<D>, fs: seq<Frame<D>>)
    requires fs != []
    ensures var n := |fs| - 1;
            After(eq, v, Ticks(fs)) == Next(eq, After(eq, v, Ticks(fs[..n])), Tick(fs[n]))
  {
    assert Ticks(fs)[..|fs| - 1] == Ticks(fs[..|fs| - 1]);
  }

  // Recording: started by the first frame, not stopped by the others.
  lemma {:induction false} RecordingIsSession<D>(eq: Comparison<D>, v: Logger<D>, fs: seq<Frame<D>>)
    requires v.state.Inactive? && v.sleep == 0
    requires fs != [] && fs[0].startStop && forall i :: 0 < i < |fs| ==> !fs[i].startStop
    ensures After(eq, v, Ticks(fs)) == v.(state := Recording, log := Session(fs))
    decreases |fs|
  {
    hide After, Ticks;
    AfterTick(eq, v, fs);
    var gs := fs[..|fs| - 1];
    if gs == [] {
      AfterNone(eq, v);
    } else {
      RecordingIsSession(eq, v, gs);
    }
  }

  lemma AfterNone<D>(eq: Comparison<D>, v: Logger<D>)
    ensures After(eq, v, Ticks<D>([])) == v
  {}

  // The samples of a log in order, each with the stamp behind it.
  function Beats<D>(log: seq<Entry<D>>): (bs: seq<(D, string)>)
    requires WellFormed(log)
    ensures log != [] ==> bs != []
    decreases |log|
  {
    if log == [] then []
    else if |log| > 1 && log[1].Stamp? then [(log[0].data, log[1].id)] + Beats(log[2..])
    else [(log[0].data, "")] + Beats(log[1..])
  }

  function DataOf<D>(bs: seq<(D, string)>): seq<D> {
    seq(|bs|, i requires 0 <= i < |bs| => bs[i].0)
  }

  lemma {:induction false} SamplesFront<D>(x: Entry<D>, s: seq<Entry<D>>)
    ensures Samples([x] + s) == (if x.Sample? then [x.data] else []) + Samples(s)
    decreases |s|
  {
    if s == [] {
      assert [x] + s == [x];
    } else {
      SamplesFront(x, s[..|s| - 1]);
      assert ([x] + s)[..|s|] == [x] + s[..|s| - 1];
    }
  }

  lemma DataFront<D>(b: (D, string), bs: seq<(D, string)>)
    ensures DataOf([b] + bs) == [b.0] + DataOf(bs)
  {}

  // Each sample is played once, in order.
  lemma {:induction false} BeatsAreSamples<D>(log: seq<Entry<D>>)
    requires WellFormed(log)
    ensures DataOf(Beats(log)) == Samples(log)
    decreases |log|
  {
    if log != [] {
      assert log == [log[0]] + log[1..];
      SamplesFront(log[0], log[1..]);
      if |log| > 1 && log[1].Stamp? {
        assert log[1..] == [log[1]] + log[2..];
        SamplesFront(log[1], log[2..]);
        BeatsAreSamples(log[2..]);
        DataFront((log[0].data, log[1].id), Beats(log[2..]));
      } else {
        BeatsAreSamples(log[1..]);
        DataFront((log[0].data, ""), Beats(log[1..]));
      }
    }
  }

  // v is playing, and bs is what it has still to show.
  ghost predicate StillToShow<D>(v: Logger<D>, bs: seq<(D, string)>) {
    && v.next <= |v.log| && WellFormed(v.log[v.next..]) && bs == Beats(v.log[v.next..])
  }

  lemma PlayNextShowsOne<D>(v: Logger<D>, bs: seq<(D, string)>)
    requires StillToShow(v, bs) && v.next < |v.log|
    ensures bs != [] && v.log[v.next].Sample?
    ensures var w := PlayNext(v);
            && StillToShow(w, bs[1..]) && w.log == v.log
            && w.shown == v.shown + [bs[0].0] && w.activeStamp == bs[0].1
            && (if bs[1..] == [] then w.state.Inactive? && w.sleep == SLEEP_FRAMES
                else w.state == v.state && w.sleep == v.sleep && w.next < |w.log|)
  {
    var log := v.log[v.next..];
    assert |log| > 1 && log[1].Stamp? ==> log[2..] == v.log[v.next + 2..];
    assert log[1..] == v.log[v.next + 1..];
  }

  // k frames after playback began, exactly k samples have been shown, with the k-th one's stamp active;
  // the logger is inactive exactly when that was the last one.
  lemma {:induction false} PlaysOnePerFrame<D>(eq: Comparison<D>, v: Logger<D>, bs: seq<(D, string)>, fs: seq<Frame<D>>)
    requires v.state.Playing? && v.sleep == 0 && v.next < |v.log| && StillToShow(v, bs)
    requires |fs| <= |bs|
    ensures var k, w := |fs|, After(eq, v, Ticks(fs));
            && StillToShow(w, bs[k..]) && w.log == v.log
            && w.shown == v.shown + DataOf(bs[..k])
            && (k > 0 ==> w.activeStamp == bs[k - 1].1)
            && (if k == |bs| then w.state.Inactive? && w.sleep == SLEEP_FRAMES
                else w.state.Playing? && w.sleep == 0 && w.next < |w.log|)
    decreases |fs|
  {
    hide After, Ticks, Beats, WellFormed;
    var k := |fs|;
    if k == 0 {
      AfterNone(eq, v);
      assert fs == [];
    } else {
      AfterTick(eq, v, fs);
      PlaysOnePerFrame(eq, v, bs, fs[..k - 1]);
      var u := After(eq, v, Ticks(fs[..k - 1]));
      PlayNextShowsOne(u, bs[k - 1..]);
      assert bs[k - 1..][1..] == bs[k..];
      assert DataOf(bs[..k]) == DataOf(bs[..k - 1]) + [bs[k - 1].0];
    }
  }

  lemma {:induction false} AfterConcat<D>(eq: Comparison<D>, v: Logger<D>, es: seq<Event<D>>, fs: seq<Event<D>>)
    ensures After(eq, v, es + fs) == After(eq, After(eq, v, es), fs)
    decreases |fs|
  {
    if fs == [] {
      assert es + fs == es;
    } else {
      AfterConcat(eq, v, es, fs[..|fs| - 1]);
      assert (es + fs)[..|es + fs| - 1] == es + fs[..|fs| - 1];
    }
  }

  lemma AfterSplit<D>(eq: Comparison<D>, v: Logger<D>, fs: seq<Frame<D>>, k: nat)
    requires k <= |fs|
    ensures After(eq, v, Ticks(fs)) == After(eq, After(eq, v, Ticks(fs[..k])), Ticks(fs[k..]))
  {
    assert Ticks(fs) == Ticks(fs[..k]) + Ticks(fs[k..]);
    AfterConcat(eq, v, Ticks(fs[..k]), Ticks(fs[k..]));
  }

  lemma {:induction false} SleepsFirst<D>(eq: Comparison<D>, v: Logger<D>, fs: seq<Frame<D>>)
    requires |fs| <= v.sleep
    ensures After(eq, v, Ticks(fs)) == v.(sleep := v.sleep - |fs|)
    decreases |fs|
  {
    hide After, Ticks;
    if fs == [] {
      AfterNone(eq, v);
    } else {
      AfterTick(eq, v, fs);
      SleepsFirst(eq, v, fs[..|fs| - 1]);
    }
  }

  // An inactive logger does nothing in a frame without the start button, stamp button or not.
  lemma IdleFrame<D>(eq: Comparison<D>, v: Logger<D>, f: Frame<D>)
    requires v.state.Inactive? && v.sleep == 0 && !f.startStop
    ensures Next(eq, v, Tick(f)) == v
  {}

  // Any number of frames an inactive logger sleeps through or sits idle in only count down its sleep.
  lemma {:induction false} IdleFrames<D>(eq: Comparison<D>, v: Logger<D>, ws: seq<Frame<D>>)
    requires v.state.Inactive? && forall k :: v.sleep <= k < |ws| ==> !ws[k].startStop
    ensures After(eq, v, Ticks(ws)) == v.(sleep := if |ws| < v.sleep then v.sleep - |ws| else 0)
    decreases |ws|
  {
    hide After, Ticks;
    if ws == [] {
      AfterNone(eq, v);
    } else {
      AfterTick(eq, v, ws);
      IdleFrames(eq, v, ws[..|ws| - 1]);
    }
  }

  // Playing a well-formed log: after the frames left to sleep through, one sample a frame, then inactive.
  lemma PlaysWholeLog<D>(eq: Comparison<D>, v: Logger<D>, fs: seq<Frame<D>>)
    requires v.state.Inactive? && v.log != [] && WellFormed(v.log)
    requires |fs| == v.sleep + |Beats(v.log)|
    ensures var w := After(eq, StartPlaying(v), Ticks(fs));
            && w.shown == v.shown + Samples(v.log) && w.log == v.log
            && w.state.Inactive? && w.sleep == 10
    ensures forall k :: v.sleep <= k < |fs| ==> After(eq, StartPlaying(v), Ticks(fs[..k])).state.Playing?
  {
    hide After, Ticks, Beats, WellFormed, Samples;
    var u, bs := StartPlaying(v), Beats(v.log);
    assert v.log[0..] == v.log;
    SleepsFirst(eq, u, fs[..v.sleep]);
    AfterSplit(eq, u, fs, v.sleep);
    PlaysOnePerFrame(eq, u.(sleep := 0), bs, fs[v.sleep..]);
    assert bs[..|bs|] == bs;
    BeatsAreSamples(v.log);
    forall k | v.sleep <= k < |fs| ensures After(eq, u, Ticks(fs[..k])).state.Playing? {
      AfterSplit(eq, u, fs[..k], v.sleep);
      assert fs[..k][..v.sleep] == fs[..v.sleep];
      assert fs[..k][v.sleep..] == fs[v.sleep..][..k - v.sleep];
      PlaysOnePerFrame(eq, u.(sleep := 0), bs, fs[v.sleep..][..k - v.sleep]);
    }
  }

  lemma AfterPlay<D>(eq: Comparison<D>, v: Logger<D>, es: seq<Event<D>>, fs: seq<Frame<D>>)
    requires After(eq, v, es).state.Inactive?
    ensures After(eq, v, es + [Play] + Ticks(fs)) == After(eq, StartPlaying(After(eq, v, es)), Ticks(fs))
  {
    assert (es + [Play])[..|es|] == es;
    AfterConcat(eq, v, es + [Play], Ticks(fs));
  }

  // The frames left to sleep through after these.
  function SleepLeft(sleep: nat, frames: nat): nat {
    if frames < sleep then sleep - frames else 0
  }

  // However long an inactive logger is left alone, it plays the log it has.
  lemma IdlesThenPlays<D>(eq: Comparison<D>, v: Logger<D>, es: seq<Event<D>>, ws: seq<Frame<D>>, gs: seq<Frame<D>>)
    requires var u := After(eq, v, es);
             && u.state.Inactive? && u.log != [] && WellFormed(u.log)
             && (forall k :: u.sleep <= k < |ws| ==> !ws[k].startStop)
             && |gs| == SleepLeft(u.sleep, |ws|) + |Beats(u.log)|
    ensures var u, w := After(eq, v, es), After(eq, v, es + Ticks(ws) + [Play] + Ticks(gs));
            && w.shown == u.shown + Samples(u.log) && w.log == u.log
            && w.state.Inactive? && w.sleep == 10
  {
    hide After, Ticks, Beats, WellFormed, Samples;
    var u := After(eq, v, es);
    AfterConcat(eq, v, es, Ticks(ws));
    IdleFrames(eq, u, ws);
    AfterPlay(eq, v, es + Ticks(ws), gs);
    PlaysWholeLog(eq, u.(sleep := SleepLeft(u.sleep, |ws|)), gs);
  }

  // Record, stop, wait, play: what the devices are shown is the recording without its repetitions.
  lemma {:induction false} RecordThenPlay<D(!new)>(eq: Comparison<D>, v: Logger<D>, fs: seq<Frame<D>>, stop: Frame<D>,
                                                   ws: seq<Frame<D>>, gs: seq<Frame<D>>)
    requires Equivalence(eq) && v.state.Inactive? && v.sleep == 0
    requires fs != [] && fs[0].startStop && (forall i :: 0 < i < |fs| ==> !fs[i].startStop) && stop.startStop
    requires forall k :: 10 <= k < |ws| ==> !ws[k].startStop
    ensures var log := Destutter(eq, Session(fs));
            && Recorded(log)
            && (|gs| == SleepLeft(10, |ws|) + |Beats(log)| ==>
                  var w := After(eq, v, Ticks(fs + [stop]) + Ticks(ws) + [Play] + Ticks(gs));
                  w.shown == v.shown + Samples(log) && w.log == log && w.state.Inactive?)
  {
    hide After, Ticks, Beats, Session, Samples;
    SessionIsRecorded(fs);
    StampsSurvive(eq, Session(fs));
    RecordingIsSession(eq, v, fs);
    AfterTick(eq, v, fs + [stop]);
    assert (fs + [stop])[..|fs|] == fs;
    var log := Destutter(eq, Session(fs));
    if |gs| == SleepLeft(10, |ws|) + |Beats(log)| {
      IdlesThenPlays(eq, v, Ticks(fs + [stop]), ws, gs);
    }
  }

  // Load, wait, play: the devices are shown the samples of the file.
  lemma LoadThenPlay<D>(eq: Comparison<D>, v: Logger<D>, log: seq<Entry<D>>, ws: seq<Frame<D>>, gs: seq<Frame<D>>)
    requires v.state.Inactive? && log != [] && WellFormed(log)
    requires forall k :: v.sleep <= k < |ws| ==> !ws[k].startStop
    requires |gs| == SleepLeft(v.sleep, |ws|) + |Beats(log)|
    ensures var w := After(eq, v, [Load(log)] + Ticks(ws) + [Play] + Ticks(gs));
            w.shown == v.shown + Samples(log) && w.log == log && w.state.Inactive?
  {
    hide Ticks, Beats, Samples, WellFormed;
    assert [Load(log)][..0] == [] && After(eq, v, []) == v;
    assert After(eq, v, [Load(log)]) == v.(log := log);
    IdlesThenPlays(eq, v, [Load(log)], ws, gs);
  }

  // Playback starts in front of the log without a stamp, unless the log is empty, and changes nothing else.
  lemma PlayStarts<D>(eq: Comparison<D>, v: Logger<D>)
    requires v.state.Inactive?
    ensures Next(eq, v, Play) ==
            Logger(if v.log == [] then Inactive else Playing, v.sleep, "", v.log, 0, v.shown)
  {}

  lemma LoadReplaces<D>(eq: Comparison<D>, v: Logger<D>, log: seq<Entry<D>>)
    requires v.state.Inactive?
    ensures Next(eq, v, Load(log)) == Logger(Inactive, v.sleep, v.activeStamp, log, v.next, v.shown)
  {}

  // A frame in which nothing is played shows nothing and leaves stamp and position as they are.
  lemma OnlyPlaybackShows<D>(eq: Comparison<D>, v: Logger<D>, f: Frame<D>)
    requires !v.state.Playing? || v.sleep > 0
    ensures var w := Next(eq, v, Tick(f));
            && w.shown == v.shown && w.activeStamp == v.activeStamp && w.next == v.next
            && (w.state.Playing? <==> v.state.Playing?)
  {}

  lemma {:induction false} SessionIsRecorded<D>(fs: seq<Frame<D>>)
    requires fs != []
    ensures Recorded(Session(fs))
    decreases |fs|
  {
    if |fs| > 1 {
      SessionIsRecorded(fs[..|fs| - 1]);
    }
  }

  // ---- Playing any log at all ----

  // A log that is not well formed trips an assertion while it is played.
  lemma {:induction false} MalformedTrips<D>(eq: Comparison<D>, v: Logger<D>, fs: seq<Frame<D>>) returns (k: nat)
    requires v.state.Playing? && v.sleep == 0 && v.next < |v.log| && !WellFormed(v.log[v.next..])
    requires |fs| >= |v.log| - v.next
    ensures k <= |fs| && PlayTrips(After(eq, v, Ticks(fs[..k])))
    decreases |fs|
  {
    hide After, Ticks;
    if v.log[v.next].Stamp? {
      k := 0;
      AfterNone(eq, v);
      assert fs[..0] == [];
    } else {
      var w := PlayNext(v);
      var log := v.log[v.next..];
      assert log[w.next - v.next..] == w.log[w.next..];
      var j := MalformedTrips(eq, w, fs[1..]);
      k := j + 1;
      AfterSplit(eq, v, fs[..k], 1);
      AfterTick(eq, v, fs[..1]);
      AfterNone(eq, v);
      assert fs[..k][..1] == fs[..1] && fs[..1][..0] == [] && fs[..k][1..] == fs[1..][..j];
    }
  }

  lemma TripsIffMalformed<D(!new)>(eq: Comparison<D>, v: Logger<D>, fs: seq<Frame<D>>)
    requires Equivalence(eq) && v.state.Playing? && v.sleep == 0 && v.next == 0 && v.log != []
    requires |fs| >= |v.log|
    ensures (exists k :: 0 <= k <= |fs| && PlayTrips(After(eq, v, Ticks(fs[..k])))) <==> !WellFormed(v.log)
  {
    assert v.log[0..] == v.log;
    if WellFormed(v.log) {
      forall k | 0 <= k <= |fs| ensures !PlayTrips(After(eq, v, Ticks(fs[..k]))) {
        RunNeverTrips(eq, v, Ticks(fs[..k]));
        assert !Trips(After(eq, v, Ticks(fs[..k])), Tick(fs[0]));
      }
    } else {
      var k := MalformedTrips(eq, v, fs);
    }
  }
}
