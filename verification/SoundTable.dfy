/** What a user of sonix sees: one table of sounds with default entries, whatever API plays them. */
module SoundTable {

  datatype DataSource = Filesystem | Data16Mono | Data8Mono

  // The fields of snx::SoundInfo that user code sets.
  datatype Sound = Sound(alias: string, datasource: DataSource, filename: string, x: real, y: real, z: real,
                         ambient: bool, retriggerable: bool, repeat: int, pitchbend: real, cutoff: real,
                         volume: real, streaming: bool)

  const NEW_SOUND := Sound("", Filesystem, "", 0.0, 0.0, 0.0, false, false, 1, 1.0, 1.0, 1.0, false)

  datatype APIInfo = APIInfo(voices: int, speakerConfig: int, sampleRate: int)

  const DEFAULT_API := APIInfo(65535, 1, 0)

  type Matrix = seq<real>

  const ORIGIN: Matrix := [1.0, 0.0, 0.0, 0.0, 0.0, 1.0, 0.0, 0.0, 0.0, 0.0, 1.0, 0.0, 0.0, 0.0, 0.0, 1.0]

  datatype Table = Table(sounds: map<string, Sound>, listener: Matrix, api: APIInfo)

  const EMPTY_TABLE := Table(map[], ORIGIN, DEFAULT_API)

  function Get(t: Table, alias: string): Sound {
    if alias in t.sounds then t.sounds[alias] else NEW_SOUND
  }

  // Tables no query can tell apart: an entry that was never set reads like one holding the defaults.
  ghost predicate Same(t: Table, u: Table) {
    && (forall alias :: Get(t, alias) == Get(u, alias))
    && t.listener == u.listener && t.api == u.api
  }

  datatype Change =
    | Retriggerable(onOff: bool)
    | Ambient(ambient: bool)
    | PitchBend(amount: real)
    | Volume(amount: real)
    | Cutoff(amount: real)
    | Position(x: real, y: real, z: real)
    | Repeat(repeat: int)

  function Changed(s: Sound, c: Change): Sound {
    match c
    case Retriggerable(onOff) => s.(retriggerable := onOff)
    case Ambient(ambient) => s.(ambient := ambient)
    case PitchBend(amount) => s.(pitchbend := amount)
    case Volume(amount) => s.(volume := amount)
    case Cutoff(amount) => s.(cutoff := amount)
    case Position(x, y, z) => s.(x := x, y := y, z := z)
    case Repeat(repeat) => s.(repeat := repeat)
  }

  datatype Command =
    | Set(alias: string, change: Change)
    | Configure(alias: string, sound: Sound)
    | Remove(alias: string)
    | SetListener(listener: Matrix)
    | ConfigureAPI(api: APIInfo)
    | Stop(alias: string)
    | Query(alias: string)
    | ChangeAPI(name: string)

  // The effect of a command on the one table there seems to be.
  function Do(t: Table, c: Command): Table {
    match c
    case Set(alias, change) => t.(sounds := t.sounds[alias := Changed(Get(t, alias), change)])
    case Configure(alias, sound) => t.(sounds := t.sounds[alias := sound])
    case Remove(alias) => t.(sounds := t.sounds - {alias})
    case SetListener(listener) => t.(listener := listener)
    case ConfigureAPI(api) => t.(api := api)
    case Stop(_) => t
    case Query(_) => t
    case ChangeAPI(_) => t
  }

  function DoAll(t: Table, cs: seq<Command>): Table {
    if cs == [] then t else Do(DoAll(t, cs[..|cs| - 1]), cs[|cs| - 1])
  }

  lemma DoRespectsSame(t: Table, u: Table, c: Command)
    requires Same(t, u)
    ensures Same(Do(t, c), Do(u, c))
  {
    forall alias ensures Get(Do(t, c), alias) == Get(Do(u, c), alias) {
      assert Get(t, alias) == Get(u, alias);
      if c.Set? {
        assert Get(t, c.alias) == Get(u, c.alias);
      }
    }
  }

  // The commands that switch the API leave no trace.
  function WithoutSwitches(cs: seq<Command>): (ds: seq<Command>)
    ensures forall i :: 0 <= i < |ds| ==> !ds[i].ChangeAPI?
  {
    if cs == [] then []
    else WithoutSwitches(cs[..|cs| - 1]) + if cs[|cs| - 1].ChangeAPI? then [] else [cs[|cs| - 1]]
  }

  lemma {:induction false} SwitchesLeaveNoTrace(t: Table, cs: seq<Command>)
    ensures DoAll(t, cs) == DoAll(t, WithoutSwitches(cs))
    decreases |cs|
  {
    if cs != [] {
      var ds := WithoutSwitches(cs[..|cs| - 1]);
      SwitchesLeaveNoTrace(t, cs[..|cs| - 1]);
      assert cs[|cs| - 1].ChangeAPI? ==> WithoutSwitches(cs) == ds;
      assert (ds + [cs[|cs| - 1]])[..|ds|] == ds;
    }
  }

  // Commands about other aliases do not touch a sound.
  predicate Touches(c: Command, alias: string) {
    (c.Set? || c.Configure? || c.Remove?) && c.alias == alias
  }

  lemma {:induction false} ReadsBackLastWrite(t: Table, cs: seq<Command>, c: Command, ds: seq<Command>, alias: string)
    requires Touches(c, alias) && forall i :: 0 <= i < |ds| ==> !Touches(ds[i], alias)
    ensures Get(DoAll(t, cs + [c] + ds), alias) ==
              match c
              case Set(_, change) => Changed(Get(DoAll(t, cs), alias), change)
              case Configure(_, sound) => sound
              case _ => NEW_SOUND
    decreases |ds|
  {
    if ds == [] {
      assert cs + [c] + ds == cs + [c];
      assert (cs + [c])[..|cs|] == cs;
    } else {
      var n := |ds| - 1;
      ReadsBackLastWrite(t, cs, c, ds[..n], alias);
      assert (cs + [c] + ds)[..|cs| + 1 + n] == cs + [c] + ds[..n];
      OthersUntouched(DoAll(t, cs + [c] + ds[..n]), ds[n], alias);
    }
  }

  // ---- What each command does to the fields it is about, and to no others ----

  // A sound nobody has configured: all literal.
  lemma DefaultSound(alias: string)
    ensures Get(EMPTY_TABLE, alias) ==
            Sound("", Filesystem, "", 0.0, 0.0, 0.0, false, false, 1, 1.0, 1.0, 1.0, false)
    ensures EMPTY_TABLE.api == APIInfo(65535, 1, 0)
    ensures EMPTY_TABLE.listener == [1.0, 0.0, 0.0, 0.0, 0.0, 1.0, 0.0, 0.0, 0.0, 0.0, 1.0, 0.0, 0.0, 0.0, 0.0, 1.0]
  {}

  // s is t except for the field the change names, which holds its value.
  ghost predicate OnlyFieldSet(c: Change, s: Sound, t: Sound) {
    && t.alias == s.alias && t.datasource == s.datasource && t.filename == s.filename && t.streaming == s.streaming
    && t.retriggerable == (if c.Retriggerable? then c.onOff else s.retriggerable)
    && t.ambient == (if c.Ambient? then c.ambient else s.ambient)
    && t.pitchbend == (if c.PitchBend? then c.amount else s.pitchbend)
    && t.volume == (if c.Volume? then c.amount else s.volume)
    && t.cutoff == (if c.Cutoff? then c.amount else s.cutoff)
    && t.x == (if c.Position? then c.x else s.x)
    && t.y == (if c.Position? then c.y else s.y)
    && t.z == (if c.Position? then c.z else s.z)
    && t.repeat == (if c.Repeat? then c.repeat else s.repeat)
  }

  // A change reads back as the field it names and every other field as before, after any commands about other sounds.
  lemma SetReadsBack(t: Table, cs: seq<Command>, alias: string, change: Change, ds: seq<Command>)
    requires forall i :: 0 <= i < |ds| ==> !Touches(ds[i], alias)
    ensures OnlyFieldSet(change, Get(DoAll(t, cs), alias), Get(DoAll(t, cs + [Set(alias, change)] + ds), alias))
  {
    ReadsBackLastWrite(t, cs, Set(alias, change), ds, alias);
  }

  // The last position of the listener and the last settings read back, whatever else is done.
  lemma {:induction false} ListenerReadsBack(t: Table, cs: seq<Command>, listener: Matrix, ds: seq<Command>)
    requires forall i :: 0 <= i < |ds| ==> !ds[i].SetListener?
    ensures DoAll(t, cs + [SetListener(listener)] + ds).listener == listener
    ensures DoAll(t, ds).listener == t.listener
    decreases |ds|
  {
    DoLast(t, cs, SetListener(listener), ds);
    if ds != [] {
      ListenerReadsBack(t, cs, listener, ds[..|ds| - 1]);
    }
  }

  lemma {:induction false} SettingsReadBack(t: Table, cs: seq<Command>, api: APIInfo, ds: seq<Command>)
    requires forall i :: 0 <= i < |ds| ==> !ds[i].ConfigureAPI?
    ensures DoAll(t, cs + [ConfigureAPI(api)] + ds).api == api
    ensures DoAll(t, ds).api == t.api
    decreases |ds|
  {
    DoLast(t, cs, ConfigureAPI(api), ds);
    if ds != [] {
      SettingsReadBack(t, cs, api, ds[..|ds| - 1]);
    }
  }

  lemma DoLast(t: Table, cs: seq<Command>, c: Command, ds: seq<Command>)
    ensures var all := cs + [c] + ds;
            if ds == [] then DoAll(t, all) == Do(DoAll(t, cs), c)
            else DoAll(t, all) == Do(DoAll(t, cs + [c] + ds[..|ds| - 1]), ds[|ds| - 1])
  {
    var all := cs + [c] + ds;
    assert all[..|all| - 1] == if ds == [] then cs else cs + [c] + ds[..|ds| - 1];
  }

  lemma OthersUntouched(t: Table, c: Command, alias: string)
    requires !Touches(c, alias)
    ensures Get(Do(t, c), alias) == Get(t, alias)
  {}
}
