/** The sonix front end and the sound implementations it replaces while they are live. */
module Sonix {
  import opened SoundTable

  // triggerOnNextBind and repeatCountdown are for internal use only.
  datatype SoundInfo = SoundInfo(sound: Sound, triggerOnNextBind: bool, repeatCountdown: int)

  const NEW_INFO := SoundInfo(NEW_SOUND, false, 0)

  datatype Kind = Stub | Device

  function SoundsOf(sounds: map<string, SoundInfo>): (r: map<string, Sound>)
    ensures r.Keys == sounds.Keys && forall a :: a in sounds ==> r[a] == sounds[a].sound
  {
    map a | a in sounds :: sounds[a].sound
  }

  lemma SoundsOfUpdate(sounds: map<string, SoundInfo>, alias: string, info: SoundInfo)
    ensures SoundsOf(sounds[alias := info]) == SoundsOf(sounds)[alias := info.sound]
  {}

  lemma SoundsOfErase(sounds: map<string, SoundInfo>, alias: string)
    ensures SoundsOf(sounds - {alias}) == SoundsOf(sounds) - {alias}
  {}

  // A stub does nothing but keep the table. A device loads sounds: bound are the aliases it was asked to bind.
  class Implementation {
    const kind: Kind
    var running: bool
    var name: string
    var apiInfo: APIInfo
    var sounds: map<string, SoundInfo>
    var listenerPos: Matrix
    var bound: set<string>
    ghost var deleted: bool

    constructor (kind: Kind)
      ensures this.kind == kind && !running && bound == {} && !deleted
      ensures View() == EMPTY_TABLE
    {
      this.kind, running, name, bound := kind, false, "unknown", {};
      apiInfo, sounds, listenerPos, deleted := DEFAULT_API, map[], ORIGIN, false;
      new;
      assert SoundsOf(sounds) == map[];
    }

    function View(): (t: Table)
      reads this
    {
      Table(SoundsOf(sounds), listenerPos, apiInfo)
    }

    predicate IsStarted()
      reads this
    {
      kind.Stub? || running
    }

    // Only known aliases are bound, and none by a stub.
    predicate Tidy()
      reads this
    {
      bound <= sounds.Keys && (kind.Stub? ==> bound == {})
    }

    // Every alias is bound; a stub has nothing to bind.
    predicate AllBound()
      reads this
    {
      kind.Device? ==> bound == sounds.Keys
    }

    // The implementation does what it likes with the internal fields of one entry.
    method Tamper(alias: string)
      requires alias in sounds
      modifies this`sounds
      ensures sounds.Keys == old(sounds.Keys) && View() == old(View())
    {
      var trigger: bool := *;
      var countdown: int := *;
      sounds := sounds[alias := SoundInfo(sounds[alias].sound, trigger, countdown)];
      assert SoundsOf(sounds) == old(SoundsOf(sounds));
    }

    // A real device may fail to start.
    method StartAPI() returns (ok: bool)
      modifies this`running
      ensures kind.Stub? ==> ok
      ensures ok ==> IsStarted()
    {
      if kind.Stub? {
        return true;
      }
      ok := *;
      running := ok;
    }

    method ShutdownAPI()
      modifies this`running, this`sounds, this`bound
      ensures View() == old(View())
      ensures kind.Device? ==> !running
    {
      if kind.Device? {
        if running {
          UnbindAll();
        }
        running := false;
      }
    }

    method Bind(alias: string)
      requires alias in sounds
      modifies this`sounds, this`bound
      ensures View() == old(View()) && sounds.Keys == old(sounds.Keys)
      ensures bound == if IsStarted() && kind.Device? then old(bound) + {alias} else old(bound)
    {
      if kind.Device? && running {
        Tamper(alias);
        bound := bound + {alias};
      }
    }

    method Unbind(alias: string)
      modifies this`sounds, this`bound
      ensures View() == old(View()) && sounds.Keys == old(sounds.Keys)
      ensures bound == if IsStarted() && kind.Device? then old(bound) - {alias} else old(bound)
    {
      if kind.Device? && running {
        if alias in sounds {
          Tamper(alias);
        }
        bound := bound - {alias};
      }
    }

    method BindAll()
      requires Tidy()
      modifies this`sounds, this`bound
      ensures View() == old(View()) && Tidy()
      ensures IsStarted() ==> AllBound()
    {
      if kind.Device? {
        var todo := sounds.Keys;
        while todo != {}
          invariant View() == old(View()) && sounds.Keys == old(sounds.Keys) && todo <= sounds.Keys
          invariant bound <= sounds.Keys && (running ==> sounds.Keys - todo <= bound)
          decreases todo
        {
          var alias :| alias in todo;
          Bind(alias);
          todo := todo - {alias};
        }
      }
    }

    method UnbindAll()
      modifies this`sounds, this`bound
      ensures View() == old(View()) && sounds.Keys == old(sounds.Keys)
      ensures bound <= old(bound) && (IsStarted() && old(Tidy()) ==> bound == {})
    {
      if kind.Device? {
        var todo := sounds.Keys;
        while todo != {}
          invariant View() == old(View()) && sounds.Keys == old(sounds.Keys) && todo <= sounds.Keys
          invariant bound <= old(bound) && (running ==> bound !! sounds.Keys - todo)
          decreases todo
        {
          var alias :| alias in todo;
          Unbind(alias);
          todo := todo - {alias};
        }
      }
    }

    method Copy(si: Implementation)
      requires !si.deleted
      modifies this`name, this`sounds, this`listenerPos, this`apiInfo
      ensures View() == old(si.View()) && name == old(si.name) && sounds == old(si.sounds)
    {
      name := si.name;
      sounds := si.sounds;
      listenerPos := si.listenerPos;
      apiInfo := si.apiInfo;
    }

    // mSounds[alias]: looking an alias up enters it.
    method Lookup(alias: string) returns (info: SoundInfo)
      modifies this`sounds
      ensures alias in sounds && info == sounds[alias] && info.sound == Get(View(), alias)
      ensures Same(old(View()), View())
      ensures forall a :: a in old(sounds) ==> a in sounds
    {
      if alias !in sounds {
        sounds := sounds[alias := NEW_INFO];
      }
      info := sounds[alias];
    }

    method Store(alias: string, info: SoundInfo)
      modifies this`sounds
      ensures View() == old(View()).(sounds := old(View()).sounds[alias := info.sound])
      ensures sounds.Keys == old(sounds.Keys) + {alias}
    {
      hide SoundsOf;
      SoundsOfUpdate(sounds, alias, info);
      sounds := sounds[alias := info];
    }

    // The repeat count is for the user, the countdown and whatever the device does are internal.
    method Trigger(alias: string, repeat: int)
      requires IsStarted()
      modifies this`sounds
      ensures Same(View(), Do(old(View()), Set(alias, Repeat(repeat))))
      ensures old(sounds.Keys) <= sounds.Keys
    {
      var info := Lookup(alias);
      ghost var t := View();
      Store(alias, info.(sound := info.sound.(repeat := repeat)));
      Tamper(alias);
      DoRespectsSame(old(View()), t, Set(alias, Repeat(repeat)));
    }

    method SetRetriggerable(alias: string, onOff: bool)
      requires IsStarted()
      modifies this`sounds
      ensures Same(View(), Do(old(View()), Set(alias, Retriggerable(onOff))))
      ensures old(sounds.Keys) <= sounds.Keys
    {
      var info := Lookup(alias);
      ghost var t := View();
      Store(alias, info.(sound := info.sound.(retriggerable := onOff)));
      DoRespectsSame(old(View()), t, Set(alias, Retriggerable(onOff)));
    }

    method SetAmbient(alias: string, ambient: bool)
      requires IsStarted()
      modifies this`sounds
      ensures Same(View(), Do(old(View()), Set(alias, Ambient(ambient))))
      ensures old(sounds.Keys) <= sounds.Keys
    {
      var info := Lookup(alias);
      ghost var t := View();
      Store(alias, info.(sound := info.sound.(ambient := ambient)));
      DoRespectsSame(old(View()), t, Set(alias, Ambient(ambient)));
    }

    method SetPitchBend(alias: string, amount: real)
      requires IsStarted()
      modifies this`sounds
      ensures Same(View(), Do(old(View()), Set(alias, PitchBend(amount))))
      ensures old(sounds.Keys) <= sounds.Keys
    {
      var info := Lookup(alias);
      ghost var t := View();
      Store(alias, info.(sound := info.sound.(pitchbend := amount)));
      DoRespectsSame(old(View()), t, Set(alias, PitchBend(amount)));
    }

    method SetVolume(alias: string, amount: real)
      requires IsStarted()
      modifies this`sounds
      ensures Same(View(), Do(old(View()), Set(alias, Volume(amount))))
      ensures old(sounds.Keys) <= sounds.Keys
    {
      var info := Lookup(alias);
      ghost var t := View();
      Store(alias, info.(sound := info.sound.(volume := amount)));
      DoRespectsSame(old(View()), t, Set(alias, Volume(amount)));
    }

    method SetCutoff(alias: string, amount: real)
      requires IsStarted()
      modifies this`sounds
      ensures Same(View(), Do(old(View()), Set(alias, Cutoff(amount))))
      ensures old(sounds.Keys) <= sounds.Keys
    {
      var info := Lookup(alias);
      ghost var t := View();
      Store(alias, info.(sound := info.sound.(cutoff := amount)));
      DoRespectsSame(old(View()), t, Set(alias, Cutoff(amount)));
    }

    method SetPosition(alias: string, x: real, y: real, z: real)
      requires IsStarted()
      modifies this`sounds
      ensures Same(View(), Do(old(View()), Set(alias, Position(x, y, z))))
      ensures old(sounds.Keys) <= sounds.Keys
    {
      var info := Lookup(alias);
      ghost var t := View();
      Store(alias, info.(sound := info.sound.(x := x, y := y, z := z)));
      DoRespectsSame(old(View()), t, Set(alias, Position(x, y, z)));
    }

    // stop and pause: only the internal fields change.
    method Stop(alias: string)
      requires IsStarted()
      modifies this`sounds
      ensures Same(View(), old(View()))
      ensures old(sounds.Keys) <= sounds.Keys
    {
      var _ := Lookup(alias);
      Tamper(alias);
    }

    method Query(alias: string) returns (sound: Sound)
      requires IsStarted()
      modifies this`sounds
      ensures sound == Get(old(View()), alias) && Same(View(), old(View()))
      ensures old(sounds.Keys) <= sounds.Keys
    {
      var info := Lookup(alias);
      sound := info.sound;
    }

    method SetListenerPosition(mat: Matrix)
      requires IsStarted()
      modifies this`listenerPos
      ensures View() == old(View()).(listener := mat)
    {
      listenerPos := mat;
    }

    method ConfigureAPI(sai: APIInfo)
      modifies this`apiInfo
      ensures View() == old(View()).(api := sai)
    {
      apiInfo := sai;
    }

    method Configure(alias: string, description: SoundInfo)
      modifies this`sounds, this`bound
      ensures View() == Do(old(View()), Command.Configure(alias, description.sound))
      ensures IsStarted() && old(Tidy()) ==> Tidy()
    {
      hide SoundsOf;
      Unbind(alias);
      var temp := if alias in sounds then sounds[alias] else NEW_INFO;
      var info := description.(triggerOnNextBind := temp.triggerOnNextBind);
      SoundsOfUpdate(sounds, alias, info);
      assert sounds[alias := description][alias := info] == sounds[alias := info];
      sounds := sounds[alias := description];
      sounds := sounds[alias := info];
      assert View() == Do(old(View()), Command.Configure(alias, description.sound));
      if IsStarted() {
        Bind(alias);
      }
    }

    method Remove(alias: string)
      modifies this`sounds, this`bound
      ensures View() == Do(old(View()), Command.Remove(alias))
      ensures IsStarted() && old(Tidy()) ==> Tidy()
    {
      if IsStarted() {
        Unbind(alias);
      }
      SoundsOfErase(sounds, alias);
      sounds := sounds - {alias};
    }
  }

  class SonixObject {
    var implementation: Implementation?
    // The sound APIs registered with the factory.
    const registered: map<string, Kind>
    // The implementations that exist: created and not deleted.
    ghost var live: set<Implementation>

    // At most one implementation exists, the current one.
    ghost predicate Owned()
      reads this, live
    {
      && live == (if implementation == null then {} else {implementation})
      && (implementation != null ==> implementation.Tidy() && !implementation.deleted)
      && ("stub" in registered ==> registered["stub"].Stub?)
    }

    ghost predicate Valid()
      reads this, live
    {
      Owned() && (implementation != null ==> implementation.IsStarted())
    }

    // What a user sees; before the first call, what the stub made for it will show.
    ghost function View(): Table
      requires Owned()
      reads this, live
    {
      if implementation == null then EMPTY_TABLE else implementation.View()
    }

    constructor (registered: map<string, Kind>)
      requires "stub" in registered ==> registered["stub"].Stub?
      ensures Valid() && View() == EMPTY_TABLE && live == {}
    {
      this.registered := registered;
      implementation, live := null, {};
    }

    // SoundFactory::createImplementation: a clone of the registered one, or a stub.
    method CreateImplementation(apiName: string)
      modifies this`implementation, this`live
      ensures implementation != null && fresh(implementation) && live == old(live) + {implementation}
      ensures implementation.kind == if apiName in registered then registered[apiName] else Stub
      ensures implementation.View() == EMPTY_TABLE && implementation.bound == {}
      ensures !implementation.running && !implementation.deleted
    {
      implementation := new Implementation(if apiName in registered then registered[apiName] else Stub);
      live := live + {implementation};
    }

    method Impl() returns (impl: Implementation)
      requires Owned()
      modifies this, live
      ensures Owned() && impl == implementation && View() == old(View())
      ensures old(implementation) != null ==> impl == old(implementation) && impl.running == old(impl.running)
      ensures old(implementation) == null ==> impl.IsStarted() && fresh(impl)
    {
      if implementation == null {
        CreateImplementation("stub");
        var _ := implementation.StartAPI();
        implementation.BindAll();
      }
      impl := implementation;
    }

    // The delete, whose destructor shuts the implementation down.
    method Delete(impl: Implementation)
      requires impl in live && !impl.deleted
      modifies this`live, impl
      ensures live == old(live) - {impl} && impl.deleted
    {
      impl.ShutdownAPI();
      impl.deleted := true;
      live := live - {impl};
    }

    // If the new API fails to start, the stub takes over; whichever it is, it is started and holds the sounds.
    method ChangeAPI(apiName: string)
      requires Owned()
      modifies this, live
      ensures Valid() && View() == old(View())
      ensures implementation != null && fresh(implementation) && live == {implementation}
      ensures implementation.AllBound()
      ensures apiName == "stub" ==> implementation.kind.Stub?
      decreases if apiName == "stub" then 0 else 1
    {
      var oldImpl := Impl();
      CreateImplementation(apiName);
      implementation.Copy(oldImpl);
      oldImpl.UnbindAll();
      oldImpl.ShutdownAPI();
      Delete(oldImpl);
      var ok := implementation.StartAPI();
      if !ok {
        ChangeAPI("stub");
      }
      implementation.BindAll();
    }

    // The setters and trigger, each passed on to the implementation.
    method Set(alias: string, change: Change)
      requires Valid()
      modifies this, live
      ensures Valid() && Same(View(), Do(old(View()), Command.Set(alias, change)))
      ensures fresh(live - old(live)) && |live| == 1
    {
      var impl := Impl();
      match change
      case Repeat(repeat) => impl.Trigger(alias, repeat);
      case Retriggerable(onOff) => impl.SetRetriggerable(alias, onOff);
      case Ambient(ambient) => impl.SetAmbient(alias, ambient);
      case PitchBend(amount) => impl.SetPitchBend(alias, amount);
      case Volume(amount) => impl.SetVolume(alias, amount);
      case Cutoff(amount) => impl.SetCutoff(alias, amount);
      case Position(x, y, z) => impl.SetPosition(alias, x, y, z);
    }

    method Stop(alias: string)
      requires Valid()
      modifies this, live
      ensures Valid() && Same(View(), old(View()))
      ensures fresh(live - old(live)) && |live| == 1
    {
      var impl := Impl();
      impl.Stop(alias);
    }

    method Query(alias: string) returns (sound: Sound)
      requires Valid()
      modifies this, live
      ensures Valid() && sound == Get(old(View()), alias) && Same(View(), old(View()))
      ensures fresh(live - old(live)) && |live| == 1
    {
      var impl := Impl();
      sound := impl.Query(alias);
    }

    method SetListenerPosition(mat: Matrix)
      requires Valid()
      modifies this, live
      ensures Valid() && View() == Do(old(View()), SetListener(mat))
      ensures fresh(live - old(live)) && |live| == 1
    {
      var impl := Impl();
      impl.SetListenerPosition(mat);
    }

    method ConfigureAPI(sai: APIInfo)
      requires Valid()
      modifies this, live
      ensures Valid() && View() == Do(old(View()), Command.ConfigureAPI(sai))
      ensures fresh(live - old(live)) && |live| == 1
    {
      var impl := Impl();
      impl.ConfigureAPI(sai);
    }

    method Configure(alias: string, description: SoundInfo)
      requires Valid()
      modifies this, live
      ensures Valid() && View() == Do(old(View()), Command.Configure(alias, description.sound))
      ensures fresh(live - old(live)) && |live| == 1
    {
      var impl := Impl();
      impl.Configure(alias, description);
    }

    method Remove(alias: string)
      requires Valid()
      modifies this, live
      ensures Valid() && View() == Do(old(View()), Command.Remove(alias))
      ensures fresh(live - old(live)) && |live| == 1
    {
      var impl := Impl();
      impl.Remove(alias);
    }

    // One call of the public interface.
    method Perform(c: Command)
      requires Valid()
      modifies this, live
      ensures Valid() && Same(View(), Do(old(View()), c))
      ensures fresh(live - old(live)) && |live| == 1
    {
      match c
      case Set(alias, change) => Set(alias, change);
      case Configure(alias, sound) => Configure(alias, SoundInfo(sound, false, 0));
      case Remove(alias) => Remove(alias);
      case SetListener(mat) => SetListenerPosition(mat);
      case ConfigureAPI(sai) => ConfigureAPI(sai);
      case Stop(alias) => Stop(alias);
      case Query(alias) => var _ := Query(alias);
      case ChangeAPI(name) => ChangeAPI(name);
    }
  }

  // Any run of calls, switches that fail included: what is read back is what one plain table would hold
  // after the same calls without the switches, and one started implementation is left.
  method Run(registered: map<string, Kind>, cs: seq<Command>, alias: string) returns (sonix: SonixObject, sound: Sound)
    requires "stub" in registered ==> registered["stub"].Stub?
    ensures sonix.Valid() && |sonix.live| == 1
    ensures sound == Get(DoAll(EMPTY_TABLE, WithoutSwitches(cs)), alias)
    ensures Same(sonix.View(), DoAll(EMPTY_TABLE, WithoutSwitches(cs)))
  {
    hide Do;
    sonix := new SonixObject(registered);
    var i := 0;
    while i < |cs|
      invariant 0 <= i <= |cs| && sonix.Valid() && fresh(sonix) && fresh(sonix.live)
      invariant Same(sonix.View(), DoAll(EMPTY_TABLE, cs[..i]))
    {
      DoRespectsSame(sonix.View(), DoAll(EMPTY_TABLE, cs[..i]), cs[i]);
      sonix.Perform(cs[i]);
      assert cs[..i + 1][..i] == cs[..i];
      i := i + 1;
    }
    assert cs[..i] == cs;
    SwitchesLeaveNoTrace(EMPTY_TABLE, cs);
    sound := sonix.Query(alias);
  }
}
