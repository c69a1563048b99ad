/**
 * The name-keyed config cache, the initialisation callback that fans a newly
 * loaded config out to its listeners, and the reload listener that rebuilds
 * the cache from the current set of config resources.
 */
module ConfigReload {
  import opened Wrappers
  import opened FoodData
  import opened ConfigNames
  import opened ConfigParsing

  /** The caching storage: a mutable map from food name to config. */
  class FoodConfigStorage {
    var values: map<string, FoodConfig>

    constructor ()
      ensures values == map[]
    {
      values := map[];
    }

    /** `values.getOrDefault(name, FoodConfig.Default)`. */
    function Get(name: string): (c: FoodConfig)
      reads this
      ensures name in values ==> c == values[name]
      ensures name !in values ==> c == Default
    {
      if name in values then values[name] else Default
    }

    method Put(name: string, config: FoodConfig)
      modifies this
      ensures values == old(values)[name := config]
      ensures Get(name) == config
      ensures forall n :: n != name ==> Get(n) == old(Get(n))
    {
      values := values[name := config];
    }

    method Clear()
      modifies this
      ensures values == map[]
      ensures forall n :: Get(n) == Default
    {
      values := map[];
    }
  }

  /** storedConfig: the stored config for a name, the default one for a name never loaded. */
  function StoredConfig(storage: FoodConfigStorage, name: string): (c: FoodConfig)
    reads storage
    ensures name !in storage.values ==> c == Default
    ensures name in storage.values ==> c == storage.values[name]
  {
    storage.Get(name)
  }

  /** A registered listener, identified by its position of registration. */
  type Listener = nat

  /** One call `listener.init(name, config)`. */
  datatype Notification = Notification(listener: Listener, name: string, config: FoodConfig)

  /** The calls the invoker makes for one `(name, config)`: one per listener, in array order. */
  function Fanout(listeners: seq<Listener>, name: string, config: FoodConfig): (calls: seq<Notification>)
    ensures |calls| == |listeners|
    decreases |listeners|
  {
    if listeners == [] then []
    else Fanout(listeners[..|listeners| - 1], name, config) + [Notification(listeners[|listeners| - 1], name, config)]
  }

  /** The fan-out calls every listener exactly once, in array order, with the same name and config. */
  lemma {:induction false} FanoutAt(listeners: seq<Listener>, name: string, config: FoodConfig)
    ensures forall i :: 0 <= i < |listeners| ==> Fanout(listeners, name, config)[i] == Notification(listeners[i], name, config)
    decreases |listeners|
  {
    if listeners != [] {
      var init := listeners[..|listeners| - 1];
      FanoutAt(init, name, config);
      assert forall i :: 0 <= i < |init| ==> init[i] == listeners[i];
    }
  }

  /** The array-backed ComponentInitializeCallback event; `delivered` records every listener call made so far. */
  class InitializeEvent {
    const listeners: seq<Listener>
    var delivered: seq<Notification>

    constructor (listeners: seq<Listener>)
      ensures this.listeners == listeners && delivered == []
    {
      this.listeners := listeners;
      delivered := [];
    }

    /** The invoker: `listeners.forEach { it.init(name, config) }`. */
    method Invoke(name: string, config: FoodConfig)
      modifies this
      ensures delivered == old(delivered) + Fanout(listeners, name, config)
    {
      for i := 0 to |listeners|
        invariant delivered == old(delivered) + Fanout(listeners[..i], name, config)
      {
        assert listeners[..i + 1][..i] == listeners[..i];
        delivered := delivered + [Notification(listeners[i], name, config)];
      }
      assert listeners[..|listeners|] == listeners;
    }
  }

  /** A config resource found under `config/`: its identifier and its decoded JSON object. */
  datatype Resource = Resource(id: Identifier, json: JsonObject)

  /** What `process` makes of a resource: its storage name and its parsed config. */
  function ProcessResult(r: Resource, catalogue: Catalogue): (result: Result<FoodConfig, ConfigError>)
    ensures result.Success? <==> Accepted(r.json, catalogue)
  {
    ParseSucceedsIff(r.json, StorageName(r.id), catalogue);
    Parse(r.json, StorageName(r.id), catalogue)
  }

  /** What `process` makes of one resource: the name it is stored under and the parse outcome. */
  datatype Processed = Processed(name: string, result: Result<FoodConfig, ConfigError>)

  /** The resources of a reload, each paired with what processing it yields, in order. */
  function Processing(rs: seq<Resource>, catalogue: Catalogue): (ps: seq<Processed>)
    ensures |ps| == |rs|
    ensures forall i :: 0 <= i < |rs| ==> ps[i] == Processed(StorageName(rs[i].id), ProcessResult(rs[i], catalogue))
  {
    seq(|rs|, i requires 0 <= i < |rs| => Processed(StorageName(rs[i].id), ProcessResult(rs[i], catalogue)))
  }

  /** The state a reload leaves behind and the error it stops at, if any. */
  datatype ReloadOutcome = ReloadOutcome(values: map<string, FoodConfig>, delivered: seq<Notification>, error: Option<ConfigError>)

  /**
   * Processing the files `ps` in order from storage `values` and call log
   * `delivered`: each file is stored and then announced; the first file that
   * fails stops the reload, and the files before it stay stored.
   */
  function ReloadFrom(ps: seq<Processed>, listeners: seq<Listener>,
                      values: map<string, FoodConfig>, delivered: seq<Notification>): (out: ReloadOutcome)
    ensures |delivered| <= |out.delivered|
    decreases |ps|
  {
    if ps == [] then ReloadOutcome(values, delivered, None)
    else
      match ps[0].result
      case Failure(e) => ReloadOutcome(values, delivered, Some(e))
      case Success(c) =>
        ReloadFrom(ps[1..], listeners, values[ps[0].name := c], delivered + Fanout(listeners, ps[0].name, c))
  }

  /** The storage names of a list of processed files. */
  function Names(ps: seq<Processed>): set<string> {
    set p | p in ps :: p.name
  }

  lemma NamesSplit(ps: seq<Processed>)
    requires ps != []
    ensures Names(ps) == {ps[0].name} + Names(ps[1..])
  {
    assert ps == [ps[0]] + ps[1..];
    forall p | p in ps ensures p == ps[0] || p in ps[1..] {
    }
  }

  /** A completed reload stores the name of every file it processed. */
  lemma {:induction false} ReloadStoresEveryName(ps: seq<Processed>, listeners: seq<Listener>,
                                                 values: map<string, FoodConfig>, delivered: seq<Notification>)
    requires ReloadFrom(ps, listeners, values, delivered).error.None?
    ensures values.Keys + Names(ps) <= ReloadFrom(ps, listeners, values, delivered).values.Keys
    decreases |ps|
  {
    if ps != [] {
      var c := ps[0].result.value;
      NamesSplit(ps);
      ReloadStoresEveryName(ps[1..], listeners, values[ps[0].name := c], delivered + Fanout(listeners, ps[0].name, c));
    }
  }

  /** A reload only adds names of the files it processes: nothing else enters the storage. */
  lemma {:induction false} ReloadNamesFromResources(ps: seq<Processed>, listeners: seq<Listener>,
                                                    values: map<string, FoodConfig>, delivered: seq<Notification>)
    ensures ReloadFrom(ps, listeners, values, delivered).values.Keys <= values.Keys + Names(ps)
    decreases |ps|
  {
    if ps != [] {
      match ps[0].result
      case Failure(e) =>
      case Success(c) =>
        ReloadNamesFromResources(ps[1..], listeners, values[ps[0].name := c], delivered + Fanout(listeners, ps[0].name, c));
        NamesSplit(ps);
    }
  }

  /** A reload completes exactly when every file is processed successfully. */
  lemma {:induction false} ReloadCompletesIff(ps: seq<Processed>, listeners: seq<Listener>,
                                              values: map<string, FoodConfig>, delivered: seq<Notification>)
    ensures ReloadFrom(ps, listeners, values, delivered).error.None? <==>
            forall i :: 0 <= i < |ps| ==> ps[i].result.Success?
    decreases |ps|
  {
    if ps != [] {
      match ps[0].result
      case Failure(e) =>
      case Success(c) =>
        ReloadCompletesIff(ps[1..], listeners, values[ps[0].name := c], delivered + Fanout(listeners, ps[0].name, c));
        assert forall i :: 1 <= i < |ps| ==> ps[i] == ps[1..][i - 1];
    }
  }

  /**
   * A reload that stops reports the error of the first failing file, and
   * leaves behind exactly the state of processing the files before it.
   */
  lemma {:induction false} ReloadStopsAtFirstFailure(ps: seq<Processed>, listeners: seq<Listener>,
                                                     values: map<string, FoodConfig>, delivered: seq<Notification>)
    requires ReloadFrom(ps, listeners, values, delivered).error.Some?
    ensures var out := ReloadFrom(ps, listeners, values, delivered);
            exists k :: && 0 <= k < |ps|
                        && (forall j :: 0 <= j < k ==> ps[j].result.Success?)
                        && ps[k].result == Failure(out.error.value)
                        && ReloadFrom(ps[..k], listeners, values, delivered) == out.(error := None)
    decreases |ps|
  {
    var out := ReloadFrom(ps, listeners, values, delivered);
    match ps[0].result
    case Failure(e) =>
      assert ps[..0] == [];
      assert ps[0].result == Failure(out.error.value);
    case Success(c) =>
      var values', delivered' := values[ps[0].name := c], delivered + Fanout(listeners, ps[0].name, c);
      ReloadStopsAtFirstFailure(ps[1..], listeners, values', delivered');
      var k :| && 0 <= k < |ps[1..]|
               && (forall j :: 0 <= j < k ==> ps[1..][j].result.Success?)
               && ps[1..][k].result == Failure(out.error.value)
               && ReloadFrom(ps[1..][..k], listeners, values', delivered') == out.(error := None);
      assert ps[..k + 1][0] == ps[0] && ps[..k + 1][1..] == ps[1..][..k];
      assert ps[k + 1] == ps[1..][k];
      forall j | 1 <= j < k + 1 ensures ps[j].result.Success? {
        assert ps[j] == ps[1..][j - 1];
      }
      assert ReloadFrom(ps[..k + 1], listeners, values, delivered) == out.(error := None);
  }

  /** A reload only appends to the call log. */
  lemma {:induction false} ReloadExtendsLog(ps: seq<Processed>, listeners: seq<Listener>,
                                            values: map<string, FoodConfig>, delivered: seq<Notification>)
    ensures var log := ReloadFrom(ps, listeners, values, delivered).delivered;
            |delivered| <= |log| && log[..|delivered|] == delivered
    decreases |ps|
  {
    if ps != [] {
      match ps[0].result
      case Failure(e) =>
      case Success(c) =>
        var delivered' := delivered + Fanout(listeners, ps[0].name, c);
        ReloadExtendsLog(ps[1..], listeners, values[ps[0].name := c], delivered');
        var log := ReloadFrom(ps, listeners, values, delivered).delivered;
        assert log[..|delivered'|][..|delivered|] == log[..|delivered|];
    }
  }

  /** The listener calls for a list of successfully processed files, file after file. */
  function Announcements(ps: seq<Processed>, listeners: seq<Listener>): seq<Notification>
    requires forall i :: 0 <= i < |ps| ==> ps[i].result.Success?
    decreases |ps|
  {
    if ps == [] then []
    else Fanout(listeners, ps[0].name, ps[0].result.value) + Announcements(ps[1..], listeners)
  }

  /** A completed reload appends exactly the announcements of its files to the call log. */
  lemma {:induction false} ReloadLog(ps: seq<Processed>, listeners: seq<Listener>,
                                     values: map<string, FoodConfig>, delivered: seq<Notification>)
    requires forall i :: 0 <= i < |ps| ==> ps[i].result.Success?
    ensures ReloadFrom(ps, listeners, values, delivered).delivered == delivered + Announcements(ps, listeners)
    decreases |ps|
  {
    if ps != [] {
      var name, c := ps[0].name, ps[0].result.value;
      assert forall i :: 0 <= i < |ps[1..]| ==> ps[1..][i] == ps[i + 1];
      ReloadLog(ps[1..], listeners, values[name := c], delivered + Fanout(listeners, name, c));
      assert delivered + Fanout(listeners, name, c) + Announcements(ps[1..], listeners)
          == delivered + (Fanout(listeners, name, c) + Announcements(ps[1..], listeners));
    }
  }

  /** Announcing one more file appends that file's fan-out. */
  lemma {:induction false} AnnouncementsSnoc(ps: seq<Processed>, listeners: seq<Listener>)
    requires ps != []
    requires forall i :: 0 <= i < |ps| ==> ps[i].result.Success?
    ensures Announcements(ps, listeners) ==
            Announcements(ps[..|ps| - 1], listeners) + Fanout(listeners, ps[|ps| - 1].name, ps[|ps| - 1].result.value)
    decreases |ps|
  {
    var last := ps[|ps| - 1];
    var fanLast := Fanout(listeners, last.name, last.result.value);
    if |ps| == 1 {
      assert ps[..0] == [];
      assert Announcements(ps, listeners) == fanLast + [];
    } else {
      var tail, init := ps[1..], ps[..|ps| - 1];
      assert forall i :: 0 <= i < |tail| ==> tail[i].result.Success? by {
        forall i | 0 <= i < |tail| ensures tail[i].result.Success? {
          assert tail[i] == ps[i + 1];
        }
      }
      assert forall i :: 0 <= i < |init| ==> init[i].result.Success? by {
        forall i | 0 <= i < |init| ensures init[i].result.Success? {
          assert init[i] == ps[i];
        }
      }
      assert tail[|tail| - 1] == last;
      AnnouncementsSnoc(tail, listeners);
      var mid := tail[..|tail| - 1];
      assert init[1..] == mid && init[0] == ps[0];
      var fanFirst := Fanout(listeners, ps[0].name, ps[0].result.value);
      assert Announcements(init, listeners) == fanFirst + Announcements(mid, listeners);
      assert Announcements(ps, listeners) == fanFirst + (Announcements(mid, listeners) + fanLast);
      assert fanFirst + (Announcements(mid, listeners) + fanLast) == (fanFirst + Announcements(mid, listeners)) + fanLast;
    }
  }

  /**
   * In a completed reload, processing file `i` appends to the call log
   * exactly one call per listener, in listener order, with the name the file
   * is stored under and the config it was parsed into.
   */
  lemma ReloadAnnouncesInOrder(ps: seq<Processed>, listeners: seq<Listener>,
                               values: map<string, FoodConfig>, delivered: seq<Notification>, i: nat)
    requires ReloadFrom(ps, listeners, values, delivered).error.None?
    requires i < |ps|
    ensures ps[i].result.Success?
    ensures ReloadFrom(ps[..i + 1], listeners, values, delivered).delivered ==
            ReloadFrom(ps[..i], listeners, values, delivered).delivered + Fanout(listeners, ps[i].name, ps[i].result.value)
  {
    ReloadCompletesIff(ps, listeners, values, delivered);
    var pre, pre1 := ps[..i], ps[..i + 1];
    assert pre1[..|pre1| - 1] == pre && pre1[|pre1| - 1] == ps[i];
    assert forall k :: 0 <= k < |pre1| ==> pre1[k].result.Success? by {
      forall k | 0 <= k < |pre1| ensures pre1[k].result.Success? {
        assert pre1[k] == ps[k];
      }
    }
    var fan := Fanout(listeners, ps[i].name, ps[i].result.value);
    ReloadLog(pre, listeners, values, delivered);
    ReloadLog(pre1, listeners, values, delivered);
    AnnouncementsSnoc(pre1, listeners);
    assert delivered + (Announcements(pre, listeners) + fan) == (delivered + Announcements(pre, listeners)) + fan;
  }

  /** A completed reload leaves the entries of names that no file gives as they were. */
  lemma {:induction false} ReloadKeepsOtherNames(ps: seq<Processed>, listeners: seq<Listener>,
                                                 values: map<string, FoodConfig>, delivered: seq<Notification>, name: string)
    requires ReloadFrom(ps, listeners, values, delivered).error.None?
    requires name in values && name !in Names(ps)
    ensures var stored := ReloadFrom(ps, listeners, values, delivered).values;
            name in stored && stored[name] == values[name]
    decreases |ps|
  {
    if ps != [] {
      var c := ps[0].result.value;
      NamesSplit(ps);
      ReloadKeepsOtherNames(ps[1..], listeners, values[ps[0].name := c], delivered + Fanout(listeners, ps[0].name, c), name);
    }
  }

  /** No later file in `ps` has the name of file `i`. */
  ghost predicate LastWithName(ps: seq<Processed>, i: int)
    requires 0 <= i < |ps|
  {
    forall j :: i < j < |ps| ==> ps[j].name != ps[i].name
  }

  /**
   * After a completed reload the name of file `i` is stored and, when no later
   * file has the same name, holds the config file `i` was parsed into.
   */
  lemma {:induction false} ReloadStoresLastConfig(ps: seq<Processed>, listeners: seq<Listener>,
                                                  values: map<string, FoodConfig>, delivered: seq<Notification>, i: nat)
    requires ReloadFrom(ps, listeners, values, delivered).error.None?
    requires i < |ps| && LastWithName(ps, i)
    ensures ps[i].result.Success?
    ensures var stored := ReloadFrom(ps, listeners, values, delivered).values;
            ps[i].name in stored && stored[ps[i].name] == ps[i].result.value
    decreases |ps|
  {
    ReloadCompletesIff(ps, listeners, values, delivered);
    var name, c := ps[0].name, ps[0].result.value;
    var values', delivered' := values[name := c], delivered + Fanout(listeners, name, c);
    if i == 0 {
      forall p | p in ps[1..] ensures p.name != name {
        var j :| 0 <= j < |ps[1..]| && ps[1..][j] == p;
        assert ps[j + 1] == p;
      }
      assert name !in Names(ps[1..]);
      ReloadKeepsOtherNames(ps[1..], listeners, values', delivered', name);
    } else {
      assert ps[i] == ps[1..][i - 1];
      forall j | i - 1 < j < |ps[1..]| ensures ps[1..][j].name != ps[1..][i - 1].name {
        assert ps[1..][j] == ps[j + 1];
      }
      ReloadStoresLastConfig(ps[1..], listeners, values', delivered', i - 1);
    }
  }

  /** The (re)loader: owns the storage it rebuilds and the event it fires. */
  class FoodConfigReloader {
    const storage: FoodConfigStorage
    const event: InitializeEvent
    /** FoodCategory.fromString's table of categories. */
    const catalogue: Catalogue

    constructor (storage: FoodConfigStorage, event: InitializeEvent, catalogue: Catalogue)
      ensures this.storage == storage && this.event == event && this.catalogue == catalogue
    {
      this.storage := storage;
      this.event := event;
      this.catalogue := catalogue;
    }

    /** `process`: parse the file, store the config under its name, then announce it to every listener. */
    method Process(r: Resource) returns (error: Option<ConfigError>)
      modifies storage, event
      ensures var name := StorageName(r.id);
              match ProcessResult(r, catalogue)
              case Failure(e) =>
                error == Some(e) && storage.values == old(storage.values) && event.delivered == old(event.delivered)
              case Success(c) =>
                && error == None
                && storage.values == old(storage.values)[name := c]
                && event.delivered == old(event.delivered) + Fanout(event.listeners, name, c)
    {
      var name := StorageName(r.id);
      match ProcessResult(r, catalogue)
      case Failure(e) =>
        error := Some(e);
      case Success(config) =>
        storage.Put(name, config);
        event.Invoke(name, config);
        error := None;
    }

    /**
     * `reload`: clear the storage, then process every resource in order; a
     * failing file stops the reload with its error.
     */
    method Reload(resources: seq<Resource>) returns (error: Option<ConfigError>)
      modifies storage, event
      ensures var out := ReloadFrom(Processing(resources, catalogue), event.listeners, map[], old(event.delivered));
              storage.values == out.values && event.delivered == out.delivered && error == out.error
      ensures storage.values.Keys <= Names(Processing(resources, catalogue))
      ensures forall n :: n !in Names(Processing(resources, catalogue)) ==> storage.Get(n) == Default
      ensures error.None? ==> storage.values.Keys == Names(Processing(resources, catalogue))
    {
      storage.Clear();
      ghost var log0 := event.delivered;
      ghost var ps := Processing(resources, catalogue);
      ReloadNamesFromResources(ps, event.listeners, map[], log0);
      var i := 0;
      while i < |resources|
        invariant 0 <= i <= |resources|
        invariant ReloadFrom(ps, event.listeners, map[], log0) ==
                  ReloadFrom(ps[i..], event.listeners, storage.values, event.delivered)
      {
        assert ps[i..][1..] == ps[i + 1..];
        error := Process(resources[i]);
        if error.Some? {
          return;
        }
        i := i + 1;
      }
      error := None;
      ReloadStoresEveryName(ps, event.listeners, map[], log0);
    }
  }
}
