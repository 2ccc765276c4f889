/** Profile requests: each changes the configuration, a cache file, the generated file and the running
    core, and takes back what it did when a later step fails. */
module Profiles {
  import opened ConfigModel
  import opened PoolOps
  import opened Generation
  import opened Names
  import opened Text
  import opened Wrappers
  import Validation

  // ---- the stores and what ties them together ----

  const PREFIX := "subscriptions/"
  const SUFFIX := ".yaml"

  function CachePath(id: string): string
  {
    PREFIX + id + SUFFIX
  }

  lemma CachePathInjective(a: string, b: string)
    requires CachePath(a) == CachePath(b)
    ensures a == b
  {
    assert |CachePath(a)| == |PREFIX| + |a| + |SUFFIX|;
    assert CachePath(a)[|PREFIX|..|PREFIX| + |a|] == a;
    assert CachePath(b)[|PREFIX|..|PREFIX| + |b|] == b;
  }

  /** The bytes of the sources at the time the core reads its configuration. */
  datatype Loaded = Loaded(output: Output, contents: seq<Option<string>>)

  function Load(output: Output, caches: map<string, string>): Loaded
  {
    Loaded(output, seq(|output.sources|, i requires 0 <= i < |output.sources| =>
      if output.sources[i] in caches then Some(caches[output.sources[i]]) else None))
  }

  /** What a core has read tells the settings and the bytes of every source: it is the same for the same, and for
      nothing else. */
  lemma LoadTells(o: Output, caches: map<string, string>, p: Output, others: map<string, string>)
    ensures Load(o, caches) == Load(p, others)
            <==>
            && o == p
            && forall source | source in o.sources ::
                 && (source in caches <==> source in others)
                 && (source in caches ==> caches[source] == others[source])
  {
    if Load(o, caches) == Load(p, others) {
      forall source | source in o.sources
        ensures (source in caches <==> source in others) && (source in caches ==> caches[source] == others[source])
      {
        var i :| 0 <= i < |o.sources| && o.sources[i] == source;
        assert Load(o, caches).contents[i] == Load(p, others).contents[i];
      }
    }
  }

  ghost predicate CacheOk(s: Subscription, caches: map<string, string>, digest: string -> string)
  {
    && s.cacheFile == CachePath(s.id) && s.cacheFile in caches
    && caches[s.cacheFile] != "" && digest(caches[s.cacheFile]) == s.digest
  }

  ghost predicate CachesOk(subs: seq<Subscription>, caches: map<string, string>, digest: string -> string)
  {
    forall i | 0 <= i < |subs| :: CacheOk(subs[i], caches, digest)
  }

  /** The pool is the profile pool, some profile is active if there is any, every cache is intact. */
  ghost predicate ProfilesOk(c: Config, caches: map<string, string>, digest: string -> string)
  {
    && Valid(c) && !NeedsNormalization(c)
    && (c.active == -1 <==> c.subscriptions == [])
    && CachesOk(c.subscriptions, caches, digest)
  }

  /** The generated file is that of the configuration, and what a running core has read. */
  ghost predicate InForce(c: Config, caches: map<string, string>, generated: Option<Output>,
                          running: bool, loaded: Option<Loaded>)
  {
    && (c.subscriptions != [] ==> generated == Generate(c, caches.Keys))
    && (running ==> c.subscriptions != [] && generated.Some? && loaded == Some(Load(generated.value, caches)))
  }

  function ActiveOutput(c: Config): Output
    requires 0 <= c.active < |c.subscriptions|
  {
    OutputOf(c, true, [c.subscriptions[c.active].cacheFile])
  }

  lemma GeneratesActive(c: Config, caches: map<string, string>, digest: string -> string)
    requires ProfilesOk(c, caches, digest) && c.subscriptions != []
    ensures 0 <= c.active < |c.subscriptions|
    ensures Generate(c, caches.Keys) == Some(ActiveOutput(c))
  {
    hide NeedsNormalization, Generate, SettingsOk, BuiltInsOk, ProvidersOk, PoolsOk, IsMatchRule;
    ProfileGeneration(c, caches.Keys);
    assert CacheOk(c.subscriptions[c.active], caches, digest);
    var path := c.subscriptions[c.active].cacheFile;
    assert |path| > 0;
  }

  // ---- what each request makes of the profiles ----

  function Imported(c: Config, s: Subscription): Config
  {
    var subs := c.subscriptions + [s];
    Normalize(c.(subscriptions := subs, active := if c.active < 0 then |subs| - 1 else c.active))
  }

  function Activated(c: Config, i: int): Config
  {
    Normalize(c.(active := i))
  }

  function Refreshed(c: Config, i: nat, digest: string): Config
    requires i < |c.subscriptions|
  {
    var s := c.subscriptions[i];
    c.(subscriptions := c.subscriptions[i := s.(cacheFile := CachePath(s.id), digest := digest, failureCount := 0)])
  }

  function Renamed(c: Config, i: nat, name: string): Config
    requires i < |c.subscriptions|
  {
    c.(subscriptions := c.subscriptions[i := c.subscriptions[i].(name := name)])
  }

  function Deleted(c: Config, i: nat): Config
    requires i < |c.subscriptions|
  {
    match RemoveSubscription(c, c.subscriptions[i].name)
    case Changed(d) => Normalize(d)
    case _ => c
  }

  /** One profile has the digest of the new bytes and no failures, and the path of its ID; nothing else has changed. */
  ghost predicate RefreshedMeans(now: Config, was: Config, i: int, digest: string)
  {
    && now == was.(version := now.version, subscriptions := now.subscriptions)
    && |now.subscriptions| == |was.subscriptions| && 0 <= i < |was.subscriptions|
    && (forall j | 0 <= j < |was.subscriptions| && j != i :: now.subscriptions[j] == was.subscriptions[j])
    && var s, t := was.subscriptions[i], now.subscriptions[i];
    && t == s.(cacheFile := t.cacheFile, digest := digest, failureCount := 0)
    && t.cacheFile == "subscriptions/" + s.id + ".yaml"
  }

  lemma RefreshMeans(c: Config, i: nat, digest: string, version: int)
    requires i < |c.subscriptions|
    ensures RefreshedMeans(Refreshed(c, i, digest).(version := version), c, i, digest)
  {
  }

  /** Versions are of no consequence to anything but the next commit. */
  lemma VersionIsFree(c: Config, version: int, caches: map<string, string>, digest: string -> string)
    ensures ProfilesOk(c, caches, digest) ==> ProfilesOk(c.(version := version), caches, digest)
    ensures Valid(c) ==> Valid(c.(version := version))
    ensures Generate(c.(version := version), caches.Keys) == Generate(c, caches.Keys)
  {
    hide SettingsOk, SubscriptionsOk, BuiltInsOk, ProvidersOk, PoolsOk, IsMatchRule, AllSources;
  }

  lemma NormalizedNeedsNothing(c: Config)
    ensures !NeedsNormalization(Normalize(c))
  {
  }

  lemma ImportKeepsProfiles(c: Config, s: Subscription, caches: map<string, string>, content: string, digest: string -> string)
    requires ProfilesOk(c, caches, digest) && Valid(Imported(c, s))
    requires s.cacheFile == CachePath(s.id) && s.cacheFile !in caches && content != "" && s.digest == digest(content)
    ensures ProfilesOk(Imported(c, s), caches[s.cacheFile := content], digest)
    ensures c.active >= 0 ==> Imported(c, s).active == c.active && ActiveOutput(Imported(c, s)) == ActiveOutput(c)
  {
    hide SettingsOk, SubscriptionsOk, BuiltInsOk, ProvidersOk, PoolsOk, IsMatchRule;
    NormalizedNeedsNothing(c.(subscriptions := c.subscriptions + [s],
                              active := if c.active < 0 then |c.subscriptions| else c.active));
    var next := caches[s.cacheFile := content];
    forall i | 0 <= i < |Imported(c, s).subscriptions|
      ensures CacheOk(Imported(c, s).subscriptions[i], next, digest)
    {
      if i < |c.subscriptions| {
        assert CacheOk(c.subscriptions[i], caches, digest);
      }
    }
  }

  lemma ActivateKeepsProfiles(c: Config, i: nat, caches: map<string, string>, digest: string -> string)
    requires ProfilesOk(c, caches, digest) && i < |c.subscriptions| && Valid(Activated(c, i))
    ensures ProfilesOk(Activated(c, i), caches, digest)
  {
    hide SettingsOk, SubscriptionsOk, BuiltInsOk, ProvidersOk, PoolsOk, IsMatchRule;
    NormalizedNeedsNothing(c.(active := i));
  }

  lemma SameIdsNeedNothing(c: Config, d: Config)
    requires !NeedsNormalization(c) && d == c.(subscriptions := d.subscriptions)
    requires |d.subscriptions| == |c.subscriptions|
    requires forall i | 0 <= i < |c.subscriptions| :: d.subscriptions[i].id == c.subscriptions[i].id
    ensures !NeedsNormalization(d)
  {
    assert Ids(d.subscriptions) == Ids(c.subscriptions);
  }

  lemma RefreshKeepsProfiles(c: Config, i: nat, caches: map<string, string>, content: string, digest: string -> string)
    requires ProfilesOk(c, caches, digest) && i < |c.subscriptions| && content != ""
    requires Valid(Refreshed(c, i, digest(content)))
    ensures var d, path := Refreshed(c, i, digest(content)), CachePath(c.subscriptions[i].id);
            && ProfilesOk(d, caches[path := content], digest)
            && 0 <= c.active && d.active == c.active && ActiveOutput(d) == ActiveOutput(c)
            && (c.active != i ==> Load(ActiveOutput(c), caches[path := content]) == Load(ActiveOutput(c), caches))
  {
    hide SettingsOk, BuiltInsOk, ProvidersOk, PoolsOk, IsMatchRule, NeedsNormalization;
    var d, path := Refreshed(c, i, digest(content)), CachePath(c.subscriptions[i].id);
    SameIdsNeedNothing(c, d);
    assert CacheOk(c.subscriptions[i], caches, digest);
    forall j | 0 <= j < |c.subscriptions|
      ensures CacheOk(d.subscriptions[j], caches[path := content], digest)
      ensures j != i ==> c.subscriptions[j].cacheFile != path
    {
      assert CacheOk(c.subscriptions[j], caches, digest);
      if j != i && c.subscriptions[j].cacheFile == path {
        CachePathInjective(c.subscriptions[j].id, c.subscriptions[i].id);
      }
    }
  }

  lemma RenameKeepsProfiles(c: Config, i: nat, name: string, caches: map<string, string>, digest: string -> string)
    requires ProfilesOk(c, caches, digest) && i < |c.subscriptions| && Valid(Renamed(c, i, name))
    ensures var d := Renamed(c, i, name);
            ProfilesOk(d, caches, digest) && 0 <= c.active && d.active == c.active && ActiveOutput(d) == ActiveOutput(c)
  {
    hide SettingsOk, SubscriptionsOk, BuiltInsOk, ProvidersOk, PoolsOk, IsMatchRule, NeedsNormalization;
    SameIdsNeedNothing(c, Renamed(c, i, name));
    assert forall j | 0 <= j < |c.subscriptions| :: CacheOk(c.subscriptions[j], caches, digest);
  }

  lemma DeleteKeepsProfiles(c: Config, i: nat, caches: map<string, string>, digest: string -> string)
    requires ProfilesOk(c, caches, digest) && i < |c.subscriptions| && Valid(Deleted(c, i))
    ensures var d, path := Deleted(c, i), c.subscriptions[i].cacheFile;
            && ProfilesOk(d, caches, digest) && ProfilesOk(d, caches - {path}, digest)
            && d.subscriptions == RemoveAt(c.subscriptions, i)
            && (d.subscriptions != [] ==>
                  && 0 <= d.active < |d.subscriptions| && 0 <= c.active
                  && d.subscriptions[d.active].cacheFile != path)
            && (c.active != i ==> 0 <= c.active && d.subscriptions != [] && ActiveOutput(d) == ActiveOutput(c))
  {
    hide SettingsOk, BuiltInsOk, ProvidersOk, PoolsOk, IsMatchRule, SubscriptionOk;
    var name := c.subscriptions[i].name;
    assert FindByName(c.subscriptions, name) == i;
    var removed := RemoveSubscription(c, name).config;
    var d, path := Deleted(c, i), c.subscriptions[i].cacheFile;
    RemovalKeepsActive(c, name);
    NormalizedNeedsNothing(removed);
    forall j | 0 <= j < |d.subscriptions|
      ensures CacheOk(d.subscriptions[j], caches, digest) && d.subscriptions[j].cacheFile != path
    {
      var k := if j < i then j else j + 1;
      assert d.subscriptions[j] == c.subscriptions[k];
      assert CacheOk(c.subscriptions[k], caches, digest) && CacheOk(c.subscriptions[i], caches, digest);
      if c.subscriptions[k].cacheFile == path {
        CachePathInjective(c.subscriptions[k].id, c.subscriptions[i].id);
      }
    }
  }

  /** A change that leaves the active output and its bytes alone needs no generation and no reload. */
  lemma StaysInForce(c: Config, caches: map<string, string>, d: Config, next: map<string, string>,
                     digest: string -> string, generated: Option<Output>, running: bool, loaded: Option<Loaded>)
    requires ProfilesOk(c, caches, digest) && ProfilesOk(d, next, digest) && 0 <= c.active && 0 <= d.active
    requires InForce(c, caches, generated, running, loaded)
    requires -1 <= c.active < |c.subscriptions| && -1 <= d.active < |d.subscriptions|
    requires ActiveOutput(d) == ActiveOutput(c) && Load(ActiveOutput(c), next) == Load(ActiveOutput(c), caches)
    ensures InForce(d, next, generated, running, loaded)
  {
    hide Valid, Generate, NeedsNormalization, CachesOk;
    NonEmpty(c);
    NonEmpty(d);
    GeneratesActive(c, caches, digest);
    GeneratesActive(d, next, digest);
  }

  lemma ActiveInRange(c: Config, caches: map<string, string>, digest: string -> string)
    requires ProfilesOk(c, caches, digest)
    ensures Valid(c) && -1 <= c.active < |c.subscriptions| && (c.active == -1 <==> c.subscriptions == [])
    ensures c.active >= 0 ==> Generate(c, caches.Keys) == Some(ActiveOutput(c)) && ActiveOutput(c).sources[0] in caches
  {
    hide SettingsOk, BuiltInsOk, ProvidersOk, PoolsOk, IsMatchRule, NeedsNormalization, Generate;
    if c.active >= 0 {
      NonEmpty(c);
      GeneratesActive(c, caches, digest);
      assert CacheOk(c.subscriptions[c.active], caches, digest);
    }
  }

  // ---- the requests ----

  /** How the steps of one request turn out. Steps that take something back are assumed to work. */
  datatype Fate = Fate(cached: bool, committed: bool, generated: Replacement, reloaded: bool)

  /** Done; refused, with nothing to take back; or failed, with everything taken back. */
  datatype Result = Done | Rejected | Undone

  class Manager {
    const digest: string -> string
    /** The core is a service of the system, or else a child of the daemon. */
    const service: bool
    var config: Config
    var caches: map<string, string>
    var generated: Option<Output>
    var running: bool
    var loaded: Option<Loaded>

    ghost predicate Ok()
      reads this
    {
      ProfilesOk(config, caches, digest) && InForce(config, caches, generated, running, loaded)
    }

    /** As if the request had never been made, but for the version. */
    twostate predicate TakenBack()
      reads this
    {
      && config == old(config).(version := config.version)
      && caches == old(caches) && running == old(running) && loaded == old(loaded)
      && (old(config).subscriptions != [] ==> generated == old(generated))
    }

    /** Before the first profile is imported. */
    constructor (empty: Config, digest: string -> string, service: bool)
      requires Valid(empty) && empty.subscriptions == [] && empty.pools == []
      ensures Ok() && config == empty && caches == map[] && !running
    {
      config, this.digest, this.service := empty, digest, service;
      caches, generated, running, loaded := map[], None, false, None;
    }

    /** Starting the core generates the file first; there has to be a profile for that. A service that is active
        already stays as it is, while a child must not be. A core that is not healthy in time is stopped again,
        even if it had been running before. `checked` stands for the core's own check of the file and for TUN. */
    method StartCore(generates: Replacement, checked: bool, starts: bool, healthyInTime: bool) returns (r: Result)
      requires Ok()
      modifies this
      ensures Ok() && config == old(config) && caches == old(caches)
      ensures r.Rejected? <==>
                !(generates.Replaced? && config.active >= 0 && checked && if old(running) then service else starts)
      ensures r.Rejected? ==> running == old(running) && loaded == old(loaded)
      ensures r.Done? <==> !r.Rejected? && healthyInTime
      ensures r.Done? ==> running && loaded == Some(Load(ActiveOutput(config), caches))
      ensures r.Undone? ==> !running
    {
      hide Valid, Generate, NeedsNormalization, CachesOk, Load;
      ActiveInRange(config, caches, digest);
      if config.active < 0 {
        NoProfilesNoPool(config);
        NoneGenerated(config, caches.Keys);
      }
      var ok := WriteGenerated(generates);
      if !ok || !checked || (if running then !service else !starts) {
        return Rejected;
      }
      if !running {
        running := true;
        var read := Reload(true);
      }
      if !healthyInTime {
        StopCore();
        return Undone;
      }
      r := Done;
    }

    method StopCore()
      requires Ok()
      modifies this
      ensures Ok() && !running && config == old(config) && caches == old(caches) && generated == old(generated)
    {
      hide Valid, Generate, NeedsNormalization, CachesOk, Load;
      running, loaded := false, None;
    }

    /** Validate, write, swap. */
    method Commit(next: Config, written: bool) returns (ok: bool)
      modifies `config
      ensures ok <==> Valid(next) && written
      ensures config == if ok then next.(version := old(config.version) + 1) else old(config)
    {
      var problems := Validation.Validate(next);
      ok := problems == [] && written;
      if ok {
        config := next.(version := config.version + 1);
      }
    }

    /** Generation replaces the file, or fails and leaves it, or fails in the end and has replaced it. */
    method WriteGenerated(outcome: Replacement) returns (ok: bool)
      modifies `generated
      ensures ok <==> outcome.Replaced? && Generate(config, caches.Keys).Some?
      ensures generated == if Generate(config, caches.Keys).Some? && !outcome.KeptWithError?
                           then Generate(config, caches.Keys) else old(generated)
    {
      var output := Generate(config, caches.Keys);
      if output.Some? && !outcome.KeptWithError? {
        generated := output;
      }
      ok := outcome.Replaced? && output.Some?;
    }

    method Reload(works: bool) returns (ok: bool)
      requires generated.Some?
      modifies `loaded
      ensures ok == works
      ensures loaded == if ok then Some(Load(generated.value, caches)) else old(loaded)
    {
      ok := works;
      if ok {
        loaded := Some(Load(generated.value, caches));
      }
    }

    /** Puts the committed configuration in force, or goes back to the one before. */
    method ApplyProfileConfig(before: Config, fate: Fate) returns (ok: bool)
      requires Valid(before)
      requires running ==> Generate(before, caches.Keys).Some?
      modifies `config, `generated, `loaded
      ensures ok <==> fate.generated.Replaced? && Generate(old(config), caches.Keys).Some? && (running ==> fate.reloaded)
      ensures ok ==>
                && config == old(config) && generated == Generate(config, caches.Keys)
                && loaded == if running then Some(Load(generated.value, caches)) else old(loaded)
      ensures !ok ==>
                && config == before.(version := config.version)
                && generated == (if Generate(before, caches.Keys).Some? then Generate(before, caches.Keys)
                                 else if fate.generated.KeptWithError? || Generate(old(config), caches.Keys).None?
                                 then old(generated) else Generate(old(config), caches.Keys))
                && (loaded == old(loaded)
                    || (running && loaded == Some(Load(Generate(before, caches.Keys).value, caches))))
    {
      hide Valid, Generate;
      VersionIsFree(before, config.version + 1, caches, digest);
      VersionIsFree(before, config.version, caches, digest);
      ok := WriteGenerated(fate.generated);
      if !ok {
        var restored := Commit(before.(version := config.version), true);
        VersionIsFree(before, config.version, caches, digest);
        var regenerated := WriteGenerated(Replaced);
        return false;
      }
      if !running {
        return true;
      }
      ok := Reload(fate.reloaded);
      if !ok {
        GoBack(before);
      }
    }

    /** Back to the snapshot, its file and, if the core is running, to running on it. */
    method GoBack(before: Config)
      requires Valid(before) && (running ==> Generate(before, caches.Keys).Some?)
      modifies `config, `generated, `loaded
      ensures config == before.(version := config.version)
      ensures generated == if Generate(before, caches.Keys).Some? then Generate(before, caches.Keys) else old(generated)
      ensures loaded == if running then Some(Load(generated.value, caches)) else old(loaded)
    {
      hide Valid, Generate;
      VersionIsFree(before, config.version + 1, caches, digest);
      VersionIsFree(before, config.version, caches, digest);
      var restored := Commit(before.(version := config.version), true);
      VersionIsFree(before, config.version, caches, digest);
      var regenerated := WriteGenerated(Replaced);
      if running {
        var reloaded := Reload(true);
      }
    }

    /** A new profile from what was fetched; the first one becomes active and is applied. `derived` is the
        name the address suggests, `acceptable` whether the address is one to fetch from. */
    method Import(requested: string, derived: string, address: string, acceptable: bool, id: string,
                  fetched: Option<string>, fate: Fate) returns (r: Result)
      requires Ok()
      requires FindById(config.subscriptions, id) < 0 && CachePath(id) !in caches
      modifies this
      ensures Ok()
      ensures r.Done? ==>
                && fetched.Some? && acceptable
                && (forall s | s in old(config.subscriptions) :: s.url != Trim(address))
                && |config.subscriptions| == |old(config.subscriptions)| + 1
                && (var s := config.subscriptions[|config.subscriptions| - 1];
                    && config.subscriptions == old(config.subscriptions) + [s]
                    && s.id == id && s.url == Trim(address) && s.name !in Identifiers(old(config.subscriptions))
                    && exists i :: 1 <= i && s.name == Candidate(Base(requested, derived), i))
                && caches == old(caches)[CachePath(id) := fetched.value]
                && config.active == if old(config.active) < 0 then 0 else old(config.active)
      ensures !r.Done? ==> TakenBack()
    {
      hide ProfilesOk, InForce, CachePath, Candidate, Base, Trim;
      var before := config;
      var url := Trim(address);
      if !acceptable {
        return Rejected;
      }
      if (exists s | s in before.subscriptions :: s.url == url) || fetched.None? || fetched.value == "" || !fate.cached {
        return Rejected;
      }
      var path, content := CachePath(id), fetched.value;
      ghost var was := caches;
      var unique := UniqueSubscriptionName(requested, derived, before.subscriptions);
      caches := caches[path := content];
      r := AddProfile(was, Subscription(id, unique, url, "url", "", "", path, digest(content), 0), content, fate);
      if r.Undone? {
        caches := caches - {path};
        assert caches == was;
      }
    }

    /** The import once the cache is written: `was` are the caches without it. */
    method AddProfile(ghost was: map<string, string>, s: Subscription, content: string, fate: Fate) returns (r: Result)
      requires ProfilesOk(config, was, digest) && InForce(config, was, generated, running, loaded)
      requires s.cacheFile == CachePath(s.id) && s.cacheFile !in was && caches == was[s.cacheFile := content]
      requires content != "" && s.digest == digest(content)
      modifies `config, `generated, `loaded
      ensures r.Done? ==> Ok()
      ensures r.Done? ==>
                && config.subscriptions == old(config.subscriptions) + [s]
                && config.active == if old(config.active) < 0 then 0 else old(config.active)
      ensures !r.Done? ==>
                && r.Undone? && config == old(config).(version := config.version)
                && ProfilesOk(config, was, digest) && InForce(config, was, generated, running, loaded)
                && loaded == old(loaded) && (old(config).subscriptions != [] ==> generated == old(generated))
    {
      hide Valid, Generate, NeedsNormalization, CachesOk, CacheOk, Normalize, Load, CachePath;
      var before := config;
      ActiveInRange(before, was, digest);
      var ok := Commit(Imported(before, s), fate.committed);
      if !ok {
        return Undone;
      }
      ImportKeepsProfiles(before, s, was, content, digest);
      ImportedShape(before, s);
      VersionIsFree(Imported(before, s), config.version, caches, digest);
      ActiveInRange(config, caches, digest);
      if before.active >= 0 {
        LoadIgnoresNew(ActiveOutput(before), was, s.cacheFile, content);
        StaysInForce(before, was, config, caches, digest, generated, running, loaded);
        return Done;
      }
      ok := ApplyProfileConfig(before, fate);
      r := if ok then Done else Undone;
      VersionIsFree(before, config.version, was, digest);
    }

    method Activate(identifier: string, fate: Fate) returns (r: Result)
      requires Ok()
      modifies this
      ensures Ok()
      ensures r.Done? ==>
                && config.subscriptions == old(config.subscriptions) && caches == old(caches)
                && config.active == FindByIdentifier(config.subscriptions, identifier) >= 0
      ensures !r.Done? ==> TakenBack()
    {
      hide Valid, Generate, NeedsNormalization, CachesOk, Normalize, Load;
      var before := config;
      ActiveInRange(before, caches, digest);
      var i := FindByIdentifier(before.subscriptions, identifier);
      if i < 0 {
        return Rejected;
      }
      if before.active == i {
        return Done;
      }
      var ok := Commit(Activated(before, i), fate.committed);
      if !ok {
        return Undone;
      }
      ActivateKeepsProfiles(before, i, caches, digest);
      NormalizedShape(before.(active := i));
      VersionIsFree(Activated(before, i), config.version, caches, digest);
      ActiveInRange(config, caches, digest);
      ok := ApplyProfileConfig(before, fate);
      VersionIsFree(before, config.version, caches, digest);
      r := if ok then Done else Undone;
    }

    method Rename(identifier: string, name: string, fate: Fate) returns (r: Result)
      requires Ok()
      modifies this
      ensures Ok() && caches == old(caches) && generated == old(generated) && loaded == old(loaded)
      ensures r.Done? ==>
                && var i := FindByIdentifier(old(config.subscriptions), identifier);
                && i >= 0 && config == Renamed(old(config), i, Trim(name)).(version := config.version)
                && config.subscriptions[i].name == Trim(name)
                && config.subscriptions[i] == old(config.subscriptions)[i].(name := Trim(name))
                && RemoveAt(config.subscriptions, i) == RemoveAt(old(config.subscriptions), i)
      ensures !r.Done? ==> config == old(config)
    {
      hide Valid, Generate, NeedsNormalization, CachesOk, Load;
      var before := config;
      ActiveInRange(before, caches, digest);
      var i := FindByIdentifier(before.subscriptions, identifier);
      if i < 0 || Blank(name) {
        return Rejected;
      }
      var other := FindByName(before.subscriptions, Trim(name));
      if other >= 0 && other != i {
        return Rejected;
      }
      var ok := Commit(Renamed(before, i, Trim(name)), fate.committed);
      if !ok {
        return Rejected;
      }
      RenameKeepsProfiles(before, i, Trim(name), caches, digest);
      VersionIsFree(Renamed(before, i, Trim(name)), config.version, caches, digest);
      StaysInForce(before, caches, config, caches, digest, generated, running, loaded);
      r := Done;
    }

    /** Removes a profile, and its cache once nothing can fail any more. */
    method Delete(identifier: string, fate: Fate) returns (r: Result)
      requires Ok()
      modifies this
      ensures Ok()
      ensures r.Done? ==>
                && var i := FindByIdentifier(old(config.subscriptions), identifier);
                && i >= 0 && config.subscriptions == RemoveAt(old(config.subscriptions), i)
                && caches == old(caches) - {old(config.subscriptions)[i].cacheFile}
      ensures !r.Done? ==> TakenBack()
    {
      hide Valid, Generate, NeedsNormalization, CachesOk, Normalize, Load, Deleted, RemoveAt;
      var before := config;
      ActiveInRange(before, caches, digest);
      var i := FindByIdentifier(before.subscriptions, identifier);
      if i < 0 || (|before.subscriptions| == 1 && before.active == i && running) {
        return Rejected;
      }
      var path := before.subscriptions[i].cacheFile;
      var ok := Commit(Deleted(before, i), fate.committed);
      if !ok {
        return Undone;
      }
      DeleteKeepsProfiles(before, i, caches, digest);
      VersionIsFree(Deleted(before, i), config.version, caches, digest);
      VersionIsFree(Deleted(before, i), config.version, caches - {path}, digest);
      ActiveInRange(config, caches, digest);
      ActiveInRange(config, caches - {path}, digest);
      if before.active != i {
        StaysInForce(before, caches, config, caches, digest, generated, running, loaded);
      } else if config.subscriptions != [] {
        ok := ApplyProfileConfig(before, fate);
        VersionIsFree(before, config.version, caches, digest);
        if !ok {
          return Undone;
        }
      }
      if config.active >= 0 {
        LoadIgnoresGone(ActiveOutput(config), caches, path);
      }
      caches := caches - {path};
      r := Done;
    }

    /** Fetches a profile anew. On failure the old bytes go back, and then the file is generated and
        the core reloaded once more, since the roll-back has already read the new bytes. */
    method Update(identifier: string, fetched: Option<string>, fate: Fate) returns (r: Result)
      requires Ok()
      modifies this
      ensures Ok()
      ensures r.Done? ==>
                && fetched.Some?
                && var i := FindByIdentifier(old(config.subscriptions), identifier);
                && i >= 0
                && config == Refreshed(old(config), i, digest(fetched.value)).(version := config.version)
                && caches == old(caches)[CachePath(old(config.subscriptions)[i].id) := fetched.value]
      ensures !r.Done? ==> TakenBack()
    {
      hide Valid, Generate, NeedsNormalization, CachesOk, Load, CachePath, Refreshed;
      var before := config;
      ActiveInRange(before, caches, digest);
      var i := FindByIdentifier(before.subscriptions, identifier);
      if i < 0 || fetched.None? || fetched.value == "" || !fate.cached {
        return Rejected;
      }
      var path, content := CachePath(before.subscriptions[i].id), fetched.value;
      CacheIsThere(before, i, caches, digest);
      var oldContent := caches[before.subscriptions[i].cacheFile];
      ghost var was := caches;
      caches := caches[path := content];
      assert caches.Keys == was.Keys;
      var ok := Commit(Refreshed(before, i, digest(content)), fate.committed);
      if ok {
        RefreshKeepsProfiles(before, i, was, content, digest);
        VersionIsFree(Refreshed(before, i, digest(content)), config.version, caches, digest);
        ActiveInRange(config, caches, digest);
        if before.active == i {
          ok := ApplyProfileConfig(before, fate);
        } else {
          StaysInForce(before, was, config, caches, digest, generated, running, loaded);
        }
      }
      if !ok {
        VersionIsFree(before, config.version, was, digest);
        if |oldContent| > 0 {
          caches := caches[path := oldContent];
          assert caches == was;
          var regenerated := WriteGenerated(Replaced);
          if running {
            var reloaded := Reload(true);
          }
        }
        return Undone;
      }
      r := Done;
    }

    /** Moves the core to one mixed port. Without a profile there is nothing to generate, so that the
        request is always taken back. `free` and `confirmed` are what trying to listen on the port
        and reading it back from the core say; a core that is active and does not answer is `silent`. */
    method SetProxyPort(port: int, controllerPort: Option<int>, free: bool, silent: bool, confirmed: bool, fate: Fate)
        returns (r: Result)
      requires Ok() && |config.settings.ports| == 5
      modifies this
      ensures Ok() && |config.settings.ports| == 5
      ensures r.Done? ==>
                && config.settings.ports[MIXED] == port && caches == old(caches)
                && config == old(config).(settings := config.settings, version := config.version)
                && (old(config.settings.ports)[MIXED] != port ==> config.settings.ports[0] == config.settings.ports[1] == 0)
                && config.settings == old(config).settings.(ports := config.settings.ports)
                && config.settings.ports[3] == old(config.settings.ports)[3]
                && config.settings.ports[4] == old(config.settings.ports)[4]
      ensures r.Done? && old(config.settings.ports)[MIXED] != port ==>
                config.active >= 0 && free && !silent && controllerPort != Some(port)
      ensures !r.Done? ==> TakenBack()
    {
      hide ProfilesOk, InForce;
      if port < 1 || port > 65535 {
        return Rejected;
      }
      if config.settings.ports[MIXED] == port {
        return Done;
      }
      if controllerPort == Some(port) || !free || silent {
        return Rejected;
      }
      r := MovePort(port, confirmed, fate);
    }

    /** Commits and applies the move, or goes back. */
    method MovePort(port: int, confirmed: bool, fate: Fate) returns (r: Result)
      requires Ok() && |config.settings.ports| == 5
      modifies `config, `generated, `loaded
      ensures Ok() && |config.settings.ports| == 5
      ensures r.Done? ==>
                config == WithMixedPort(old(config), port).(version := config.version) && config.active >= 0
      ensures !r.Done? ==> TakenBack()
    {
      hide Valid, Generate, NeedsNormalization, CachesOk, Load;
      var before := config;
      ActiveInRange(before, caches, digest);
      var next := WithMixedPort(before, port);
      var ok := Commit(next, fate.committed);
      if !ok {
        return Rejected;
      }
      PortKeepsProfiles(before, port, caches, digest);
      VersionIsFree(next, config.version, caches, digest);
      ActiveInRange(config, caches, digest);
      if config.active < 0 {
        NoProfileNoneGenerated(config, caches, digest);
        NoProfileNoneGenerated(before, caches, digest);
      }
      ok := ApplyProfileConfig(before, fate);
      if ok && !confirmed {
        GoBack(before);
        ok := false;
      }
      VersionIsFree(before, config.version, caches, digest);
      r := if ok then Done else Undone;
    }
  }

  /** The ports are HTTP, SOCKS5, mixed, redirect and transparent, in this order. */
  const MIXED := 2

  function WithMixedPort(c: Config, port: int): Config
    requires |c.settings.ports| == 5
  {
    c.(settings := c.settings.(ports := c.settings.ports[0 := 0][1 := 0][MIXED := port]))
  }

  lemma PortKeepsProfiles(c: Config, port: int, caches: map<string, string>, digest: string -> string)
    requires ProfilesOk(c, caches, digest) && |c.settings.ports| == 5 && Valid(WithMixedPort(c, port))
    ensures ProfilesOk(WithMixedPort(c, port), caches, digest)
  {
    hide SettingsOk, SubscriptionsOk, BuiltInsOk, ProvidersOk, PoolsOk, IsMatchRule, CachesOk;
  }

  lemma CacheIsThere(c: Config, i: nat, caches: map<string, string>, digest: string -> string)
    requires CachesOk(c.subscriptions, caches, digest) && i < |c.subscriptions|
    ensures c.subscriptions[i].cacheFile == CachePath(c.subscriptions[i].id)
    ensures c.subscriptions[i].cacheFile in caches && |caches[c.subscriptions[i].cacheFile]| > 0
  {
    assert CacheOk(c.subscriptions[i], caches, digest);
  }

  lemma NoProfilesNoPool(c: Config)
    requires !NeedsNormalization(c) && c.active < 0 && c.subscriptions == []
    ensures c.pools == []
  {
  }

  lemma NoneGenerated(c: Config, files: set<string>)
    requires c.pools == [] && c.subscriptions == []
    ensures Generate(c, files) == None
  {
    assert AllSources([], c.subscriptions, files) == Some([]);
  }

  lemma NoProfileNoneGenerated(c: Config, caches: map<string, string>, digest: string -> string)
    requires ProfilesOk(c, caches, digest) && c.active < 0
    ensures Generate(c, caches.Keys) == None
  {
    hide SettingsOk, SubscriptionsOk, BuiltInsOk, ProvidersOk, PoolsOk, IsMatchRule;
    NoProfilesNoPool(c);
    NoneGenerated(c, caches.Keys);
  }

  lemma NormalizedShape(c: Config)
    requires c.subscriptions != []
    ensures Normalize(c).subscriptions == c.subscriptions && Normalize(c).active == c.active
  {
  }

  lemma LoadIgnoresGone(output: Output, caches: map<string, string>, path: string)
    requires path !in output.sources
    ensures Load(output, caches - {path}) == Load(output, caches)
  {
  }

  lemma LoadIgnoresNew(output: Output, caches: map<string, string>, path: string, content: string)
    requires path !in output.sources
    ensures Load(output, caches[path := content]) == Load(output, caches)
  {
  }

  lemma ImportedShape(c: Config, s: Subscription)
    ensures Imported(c, s).subscriptions == c.subscriptions + [s]
    ensures Imported(c, s).active == if c.active < 0 then |c.subscriptions| else c.active
  {
  }
}
