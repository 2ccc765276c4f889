/** The two files a configuration is kept in: one with the secrets, and a public one with
    references in their place. */
module Secrets {
  import opened ConfigModel
  import opened Text
  import opened Wrappers

  const SECRET := "secret://"

  datatype Kind = Source | Rules

  /** A URL under the ID or name it is filed under. */
  datatype Entry = Entry(key: string, url: string)

  predicate Separable(kind: Kind, url: string)
  {
    match kind
    case Source => var v := Trim(url); v != "" && v != MANUAL && !(SECRET <= v)
    case Rules => !Blank(url) && !(SECRET <= url)
  }

  function Ref(kind: Kind, key: string): string
  {
    match kind
    case Source => SECRET + "subscription/" + key
    case Rules => SECRET + "rule-provider/" + FileName(key)
  }

  /** The secrets among the entries; of entries with the same key the last one counts. */
  function Collect(kind: Kind, entries: seq<Entry>): map<string, string>
  {
    if entries == [] then map[]
    else
      var e, rest := entries[|entries| - 1], Collect(kind, entries[..|entries| - 1]);
      if e.key != "" && Separable(kind, e.url) then rest[e.key := e.url] else rest
  }

  /** A subscription's reference tells its ID. */
  lemma RefsDiffer(a: string, b: string)
    requires Ref(Source, a) == Ref(Source, b)
    ensures a == b
  {
    var prefix := SECRET + "subscription/";
    assert Ref(Source, a)[|prefix|..] == a && Ref(Source, b)[|prefix|..] == b;
  }

  function HideOne(kind: Kind, e: Entry): Entry
  {
    if Separable(kind, e.url) then e.(url := Ref(kind, e.key)) else e
  }

  function RevealOne(secrets: map<string, string>, e: Entry): Entry
  {
    if e.key in secrets && secrets[e.key] != "" then e.(url := secrets[e.key]) else e
  }

  function Hide(kind: Kind, entries: seq<Entry>): (hidden: seq<Entry>)
    ensures |hidden| == |entries|
  {
    seq(|entries|, i requires 0 <= i < |entries| => HideOne(kind, entries[i]))
  }

  function Reveal(secrets: map<string, string>, entries: seq<Entry>): (shown: seq<Entry>)
    ensures |shown| == |entries|
  {
    seq(|entries|, i requires 0 <= i < |entries| => RevealOne(secrets, entries[i]))
  }

  /** Every secret is filed under a key, and no other entry of that key has another URL. */
  ghost predicate Recoverable(kind: Kind, entries: seq<Entry>)
  {
    forall i | 0 <= i < |entries| && Separable(kind, entries[i].url) ::
      && entries[i].key != ""
      && forall j | 0 <= j < |entries| && entries[j].key == entries[i].key :: entries[j].url == entries[i].url
  }

  // ---- entries ----

  lemma RefIsNoSecret(kind: Kind, key: string)
    ensures !Separable(kind, Ref(kind, key))
  {
    var ref := Ref(kind, key);
    assert SECRET <= ref;
    assert !IsSpace(SECRET[0]) && !IsSpace(SECRET[|SECRET| - 1]);
    TrimKeepsPrefix(SECRET, ref);
  }

  lemma {:induction false} CollectMeans(kind: Kind, entries: seq<Entry>, key: string)
    ensures key in Collect(kind, entries) <==>
              key != "" && exists i | 0 <= i < |entries| :: entries[i].key == key && Separable(kind, entries[i].url)
    ensures key in Collect(kind, entries) ==>
              exists i | 0 <= i < |entries| ::
                entries[i].key == key && Separable(kind, entries[i].url) && Collect(kind, entries)[key] == entries[i].url
  {
    hide Separable;
    if entries != [] {
      var n := |entries| - 1;
      CollectMeans(kind, entries[..n], key);
      assert forall i | 0 <= i < n :: entries[..n][i] == entries[i];
    }
  }

  lemma SeparableNotEmpty(kind: Kind, url: string)
    requires Separable(kind, url)
    ensures url != ""
  {
    TrimEmpty(url);
  }

  /** Splitting and merging undo each other exactly for recoverable entries. */
  lemma RoundTripExactly(kind: Kind, entries: seq<Entry>)
    ensures Reveal(Collect(kind, entries), Hide(kind, entries)) == entries <==> Recoverable(kind, entries)
  {
    var secrets, hidden := Collect(kind, entries), Hide(kind, entries);
    var shown := Reveal(secrets, hidden);
    hide Separable, Ref, Collect;
    if Recoverable(kind, entries) {
      forall i | 0 <= i < |entries|
        ensures shown[i] == entries[i]
      {
        RecoversOne(kind, entries, i);
      }
    }
    if shown == entries {
      forall i, j | 0 <= i < |entries| && Separable(kind, entries[i].url) && 0 <= j < |entries|
                    && entries[j].key == entries[i].key
        ensures entries[i].key != "" && entries[j].url == entries[i].url
      {
        assert shown[i] == entries[i] && shown[j] == entries[j];
        RefIsNoSecret(kind, entries[i].key);
        CollectMeans(kind, entries, entries[i].key);
        CollectedNotEmpty(kind, entries, entries[i].key);
      }
    }
  }

  lemma CollectedNotEmpty(kind: Kind, entries: seq<Entry>, key: string)
    ensures key in Collect(kind, entries) ==> Collect(kind, entries)[key] != ""
  {
    hide Separable, Collect;
    CollectMeans(kind, entries, key);
    if key in Collect(kind, entries) {
      var i :| 0 <= i < |entries| && entries[i].key == key && Separable(kind, entries[i].url)
               && Collect(kind, entries)[key] == entries[i].url;
      SeparableNotEmpty(kind, entries[i].url);
    }
  }

  lemma RecoversOne(kind: Kind, entries: seq<Entry>, i: nat)
    requires i < |entries| && Recoverable(kind, entries)
    ensures RevealOne(Collect(kind, entries), HideOne(kind, entries[i])) == entries[i]
  {
    hide Separable, Ref, Collect;
    CollectMeans(kind, entries, entries[i].key);
    CollectedNotEmpty(kind, entries, entries[i].key);
  }

  /** The public form is its own public form and gives no secrets away. */
  lemma HiddenHoldsNothing(kind: Kind, entries: seq<Entry>)
    ensures Hide(kind, Hide(kind, entries)) == Hide(kind, entries)
    ensures forall e | e in Hide(kind, entries) :: !Separable(kind, e.url)
    ensures Collect(kind, Hide(kind, entries)) == map[]
  {
    var hidden := Hide(kind, entries);
    hide Separable, Ref, Collect;
    forall i | 0 <= i < |entries|
      ensures !Separable(kind, hidden[i].url)
    {
      RefIsNoSecret(kind, entries[i].key);
    }
    forall key | key in Collect(kind, hidden)
      ensures false
    {
      CollectMeans(kind, hidden, key);
    }
  }

  /** Two lists that differ in secrets only look the same in public. */
  lemma SecretsDoNotShow(kind: Kind, before: seq<Entry>, after: seq<Entry>)
    requires |before| == |after|
    requires forall i | 0 <= i < |before| ::
               before[i] == after[i]
               || (before[i].key == after[i].key && Separable(kind, before[i].url) && Separable(kind, after[i].url))
    ensures Hide(kind, before) == Hide(kind, after)
  {
    hide Separable, Ref;
  }

  /** After a crash between the two writes the old list meets the secrets of the new one. An entry
      then reads as it did, or as the new one of the same key, or as its own reference; and the
      last exactly if it was a secret and has no secret under that key any more. */
  lemma CrashLoadsOwn(kind: Kind, before: seq<Entry>, after: seq<Entry>, i: nat)
    requires i < |before|
    ensures var e := Reveal(Collect(kind, after), Hide(kind, before))[i];
            && e.key == before[i].key
            && (e.key in Collect(kind, after) ==> e in after)
            && (e.key !in Collect(kind, after) ==>
                  e.url == if Separable(kind, before[i].url) then Ref(kind, e.key) else before[i].url)
  {
    hide Separable, Ref, Collect;
    CollectMeans(kind, after, before[i].key);
    CollectedNotEmpty(kind, after, before[i].key);
  }

  // ---- configurations ----

  datatype RuntimeSecrets = RuntimeSecrets(api: string, sources: map<string, string>, ruleUrls: map<string, string>)

  function SourceEntries(subs: seq<Subscription>): (entries: seq<Entry>)
    ensures |entries| == |subs|
  {
    seq(|subs|, i requires 0 <= i < |subs| => Entry(subs[i].id, subs[i].url))
  }

  function RuleEntries(providers: seq<RuleProvider>): (entries: seq<Entry>)
    ensures |entries| == |providers|
  {
    seq(|providers|, i requires 0 <= i < |providers| => Entry(providers[i].name, providers[i].url))
  }

  function WithSources(subs: seq<Subscription>, entries: seq<Entry>): (next: seq<Subscription>)
    requires |entries| == |subs|
    ensures |next| == |subs|
  {
    seq(|subs|, i requires 0 <= i < |subs| => subs[i].(url := entries[i].url))
  }

  function WithRuleUrls(providers: seq<RuleProvider>, entries: seq<Entry>): (next: seq<RuleProvider>)
    requires |entries| == |providers|
    ensures |next| == |providers|
  {
    seq(|providers|, i requires 0 <= i < |providers| => providers[i].(url := entries[i].url))
  }

  function SecretsOf(c: Config): RuntimeSecrets
  {
    RuntimeSecrets(c.secret, Collect(Source, SourceEntries(c.subscriptions)), Collect(Rules, RuleEntries(c.providers)))
  }

  function Public(c: Config): Config
  {
    c.(secret := "",
       subscriptions := WithSources(c.subscriptions, Hide(Source, SourceEntries(c.subscriptions))),
       providers := WithRuleUrls(c.providers, Hide(Rules, RuleEntries(c.providers))))
  }

  function Loaded(s: RuntimeSecrets, c: Config): Config
  {
    c.(secret := if s.api != "" then s.api else c.secret,
       subscriptions := WithSources(c.subscriptions, Reveal(s.sources, SourceEntries(c.subscriptions))),
       providers := WithRuleUrls(c.providers, Reveal(s.ruleUrls, RuleEntries(c.providers))))
  }

  ghost predicate HoldsSecret(c: Config)
  {
    || !Blank(c.secret)
    || (exists s | s in c.subscriptions :: Separable(Source, s.url))
    || (exists p | p in c.providers :: Separable(Rules, p.url))
  }

  // ---- the loops ----

  method SecretsFromConfig(c: Config) returns (s: RuntimeSecrets)
    ensures s == SecretsOf(c)
  {
    hide Separable;
    var sources, ruleUrls := map[], map[];
    ghost var entries := SourceEntries(c.subscriptions);
    for i := 0 to |c.subscriptions|
      invariant sources == Collect(Source, entries[..i])
    {
      var sub := c.subscriptions[i];
      assert entries[..i + 1][..i] == entries[..i];
      if sub.id != "" && Separable(Source, sub.url) {
        sources := sources[sub.id := sub.url];
      }
    }
    assert entries[..|entries|] == entries;
    entries := RuleEntries(c.providers);
    for i := 0 to |c.providers|
      invariant ruleUrls == Collect(Rules, entries[..i])
    {
      var provider := c.providers[i];
      assert entries[..i + 1][..i] == entries[..i];
      if provider.name != "" && Separable(Rules, provider.url) {
        ruleUrls := ruleUrls[provider.name := provider.url];
      }
    }
    assert entries[..|entries|] == entries;
    s := RuntimeSecrets(c.secret, sources, ruleUrls);
  }

  method PublicConfigForDisk(c: Config) returns (public: Config)
    ensures public == Public(c)
  {
    hide Separable;
    var subs, providers := c.subscriptions, c.providers;
    for i := 0 to |subs|
      invariant |subs| == |c.subscriptions|
      invariant forall j | 0 <= j < i :: subs[j] == Public(c).subscriptions[j]
      invariant forall j | i <= j < |subs| :: subs[j] == c.subscriptions[j]
    {
      if Separable(Source, subs[i].url) {
        subs := subs[i := subs[i].(url := Ref(Source, subs[i].id))];
      }
    }
    for i := 0 to |providers|
      invariant |providers| == |c.providers|
      invariant forall j | 0 <= j < i :: providers[j] == Public(c).providers[j]
      invariant forall j | i <= j < |providers| :: providers[j] == c.providers[j]
    {
      if Separable(Rules, providers[i].url) {
        providers := providers[i := providers[i].(url := Ref(Rules, providers[i].name))];
      }
    }
    public := c.(secret := "", subscriptions := subs, providers := providers);
  }

  method LoadRuntimeSecrets(s: RuntimeSecrets, c: Config) returns (loaded: Config)
    ensures loaded == Loaded(s, c)
  {
    var subs, providers := c.subscriptions, c.providers;
    for i := 0 to |subs|
      invariant |subs| == |c.subscriptions|
      invariant forall j | 0 <= j < i :: subs[j] == Loaded(s, c).subscriptions[j]
      invariant forall j | i <= j < |subs| :: subs[j] == c.subscriptions[j]
    {
      if subs[i].id in s.sources && s.sources[subs[i].id] != "" {
        subs := subs[i := subs[i].(url := s.sources[subs[i].id])];
      }
    }
    for i := 0 to |providers|
      invariant |providers| == |c.providers|
      invariant forall j | 0 <= j < i :: providers[j] == Loaded(s, c).providers[j]
      invariant forall j | i <= j < |providers| :: providers[j] == c.providers[j]
    {
      if providers[i].name in s.ruleUrls && s.ruleUrls[providers[i].name] != "" {
        providers := providers[i := providers[i].(url := s.ruleUrls[providers[i].name])];
      }
    }
    loaded := c.(secret := if s.api != "" then s.api else c.secret, subscriptions := subs, providers := providers);
  }

  method ContainsInlineSecrets(c: Config) returns (found: bool)
    ensures found <==> HoldsSecret(c)
    ensures !found <==>
              && (forall i | 0 <= i < |c.secret| :: c.secret[i] in " \t\n\r")
              && (forall s | s in c.subscriptions :: MayBePublic(Source, s.url))
              && (forall p | p in c.providers :: MayBePublic(Rules, p.url))
  {
    hide Separable, MayBePublic, HoldsSecret;
    HoldsSecretExactly(c);
    NoneHeld(c);
    if !Blank(c.secret) {
      return true;
    }
    for i := 0 to |c.subscriptions|
      invariant forall j | 0 <= j < i :: !Separable(Source, c.subscriptions[j].url)
    {
      if Separable(Source, c.subscriptions[i].url) {
        return true;
      }
    }
    for i := 0 to |c.providers|
      invariant forall j | 0 <= j < i :: !Separable(Rules, c.providers[j].url)
    {
      if Separable(Rules, c.providers[i].url) {
        return true;
      }
    }
    found := false;
  }

  // ---- what the two files give back ----

  /** Loading what was written returns the configuration exactly if its URLs are recoverable. */
  lemma LoadUndoesSplit(c: Config)
    ensures Loaded(SecretsOf(c), Public(c)) == c
            <==> Recoverable(Source, SourceEntries(c.subscriptions)) && Recoverable(Rules, RuleEntries(c.providers))
  {
    hide Separable, Ref, Collect, Recoverable;
    var sources, rules := SourceEntries(c.subscriptions), RuleEntries(c.providers);
    RoundTripExactly(Source, sources);
    RoundTripExactly(Rules, rules);
    var loaded := Loaded(SecretsOf(c), Public(c));
    assert SourceEntries(Public(c).subscriptions) == Hide(Source, sources);
    assert RuleEntries(Public(c).providers) == Hide(Rules, rules);
    var shown, shownRules := Reveal(Collect(Source, sources), Hide(Source, sources)),
                             Reveal(Collect(Rules, rules), Hide(Rules, rules));
    assert SourceEntries(loaded.subscriptions) == shown && RuleEntries(loaded.providers) == shownRules;
    if shown == sources && shownRules == rules {
      assert forall i | 0 <= i < |sources| :: shown[i].url == c.subscriptions[i].url;
      assert forall i | 0 <= i < |rules| :: shownRules[i].url == c.providers[i].url;
      assert loaded.subscriptions == c.subscriptions && loaded.providers == c.providers;
    }
  }

  lemma ValidIsRecoverable(c: Config)
    requires Valid(c)
    ensures Recoverable(Source, SourceEntries(c.subscriptions)) && Recoverable(Rules, RuleEntries(c.providers))
  {
    hide Separable, SettingsOk, BuiltInsOk, PoolsOk, FetchOk, IsMatchRule;
    forall i | 0 <= i < |c.providers|
      ensures c.providers[i].name != ""
    {
      assert !Blank(c.providers[i].name);
    }
    assert forall i | 0 <= i < |c.subscriptions| :: SubscriptionOk(c.subscriptions[i]);
  }

  /** The public file holds no secret, and splitting it again changes nothing and finds nothing. */
  lemma PublicHoldsNothing(c: Config)
    ensures !HoldsSecret(Public(c))
    ensures Public(Public(c)) == Public(c)
    ensures SecretsOf(Public(c)) == RuntimeSecrets("", map[], map[])
  {
    hide Separable, Ref, Collect;
    var public := Public(c);
    var sources, rules := Hide(Source, SourceEntries(c.subscriptions)), Hide(Rules, RuleEntries(c.providers));
    HiddenHoldsNothing(Source, SourceEntries(c.subscriptions));
    HiddenHoldsNothing(Rules, RuleEntries(c.providers));
    assert SourceEntries(public.subscriptions) == sources && RuleEntries(public.providers) == rules;
    forall i | 0 <= i < |public.subscriptions|
      ensures !Separable(Source, public.subscriptions[i].url)
    {
      assert sources[i] in sources;
    }
    forall i | 0 <= i < |public.providers|
      ensures !Separable(Rules, public.providers[i].url)
    {
      assert rules[i] in rules;
    }
  }

  /** An address that may be public: none, the marker of a subscription without one, or a reference. */
  predicate MayBePublic(kind: Kind, url: string)
  {
    || (forall i | 0 <= i < |url| :: url[i] in " \t\n\r")
    || (kind.Source? && (Trim(url) == "手动配置" || "secret://" <= Trim(url)))
    || (kind.Rules? && "secret://" <= url)
  }

  lemma SeparableExactly(kind: Kind, url: string)
    ensures Separable(kind, url) <==> !MayBePublic(kind, url)
  {
    assert forall c :: IsSpace(c) <==> c in " \t\n\r";
    TrimEmpty(url);
  }

  lemma HoldsSecretExactly(c: Config)
    ensures !HoldsSecret(c)
            <==>
            && (forall i | 0 <= i < |c.secret| :: c.secret[i] in " \t\n\r")
            && (forall s | s in c.subscriptions :: MayBePublic(Source, s.url))
            && (forall p | p in c.providers :: MayBePublic(Rules, p.url))
  {
    hide Separable, MayBePublic;
    assert forall ch :: IsSpace(ch) <==> ch in " \t\n\r";
    forall s | s in c.subscriptions
      ensures Separable(Source, s.url) <==> !MayBePublic(Source, s.url)
    {
      SeparableExactly(Source, s.url);
    }
    forall p | p in c.providers
      ensures Separable(Rules, p.url) <==> !MayBePublic(Rules, p.url)
    {
      SeparableExactly(Rules, p.url);
    }
  }

  lemma NoneHeld(c: Config)
    ensures !HoldsSecret(c)
            <==>
            && Blank(c.secret)
            && (forall j | 0 <= j < |c.subscriptions| :: !Separable(Source, c.subscriptions[j].url))
            && (forall j | 0 <= j < |c.providers| :: !Separable(Rules, c.providers[j].url))
  {
    hide Separable;
  }

  /** Nothing but such addresses gets into the public file; those stay as they are, and every other one is filed
      under its ID or name, if it has one, as that of some entry that goes by it. */
  lemma PublicIsPublic(c: Config)
    ensures Public(c).secret == ""
    ensures forall i | 0 <= i < |c.subscriptions| ::
              var url, shown, id := c.subscriptions[i].url, Public(c).subscriptions[i].url, c.subscriptions[i].id;
              && MayBePublic(Source, shown)
              && (if MayBePublic(Source, url) then shown == url else id != "" ==> id in SecretsOf(c).sources)
    ensures forall i | 0 <= i < |c.providers| ::
              var url, shown, name := c.providers[i].url, Public(c).providers[i].url, c.providers[i].name;
              && MayBePublic(Rules, shown)
              && (if MayBePublic(Rules, url) then shown == url else name != "" ==> name in SecretsOf(c).ruleUrls)
  {
    hide Separable, Ref, Collect, MayBePublic;
    forall i | 0 <= i < |c.subscriptions|
      ensures var url, shown, id := c.subscriptions[i].url, Public(c).subscriptions[i].url, c.subscriptions[i].id;
              && MayBePublic(Source, shown)
              && (if MayBePublic(Source, url) then shown == url else id != "" ==> id in SecretsOf(c).sources)
    {
      EntryIsPublic(Source, SourceEntries(c.subscriptions), i);
    }
    forall i | 0 <= i < |c.providers|
      ensures var url, shown, name := c.providers[i].url, Public(c).providers[i].url, c.providers[i].name;
              && MayBePublic(Rules, shown)
              && (if MayBePublic(Rules, url) then shown == url else name != "" ==> name in SecretsOf(c).ruleUrls)
    {
      EntryIsPublic(Rules, RuleEntries(c.providers), i);
    }
  }

  lemma EntryIsPublic(kind: Kind, entries: seq<Entry>, i: nat)
    requires i < |entries|
    ensures var e, shown := entries[i], Hide(kind, entries)[i];
            && MayBePublic(kind, shown.url)
            && (if MayBePublic(kind, e.url) then shown.url == e.url else e.key != "" ==> e.key in Collect(kind, entries))
  {
    hide Separable, Ref, Collect, MayBePublic;
    var e := entries[i];
    SeparableExactly(kind, e.url);
    SeparableExactly(kind, Ref(kind, e.key));
    RefIsNoSecret(kind, e.key);
    CollectMeans(kind, entries, e.key);
  }

  /** Only such addresses are filed, each from an entry of that ID or name. */
  lemma FiledIsSecret(kind: Kind, entries: seq<Entry>, key: string)
    requires key in Collect(kind, entries)
    ensures key != "" && !MayBePublic(kind, Collect(kind, entries)[key])
    ensures Entry(key, Collect(kind, entries)[key]) in entries
  {
    hide Separable, Collect, MayBePublic;
    CollectMeans(kind, entries, key);
    SeparableExactly(kind, Collect(kind, entries)[key]);
  }

  // ---- repairs made while loading ----

  /** What loading fills in: paths of this machine, the built-in rules of this release, and fresh IDs. */
  datatype Defaults = Defaults(logDir: string, configPath: string, builtIns: seq<BuiltInRule>,
                               poolId: string, newId: nat -> string)

  ghost predicate Usable(d: Defaults)
  {
    d.logDir != "" && d.configPath != "" && forall i: nat :: d.newId(i) != ""
  }

  function WithIds(subs: seq<Subscription>, newId: nat -> string): (next: seq<Subscription>)
    ensures |next| == |subs|
  {
    seq(|subs|, i requires 0 <= i < |subs| => if subs[i].id == "" then subs[i].(id := newId(i)) else subs[i])
  }

  /** All subscriptions of an old configuration go into one pool, in their order. */
  function DefaultPool(c: Config, id: string): Pool
    requires c.subscriptions != []
  {
    var ids := seq(|c.subscriptions|, i requires 0 <= i < |c.subscriptions| => c.subscriptions[i].id);
    Pool(id, "默认订阅池", "", ids, if 0 <= c.active < |ids| then ids[c.active] else ids[0], true, 86400, false)
  }

  function Or(value: string, default: string): string
  {
    if value == "" then default else value
  }

  /** Old subscriptions without a source type have been fetched from their addresses. */
  function Typed(subs: seq<Subscription>): (next: seq<Subscription>)
    ensures |next| == |subs|
  {
    seq(|subs|, i requires 0 <= i < |subs| => subs[i].(source := Or(subs[i].source, "url")))
  }

  const DOWNLOAD := "https://github.com/MetaCubeX/mihomo/latest/download/"

  /** Where to get a core from matters only while there is none. */
  function RepairedSettings(s: Settings, hasCore: bool): Settings
  {
    s.(controller := Or(s.controller, "127.0.0.1:9090"),
       coreDownload := if hasCore then s.coreDownload else Or(s.coreDownload, DOWNLOAD),
       coreLogLevel := Or(s.coreLogLevel, "info"), logLevel := Or(s.logLevel, "info"),
       proxyMode := Or(s.proxyMode, "rule"), defaultGroup := Or(s.defaultGroup, "Auto"),
       language := Or(s.language, "zh-CN"),
       maxFileBytes := if s.maxFileBytes <= 0 then 0xA0_0000 else s.maxFileBytes,
       maxBackups := if s.maxBackups <= 0 then 3 else s.maxBackups)
  }

  function Clamped(active: int, n: nat): int
  {
    if active >= n then n - 1 else if active < -1 then -1 else active
  }

  function Repaired(c: Config, d: Defaults): Config
  {
    c.(subscriptions := if c.pools == [] then Typed(c.subscriptions) else c.subscriptions,
       pools := if c.subscriptions != [] && c.pools == [] then [DefaultPool(c, d.poolId)] else c.pools,
       builtIns := if c.builtInsReady then c.builtIns else d.builtIns, builtInsReady := true,
       active := Clamped(c.active, |c.subscriptions|),
       configPath := Or(c.configPath, d.configPath), logDir := Or(c.logDir, d.logDir),
       settings := RepairedSettings(c.settings, c.binaryPath != ""))
  }

  ghost predicate HasIds(subs: seq<Subscription>)
  {
    forall i | 0 <= i < |subs| :: subs[i].id != ""
  }

  /** Nothing of the configuration is missing, apart from IDs. */
  ghost predicate Complete(c: Config)
  {
    && (c.subscriptions != [] ==> c.pools != [])
    && c.builtInsReady && -1 <= c.active < |c.subscriptions|
    && c.configPath != "" && c.logDir != ""
    && CompleteSettings(c.settings, c.binaryPath != "")
  }

  predicate CompleteSettings(s: Settings, hasCore: bool)
  {
    && s.controller != "" && (hasCore || s.coreDownload != "")
    && s.coreLogLevel != "" && s.logLevel != "" && s.proxyMode != "" && s.defaultGroup != "" && s.language != ""
    && s.maxFileBytes > 0 && s.maxBackups > 0
  }

  /** What is not given gets a value of its own; anything given stays. */
  lemma RepairsFill(s: Settings, hasCore: bool)
    ensures var r := RepairedSettings(s, hasCore);
            && r.maxFileBytes == (if s.maxFileBytes > 0 then s.maxFileBytes else 10 * 1024 * 1024)
            && r.maxBackups == (if s.maxBackups > 0 then s.maxBackups else 3)
            && r.controller == (if s.controller != "" then s.controller else "127.0.0.1:9090")
            && r.proxyMode == (if s.proxyMode != "" then s.proxyMode else "rule")
            && r.defaultGroup == (if s.defaultGroup != "" then s.defaultGroup else "Auto")
            && r.language == (if s.language != "" then s.language else "zh-CN")
            && r.logLevel == (if s.logLevel != "" then s.logLevel else "info")
            && r.coreLogLevel == (if s.coreLogLevel != "" then s.coreLogLevel else "info")
            && r.ports == s.ports && r.addressesParse == s.addressesParse
            && (hasCore || s.coreDownload != "" ==> r.coreDownload == s.coreDownload)
  {
  }

  /** What repairs fill in is good: settings whose empty fields are their only fault become valid. */
  lemma RepairsAreValid(s: Settings, hasCore: bool)
    requires SettingsOk(s.(coreLogLevel := "info", logLevel := "info", proxyMode := "rule", defaultGroup := "Auto",
                           language := "zh-CN"))
    requires s.coreLogLevel in {"", "debug", "info", "warning", "error", "silent"}
    requires s.logLevel in {"", "debug", "info", "warn", "error"} && s.proxyMode in {"", "rule", "global", "direct"}
    requires (s.defaultGroup == "" || !Blank(s.defaultGroup)) && (s.language == "" || !Blank(s.language))
    ensures SettingsOk(RepairedSettings(s, hasCore))
  {
  }

  /** Old subscriptions go into one pool in their order, which runs on the active one, or the first. */
  lemma DefaultPoolOk(c: Config, id: string)
    requires SubscriptionsOk(c.subscriptions) && c.subscriptions != [] && -1 <= c.active < |c.subscriptions| && !Blank(id)
    ensures var p := DefaultPool(c, id);
            && PoolOk(p, Typed(c.subscriptions)) && p.enabled && p.id == id && |p.members| == |c.subscriptions|
            && (forall i | 0 <= i < |c.subscriptions| :: p.members[i] == c.subscriptions[i].id)
            && p.activeMember == c.subscriptions[if c.active >= 0 then c.active else 0].id
  {
    hide SubscriptionOk;
    var subs, p := Typed(c.subscriptions), DefaultPool(c, id);
    assert !Blank("默认订阅池") by { assert !IsSpace("默认订阅池"[0]); }
    assert p.members[0] == c.subscriptions[0].id;
    assert c.active >= 0 ==> p.members[c.active] == p.activeMember;
    forall m | m in p.members
      ensures FindById(subs, m) >= 0
    {
      var i :| 0 <= i < |p.members| && p.members[i] == m;
      assert subs[i].id == m;
    }
    assert Distinct(p.members);
  }

  /** Loading keeps a valid configuration valid; it gets a pool if it has none for its subscriptions. */
  lemma RepairKeepsValid(c: Config, d: Defaults)
    requires Valid(c) && Usable(d) && !Blank(d.poolId)
    ensures Valid(Repaired(c, d))
    ensures c.pools != [] || c.subscriptions == [] ==> Repaired(c, d).pools == c.pools
  {
    hide BuiltInsOk, ProvidersOk, IsMatchRule, FetchOk, PoolOk, SettingsOk, RepairedSettings, SubscriptionsOk, DefaultPool;
    RepairedSettingsStayOk(c.settings, c.binaryPath != "");
    TypedStayOk(c.subscriptions);
    if c.subscriptions != [] {
      DefaultPoolOk(c, d.poolId);
    } else {
      assert Typed(c.subscriptions) == c.subscriptions;
    }
    if c.pools == [] && c.subscriptions != [] {
      OnePoolOk(DefaultPool(c, d.poolId), Typed(c.subscriptions));
    }
  }

  lemma OnePoolOk(p: Pool, subs: seq<Subscription>)
    requires PoolOk(p, subs)
    ensures PoolsOk([p], subs)
  {
    hide PoolOk;
  }

  lemma RepairedSettingsStayOk(s: Settings, hasCore: bool)
    requires SettingsOk(s)
    ensures SettingsOk(RepairedSettings(s, hasCore))
  {
    assert |"debug"| == 5 && |"rule"| == 4;
  }

  lemma TypedStayOk(subs: seq<Subscription>)
    requires SubscriptionsOk(subs)
    ensures SubscriptionsOk(Typed(subs))
  {
    assert forall i | 0 <= i < |subs| :: SubscriptionOk(subs[i]);
  }

  lemma RepairedSettingsExactly(s: Settings, hasCore: bool)
    ensures RepairedSettings(s, hasCore) == s <==> CompleteSettings(s, hasCore)
    ensures CompleteSettings(RepairedSettings(s, hasCore), hasCore)
  {
    assert |DOWNLOAD| > 0 && |"127.0.0.1:9090"| == 14;
    assert |"info"| == 4 && |"rule"| == 4 && |"Auto"| == 4 && |"zh-CN"| == 5;
  }

  /** Repairs leave a configuration alone exactly if it is complete, and leave it complete. */
  lemma RepairedExactly(c: Config, d: Defaults)
    requires Usable(d)
    ensures Repaired(c, d) == c <==> Complete(c)
    ensures Complete(Repaired(c, d))
    ensures var n := |c.subscriptions|;
            Repaired(c, d).active == if c.active < -1 then -1 else if c.active < n then c.active else n - 1
  {
    RepairedSettingsExactly(c.settings, c.binaryPath != "");
    hide RepairedSettings, CompleteSettings, DefaultPool;
  }

  // ---- the two files ----

  datatype SecretsFile = Missing | Unreadable | Stored(secrets: RuntimeSecrets)

  /** The default log directory is not written down: it is computed anew for whoever loads. */
  function OnDisk(c: Config, defaultLogs: string): Config
  {
    var public := Public(c);
    if public.logDir == defaultLogs then public.(logDir := "") else public
  }

  function Startup(file: SecretsFile, public: Config, d: Defaults): Config
  {
    var identified := public.(subscriptions := WithIds(public.subscriptions, d.newId));
    Repaired(if file.Stored? then Loaded(file.secrets, identified) else identified, d)
  }

  class Files {
    const defaults: Defaults
    var secrets: SecretsFile
    var public: Config

    constructor (secrets: SecretsFile, public: Config, defaults: Defaults)
      ensures this.secrets == secrets && this.public == public && this.defaults == defaults
    {
      this.secrets, this.public, this.defaults := secrets, public, defaults;
    }

    /** Secrets first, then the public file. An error does not mean that nothing was replaced. */
    method Flush(c: Config, first: Replacement, second: Replacement) returns (ok: bool)
      modifies this
      ensures ok <==> first.Replaced? && second.Replaced?
      ensures secrets == if first.KeptWithError? then old(secrets) else Stored(SecretsOf(c))
      ensures public == if first.Replaced? && !second.KeptWithError? then OnDisk(c, defaults.logDir) else old(public)
    {
      var split := SecretsFromConfig(c);
      if !first.KeptWithError? {
        secrets := Stored(split);
      }
      if !first.Replaced? {
        return false;
      }
      var next := PublicConfigForDisk(c);
      if next.logDir == defaults.logDir {
        next := next.(logDir := "");
      }
      if !second.KeptWithError? {
        public := next;
      }
      ok := second.Replaced?;
    }

    method Load() returns (c: Config)
      ensures c == Startup(secrets, public, defaults)
    {
      c := public;
      var subs := c.subscriptions;
      for i := 0 to |subs|
        invariant |subs| == |c.subscriptions|
        invariant forall j | 0 <= j < i :: subs[j] == WithIds(c.subscriptions, defaults.newId)[j]
        invariant forall j | i <= j < |subs| :: subs[j] == c.subscriptions[j]
      {
        if subs[i].id == "" {
          subs := subs[i := subs[i].(id := defaults.newId(i))];
        }
      }
      c := c.(subscriptions := subs);
      assert subs == WithIds(public.subscriptions, defaults.newId);
      if secrets.Stored? {
        c := LoadRuntimeSecrets(secrets.secrets, c);
      }
      c := Repaired(c, defaults);
    }
  }

  lemma PublicKeepsShape(c: Config)
    ensures Public(c) == c.(secret := "", subscriptions := Public(c).subscriptions, providers := Public(c).providers)
    ensures |Public(c).subscriptions| == |c.subscriptions|
    ensures forall i | 0 <= i < |c.subscriptions| ::
              Public(c).subscriptions[i] == c.subscriptions[i].(url := Public(c).subscriptions[i].url)
  {
    hide Hide;
  }

  lemma LoadedKeepsShape(s: RuntimeSecrets, c: Config)
    ensures Loaded(s, c) == c.(secret := Loaded(s, c).secret, subscriptions := Loaded(s, c).subscriptions,
                               providers := Loaded(s, c).providers)
    ensures |Loaded(s, c).subscriptions| == |c.subscriptions|
    ensures forall i | 0 <= i < |c.subscriptions| ::
              Loaded(s, c).subscriptions[i] == c.subscriptions[i].(url := Loaded(s, c).subscriptions[i].url)
  {
    hide Reveal;
  }

  lemma WithIdsExactly(subs: seq<Subscription>, d: Defaults)
    requires Usable(d)
    ensures HasIds(WithIds(subs, d.newId))
    ensures HasIds(subs) ==> WithIds(subs, d.newId) == subs
  {
  }

  lemma StartupHasIds(file: SecretsFile, public: Config, d: Defaults)
    requires Usable(d)
    ensures HasIds(Startup(file, public, d).subscriptions)
    ensures |Startup(file, public, d).subscriptions| == |public.subscriptions|
  {
    hide Loaded, RepairedSettings, DefaultPool;
    var identified := public.(subscriptions := WithIds(public.subscriptions, d.newId));
    WithIdsExactly(public.subscriptions, d);
    if file.Stored? {
      LoadedKeepsShape(file.secrets, identified);
    }
  }

  /** Whether the log directory was written down or not makes no difference to what is loaded. */
  lemma LogDirMakesNoDifference(s: RuntimeSecrets, c: Config, d: Defaults)
    ensures Repaired(Loaded(s, OnDisk(c, d.logDir)), d) == Repaired(Loaded(s, Public(c)), d)
  {
    hide RepairedSettings, Hide, Reveal, WithSources, WithRuleUrls, DefaultPool;
    var x, y := Loaded(s, OnDisk(c, d.logDir)), Loaded(s, Public(c));
    assert x == y.(logDir := x.logDir);
    if x.subscriptions != [] {
      assert DefaultPool(x, d.poolId) == DefaultPool(y, d.poolId) by {
        PoolIgnoresLogDir(x, y, d.poolId);
      }
    }
  }

  lemma PoolIgnoresLogDir(x: Config, y: Config, id: string)
    requires x.subscriptions != [] && x == y.(logDir := x.logDir)
    ensures DefaultPool(x, id) == DefaultPool(y, id)
  {
  }

  /** A restart finds the configuration as it was flushed exactly if its URLs are recoverable and nothing of
      it is missing. */
  lemma StartupUndoesFlush(c: Config, d: Defaults)
    requires Usable(d)
    ensures Startup(Stored(SecretsOf(c)), OnDisk(c, d.logDir), d) == c
            <==>
            && Recoverable(Source, SourceEntries(c.subscriptions)) && Recoverable(Rules, RuleEntries(c.providers))
            && HasIds(c.subscriptions) && Complete(c)
  {
    hide Collect, Hide, Reveal, Recoverable, WithSources, WithRuleUrls, Repaired, WithIds, SecretsOf, Loaded, Complete;
    var public := OnDisk(c, d.logDir);
    StartupHasIds(Stored(SecretsOf(c)), public, d);
    PublicKeepsShape(c);
    if HasIds(c.subscriptions) {
      assert HasIds(public.subscriptions);
      WithIdsExactly(public.subscriptions, d);
      assert public.(subscriptions := public.subscriptions) == public;
      LogDirMakesNoDifference(SecretsOf(c), c, d);
      RepairedRoundTrip(c, d);
    }
  }

  lemma RepairedRoundTrip(c: Config, d: Defaults)
    requires Usable(d)
    ensures Repaired(Loaded(SecretsOf(c), Public(c)), d) == c
            <==>
            && Recoverable(Source, SourceEntries(c.subscriptions)) && Recoverable(Rules, RuleEntries(c.providers))
            && Complete(c)
  {
    hide Collect, Hide, Reveal, Recoverable, WithSources, WithRuleUrls, SecretsOf, Complete, RepairedSettings, DefaultPool;
    var y := Loaded(SecretsOf(c), Public(c));
    LoadUndoesSplit(c);
    RepairedExactly(c, d);
    if Repaired(y, d) == c {
      assert y.subscriptions == c.subscriptions && y.providers == c.providers && y.secret == c.secret;
      assert y == c;
    }
  }

  /** Valid configurations lack nothing but, perhaps, a pool, the paths, the log limits, the controller
      address and, without a core, the address to get one from. */
  lemma ValidNeedsLittle(c: Config)
    requires Valid(c)
    ensures HasIds(c.subscriptions)
    ensures Complete(c) <==>
              && (c.subscriptions != [] ==> c.pools != []) && c.configPath != "" && c.logDir != ""
              && c.settings.maxFileBytes > 0 && c.settings.maxBackups > 0 && c.settings.controller != ""
              && (c.binaryPath != "" || c.settings.coreDownload != "")
  {
    hide PoolsOk, BuiltInsOk, ProvidersOk, IsMatchRule;
    assert forall i | 0 <= i < |c.subscriptions| :: SubscriptionOk(c.subscriptions[i]);
    NotBlankNotEmpty(c.settings.defaultGroup);
    NotBlankNotEmpty(c.settings.language);
  }

  lemma NotBlankNotEmpty(s: string)
    requires !Blank(s)
    ensures s != ""
  {
  }

  /** A restart after a crash, or a failure, between the writes of a configuration that replaces
      another: each subscription has the URL the new configuration gives its ID, else its own
      public one; it is left with a dangling reference exactly if its URL was a secret and the new
      configuration holds no secret URL for its ID. */
  lemma CrashBetweenWrites(was: Config, next: Config, d: Defaults, i: nat)
    requires i < |was.subscriptions|
    ensures var c := Startup(Stored(SecretsOf(next)), OnDisk(was, d.logDir), d);
            var secrets := Collect(Source, SourceEntries(next.subscriptions));
            var s, t := was.subscriptions[i], c.subscriptions[i];
            && t == s.(id := t.id, url := t.url, source := if was.pools == [] then Or(s.source, "url") else s.source)
            && (s.id != "" ==> t.id == s.id)
            && (t.id in secrets ==> exists n | n in next.subscriptions :: n.id == t.id && n.url == t.url)
            && (t.id !in secrets ==> t.url == if Separable(Source, s.url) then Ref(Source, s.id) else s.url)
  {
    hide Separable, Ref, Collect, RepairedSettings, DefaultPool;
    var after := SourceEntries(next.subscriptions);
    var public := OnDisk(was, d.logDir);
    PublicKeepsShape(was);
    var identified := public.(subscriptions := WithIds(public.subscriptions, d.newId));
    var s, p := was.subscriptions[i], identified.subscriptions[i];
    assert p.url == if Separable(Source, s.url) then Ref(Source, s.id) else s.url;
    LoadsOwn(SecretsOf(next), identified, i);
    CollectMeans(Source, after, p.id);
    CollectedNotEmpty(Source, after, p.id);
    if p.id in Collect(Source, after) {
      var k :| 0 <= k < |after| && after[k].key == p.id && Separable(Source, after[k].url)
               && Collect(Source, after)[p.id] == after[k].url;
      assert next.subscriptions[k] in next.subscriptions;
    }
  }

  /** The same of the rule subscriptions, which go by their names. */
  lemma CrashBetweenRuleWrites(was: Config, next: Config, d: Defaults, i: nat)
    requires i < |was.providers|
    ensures var c := Startup(Stored(SecretsOf(next)), OnDisk(was, d.logDir), d);
            var secrets := Collect(Rules, RuleEntries(next.providers));
            |c.providers| == |was.providers|
            && var p, q := was.providers[i], c.providers[i];
            && q == p.(url := q.url)
            && (p.name in secrets ==> exists n | n in next.providers :: n.name == p.name && n.url == q.url)
            && (p.name !in secrets ==> q.url == if Separable(Rules, p.url) then Ref(Rules, p.name) else p.url)
  {
    hide Separable, Ref, Collect, RepairedSettings, DefaultPool;
    var before, after := RuleEntries(was.providers), RuleEntries(next.providers);
    var public := OnDisk(was, d.logDir);
    var identified := public.(subscriptions := WithIds(public.subscriptions, d.newId));
    assert RuleEntries(identified.providers) == Hide(Rules, before);
    CrashLoadsOwn(Rules, before, after, i);
    var e := Reveal(Collect(Rules, after), Hide(Rules, before))[i];
    assert Startup(Stored(SecretsOf(next)), public, d).providers[i] == identified.providers[i].(url := e.url);
    if e.key in Collect(Rules, after) {
      var k :| 0 <= k < |after| && after[k] == e;
      assert next.providers[k] in next.providers;
    }
  }

  lemma LoadsOwn(secrets: RuntimeSecrets, c: Config, i: nat)
    requires i < |c.subscriptions|
    ensures var s := c.subscriptions[i];
            Loaded(secrets, c).subscriptions[i]
            == if s.id in secrets.sources && secrets.sources[s.id] != "" then s.(url := secrets.sources[s.id]) else s
  {
  }

  /** Starting without a readable secrets file and then saving overwrites the secrets: from then on
      every restart finds the references only. */
  lemma SavingUnreadSecretsErases(c: Config, d: Defaults)
    requires Usable(d)
    ensures var started := Startup(Unreadable, OnDisk(c, d.logDir), d);
            && SecretsOf(started) == RuntimeSecrets("", map[], map[])
            && Startup(Stored(SecretsOf(started)), OnDisk(started, d.logDir), d) == started
            && |started.subscriptions| == |c.subscriptions|
            && forall i | 0 <= i < |c.subscriptions| :: started.subscriptions[i].url == Public(c).subscriptions[i].url
  {
    hide Separable, Ref, Collect, Hide, RepairedSettings, DefaultPool;
    PublicHoldsNothing(c);
    PublicKeepsShape(c);
    var public := OnDisk(c, d.logDir);
    var started := Startup(Unreadable, public, d);
    assert !HoldsSecret(started) by {
      forall i | 0 <= i < |started.subscriptions|
        ensures !Separable(Source, started.subscriptions[i].url)
      {
        assert Public(c).subscriptions[i] in Public(c).subscriptions;
      }
    }
    StartupHasIds(Unreadable, public, d);
    RepairedExactly(public.(subscriptions := WithIds(public.subscriptions, d.newId)), d);
    NothingIsRecoverable(started);
    NothingToSeparate(started);
    StartupUndoesFlush(started, d);
  }

  lemma NothingIsRecoverable(c: Config)
    requires !HoldsSecret(c)
    ensures Recoverable(Source, SourceEntries(c.subscriptions)) && Recoverable(Rules, RuleEntries(c.providers))
  {
    hide Separable;
  }

  lemma NothingToSeparate(c: Config)
    requires !HoldsSecret(c) && c.secret == ""
    ensures SecretsOf(c) == RuntimeSecrets("", map[], map[])
  {
    hide Separable, Collect;
    forall key: string
      ensures key !in Collect(Source, SourceEntries(c.subscriptions)) && key !in Collect(Rules, RuleEntries(c.providers))
    {
      CollectMeans(Source, SourceEntries(c.subscriptions), key);
      CollectMeans(Rules, RuleEntries(c.providers), key);
    }
  }
}
