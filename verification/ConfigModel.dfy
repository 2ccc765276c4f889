/** The configuration as a value, and when the daemon accepts it. */
module ConfigModel {
  import opened Text

  datatype Subscription = Subscription(
    id: string, name: string, url: string, source: string, fetchStrategy: string, userAgent: string,
    cacheFile: string, digest: string, failureCount: int)

  datatype Pool = Pool(
    id: string, name: string, mode: string, members: seq<string>, activeMember: string,
    enabled: bool, refreshInterval: int, degraded: bool)

  datatype RuleProvider = RuleProvider(
    name: string, url: string, behavior: string, format: string, interval: int, proxyGroup: string)

  datatype BuiltInRule = BuiltInRule(
    id: string, name: string, kind: string, enabled: bool, order: int, rule: string,
    url: string, behavior: string, format: string, interval: int, proxyGroup: string)

  /** The single-valued settings a validation looks at. `addressesParse` is what the URL and
      host:port parsers say of the controller address, which may be empty, and the download URLs. */
  datatype Settings = Settings(
    ports: seq<int>, controller: string, coreDownload: string, addressesParse: bool, coreLogLevel: string, logLevel: string,
    maxFileBytes: int, maxBackups: int, proxyMode: string, defaultGroup: string, language: string)

  datatype Config = Config(
    version: int, tun: bool, secret: string, configPath: string, binaryPath: string, logDir: string,
    settings: Settings,
    subscriptions: seq<Subscription>, active: int, pools: seq<Pool>,
    providers: seq<RuleProvider>, builtInsReady: bool, builtIns: seq<BuiltInRule>,
    preRules: seq<string>, postRules: seq<string>)

  /** The address of a subscription without one. */
  const MANUAL := "手动配置"

  const FAILOVER := "failover"
  const MERGE := "merge"

  function NormalizedMode(mode: string): string
  {
    if mode == "" then FAILOVER else mode
  }

  /** Index of the subscription with this ID, -1 when there is none. */
  function FindById(subs: seq<Subscription>, id: string): (i: int)
    ensures -1 <= i < |subs|
    ensures i >= 0 ==> subs[i].id == id && forall j | 0 <= j < i :: subs[j].id != id
    ensures i < 0 ==> forall j | 0 <= j < |subs| :: subs[j].id != id
  {
    FindByIdFrom(subs, id, 0)
  }

  function FindByIdFrom(subs: seq<Subscription>, id: string, from: nat): (i: int)
    requires from <= |subs|
    ensures i == -1 || from <= i < |subs|
    ensures i >= 0 ==> subs[i].id == id && forall j | from <= j < i :: subs[j].id != id
    ensures i < 0 ==> forall j | from <= j < |subs| :: subs[j].id != id
    decreases |subs| - from
  {
    if from == |subs| then -1 else if subs[from].id == id then from else FindByIdFrom(subs, id, from + 1)
  }

  function FindByName(subs: seq<Subscription>, name: string): (i: int)
    ensures -1 <= i < |subs|
    ensures i >= 0 ==> subs[i].name == name && forall j | 0 <= j < i :: subs[j].name != name
    ensures i < 0 ==> forall j | 0 <= j < |subs| :: subs[j].name != name
  {
    FindByNameFrom(subs, name, 0)
  }

  function FindByNameFrom(subs: seq<Subscription>, name: string, from: nat): (i: int)
    requires from <= |subs|
    ensures i == -1 || from <= i < |subs|
    ensures i >= 0 ==> subs[i].name == name && forall j | from <= j < i :: subs[j].name != name
    ensures i < 0 ==> forall j | from <= j < |subs| :: subs[j].name != name
    decreases |subs| - from
  {
    if from == |subs| then -1 else if subs[from].name == name then from else FindByNameFrom(subs, name, from + 1)
  }

  // ---- what a valid configuration is ----

  ghost predicate SettingsOk(s: Settings)
  {
    && (forall i | 0 <= i < |s.ports| :: 0 <= s.ports[i] <= 65535)
    && (forall i, j | 0 <= i < j < |s.ports| :: s.ports[i] == s.ports[j] ==> s.ports[i] == 0)
    && s.addressesParse
    && s.coreLogLevel in {"debug", "info", "warning", "error", "silent"}
    && s.logLevel in {"debug", "info", "warn", "error"}
    && (s.maxFileBytes == 0 || 1024 <= s.maxFileBytes <= 0x4000_0000)
    && (s.maxBackups == 0 || 1 <= s.maxBackups <= 100)
    && s.proxyMode in {"rule", "global", "direct"}
    && !Blank(s.defaultGroup) && !Blank(s.language)
  }

  predicate SubscriptionOk(s: Subscription)
  {
    && !Blank(s.name) && s.id != "" && !Blank(s.url)
    && s.fetchStrategy in {"", "direct", "local_mihomo", "system"}
    && |s.userAgent| <= 512
  }

  ghost predicate SubscriptionsOk(subs: seq<Subscription>)
  {
    && (forall i | 0 <= i < |subs| :: SubscriptionOk(subs[i]))
    && (forall i, j | 0 <= i < j < |subs| :: subs[i].name != subs[j].name)
    && (forall i, j | 0 <= i < j < |subs| :: subs[i].id != subs[j].id)
  }

  ghost predicate Distinct(s: seq<string>)
  {
    forall i, j | 0 <= i < j < |s| :: s[i] != s[j]
  }

  /** One pool on its own: who may be a member is given by the IDs that exist. */
  ghost predicate PoolOk(p: Pool, subs: seq<Subscription>)
  {
    && !Blank(p.id) && !Blank(p.name)
    && (NormalizedMode(p.mode) == FAILOVER || NormalizedMode(p.mode) == MERGE)
    && p.refreshInterval >= 0
    && Distinct(p.members)
    && (forall id | id in p.members :: FindById(subs, id) >= 0)
    && (p.enabled ==> p.members != [])
    && (p.activeMember != "" ==> p.activeMember in p.members)
  }

  ghost predicate Disjoint(p: Pool, q: Pool)
  {
    forall id | id in p.members :: id !in q.members
  }

  ghost predicate PoolsOk(pools: seq<Pool>, subs: seq<Subscription>)
  {
    && (forall i | 0 <= i < |pools| :: PoolOk(pools[i], subs))
    && (forall i, j | 0 <= i < j < |pools| :: pools[i].id != pools[j].id)
    && (forall i, j | 0 <= i < j < |pools| :: Disjoint(pools[i], pools[j]))
  }

  predicate FetchOk(url: string, behavior: string, format: string, interval: int)
  {
    && !Blank(url)
    && behavior in {"classical", "domain", "ipcidr"}
    && format in {"yaml", "text", "mrs"}
    && interval > 0
  }

  ghost predicate ProvidersOk(providers: seq<RuleProvider>)
  {
    && (forall i | 0 <= i < |providers| ::
          !Blank(providers[i].name)
          && FetchOk(providers[i].url, providers[i].behavior, providers[i].format, providers[i].interval))
    && (forall i, j | 0 <= i < j < |providers| :: providers[i].name != providers[j].name)
  }

  const LITERAL := "literal"
  const PROVIDER := "provider"
  const MATCH := "match"

  predicate BuiltInOk(r: BuiltInRule)
  {
    || (r.kind == LITERAL && !Blank(r.rule))
    || (r.kind == PROVIDER && FetchOk(r.url, r.behavior, r.format, r.interval))
    || (r.kind == MATCH && r.enabled && !Blank(r.proxyGroup))
  }

  ghost predicate BuiltInsListed(rules: seq<BuiltInRule>)
  {
    && (forall i | 0 <= i < |rules| :: !Blank(rules[i].id) && rules[i].order == i && BuiltInOk(rules[i]))
    && (forall i, j | 0 <= i < j < |rules| :: rules[i].id != rules[j].id)
  }

  /** Ordered by position, with distinct IDs, and one enabled MATCH, at the end. */
  ghost predicate BuiltInsOk(rules: seq<BuiltInRule>)
  {
    && BuiltInsListed(rules)
    && rules != [] && forall i | 0 <= i < |rules| :: rules[i].kind == MATCH <==> i == |rules| - 1
  }

  function Upper(s: string): string
  {
    if s == "" then ""
    else [if 'a' <= s[0] <= 'z' then (s[0] as int - 32) as char else s[0]] + Upper(s[1..])
  }

  predicate IsMatchRule(rule: string)
  {
    "MATCH," <= Upper(Trim(rule))
  }

  ghost predicate Valid(c: Config)
  {
    && SettingsOk(c.settings)
    && SubscriptionsOk(c.subscriptions) && -1 <= c.active < |c.subscriptions|
    && PoolsOk(c.pools, c.subscriptions)
    && ProvidersOk(c.providers)
    && c.builtInsReady && BuiltInsOk(c.builtIns)
    && (forall r | r in c.preRules + c.postRules :: !IsMatchRule(r))
  }
}
