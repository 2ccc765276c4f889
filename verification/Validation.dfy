/** The validation the daemon runs before every commit: it collects problems in one pass per
    section, remembering what it has seen, and finds none exactly in a valid configuration. */
module Validation {
  import opened ConfigModel
  import opened Text

  method ValidatePorts(ports: seq<int>) returns (problems: seq<string>)
    ensures problems == [] <==>
              && (forall i | 0 <= i < |ports| :: 0 <= ports[i] <= 65535)
              && (forall i, j | 0 <= i < j < |ports| :: ports[i] == ports[j] ==> ports[i] == 0)
  {
    problems := [];
    var seen: set<int> := {};
    for i := 0 to |ports|
      invariant forall p | p in seen :: exists j | 0 <= j < i :: ports[j] == p && p != 0
      invariant problems == [] ==> forall j | 0 <= j < i :: 0 <= ports[j] <= 65535 && (ports[j] == 0 || ports[j] in seen)
      invariant problems == [] ==> forall j, k | 0 <= j < k < i :: ports[j] == ports[k] ==> ports[j] == 0
      invariant problems != [] ==>
                  || (exists j | 0 <= j < i :: !(0 <= ports[j] <= 65535))
                  || (exists j, k | 0 <= j < k < i :: ports[j] == ports[k] && ports[j] != 0)
    {
      if ports[i] == 0 {
      } else if ports[i] < 1 || ports[i] > 65535 {
        problems := problems + ["port out of range"];
      } else if ports[i] in seen {
        problems := problems + ["port conflict"];
      } else {
        seen := seen + {ports[i]};
      }
    }
  }

  method ValidateSubscriptions(subs: seq<Subscription>, active: int) returns (problems: seq<string>)
    ensures problems == [] <==> SubscriptionsOk(subs) && -1 <= active < |subs|
  {
    problems := [];
    var names: set<string>, ids: set<string> := {}, {};
    for i := 0 to |subs|
      invariant problems == [] <==> SubscriptionsOk(subs[..i])
      invariant problems == [] ==> names == (set j | 0 <= j < i :: subs[j].name)
      invariant problems == [] ==> ids == (set j | 0 <= j < i :: subs[j].id)
    {
      var s := subs[i];
      ghost var before := problems;
      AppendSubscription(subs[..i], s);
      assert subs[..i + 1] == subs[..i] + [s];
      if Blank(s.name) {
        problems := problems + ["blank name"];
      } else if s.name in names {
        problems := problems + ["duplicate name"];
      } else {
        names := names + {s.name};
      }
      if s.id == "" {
        problems := problems + ["no ID"];
      } else if s.id in ids {
        problems := problems + ["duplicate ID"];
      } else {
        ids := ids + {s.id};
      }
      if Blank(s.url) {
        problems := problems + ["blank URL"];
      }
      if s.fetchStrategy !in {"", "direct", "local_mihomo", "system"} {
        problems := problems + ["bad strategy"];
      }
      if |s.userAgent| > 512 {
        problems := problems + ["user agent too long"];
      }
    }
    assert subs[..|subs|] == subs;
    if active < -1 || active >= |subs| {
      problems := problems + ["active index out of range"];
    }
  }

  lemma AppendSubscription(subs: seq<Subscription>, s: Subscription)
    ensures SubscriptionsOk(subs + [s]) <==>
              && SubscriptionsOk(subs) && SubscriptionOk(s)
              && (forall j | 0 <= j < |subs| :: subs[j].name != s.name)
              && (forall j | 0 <= j < |subs| :: subs[j].id != s.id)
  {
    var all := subs + [s];
    if SubscriptionsOk(all) {
      assert forall j | 0 <= j < |subs| :: all[j] == subs[j] && all[j].name != all[|subs|].name;
    }
  }

  method ValidatePools(pools: seq<Pool>, subs: seq<Subscription>) returns (problems: seq<string>)
    ensures problems == [] <==> PoolsOk(pools, subs)
  {
    hide PoolOk, PoolsOk;
    problems := [];
    var ids: set<string>, owner: map<string, string> := {}, map[];
    NoPoolsOk(pools, subs);
    for i := 0 to |pools|
      invariant problems == [] <==> PoolsOk(pools[..i], subs)
      invariant problems == [] ==> ids == (set j | 0 <= j < i :: pools[j].id)
      invariant problems == [] ==> owner.Keys == Members(pools[..i])
    {
      var p := pools[i];
      AppendPool(pools[..i], p, subs);
      MembersAppend(pools[..i], p);
      assert pools[..i + 1] == pools[..i] + [p];
      var poolProblems;
      poolProblems, owner := ValidatePool(p, subs, ids, owner);
      problems := problems + poolProblems;
      ids := ids + {p.id};
    }
    assert pools[..|pools|] == pools;
  }

  lemma NoPoolsOk(pools: seq<Pool>, subs: seq<Subscription>)
    ensures PoolsOk(pools[..0], subs)
  {
  }

  lemma MembersAppend(pools: seq<Pool>, p: Pool)
    ensures Members(pools + [p]) == Members(pools) + set id | id in p.members
  {
    var all := pools + [p];
    assert all[|pools|] == p;
    assert forall i | 0 <= i < |pools| :: all[i] == pools[i];
  }

  /** One pool against the IDs and the member owners seen so far. */
  method ValidatePool(p: Pool, subs: seq<Subscription>, ids: set<string>, owner: map<string, string>)
    returns (problems: seq<string>, owner': map<string, string>)
    ensures owner'.Keys == owner.Keys + set id | id in p.members
    ensures problems == [] <==> PoolOk(p, subs) && p.id !in ids && forall id | id in p.members :: id !in owner
  {
    hide Distinct, Blank;
    problems := [];
    if Blank(p.id) || p.id in ids {
      problems := problems + ["pool ID blank or duplicate"];
    }
    if Blank(p.name) {
      problems := problems + ["pool name blank"];
    }
    if NormalizedMode(p.mode) != FAILOVER && NormalizedMode(p.mode) != MERGE {
      problems := problems + ["pool mode"];
    }
    if p.refreshInterval < 0 {
      problems := problems + ["negative interval"];
    }
    var memberProblems, members;
    memberProblems, members, owner' := ValidateMembers(p, subs, owner);
    problems := problems + memberProblems;
    if p.enabled && |p.members| == 0 {
      problems := problems + ["enabled pool without members"];
    }
    if p.activeMember != "" && p.activeMember !in members {
      problems := problems + ["active member outside pool"];
    }
  }

  ghost function Members(pools: seq<Pool>): set<string>
  {
    set i, id | 0 <= i < |pools| && id in pools[i].members :: id
  }

  /** The inner loop: members are distinct, exist, and belong to no earlier pool. */
  method ValidateMembers(p: Pool, subs: seq<Subscription>, owner: map<string, string>)
    returns (problems: seq<string>, members: set<string>, owner': map<string, string>)
    ensures members == set id | id in p.members
    ensures owner'.Keys == owner.Keys + members
    ensures problems == [] <==>
              && Distinct(p.members)
              && (forall id | id in p.members :: FindById(subs, id) >= 0)
              && (forall id | id in p.members :: id !in owner)
  {
    problems, members, owner' := [], {}, owner;
    for i := 0 to |p.members|
      invariant members == set id | id in p.members[..i]
      invariant owner'.Keys == owner.Keys + members
      invariant problems == [] <==>
                  && Distinct(p.members[..i])
                  && (forall id | id in p.members[..i] :: FindById(subs, id) >= 0)
                  && (forall id | id in p.members[..i] :: id !in owner)
    {
      var id := p.members[i];
      var before := p.members[..i];
      assert p.members[..i + 1] == before + [id];
      AppendDistinct(before, id);
      if id in members {
        problems := problems + ["duplicate member"];
      }
      members := members + {id};
      if FindById(subs, id) < 0 {
        problems := problems + ["unknown member"];
      }
      if id in owner' {
        problems := problems + ["member of two pools"];
      } else {
        owner' := owner'[id := p.name];
      }
    }
    assert p.members[..|p.members|] == p.members;
  }

  lemma AppendDistinct(s: seq<string>, x: string)
    ensures Distinct(s + [x]) <==> Distinct(s) && x !in s
  {
    var all := s + [x];
    assert forall i | 0 <= i < |s| :: all[i] == s[i];
    if Distinct(all) {
      assert forall i | 0 <= i < |s| :: all[i] != all[|s|];
    }
  }

  lemma AppendPool(pools: seq<Pool>, p: Pool, subs: seq<Subscription>)
    ensures PoolsOk(pools + [p], subs) <==>
              && PoolsOk(pools, subs) && PoolOk(p, subs)
              && (forall j | 0 <= j < |pools| :: pools[j].id != p.id)
              && (forall id | id in p.members :: id !in Members(pools))
  {
    hide PoolOk;
    var all := pools + [p];
    if PoolsOk(all, subs) {
      assert forall j | 0 <= j < |pools| :: all[j] == pools[j] && all[j].id != all[|pools|].id && Disjoint(all[j], all[|pools|]);
      assert PoolOk(all[|pools|], subs);
    }
  }

  method ValidateProviders(providers: seq<RuleProvider>) returns (problems: seq<string>)
    ensures problems == [] <==> ProvidersOk(providers)
  {
    problems := [];
    var names: set<string> := {};
    for i := 0 to |providers|
      invariant problems == [] <==> ProvidersOk(providers[..i])
      invariant problems == [] ==> names == (set j | 0 <= j < i :: providers[j].name)
    {
      var p := providers[i];
      AppendProvider(providers[..i], p);
      assert providers[..i + 1] == providers[..i] + [p];
      if Blank(p.name) {
        problems := problems + ["blank name"];
      } else if p.name in names {
        problems := problems + ["duplicate name"];
      } else {
        names := names + {p.name};
      }
      var fetch := ValidateFetch(p.url, p.behavior, p.format, p.interval);
      problems := problems + fetch;
    }
    assert providers[..|providers|] == providers;
  }

  lemma AppendProvider(providers: seq<RuleProvider>, p: RuleProvider)
    ensures ProvidersOk(providers + [p]) <==>
              && ProvidersOk(providers) && !Blank(p.name) && FetchOk(p.url, p.behavior, p.format, p.interval)
              && (forall j | 0 <= j < |providers| :: providers[j].name != p.name)
  {
    var all := providers + [p];
    if ProvidersOk(all) {
      assert forall j | 0 <= j < |providers| :: all[j] == providers[j] && all[j].name != all[|providers|].name;
    }
  }

  method ValidateFetch(url: string, behavior: string, format: string, interval: int) returns (problems: seq<string>)
    ensures problems == [] <==> FetchOk(url, behavior, format, interval)
  {
    problems := [];
    if Blank(url) { problems := problems + ["blank URL"]; }
    if behavior !in {"classical", "domain", "ipcidr"} { problems := problems + ["behavior"]; }
    if format !in {"yaml", "text", "mrs"} { problems := problems + ["format"]; }
    if interval <= 0 { problems := problems + ["interval"]; }
  }

  method ValidateBuiltIns(rules: seq<BuiltInRule>) returns (problems: seq<string>)
    ensures problems == [] <==> BuiltInsOk(rules)
  {
    problems := [];
    var ids: set<string>, orders: set<int>, matches := {}, {}, 0;
    for i := 0 to |rules|
      invariant problems == [] ==> BuiltInsListed(rules[..i])
      invariant problems == [] ==> ids == (set j | 0 <= j < i :: rules[j].id)
      invariant problems == [] ==> forall n | n in orders :: 0 <= n < i
      invariant problems == [] ==> forall j | 0 <= j < i :: rules[j].kind == MATCH ==> j == |rules| - 1
      invariant problems == [] ==> matches == if i == |rules| && i > 0 && rules[i - 1].kind == MATCH then 1 else 0
      invariant problems != [] ==> !BuiltInsListed(rules[..i]) || exists j :: 0 <= j < i && j != |rules| - 1 && rules[j].kind == MATCH
    {
      var r := rules[i];
      AppendBuiltIn(rules[..i], r);
      assert rules[..i + 1] == rules[..i] + [r];
      if Blank(r.id) || r.id in ids {
        problems := problems + ["rule ID blank or duplicate"];
      }
      ids := ids + {r.id};
      if r.order != i || r.order in orders {
        problems := problems + ["rule order"];
      }
      orders := orders + {r.order};
      if r.kind == LITERAL {
        if Blank(r.rule) { problems := problems + ["blank rule"]; }
      } else if r.kind == PROVIDER {
        var fetch := ValidateFetch(r.url, r.behavior, r.format, r.interval);
        problems := problems + fetch;
      } else if r.kind == MATCH {
        matches := matches + 1;
        if !r.enabled { problems := problems + ["MATCH disabled"]; }
        if i != |rules| - 1 { problems := problems + ["MATCH not last"]; }
        if Blank(r.proxyGroup) { problems := problems + ["MATCH without policy"]; }
      } else {
        problems := problems + ["rule kind"];
      }
    }
    assert rules[..|rules|] == rules;
    if matches != 1 {
      problems := problems + ["exactly one MATCH"];
    }
  }

  lemma AppendBuiltIn(rules: seq<BuiltInRule>, r: BuiltInRule)
    ensures BuiltInsListed(rules + [r]) <==>
              && BuiltInsListed(rules) && !Blank(r.id) && r.order == |rules| && BuiltInOk(r)
              && (forall j | 0 <= j < |rules| :: rules[j].id != r.id)
  {
    var all := rules + [r];
    if BuiltInsListed(all) {
      assert forall j | 0 <= j < |rules| :: all[j] == rules[j] && all[j].id != all[|rules|].id;
    }
  }

  method ValidateCustom(rules: seq<string>) returns (problems: seq<string>)
    ensures problems == [] <==> forall r | r in rules :: !IsMatchRule(r)
  {
    problems := [];
    for i := 0 to |rules|
      invariant problems == [] <==> forall j | 0 <= j < i :: !IsMatchRule(rules[j])
    {
      if IsMatchRule(rules[i]) {
        problems := problems + ["custom MATCH"];
      }
    }
  }

  method ValidateSettings(s: Settings) returns (problems: seq<string>)
    ensures problems == [] <==> SettingsOk(s)
  {
    problems := ValidatePorts(s.ports);
    if !s.addressesParse { problems := problems + ["addresses"]; }
    if s.coreLogLevel !in {"debug", "info", "warning", "error", "silent"} { problems := problems + ["core log level"]; }
    if s.logLevel !in {"debug", "info", "warn", "error"} { problems := problems + ["log level"]; }
    if s.maxFileBytes != 0 && (s.maxFileBytes < 1024 || s.maxFileBytes > 0x4000_0000) { problems := problems + ["file limit"]; }
    if s.maxBackups != 0 && (s.maxBackups < 1 || s.maxBackups > 100) { problems := problems + ["backups"]; }
    if s.proxyMode !in {"rule", "global", "direct"} { problems := problems + ["proxy mode"]; }
    if Blank(s.defaultGroup) { problems := problems + ["default group"]; }
    if Blank(s.language) { problems := problems + ["language"]; }
  }

  /** The whole validation: it reports nothing exactly for a valid configuration. */
  method Validate(c: Config) returns (problems: seq<string>)
    ensures problems == [] <==> Valid(c)
  {
    hide SettingsOk, SubscriptionsOk, PoolsOk, ProvidersOk, BuiltInsOk, IsMatchRule;
    problems := ValidateSettings(c.settings);
    var more := ValidateSubscriptions(c.subscriptions, c.active);
    problems := problems + more;
    more := ValidatePools(c.pools, c.subscriptions);
    problems := problems + more;
    more := ValidateProviders(c.providers);
    problems := problems + more;
    if !c.builtInsReady {
      problems := problems + ["built-in rules not initialised"];
    } else {
      more := ValidateBuiltIns(c.builtIns);
      problems := problems + more;
    }
    more := ValidateCustom(c.preRules + c.postRules);
    problems := problems + more;
  }
}
