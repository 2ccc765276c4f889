/** Compiling the layers of rules into the one list the core evaluates from the top. */
module Rules {
  import opened ConfigModel
  import opened Text
  import opened Wrappers

  /** A rule provider as the core gets it. */
  datatype Provider = Provider(url: string, behavior: string, path: string, format: string, interval: int, group: string)

  /** A rule list to be fetched, under the name it is registered and referred to by. */
  datatype Named = Named(name: string, provider: Provider)

  const AUTO := "Auto"

  function DefaultGroup(c: Config): string
  {
    if c.settings.defaultGroup != "" then c.settings.defaultGroup else AUTO
  }

  function Group(c: Config, group: string): string
  {
    if group == "" || group == AUTO then DefaultGroup(c) else group
  }

  function Extension(format: string): string
  {
    if format == "text" then "txt" else format
  }

  function Format(format: string): string
  {
    if format == "" then "yaml" else format
  }

  function PathOf(name: string, format: string): string
  {
    "./rules/" + FileName(name) + "." + Extension(Format(format))
  }

  function UserProvider(c: Config, rp: RuleProvider): Provider
  {
    Provider(rp.url, rp.behavior, PathOf(rp.name, rp.format), Format(rp.format),
             if rp.interval <= 0 then 86400 else rp.interval, Group(c, rp.proxyGroup))
  }

  function BuiltInProvider(c: Config, r: BuiltInRule): Provider
  {
    Provider(r.url, r.behavior, PathOf(r.id, r.format), Format(r.format), r.interval, Group(c, r.proxyGroup))
  }

  /** A user's rule subscription; `hash` is the digest of its address, shortened. */
  function UserNamed(c: Config, rp: RuleProvider, hash: string -> string): Named
  {
    Named("custom-" + FileName(rp.name) + "-" + hash(rp.url), UserProvider(c, rp))
  }

  function BuiltInNamed(c: Config, r: BuiltInRule): Named
  {
    Named("builtin-" + FileName(r.id), BuiltInProvider(c, r))
  }

  /** A trailing `,Auto` stands for the default group. */
  function WithDefaultGroup(rule: string, group: string): string
  {
    if |rule| >= 5 && rule[|rule| - 5..] == ",Auto" then rule[..|rule| - 5] + "," + group else rule
  }

  /** A written group is kept; none, or Auto, stands for the default group of the configuration, which is Auto if
      that has none. The same goes for the end of a rule written as text. */
  lemma GroupsAreKept(c: Config, group: string, rule: string)
    ensures Group(c, group) == if group != "" && group != "Auto" then group
                               else if c.settings.defaultGroup != "" then c.settings.defaultGroup else "Auto"
    ensures WithDefaultGroup(rule + ",Auto", group) == rule + "," + group
    ensures (forall before :: rule != before + ",Auto") ==> WithDefaultGroup(rule, group) == rule
  {
    assert (rule + ",Auto")[|rule|..] == ",Auto" && (rule + ",Auto")[..|rule|] == rule;
    if |rule| >= 5 && rule[|rule| - 5..] == ",Auto" {
      assert rule == rule[..|rule| - 5] + ",Auto";
    }
  }

  /** What a list is fetched as: its own address and behavior, and a format, an interval and a group that stand in
      for those not given. */
  lemma ListsAreAsWritten(c: Config, rp: RuleProvider, r: BuiltInRule)
    ensures var p := UserProvider(c, rp);
            && p.url == rp.url && p.behavior == rp.behavior
            && p.format == (if rp.format == "" then "yaml" else rp.format)
            && p.interval == (if rp.interval > 0 then rp.interval else 86400)
            && p.group == Group(c, rp.proxyGroup)
            && "./rules/" + FileName(rp.name) + "." <= p.path
            && p.path[8 + |FileName(rp.name)| + 1..] == if p.format == "text" then "txt" else p.format
    ensures var p := BuiltInProvider(c, r);
            && p.url == r.url && p.behavior == r.behavior && p.interval == r.interval
            && p.format == (if r.format == "" then "yaml" else r.format)
            && p.group == Group(c, r.proxyGroup)
            && "./rules/" + FileName(r.id) + "." <= p.path
            && p.path[8 + |FileName(r.id)| + 1..] == if p.format == "text" then "txt" else p.format
  {
  }

  // ---- rules as text, and how the core reads them ----

  const COMMA := ","
  const RULE_SET := "RULE-SET"
  const MATCH_ALL := "MATCH"

  function SetText(n: Named): string
  {
    RULE_SET + COMMA + n.name + COMMA + n.provider.group
  }

  function MatchText(group: string): string
  {
    MATCH_ALL + COMMA + group
  }

  /** The fields between the commas. */
  function Split(s: string): (fields: seq<string>)
    ensures fields != []
  {
    if s == "" then [""]
    else if s[0] == ',' then [""] + Split(s[1..])
    else var rest := Split(s[1..]); [[s[0]] + rest[0]] + rest[1..]
  }

  /** What the core makes of a line: a reference to a list, the fallback, or any other rule. */
  datatype Rule = RuleSet(provider: string, group: string) | MatchAll(group: string) | Other(text: string)

  function Read(text: string): Rule
  {
    var fields := Split(text);
    if fields[0] == RULE_SET && |fields| >= 3 then RuleSet(fields[1], fields[2])
    else if fields[0] == MATCH_ALL && |fields| >= 2 then MatchAll(fields[1])
    else Other(text)
  }

  lemma {:induction false} SplitWhole(s: string)
    requires ',' !in s
    ensures Split(s) == [s]
  {
    if s != "" {
      assert s[0] in s && forall c | c in s[1..] :: c in s;
      SplitWhole(s[1..]);
      assert [s[0]] + s[1..] == s;
    }
  }

  /** The first field is what comes before the first comma. */
  lemma {:induction false} SplitAtComma(a: string, b: string)
    requires ',' !in a
    ensures Split(a + COMMA + b) == [a] + Split(b)
  {
    var s := a + COMMA + b;
    if a == "" {
      assert s[1..] == b;
    } else {
      assert a[0] in a && forall c | c in a[1..] :: c in a;
      assert s[0] == a[0] && s[1..] == a[1..] + COMMA + b;
      SplitAtComma(a[1..], b);
      assert [a[0]] + a[1..] == a;
    }
  }

  lemma {:induction false} FieldsArePlain(s: string)
    ensures forall f | f in Split(s) :: ',' !in f
  {
    if s != "" {
      FieldsArePlain(s[1..]);
    }
  }

  /** A reference to a list is read as it was meant if and only if neither the list's name nor its group
      has a comma in it. */
  lemma ReadsBackExactly(n: Named)
    ensures Read(SetText(n)) == RuleSet(n.name, n.provider.group) <==> ',' !in n.name && ',' !in n.provider.group
  {
    hide Split;
    var group := n.provider.group;
    var rest := n.name + COMMA + group;
    assert SetText(n) == RULE_SET + COMMA + rest;
    SplitAtComma(RULE_SET, rest);
    FieldsArePlain(SetText(n));
    CommaMakesTwo(n.name, group);
    if ',' !in n.name {
      SplitAtComma(n.name, group);
      if ',' !in group {
        SplitWhole(group);
      }
    }
    var fields := Split(SetText(n));
    assert fields[1] in fields && fields[2] in fields;
  }

  lemma CommaMakesTwo(a: string, b: string)
    ensures |Split(a + COMMA + b)| >= 2
  {
    if a == "" {
      assert (a + COMMA + b)[1..] == b;
    } else {
      assert (a + COMMA + b)[1..] == a[1..] + COMMA + b;
      CommaMakesTwo(a[1..], b);
    }
  }

  lemma MatchReadsBackExactly(group: string)
    ensures Read(MatchText(group)).MatchAll?
    ensures Read(MatchText(group)) == MatchAll(group) <==> ',' !in group
  {
    hide Split;
    SplitAtComma(MATCH_ALL, group);
    FieldsArePlain(MatchText(group));
    var fields := Split(MatchText(group));
    assert fields[0] != RULE_SET && fields[1] in fields;
    if ',' !in group {
      SplitWhole(group);
    }
  }

  // ---- what is emitted ----

  function UserSets(c: Config, providers: seq<RuleProvider>, hash: string -> string): seq<Named>
  {
    if providers == [] then []
    else
      var before, rp := UserSets(c, providers[..|providers| - 1], hash), providers[|providers| - 1];
      if rp.url == "" then before else before + [UserNamed(c, rp, hash)]
  }

  function BuiltInSets(c: Config, rules: seq<BuiltInRule>): seq<Named>
  {
    if rules == [] then []
    else
      var before, r := BuiltInSets(c, rules[..|rules| - 1]), rules[|rules| - 1];
      if r.enabled && r.kind == PROVIDER then before + [BuiltInNamed(c, r)] else before
  }

  function SetTexts(sets: seq<Named>): seq<string>
  {
    seq(|sets|, i requires 0 <= i < |sets| => SetText(sets[i]))
  }

  function LiteralText(c: Config, r: BuiltInRule): string
  {
    WithDefaultGroup(r.rule, DefaultGroup(c))
  }

  function BuiltInTexts(c: Config, rules: seq<BuiltInRule>): seq<string>
  {
    if rules == [] then []
    else
      var before, r := BuiltInTexts(c, rules[..|rules| - 1]), rules[|rules| - 1];
      if !r.enabled then before
      else if r.kind == LITERAL then before + [LiteralText(c, r)]
      else if r.kind == PROVIDER then before + [SetText(BuiltInNamed(c, r))]
      else before
  }

  /** Index of the first fallback rule, the number of rules when there is none. */
  function FirstMatch(rules: seq<BuiltInRule>): (i: nat)
    ensures i <= |rules| && (i < |rules| ==> rules[i].kind == MATCH)
    ensures forall j | 0 <= j < i :: rules[j].kind != MATCH
  {
    if rules == [] then 0 else if rules[0].kind == MATCH then 0 else FirstMatch(rules[1..]) + 1
  }

  function Fallback(c: Config): seq<string>
  {
    var i := FirstMatch(c.builtIns);
    if i < |c.builtIns| then [MatchText(Group(c, c.builtIns[i].proxyGroup))] else []
  }

  /** All lists that are registered, in the order of their rules. */
  function AllSets(c: Config, hash: string -> string): seq<Named>
  {
    UserSets(c, c.providers, hash) + BuiltInSets(c, c.builtIns)
  }

  /** Registration by name: a later list takes the place of an earlier one of the same name. */
  function Registered(sets: seq<Named>): map<string, Provider>
  {
    if sets == [] then map[]
    else Registered(sets[..|sets| - 1])[sets[|sets| - 1].name := sets[|sets| - 1].provider]
  }

  function Emitted(c: Config, hash: string -> string): seq<string>
  {
    c.preRules + SetTexts(UserSets(c, c.providers, hash)) + BuiltInTexts(c, c.builtIns) + c.postRules + Fallback(c)
  }

  const GLOBAL_MODE := "global"
  const DIRECT_MODE := "direct"

  method BuildRuleConfig(c: Config, hash: string -> string) returns (providers: map<string, Provider>, rules: seq<string>)
    ensures c.settings.proxyMode == "global" ==> providers == map[] && rules == ["MATCH," + DefaultGroup(c)]
    ensures c.settings.proxyMode == "direct" ==> providers == map[] && rules == ["MATCH,DIRECT"]
    ensures c.settings.proxyMode !in {"global", "direct"} ==>
              providers == Registered(AllSets(c, hash)) && rules == Emitted(c, hash)
  {
    providers := map[];
    if c.settings.proxyMode == GLOBAL_MODE {
      assert MatchText(DefaultGroup(c)) == "MATCH," + DefaultGroup(c);
      return providers, [MatchText(DefaultGroup(c))];
    }
    if c.settings.proxyMode == DIRECT_MODE {
      assert MatchText("DIRECT") == "MATCH,DIRECT";
      return providers, [MatchText("DIRECT")];
    }
    rules, providers := UserLayer(c, hash);
    rules, providers := BuiltInLayer(c, rules, providers, UserSets(c, c.providers, hash));
    rules := rules + c.postRules;
    ghost var before := rules;
    for i := 0 to |c.builtIns|
      invariant rules == before && i <= FirstMatch(c.builtIns)
    {
      if c.builtIns[i].kind == MATCH {
        rules := rules + [MatchText(Group(c, c.builtIns[i].proxyGroup))];
        break;
      }
    }
    assert rules == before + Fallback(c);
  }

  lemma NoSets()
    ensures SetTexts([]) == [] && Registered([]) == map[]
  {
  }

  lemma OneMoreSet(sets: seq<Named>, n: Named)
    ensures Registered(sets + [n]) == Registered(sets)[n.name := n.provider]
    ensures SetTexts(sets + [n]) == SetTexts(sets) + [SetText(n)]
  {
    assert (sets + [n])[..|sets|] == sets;
  }

  method UserLayer(c: Config, hash: string -> string) returns (rules: seq<string>, providers: map<string, Provider>)
    ensures rules == c.preRules + SetTexts(UserSets(c, c.providers, hash))
    ensures providers == Registered(UserSets(c, c.providers, hash))
  {
    hide UserNamed, SetTexts, SetText, Registered;
    rules, providers := c.preRules, map[];
    NoSets();
    assert rules + [] == rules;
    for i := 0 to |c.providers|
      invariant rules == c.preRules + SetTexts(UserSets(c, c.providers[..i], hash))
      invariant providers == Registered(UserSets(c, c.providers[..i], hash))
    {
      assert c.providers[..i + 1][..i] == c.providers[..i];
      if c.providers[i].url != "" {
        var n := UserNamed(c, c.providers[i], hash);
        OneMoreSet(UserSets(c, c.providers[..i], hash), n);
        providers := providers[n.name := n.provider];
        rules := rules + [SetText(n)];
      }
    }
    assert c.providers[..|c.providers|] == c.providers;
  }

  method BuiltInLayer(c: Config, before: seq<string>, registered: map<string, Provider>, ghost sets: seq<Named>)
      returns (rules: seq<string>, providers: map<string, Provider>)
    requires registered == Registered(sets)
    ensures rules == before + BuiltInTexts(c, c.builtIns)
    ensures providers == Registered(sets + BuiltInSets(c, c.builtIns))
  {
    hide BuiltInNamed, LiteralText, Registered, SetTexts, SetText;
    rules, providers := before, registered;
    assert sets + [] == sets;
    for i := 0 to |c.builtIns|
      invariant rules == before + BuiltInTexts(c, c.builtIns[..i])
      invariant providers == Registered(sets + BuiltInSets(c, c.builtIns[..i]))
    {
      var r := c.builtIns[i];
      assert c.builtIns[..i + 1][..i] == c.builtIns[..i];
      if r.kind != MATCH && r.enabled {
        if r.kind == LITERAL {
          rules := rules + [LiteralText(c, r)];
        } else if r.kind == PROVIDER {
          var n := BuiltInNamed(c, r);
          ghost var all := sets + BuiltInSets(c, c.builtIns[..i]);
          assert sets + (BuiltInSets(c, c.builtIns[..i]) + [n]) == all + [n];
          OneMoreSet(all, n);
          providers := providers[n.name := n.provider];
          rules := rules + [SetText(n)];
        }
      }
    }
    assert c.builtIns[..|c.builtIns|] == c.builtIns;
  }

  // ---- what the list means ----

  /** What a connection is like: what any other kind of rule decides for it, and whether it is in the list
      a provider fetches. */
  datatype Connection = Connection(other: string -> Option<string>, listed: Provider -> bool)

  function Or<T>(a: Option<T>, b: Option<T>): Option<T>
  {
    if a.Some? then a else b
  }

  function Decision(r: Rule, providers: map<string, Provider>, x: Connection): Option<string>
  {
    match r
    case RuleSet(name, group) => if name in providers && x.listed(providers[name]) then Some(group) else None
    case MatchAll(group) => Some(group)
    case Other(text) => x.other(text)
  }

  /** What one line decides, as the core reads it. */
  function LineDecides(text: string, providers: map<string, Provider>, x: Connection): Option<string>
  {
    Decision(Read(text), providers, x)
  }

  /** The core's evaluation: the first line that decides. */
  function Evaluate(rules: seq<string>, providers: map<string, Provider>, x: Connection): Option<string>
  {
    if rules == [] then None
    else Or(LineDecides(rules[0], providers, x), Evaluate(rules[1..], providers, x))
  }

  function UserDecides(c: Config, providers: seq<RuleProvider>, x: Connection): Option<string>
  {
    if providers == [] then None
    else
      var rp := providers[|providers| - 1];
      Or(UserDecides(c, providers[..|providers| - 1], x),
         if rp.url != "" && x.listed(UserProvider(c, rp)) then Some(Group(c, rp.proxyGroup)) else None)
  }

  function BuiltInDecides(c: Config, rules: seq<BuiltInRule>, registered: map<string, Provider>, x: Connection): Option<string>
  {
    if rules == [] then None
    else
      var r := rules[|rules| - 1];
      Or(BuiltInDecides(c, rules[..|rules| - 1], registered, x),
         if !r.enabled then None
         else if r.kind == LITERAL then LineDecides(LiteralText(c, r), registered, x)
         else if r.kind == PROVIDER && x.listed(BuiltInProvider(c, r)) then Some(Group(c, r.proxyGroup))
         else None)
  }

  /** The meaning of the configuration: each layer has its say before the next. Lists decide by what they
      fetch and the group they are for; rules written as text, by the user or as built-in literals, mean
      what the core reads in them, and may refer to registered lists themselves. */
  function Layered(c: Config, registered: map<string, Provider>, x: Connection): Option<string>
  {
    var i := FirstMatch(c.builtIns);
    Or(Evaluate(c.preRules, registered, x),
    Or(UserDecides(c, c.providers, x),
    Or(BuiltInDecides(c, c.builtIns, registered, x),
    Or(Evaluate(c.postRules, registered, x),
       if i < |c.builtIns| then Some(Group(c, c.builtIns[i].proxyGroup)) else None))))
  }

  /** Lists registered under one name are one list. */
  ghost predicate SameNameSameList(sets: seq<Named>)
  {
    forall i, j | 0 <= i < j < |sets| :: sets[i].name == sets[j].name ==> sets[i].provider == sets[j].provider
  }

  /** No name or group of a list has a comma in it. */
  ghost predicate Plain(sets: seq<Named>)
  {
    forall i | 0 <= i < |sets| :: ',' !in sets[i].name && ',' !in sets[i].provider.group
  }

  /** Nor has the group of the fallback. */
  ghost predicate PlainFallback(c: Config)
  {
    var i := FirstMatch(c.builtIns);
    i < |c.builtIns| ==> ',' !in Group(c, c.builtIns[i].proxyGroup)
  }

  /** All references are read as they were meant if and only if no name and no group has a comma in it. */
  lemma ReadBackExactly(sets: seq<Named>)
    ensures (forall i | 0 <= i < |sets| :: Read(SetTexts(sets)[i]) == RuleSet(sets[i].name, sets[i].provider.group))
            <==> Plain(sets)
  {
    hide Read, SetText;
    forall i | 0 <= i < |sets|
      ensures Read(SetTexts(sets)[i]) == RuleSet(sets[i].name, sets[i].provider.group)
              <==> ',' !in sets[i].name && ',' !in sets[i].provider.group
    {
      ReadsBackExactly(sets[i]);
    }
  }

  lemma {:induction false} RegisteredMeans(sets: seq<Named>, name: string)
    ensures name in Registered(sets) <==> exists i | 0 <= i < |sets| :: sets[i].name == name
    ensures name in Registered(sets) ==>
              exists i | 0 <= i < |sets| :: sets[i].name == name && Registered(sets)[name] == sets[i].provider
  {
    if sets != [] {
      var n := |sets| - 1;
      var before := sets[..n];
      RegisteredMeans(before, name);
      if sets[n].name == name {
        assert Registered(sets)[name] == sets[n].provider;
      } else if name in Registered(before) {
        var i :| 0 <= i < |before| && before[i].name == name && Registered(before)[name] == before[i].provider;
        assert sets[i] == before[i];
      }
    }
  }

  ghost predicate LooksUp(providers: map<string, Provider>, sets: seq<Named>)
  {
    forall i | 0 <= i < |sets| :: sets[i].name in providers && providers[sets[i].name] == sets[i].provider
  }

  /** Every rule looks up its own list exactly if names are not shared by different lists. */
  lemma LooksUpItsOwnExactly(sets: seq<Named>)
    ensures LooksUp(Registered(sets), sets) <==> SameNameSameList(sets)
  {
    hide Registered;
    forall i | 0 <= i < |sets|
      ensures sets[i].name in Registered(sets)
      ensures SameNameSameList(sets) ==> Registered(sets)[sets[i].name] == sets[i].provider
    {
      RegisteredMeans(sets, sets[i].name);
    }
  }

  lemma {:induction false} EvaluateAppend(a: seq<string>, b: seq<string>, providers: map<string, Provider>, x: Connection)
    ensures Evaluate(a + b, providers, x) == Or(Evaluate(a, providers, x), Evaluate(b, providers, x))
  {
    hide LineDecides;
    if a == [] {
      assert a + b == b;
    } else {
      assert (a + b)[0] == a[0] && (a + b)[1..] == a[1..] + b;
      EvaluateAppend(a[1..], b, providers, x);
    }
  }

  lemma EvaluateOne(text: string, providers: map<string, Provider>, x: Connection)
    ensures Evaluate([text], providers, x) == LineDecides(text, providers, x)
  {
    hide LineDecides;
    assert [text][1..] == [];
  }

  lemma SetDecides(n: Named, providers: map<string, Provider>, x: Connection)
    requires n.name in providers && providers[n.name] == n.provider
    requires ',' !in n.name && ',' !in n.provider.group
    ensures LineDecides(SetText(n), providers, x) == if x.listed(n.provider) then Some(n.provider.group) else None
  {
    hide Read, SetText;
    ReadsBackExactly(n);
  }

  lemma {:induction false} UserSetsMean(c: Config, rps: seq<RuleProvider>, hash: string -> string,
                                        providers: map<string, Provider>, x: Connection)
    requires LooksUp(providers, UserSets(c, rps, hash)) && Plain(UserSets(c, rps, hash))
    ensures Evaluate(SetTexts(UserSets(c, rps, hash)), providers, x) == UserDecides(c, rps, x)
  {
    hide Registered, Group, PathOf, Format, LineDecides, SetText;
    if rps != [] {
      var n := |rps| - 1;
      var before, last := UserSets(c, rps[..n], hash), UserNamed(c, rps[n], hash);
      if rps[n].url != "" {
        assert UserSets(c, rps, hash) == before + [last];
        assert (before + [last])[|before|] == last;
        assert forall i | 0 <= i < |before| :: (before + [last])[i] == before[i];
        OneMoreSet(before, last);
        EvaluateAppend(SetTexts(before), [SetText(last)], providers, x);
        EvaluateOne(SetText(last), providers, x);
        SetDecides(last, providers, x);
      }
      UserSetsMean(c, rps[..n], hash, providers, x);
    }
  }

  lemma {:induction false} BuiltInsMean(c: Config, rules: seq<BuiltInRule>, providers: map<string, Provider>, x: Connection)
    requires LooksUp(providers, BuiltInSets(c, rules)) && Plain(BuiltInSets(c, rules))
    ensures Evaluate(BuiltInTexts(c, rules), providers, x) == BuiltInDecides(c, rules, providers, x)
  {
    hide Registered, Group, PathOf, Format, LiteralText, LineDecides, SetText;
    if rules != [] {
      var n := |rules| - 1;
      var before, r := BuiltInSets(c, rules[..n]), rules[n];
      var last, line := BuiltInNamed(c, r), LiteralText(c, r);
      if r.enabled && r.kind == PROVIDER {
        assert (before + [last])[|before|] == last;
        assert forall i | 0 <= i < |before| :: (before + [last])[i] == before[i];
        SetDecides(last, providers, x);
      }
      BuiltInsMean(c, rules[..n], providers, x);
      EvaluateAppend(BuiltInTexts(c, rules[..n]), [SetText(last)], providers, x);
      EvaluateAppend(BuiltInTexts(c, rules[..n]), [line], providers, x);
      EvaluateOne(SetText(last), providers, x);
      EvaluateOne(line, providers, x);
    }
  }

  /** The emitted text, read and evaluated from the top, means what the layers mean, for every connection,
      as long as no name stands for two lists and no name or group has a comma in it. */
  lemma CompilationKeepsMeaning(c: Config, hash: string -> string, x: Connection)
    requires SameNameSameList(AllSets(c, hash)) && Plain(AllSets(c, hash)) && PlainFallback(c)
    ensures var registered := Registered(AllSets(c, hash));
            Evaluate(Emitted(c, hash), registered, x) == Layered(c, registered, x)
  {
    hide Registered, UserSets, BuiltInSets, UserDecides, BuiltInDecides, BuiltInTexts, LineDecides;
    var providers := Registered(AllSets(c, hash));
    var user, builtIn := UserSets(c, c.providers, hash), BuiltInSets(c, c.builtIns);
    LooksUpItsOwnExactly(AllSets(c, hash));
    assert forall i | 0 <= i < |user| :: AllSets(c, hash)[i] == user[i];
    assert forall i | 0 <= i < |builtIn| :: AllSets(c, hash)[|user| + i] == builtIn[i];
    UserSetsMean(c, c.providers, hash, providers, x);
    BuiltInsMean(c, c.builtIns, providers, x);
    FallbackMeans(c, providers, x);
    var a, b, d, e, f := c.preRules, SetTexts(user), BuiltInTexts(c, c.builtIns), c.postRules, Fallback(c);
    EvaluateAppend(a, b, providers, x);
    EvaluateAppend(a + b, d, providers, x);
    EvaluateAppend(a + b + d, e, providers, x);
    EvaluateAppend(a + b + d + e, f, providers, x);
  }

  lemma FallbackMeans(c: Config, providers: map<string, Provider>, x: Connection)
    requires PlainFallback(c)
    ensures var i := FirstMatch(c.builtIns);
            Evaluate(Fallback(c), providers, x)
            == if i < |c.builtIns| then Some(Group(c, c.builtIns[i].proxyGroup)) else None
  {
    hide Read, MatchText;
    var i := FirstMatch(c.builtIns);
    if i < |c.builtIns| {
      EvaluateOne(Fallback(c)[0], providers, x);
      MatchReadsBackExactly(Group(c, c.builtIns[i].proxyGroup));
    }
  }

  /** With valid built-in rules the list ends in the fallback, so that everything is decided, commas or
      not. */
  lemma EndsInFallback(c: Config, hash: string -> string, providers: map<string, Provider>, x: Connection)
    requires BuiltInsOk(c.builtIns)
    ensures var rules, last := Emitted(c, hash), c.builtIns[|c.builtIns| - 1];
            && rules != [] && rules[|rules| - 1] == MatchText(Group(c, last.proxyGroup))
            && Read(rules[|rules| - 1]).MatchAll?
            && Evaluate(rules, providers, x).Some?
  {
    hide BuiltInTexts, UserSets, Evaluate, BuiltInOk, Group, Read, MatchText;
    var rules := Emitted(c, hash);
    assert c.builtIns[|c.builtIns| - 1].kind == MATCH;
    assert FirstMatch(c.builtIns) == |c.builtIns| - 1;
    var front, text := rules[..|rules| - 1], rules[|rules| - 1];
    assert rules == front + [text];
    EvaluateAppend(front, [text], providers, x);
    EvaluateOne(text, providers, x);
    MatchReadsBackExactly(Group(c, c.builtIns[|c.builtIns| - 1].proxyGroup));
  }

  // ---- the lists referred to ----

  /** The names the core finds in references to lists. */
  ghost function SetNames(rules: seq<string>): set<string>
  {
    set t | t in rules && Read(t).RuleSet? :: Read(t).provider
  }

  ghost function Names(sets: seq<Named>): set<string>
  {
    set n | n in sets :: n.name
  }

  /** The rules written as text: the user's own, and the built-in literals. */
  function Literals(c: Config, rules: seq<BuiltInRule>): seq<string>
  {
    if rules == [] then []
    else
      var before, r := Literals(c, rules[..|rules| - 1]), rules[|rules| - 1];
      if r.enabled && r.kind == LITERAL then before + [LiteralText(c, r)] else before
  }

  function Written(c: Config): seq<string>
  {
    c.preRules + Literals(c, c.builtIns) + c.postRules
  }

  lemma SetNamesAppend(a: seq<string>, b: seq<string>)
    ensures SetNames(a + b) == SetNames(a) + SetNames(b)
  {
    hide Read;
    assert forall t :: t in a + b <==> t in a || t in b;
  }

  lemma NamesAppend(a: seq<Named>, b: seq<Named>)
    ensures Names(a + b) == Names(a) + Names(b)
  {
    assert forall n :: n in a + b <==> n in a || n in b;
  }

  lemma OneSetName(n: Named)
    requires ',' !in n.name && ',' !in n.provider.group
    ensures SetNames([SetText(n)]) == {n.name} == Names([n])
  {
    hide Read, SetText;
    ReadsBackExactly(n);
    assert SetText(n) in [SetText(n)];
  }

  lemma {:induction false} BuiltInSetNames(c: Config, rules: seq<BuiltInRule>)
    requires Plain(BuiltInSets(c, rules))
    ensures SetNames(BuiltInTexts(c, rules)) == Names(BuiltInSets(c, rules)) + SetNames(Literals(c, rules))
  {
    hide BuiltInNamed, LiteralText, Read, SetText;
    if rules != [] {
      var r, rest := rules[|rules| - 1], rules[..|rules| - 1];
      var line, n, before := LiteralText(c, r), BuiltInNamed(c, r), BuiltInSets(c, rest);
      if r.enabled && r.kind == PROVIDER {
        assert (before + [n])[|before|] == n && forall i | 0 <= i < |before| :: (before + [n])[i] == before[i];
        OneSetName(n);
      }
      BuiltInSetNames(c, rest);
      hide SetNames, Names;
      SetNamesAppend(BuiltInTexts(c, rest), [line]);
      SetNamesAppend(BuiltInTexts(c, rest), [SetText(n)]);
      SetNamesAppend(Literals(c, rest), [line]);
      NamesAppend(before, [n]);
    }
  }

  lemma {:induction false} SetTextNames(sets: seq<Named>)
    requires Plain(sets)
    ensures SetNames(SetTexts(sets)) == Names(sets)
  {
    hide Read, SetText;
    if sets != [] {
      var n, before := sets[|sets| - 1], sets[..|sets| - 1];
      assert sets == before + [n];
      OneMoreSet(before, n);
      OneSetName(n);
      SetTextNames(before);
      SetNamesAppend(SetTexts(before), [SetText(n)]);
      NamesAppend(before, [n]);
    }
  }

  lemma RegisteredKeys(sets: seq<Named>)
    ensures Registered(sets).Keys == Names(sets)
  {
    hide Registered;
    forall name: string
      ensures name in Registered(sets) <==> name in Names(sets)
    {
      RegisteredMeans(sets, name);
      if name in Names(sets) {
        var n :| n in sets && n.name == name;
        var i :| 0 <= i < |sets| && sets[i] == n;
      }
    }
  }

  /** The lists the emitted text refers to are the ones registered and what written rules refer to, no more
      and no fewer, as long as no name or group has a comma in it. */
  lemma EveryListIsUsed(c: Config, hash: string -> string)
    requires Plain(AllSets(c, hash))
    ensures SetNames(Emitted(c, hash)) == Registered(AllSets(c, hash)).Keys + SetNames(Written(c))
  {
    hide BuiltInTexts, BuiltInSets, UserSets, Registered, SetTexts, Names, Literals, Read, MatchText;
    var user, builtIn := UserSets(c, c.providers, hash), BuiltInSets(c, c.builtIns);
    assert forall i | 0 <= i < |user| :: AllSets(c, hash)[i] == user[i];
    assert forall i | 0 <= i < |builtIn| :: AllSets(c, hash)[|user| + i] == builtIn[i];
    SetTextNames(user);
    BuiltInSetNames(c, c.builtIns);
    RegisteredKeys(user + builtIn);
    NamesAppend(user, builtIn);
    FallbackRefersToNothing(c);
    var a, b, d, e, f := c.preRules, SetTexts(user), BuiltInTexts(c, c.builtIns), c.postRules, Fallback(c);
    hide SetNames;
    SetNamesAppend(a, b);
    SetNamesAppend(a + b, d);
    SetNamesAppend(a + b + d, e);
    SetNamesAppend(a + b + d + e, f);
    SetNamesAppend(a, Literals(c, c.builtIns));
    SetNamesAppend(a + Literals(c, c.builtIns), e);
  }

  lemma FallbackRefersToNothing(c: Config)
    ensures SetNames(Fallback(c)) == {}
  {
    hide Read, MatchText;
    var i := FirstMatch(c.builtIns);
    if i < |c.builtIns| {
      MatchReadsBackExactly(Group(c, c.builtIns[i].proxyGroup));
    }
  }

  // ---- names and paths that go wrong ----

  lemma CommaPassesValidation(rp: RuleProvider)
    requires rp == RuleProvider("a,b", "u", "domain", "yaml", 1, "DIRECT")
    ensures ProvidersOk([rp])
  {
    assert !Blank(rp.name) && !Blank(rp.url) by {
      assert !IsSpace(rp.name[0]) && !IsSpace(rp.url[0]);
    }
  }

  lemma OneUserSet(c: Config, rp: RuleProvider, hash: string -> string)
    requires rp.url != ""
    ensures UserSets(c, [rp], hash) == [UserNamed(c, rp, hash)]
    ensures Registered([UserNamed(c, rp, hash)]).Keys == {UserNamed(c, rp, hash).name}
  {
    hide UserNamed;
    var n := UserNamed(c, rp, hash);
    assert [rp][..0] == [] && [n][..0] == [];
    assert UserSets(c, [], hash) == [] && UserSets(c, [rp], hash) == UserSets(c, [], hash) + [n];
    assert Registered([]) == map[] && Registered([n]) == Registered([])[n.name := n.provider];
  }

  /** A comma in a name passes validation, and the rule then refers to a list that nobody registered. */
  lemma CommaLosesList(c: Config, hash: string -> string) returns (rp: RuleProvider)
    ensures ProvidersOk([rp]) && rp.name == "a,b"
    ensures var sets := UserSets(c, [rp], hash);
            && SameNameSameList(sets) && |sets| == 1
            && Read(SetText(sets[0])).RuleSet? && Read(SetText(sets[0])).provider == "custom-a"
            && "custom-a" !in Registered(sets)
  {
    hide Read, SetText, Registered, UserSets, ProvidersOk, FileName;
    rp := RuleProvider("a,b", "u", "domain", "yaml", 1, "DIRECT");
    CommaPassesValidation(rp);
    OneUserSet(c, rp, hash);
    SafeName("a,b");
    var n := UserNamed(c, rp, hash);
    CommaReadsShort(n, hash(rp.url));
    assert |n.name| > |"custom-a"|;
  }

  lemma SafeName(name: string)
    requires |name| <= 64 && forall i | 0 <= i < |name| :: !Unsafe(name[i])
    ensures FileName(name) == name
  {
  }

  lemma CommaReadsShort(n: Named, digest: string)
    requires n.name == "custom-a,b-" + digest
    ensures Read(SetText(n)).RuleSet? && Read(SetText(n)).provider == "custom-a"
    ensures ',' !in digest ==> Read(SetText(n)).group == "b-" + digest
  {
    hide Split;
    var tail := "b-" + digest + COMMA + n.provider.group;
    assert SetText(n) == RULE_SET + COMMA + ("custom-a" + COMMA + tail);
    SplitAtComma(RULE_SET, "custom-a" + COMMA + tail);
    SplitAtComma("custom-a", tail);
    if ',' !in digest {
      SplitAtComma("b-" + digest, n.provider.group);
    }
  }

  /** Names that differ before the awkward characters are replaced may not differ after: these built-in
      rules are valid, and the first one is compiled to consult the list of the second. */
  lemma DistinctIdsMayCollide(c: Config) returns (rules: seq<BuiltInRule>)
    ensures BuiltInsOk(rules)
    ensures !SameNameSameList(BuiltInSets(c, rules))
  {
    var a := BuiltInRule("a b", "", PROVIDER, true, 0, "", "u", "domain", "yaml", 1, "DIRECT");
    var b := a.(id := "a_b", order := 1, url := "v");
    var m := BuiltInRule("m", "", MATCH, true, 2, "", "", "", "", 0, "DIRECT");
    rules := [a, b, m];
    assert !IsSpace('a') && !IsSpace('m') && !IsSpace('u') && !IsSpace('v') && !IsSpace('D');
    assert !Blank(a.id) && !Blank(b.id) && !Blank(m.id) && !Blank(a.url) && !Blank(b.url) && !Blank(m.proxyGroup) by {
      assert a.id[0] == 'a' && b.id[0] == 'a' && m.id[0] == 'm' && a.url[0] == 'u' && b.url[0] == 'v' && m.proxyGroup[0] == 'D';
    }
    assert FileName(a.id) == FileName(b.id);
    var sets := BuiltInSets(c, rules);
    assert rules[..2] == [a, b] && [a, b][..1] == [a] && [a][..0] == [];
    assert BuiltInSets(c, [a]) == [] + [BuiltInNamed(c, a)];
    assert BuiltInSets(c, [a, b]) == [BuiltInNamed(c, a), BuiltInNamed(c, b)];
    assert sets == [BuiltInNamed(c, a), BuiltInNamed(c, b)];
    assert sets[0].name == sets[1].name && sets[0].provider != sets[1].provider;
  }

  predicate KnownFormat(format: string)
  {
    format == "yaml" || format == "text" || format == "mrs"
  }

  lemma SameEnds(a: string, b: string, x: string, y: string)
    requires |x| == |y|
    ensures a + x == b + y <==> a == b && x == y
  {
    if a + x == b + y {
      assert |a| == |b|;
      assert (a + x)[..|a|] == a && (b + y)[..|b|] == b;
      assert (a + x)[|a|..] == x && (b + y)[|b|..] == y;
    }
  }

  lemma FormatShows(name: string, format: string)
    requires KnownFormat(format)
    ensures var p := PathOf(name, format);
            && p == "./rules/" + FileName(name) + ("." + Extension(format))
            && p[|p| - 1] == if format == "yaml" then 'l' else if format == "text" then 't' else 's'
  {
    hide FileName;
    assert |format| == if format == "mrs" then 3 else 4;
    var x := "." + Extension(format);
    assert PathOf(name, format) == "./rules/" + FileName(name) + x;
    assert x[|x| - 1] == if format == "yaml" then 'l' else if format == "text" then 't' else 's';
  }

  /** Two lists are kept in one file exactly if their names are one after the awkward characters are
      replaced and their formats are one, whatever names they are registered under. */
  lemma PathsSharedExactly(a: string, b: string, f: string, g: string)
    requires KnownFormat(f) && KnownFormat(g)
    ensures PathOf(a, f) == PathOf(b, g) <==> FileName(a) == FileName(b) && f == g
  {
    hide FileName, PathOf;
    FormatShows(a, f);
    FormatShows(b, g);
    if f == g {
      SameEnds("./rules/" + FileName(a), "./rules/" + FileName(b), "." + Extension(f), "." + Extension(g));
      assert ("./rules/" + FileName(a))[8..] == FileName(a) && ("./rules/" + FileName(b))[8..] == FileName(b);
    }
  }
}
