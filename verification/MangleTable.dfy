/** The mangle table of iptables-legacy: the project's three chains, its jumps from the
    built-in chains, and what a finished installation or removal looks like. */
module MangleTable {

  /** The built-in chains the project hooks into. */
  datatype Hook = Prerouting | Output | Forward

  /** `Own(h)` is the project chain MIHOMO_TUI_<h>; `Other` is anybody else's. */
  datatype Chain = BuiltIn(hook: Hook) | Own(hook: Hook) | Other(name: string)

  /** An action as the words that follow `-j`. */
  datatype Target = Jump(chain: Chain) | Action(words: seq<string>)

  /** The condition is the words that come before the target. */
  datatype IptRule = IptRule(condition: seq<string>, target: Target)

  /** Chain to its rules, in order. */
  type Mangle = map<Chain, seq<IptRule>>

  const COMMENT := ["-m", "comment", "--comment", "mihomo-tui"]

  const HOOKS: seq<Hook> := [Prerouting, Output, Forward]

  /** The one jump the project puts into a built-in chain. */
  function MainJump(hook: Hook): IptRule
  {
    IptRule(COMMENT, Jump(Own(hook)))
  }

  function RestoreMark(): IptRule
  {
    IptRule(["-m", "conntrack", "--ctstate", "ESTABLISHED,RELATED"] + COMMENT,
            Action(["CONNMARK", "--restore-mark", "--nfmask", "0x100", "--ctmask", "0x100"]))
  }

  /** The canonical contents of a project chain. */
  function ChainRules(hook: Hook, iface: string): seq<IptRule>
  {
    if hook == Prerouting then
      [ IptRule(["-i", iface, "-m", "conntrack", "--ctstate", "NEW"] + COMMENT,
                Action(["CONNMARK", "--set-xmark", "0x100/0x100"])),
        RestoreMark() ]
    else
      [ RestoreMark() ]
  }

  function Count(rules: seq<IptRule>, r: IptRule): nat
  {
    if rules == [] then 0 else (if rules[0] == r then 1 else 0) + Count(rules[1..], r)
  }

  function RemoveFirst(rules: seq<IptRule>, r: IptRule): (rest: seq<IptRule>)
    ensures forall x :: x in rest ==> x in rules
    ensures r in rules ==> Count(rest, r) == Count(rules, r) - 1
  {
    if rules == [] then []
    else if rules[0] == r then rules[1..]
    else [rules[0]] + RemoveFirst(rules[1..], r)
  }

  function RemoveAll(rules: seq<IptRule>, r: IptRule): (rest: seq<IptRule>)
    ensures forall x :: x in rest <==> x in rules && x != r
  {
    if rules == [] then []
    else (if rules[0] == r then [] else [rules[0]]) + RemoveAll(rules[1..], r)
  }

  lemma {:induction false} RemoveAllOfAbsent(rules: seq<IptRule>, r: IptRule)
    requires r !in rules
    ensures RemoveAll(rules, r) == rules
  {
    if rules != [] {
      RemoveAllOfAbsent(rules[1..], r);
    }
  }

  lemma {:induction false} RemoveAllOfFewer(rules: seq<IptRule>, r: IptRule)
    ensures RemoveAll(RemoveFirst(rules, r), r) == RemoveAll(rules, r)
  {
    if rules != [] && rules[0] != r {
      RemoveAllOfFewer(rules[1..], r);
      var rest := RemoveFirst(rules[1..], r);
      assert ([rules[0]] + rest)[1..] == rest;
    }
  }

  lemma {:induction false} RemoveAllOfMore(rules: seq<IptRule>, r: IptRule)
    ensures RemoveAll(rules + [r], r) == RemoveAll(rules, r)
  {
    if rules == [] {
      assert rules + [r] == [r];
    } else {
      assert (rules + [r])[1..] == rules[1..] + [r];
      RemoveAllOfMore(rules[1..], r);
    }
  }

  lemma {:induction false} CountAppended(rules: seq<IptRule>, r: IptRule)
    requires r !in rules
    ensures Count(rules + [r], r) == 1
  {
    if rules == [] {
      assert rules + [r] == [r];
      assert Count([r][1..], r) == 0;
    } else {
      assert (rules + [r])[1..] == rules[1..] + [r];
      CountAppended(rules[1..], r);
    }
  }

  lemma ReplacedJump(rules: seq<IptRule>, r: IptRule)
    ensures RemoveAll(RemoveAll(rules, r) + [r], r) == RemoveAll(rules, r)
  {
    RemoveAllOfMore(RemoveAll(rules, r), r);
    RemoveAllOfAbsent(RemoveAll(rules, r), r);
  }

  /** Jumps to project chains lead to chains that exist. */
  ghost predicate JumpsExist(rules: seq<IptRule>, m: Mangle)
  {
    forall r | r in rules && r.target.Jump? && r.target.chain.Own? :: r.target.chain in m
  }

  /** What the kernel guarantees: the built-in chains exist, and no chain that is jumped to is gone. */
  ghost predicate WellFormed(m: Mangle)
  {
    && (forall hook :: BuiltIn(hook) in m)
    && (forall chain | chain in m :: JumpsExist(m[chain], m))
  }

  /** The order in which the program goes through the hooks. */
  function Rank(hook: Hook): nat
  {
    match hook case Prerouting => 0 case Output => 1 case Forward => 2
  }

  /** A rule that still jumps to the project chain when a clean-up comes to delete it: in anybody's
      chain, in a built-in one unless it is the project's own jump, or in a project chain whose turn
      comes later. */
  predicate Obstructs(chain: Chain, r: IptRule, hook: Hook)
  {
    && r.target == Jump(Own(hook))
    && match chain
       case Other(_) => true
       case BuiltIn(h) => r != MainJump(h)
       case Own(h) => Rank(h) > Rank(hook)
  }

  ghost predicate ObstructedAt(m: Mangle, hook: Hook)
  {
    exists chain, r | chain in m && r in m[chain] :: Obstructs(chain, r, hook)
  }

  /** Some project chain cannot be deleted by a clean-up. */
  ghost predicate Obstructed(m: Mangle)
  {
    exists hook :: ObstructedAt(m, hook)
  }

  function CleanChain(chain: Chain, rules: seq<IptRule>): seq<IptRule>
  {
    if chain.BuiltIn? then RemoveAll(rules, MainJump(chain.hook)) else rules
  }

  /** The table without any trace of the project. */
  function Clean(m: Mangle): Mangle
  {
    map chain | chain in m && !chain.Own? :: CleanChain(chain, m[chain])
  }

  /** The table with the project's chains and exactly one jump per hook. */
  function Install(m: Mangle, iface: string): Mangle
  {
    map chain | chain in m.Keys + {Own(Prerouting), Own(Output), Own(Forward)} ::
      if chain.Own? then ChainRules(chain.hook, iface)
      else if chain.BuiltIn? then RemoveAll(m[chain], MainJump(chain.hook)) + [MainJump(chain.hook)]
      else m[chain]
  }

  /** Tables that agree, chain by chain, on what is not the project's have the same clean form. */
  lemma SameCleanChains(m: Mangle, n: Mangle)
    requires forall chain: Chain | !chain.Own? :: chain in m <==> chain in n
    requires forall chain: Chain | chain in m && chain in n && !chain.Own? ::
               CleanChain(chain, m[chain]) == CleanChain(chain, n[chain])
    ensures Clean(m) == Clean(n)
  {
    hide CleanChain;
    assert Clean(m).Keys == Clean(n).Keys;
  }

  /** Cleaning undoes an installation. */
  lemma InstallThenClean(m: Mangle, iface: string)
    ensures Clean(Install(m, iface)) == Clean(m)
  {
    var next := Install(m, iface);
    forall chain: Chain | chain in m && chain in next && !chain.Own?
      ensures CleanChain(chain, next[chain]) == CleanChain(chain, m[chain])
    {
      if chain.BuiltIn? {
        ReplacedJump(m[chain], MainJump(chain.hook));
      }
    }
    SameCleanChains(next, m);
  }

  lemma CleanIsIdempotent(m: Mangle)
    ensures Clean(Clean(m)) == Clean(m)
  {
    forall chain | chain in Clean(m)
      ensures Clean(Clean(m))[chain] == Clean(m)[chain]
    {
      if chain.BuiltIn? {
        RemoveAllOfAbsent(RemoveAll(m[chain], MainJump(chain.hook)), MainJump(chain.hook));
      }
    }
    assert Clean(Clean(m)).Keys == Clean(m).Keys;
  }

  lemma InstalledOnClean(m: Mangle, iface: string, chain: Chain)
    requires chain in Install(m, iface)
    ensures chain in Install(Clean(m), iface) && Install(Clean(m), iface)[chain] == Install(m, iface)[chain]
  {
    hide ChainRules;
    assert chain.Own? ==> chain.hook == Prerouting || chain.hook == Output || chain.hook == Forward;
    assert !chain.Own? ==> chain in Clean(m);
    if chain.BuiltIn? {
      RemoveAllOfAbsent(RemoveAll(m[chain], MainJump(chain.hook)), MainJump(chain.hook));
    }
  }

  /** Whatever was left over, an installation ends the same, with one jump per hook. */
  lemma InstallIgnoresLeftovers(m: Mangle, iface: string)
    requires WellFormed(m)
    ensures Install(Clean(m), iface) == Install(m, iface)
    ensures forall hook :: Count(Install(m, iface)[BuiltIn(hook)], MainJump(hook)) == 1
  {
    hide ChainRules, RemoveAll;
    var next, again := Install(m, iface), Install(Clean(m), iface);
    forall chain | chain in next
      ensures chain in again && again[chain] == next[chain]
    {
      InstalledOnClean(m, iface, chain);
    }
    assert again.Keys == next.Keys;
    forall hook
      ensures Count(next[BuiltIn(hook)], MainJump(hook)) == 1
    {
      assert BuiltIn(hook) in m;
      CountAppended(RemoveAll(m[BuiltIn(hook)], MainJump(hook)), MainJump(hook));
    }
  }
}
