/** What single steps of the routing controller make of the ruleset and the mangle table, and the
    vocabulary its methods are specified in. */
module TunSteps {
  import opened TunHost
  import opened TunRecord
  import opened TunRecovery
  import Nft = NftRuleset
  import Ipt = MangleTable
  import NftJson

  ghost predicate Within(now: seq<Nft.Object>, before: seq<Nft.Object>)
  {
    forall o | o in now :: o in before
  }

  ghost predicate NoReferences(objs: seq<Nft.Object>)
  {
    forall o | o in objs :: !Nft.IsReference(o)
  }

  ghost predicate NoneAt(seen: set<Reference>, objs: seq<Nft.Object>)
  {
    forall o, r | o in objs && r in seen :: !Nft.Hits(Nft.RuleAt(r.loc, r.handle), o)
  }

  lemma WithinItself(objs: seq<Nft.Object>)
    ensures Within(objs, objs) && NoneAt({}, objs)
  {
  }

  lemma NoneAtMore(seen: set<Reference>, r: Reference, before: seq<Nft.Object>, objs: seq<Nft.Object>, now: seq<Nft.Object>)
    requires Within(objs, before) && Within(now, objs)
    ensures Within(now, before)
    ensures NoneAt(seen, objs) && NoneAt({r}, now) ==> NoneAt(seen + {r}, now)
  {
  }

  lemma NoneAtNoReferences(refs: seq<Reference>, before: seq<Nft.Object>, now: seq<Nft.Object>)
    requires MissesNoReference(refs, before) && Within(now, before)
    requires NoneAt((set r | r in refs), now)
    ensures NoReferences(now)
  {
    hide Nft.HasProjectTarget;
  }

  lemma ProjectChainDrops(objs: seq<Nft.Object>, loc: Nft.ChainLoc)
    requires NftJson.IsProjectChain(loc.chain)
    ensures Nft.Drop(Nft.Drop(objs, Nft.RulesIn(loc)), Nft.AllArtifacts) == Nft.Drop(objs, Nft.AllArtifacts)
    ensures Nft.Drop(Nft.Drop(objs, Nft.ChainAt(loc)), Nft.AllArtifacts) == Nft.Drop(objs, Nft.AllArtifacts)
  {
    hide NftJson.IsProjectChain;
    DropEarly(objs, Nft.RulesIn(loc));
    DropEarly(objs, Nft.ChainAt(loc));
  }

  lemma DeleteChainEffect(objs: seq<Nft.Object>, loc: Nft.ChainLoc)
    requires NftJson.IsProjectChain(loc.chain)
    ensures Within(NftEffect(NftDeleteChain(loc), objs).0, objs)
    ensures Nft.Drop(NftEffect(NftDeleteChain(loc), objs).0, Nft.AllArtifacts) == Nft.Drop(objs, Nft.AllArtifacts)
    ensures match NftEffect(NftDeleteChain(loc), objs).1
            case Failed => NftBusy(objs, loc) && Nft.ChainObject(loc) in objs
            case _ => Nft.ChainObject(loc) !in NftEffect(NftDeleteChain(loc), objs).0
    ensures !NftEffect(NftDeleteChain(loc), objs).1.Exists?
  {
    ProjectChainDrops(objs, loc);
    DropsItsChain(objs, loc);
    hide NftJson.IsProjectChain, NftBusy, Nft.Drop;
  }

  lemma DropsItsChain(objs: seq<Nft.Object>, loc: Nft.ChainLoc)
    ensures Within(Nft.Drop(objs, Nft.ChainAt(loc)), objs)
    ensures Nft.ChainObject(loc) !in Nft.Drop(objs, Nft.ChainAt(loc))
  {
  }

  lemma EmptyChainIsNotBusy(objs: seq<Nft.Object>, loc: Nft.ChainLoc)
    requires NoReferences(objs) && forall o | o in objs :: !Nft.Hits(Nft.RulesIn(loc), o)
    requires !Nft.Held(objs) && NftJson.IsProjectChain(loc.chain)
    ensures !NftBusy(objs, loc)
  {
    hide Nft.IsReference, NftJson.IsProjectChain;
    forall o | o in objs
      ensures !Nft.Holds(o, loc)
    {
      assert !Nft.HoldsProjectChain(o);
    }
  }

  lemma WithinHolds(now: seq<Nft.Object>, before: seq<Nft.Object>)
    requires Within(now, before)
    ensures Nft.Held(now) ==> Nft.Held(before)
  {
  }

  /** Removing the artifacts takes no map away, and without project chains no map can hold one. */
  lemma CleanedWasNotHeld(before: seq<Nft.Object>, now: seq<Nft.Object>)
    requires Nft.WellFormed(now) && now == Nft.Drop(before, Nft.AllArtifacts)
    ensures !Nft.Held(before)
  {
    CleanedHoldsNothing(now);
    hide NftJson.IsProjectChain, Nft.WellFormed;
    forall o | o in before
      ensures !Nft.HoldsProjectChain(o)
    {
      assert o.MapObject? ==> o in now;
    }
  }

  /** Maps of the project's own table hold none of the old project chains. */
  lemma OwnTableHoldsNothing(objs: seq<Nft.Object>)
    requires Nft.WellFormed(objs) && Nft.OwnTableIsPlain(objs)
    ensures Nft.Held(Nft.Drop(objs, Nft.WholeOwnTable)) <==> Nft.Held(objs)
  {
    hide NftJson.IsProjectChain;
    forall o | o in objs && Nft.InOwnTable(o) && o.MapObject?
      ensures !Nft.HoldsProjectChain(o)
    {
      assert Nft.MapWellFormed(o, objs);
      forall t | t in o.targets
        ensures !NftJson.IsProjectChain(t)
      {
        assert !Nft.IsArtifact(Nft.ChainObject(Nft.ChainLoc(o.family, o.table, t)));
      }
    }
  }

  /** Only copies of the project's jump were taken out of one built-in chain. */
  ghost predicate SameButJumps(before: Ipt.Mangle, now: Ipt.Mangle, hook: Ipt.Hook)
  {
    var chain := Ipt.BuiltIn(hook);
    && chain in before && chain in now
    && Ipt.RemoveAll(now[chain], Ipt.MainJump(hook)) == Ipt.RemoveAll(before[chain], Ipt.MainJump(hook))
    && now == before[chain := now[chain]]
  }

  lemma DeletedJump(base: Ipt.Mangle, m: Ipt.Mangle, hook: Ipt.Hook)
    requires SameButJumps(base, m, hook)
    ensures SameButJumps(base, m[Ipt.BuiltIn(hook) := Ipt.RemoveFirst(m[Ipt.BuiltIn(hook)], Ipt.MainJump(hook))], hook)
  {
    Ipt.RemoveAllOfFewer(m[Ipt.BuiltIn(hook)], Ipt.MainJump(hook));
  }

  ghost predicate SameButChain(before: Ipt.Mangle, now: Ipt.Mangle, hook: Ipt.Hook)
  {
    forall chain: Ipt.Chain | chain != Ipt.Own(hook) ::
      (chain in now <==> chain in before) && (chain in now ==> now[chain] == before[chain])
  }

  ghost predicate NoMainJumps(m: Ipt.Mangle)
  {
    forall hook :: Ipt.BuiltIn(hook) in m && Ipt.MainJump(hook) !in m[Ipt.BuiltIn(hook)]
  }

  lemma SameButJumpsSameClean(before: Ipt.Mangle, now: Ipt.Mangle, hook: Ipt.Hook)
    requires SameButJumps(before, now, hook)
    ensures Ipt.Clean(now) == Ipt.Clean(before)
  {
    Ipt.SameCleanChains(now, before);
  }

  lemma SameButChainSameClean(before: Ipt.Mangle, now: Ipt.Mangle, hook: Ipt.Hook)
    requires SameButChain(before, now, hook)
    ensures Ipt.Clean(now) == Ipt.Clean(before)
    ensures NoMainJumps(before) ==> NoMainJumps(now)
  {
    Ipt.SameCleanChains(now, before);
  }

  lemma EveryHookListed()
    ensures forall hook :: hook in Ipt.HOOKS
    ensures Ipt.HOOKS[..|Ipt.HOOKS|] == Ipt.HOOKS
  {
    forall hook: Ipt.Hook
      ensures hook in Ipt.HOOKS
    {
      match hook
      case Prerouting => assert Ipt.HOOKS[0] == hook;
      case Output => assert Ipt.HOOKS[1] == hook;
      case Forward => assert Ipt.HOOKS[2] == hook;
    }
  }

  ghost predicate IsOrder(order: seq<Ipt.Hook>)
  {
    (forall hook :: hook in order) && forall i, j | 0 <= i < j < |order| :: order[i] != order[j]
  }

  /** How far a setup has come: which chains exist, which jumps are placed, which chains are
      filled. Everything else is as in `base`. */
  ghost predicate Built(base: Ipt.Mangle, now: Ipt.Mangle, iface: string,
                        chains: seq<Ipt.Hook>, jumps: seq<Ipt.Hook>, filled: seq<Ipt.Hook>)
  {
    && (forall chain: Ipt.Chain | !chain.Own? :: chain in now <==> chain in base)
    && (forall chain: Ipt.Chain | chain in base && chain.Other? :: now[chain] == base[chain])
    && (forall hook | Ipt.BuiltIn(hook) in base && hook !in jumps :: now[Ipt.BuiltIn(hook)] == base[Ipt.BuiltIn(hook)])
    && (forall hook | Ipt.BuiltIn(hook) in base && hook in jumps :: now[Ipt.BuiltIn(hook)]
          == Ipt.RemoveAll(base[Ipt.BuiltIn(hook)], Ipt.MainJump(hook)) + [Ipt.MainJump(hook)])
    && (forall hook | hook in chains :: Ipt.Own(hook) in now
          && now[Ipt.Own(hook)] == if hook in filled then Ipt.ChainRules(hook, iface) else [])
  }

  lemma BuiltChain(base: Ipt.Mangle, before: Ipt.Mangle, iface: string, hooks: seq<Ipt.Hook>, i: nat)
    requires i < |hooks| && Built(base, before, iface, hooks[..i], [], [])
    ensures Built(base, before[Ipt.Own(hooks[i]) := []], iface, hooks[..i + 1], [], [])
  {
    hide Ipt.ChainRules, Ipt.MainJump, Ipt.RemoveAll;
    assert hooks[..i + 1] == hooks[..i] + [hooks[i]];
  }

  lemma BuiltHasChain(base: Ipt.Mangle, now: Ipt.Mangle, iface: string,
                      chains: seq<Ipt.Hook>, jumps: seq<Ipt.Hook>, hook: Ipt.Hook)
    requires Built(base, now, iface, chains, jumps, []) && hook in chains
    ensures Ipt.Own(hook) in now
  {
  }

  lemma BuiltJump(base: Ipt.Mangle, before: Ipt.Mangle, iface: string, hooks: seq<Ipt.Hook>, i: nat)
    requires i < |hooks| && hooks[i] !in hooks[..i]
    requires Built(base, before, iface, hooks, hooks[..i], []) && Ipt.BuiltIn(hooks[i]) in before
    ensures Built(base, before[Ipt.BuiltIn(hooks[i]) := Ipt.RemoveAll(before[Ipt.BuiltIn(hooks[i])],
              Ipt.MainJump(hooks[i])) + [Ipt.MainJump(hooks[i])]], iface, hooks, hooks[..i + 1], [])
  {
    hide Ipt.ChainRules, Ipt.MainJump, Ipt.RemoveAll;
    assert hooks[..i + 1] == hooks[..i] + [hooks[i]];
  }

  lemma BuiltRules(base: Ipt.Mangle, before: Ipt.Mangle, iface: string, order: seq<Ipt.Hook>, i: nat)
    requires i < |order|
    requires Built(base, before, iface, Ipt.HOOKS, Ipt.HOOKS, order[..i])
    ensures Built(base, before[Ipt.Own(order[i]) := Ipt.ChainRules(order[i], iface)], iface,
                  Ipt.HOOKS, Ipt.HOOKS, order[..i + 1])
  {
    hide Ipt.ChainRules, Ipt.MainJump, Ipt.RemoveAll;
    assert order[..i + 1] == order[..i] + [order[i]];
  }

  lemma BuiltIsInstalledAt(base: Ipt.Mangle, now: Ipt.Mangle, iface: string, order: seq<Ipt.Hook>, chain: Ipt.Chain)
    requires IsOrder(order) && forall hook :: hook in Ipt.HOOKS
    requires Built(base, now, iface, Ipt.HOOKS, Ipt.HOOKS, order)
    ensures chain in now <==> chain in Ipt.Install(base, iface)
    ensures chain in now ==> now[chain] == Ipt.Install(base, iface)[chain]
  {
    hide Ipt.ChainRules, Ipt.MainJump, Ipt.RemoveAll;
    if chain.Own? {
      assert chain.hook in Ipt.HOOKS && chain.hook in order;
    } else if chain.BuiltIn? {
      assert chain.hook in Ipt.HOOKS;
    }
  }

  lemma BuiltIsInstalled(base: Ipt.Mangle, now: Ipt.Mangle, iface: string, order: seq<Ipt.Hook>)
    requires IsOrder(order) && forall hook :: hook in Ipt.HOOKS
    requires Built(base, now, iface, Ipt.HOOKS, Ipt.HOOKS, order)
    ensures now == Ipt.Install(base, iface)
  {
    var next := Ipt.Install(base, iface);
    forall chain: Ipt.Chain
      ensures chain in now <==> chain in next
      ensures chain in now ==> now[chain] == next[chain]
    {
      BuiltIsInstalledAt(base, now, iface, order, chain);
    }
    hide Built, Ipt.Install;
    assert now.Keys == next.Keys;
  }

  /** A rule outside the chain still jumps to the project chain. */
  ghost predicate Referenced(m: Ipt.Mangle, hook: Ipt.Hook)
  {
    exists chain, r | chain in m && r in m[chain] :: chain != Ipt.Own(hook) && r.target == Ipt.Jump(Ipt.Own(hook))
  }

  lemma EmptiedChainBusyExactly(m: Ipt.Mangle, hook: Ipt.Hook)
    requires Ipt.Own(hook) in m
    ensures IptBusy(m[Ipt.Own(hook) := []], Ipt.Own(hook)) <==> Referenced(m, hook)
  {
    var next := m[Ipt.Own(hook) := []];
    if Referenced(m, hook) {
      var chain, r :| chain in m && r in m[chain] && chain != Ipt.Own(hook) && r.target == Ipt.Jump(Ipt.Own(hook));
      assert chain in next && r in next[chain];
    }
  }

  lemma AbsentChainNotReferenced(m: Ipt.Mangle, hook: Ipt.Hook)
    requires Ipt.WellFormed(m) && Ipt.Own(hook) !in m
    ensures !Referenced(m, hook)
  {
    forall chain, r | chain in m && r in m[chain]
      ensures r.target != Ipt.Jump(Ipt.Own(hook))
    {
      assert Ipt.JumpsExist(m[chain], m);
    }
  }

  /** All of the project's own jumps are gone, and nothing else is changed. */
  ghost predicate Jumpless(base: Ipt.Mangle, now: Ipt.Mangle, done: seq<Ipt.Hook>)
  {
    && (forall chain: Ipt.Chain :: chain in now <==> chain in base)
    && (forall chain | chain in base && !(chain.BuiltIn? && chain.hook in done) :: now[chain] == base[chain])
    && (forall hook | hook in done && Ipt.BuiltIn(hook) in base ::
          now[Ipt.BuiltIn(hook)] == Ipt.RemoveAll(base[Ipt.BuiltIn(hook)], Ipt.MainJump(hook)))
  }

  lemma JumplessMore(base: Ipt.Mangle, before: Ipt.Mangle, now: Ipt.Mangle, hooks: seq<Ipt.Hook>, i: nat)
    requires i < |hooks| && hooks[i] !in hooks[..i] && Jumpless(base, before, hooks[..i])
    requires SameButJumps(before, now, hooks[i])
    requires now[Ipt.BuiltIn(hooks[i])] == Ipt.RemoveAll(before[Ipt.BuiltIn(hooks[i])], Ipt.MainJump(hooks[i]))
    ensures Jumpless(base, now, hooks[..i + 1])
  {
    assert hooks[..i + 1] == hooks[..i] + [hooks[i]];
  }

  /** The project chains up to a rank are gone or empty, and nothing else is changed. */
  ghost predicate Swept(before: Ipt.Mangle, now: Ipt.Mangle, rank: nat)
  {
    && (forall chain: Ipt.Chain | !(chain.Own? && Ipt.Rank(chain.hook) < rank) ::
          (chain in now <==> chain in before) && (chain in now ==> now[chain] == before[chain]))
    && (forall chain: Ipt.Chain | chain.Own? && Ipt.Rank(chain.hook) < rank && chain in now :: now[chain] == [])
  }

  lemma SweptMore(before: Ipt.Mangle, then_: Ipt.Mangle, now: Ipt.Mangle, hook: Ipt.Hook)
    requires Swept(before, then_, Ipt.Rank(hook)) && SameButChain(then_, now, hook)
    requires Ipt.Own(hook) in now ==> now[Ipt.Own(hook)] == []
    ensures Swept(before, now, Ipt.Rank(hook) + 1)
  {
  }

  lemma SweptMembers(base: Ipt.Mangle, jumpless: Ipt.Mangle, now: Ipt.Mangle, rank: nat, chain: Ipt.Chain, r: Ipt.IptRule)
    requires Jumpless(base, jumpless, Ipt.HOOKS) && Swept(jumpless, now, rank)
    ensures (chain in now && r in now[chain])
            <==>
            && chain in base && r in base[chain]
            && !(chain.BuiltIn? && r == Ipt.MainJump(chain.hook))
            && !(chain.Own? && Ipt.Rank(chain.hook) < rank)
  {
    EveryHookListed();
  }

  /** When its turn comes, a project chain is in use exactly if something obstructed it to begin with. */
  lemma InUseExactlyIfObstructed(base: Ipt.Mangle, jumpless: Ipt.Mangle, now: Ipt.Mangle, hook: Ipt.Hook)
    requires Jumpless(base, jumpless, Ipt.HOOKS) && Swept(jumpless, now, Ipt.Rank(hook))
    ensures Referenced(now, hook) <==> Ipt.ObstructedAt(base, hook)
  {
    hide Jumpless, Swept;
    if Referenced(now, hook) {
      var chain, r :| chain in now && r in now[chain] && chain != Ipt.Own(hook) && r.target == Ipt.Jump(Ipt.Own(hook));
      SweptMembers(base, jumpless, now, Ipt.Rank(hook), chain, r);
      assert Ipt.Obstructs(chain, r, hook);
    }
    if Ipt.ObstructedAt(base, hook) {
      var chain, r :| chain in base && r in base[chain] && Ipt.Obstructs(chain, r, hook);
      SweptMembers(base, jumpless, now, Ipt.Rank(hook), chain, r);
    }
  }

  lemma SweptItself(m: Ipt.Mangle)
    ensures Swept(m, m, 0)
  {
  }

  lemma SweptCleanly(base: Ipt.Mangle, jumpless: Ipt.Mangle, now: Ipt.Mangle)
    requires Jumpless(base, jumpless, Ipt.HOOKS) && Swept(jumpless, now, 3)
    requires forall hook :: Ipt.BuiltIn(hook) in base
    ensures NoMainJumps(now)
  {
    EveryHookListed();
  }

  lemma NothingLeftToClean(m: Ipt.Mangle)
    requires NoMainJumps(m) && forall hook :: Ipt.Own(hook) !in m
    ensures Ipt.Clean(m) == m
  {
    forall chain | chain in m
      ensures Ipt.CleanChain(chain, m[chain]) == m[chain] && !chain.Own?
    {
      if chain.BuiltIn? {
        Ipt.RemoveAllOfAbsent(m[chain], Ipt.MainJump(chain.hook));
      }
    }
    assert Ipt.Clean(m).Keys == m.Keys;
  }

  lemma NoTableNothingToDrop(objs: seq<Nft.Object>)
    requires Nft.WellFormed(objs) && Nft.OWN_TABLE !in objs
    ensures Nft.Drop(objs, Nft.WholeOwnTable) == objs
    ensures Nft.NoOwnTable(objs)
  {
    Nft.DropNothing(objs, Nft.WholeOwnTable);
  }

  datatype Reference = Reference(loc: Nft.ChainLoc, handle: nat)

  ghost predicate AddressesReference(r: Reference, objs: seq<Nft.Object>)
  {
    exists o | o in objs :: Nft.IsReference(o) && Nft.Hits(Nft.RuleAt(r.loc, r.handle), o)
  }

  ghost predicate MissesNoReference(refs: seq<Reference>, objs: seq<Nft.Object>)
  {
    forall o | o in objs && Nft.IsReference(o) :: Reference(o.loc, o.handle) in refs
  }

  ghost predicate ListsReferences(refs: seq<Reference>, objs: seq<Nft.Object>)
  {
    (forall r | r in refs :: AddressesReference(r, objs)) && MissesNoReference(refs, objs)
  }

  ghost predicate ListsChains(chains: seq<Nft.ChainLoc>, objs: seq<Nft.Object>)
  {
    forall loc :: loc in chains <==> Nft.ChainObject(loc) in objs && NftJson.IsProjectChain(loc.chain)
  }

  lemma ReferencesAreArtifacts(refs: seq<Reference>, before: seq<Nft.Object>, now: seq<Nft.Object>, r: Reference)
    requires Nft.WellFormed(before) && ListsReferences(refs, before) && r in refs
    requires Within(now, before)
    ensures forall o | o in now && Nft.Hits(Nft.RuleAt(r.loc, r.handle), o) :: Nft.IsArtifact(o)
  {
    hide Nft.HasProjectTarget, NftJson.IsProjectChain, MissesNoReference;
    assert AddressesReference(r, before);
    var p :| p in before && Nft.IsReference(p) && Nft.Hits(Nft.RuleAt(r.loc, r.handle), p);
    forall o | o in now && Nft.Hits(Nft.RuleAt(r.loc, r.handle), o)
      ensures Nft.IsArtifact(o)
    {
      assert Nft.SameAddress(o, p);
    }
  }

  /** One pass over the listing; of each rule the expressions up to the first hit. */
  method Parse(objs: seq<Nft.Object>) returns (chains: seq<Nft.ChainLoc>, refs: seq<Reference>)
    ensures ListsChains(chains, objs) && ListsReferences(refs, objs)
  {
    chains, refs := [], [];
    for i := 0 to |objs|
      invariant ListsChains(chains, objs[..i]) && ListsReferences(refs, objs[..i])
    {
      assert objs[..i + 1] == objs[..i] + [objs[i]];
      forall r | r in refs
        ensures AddressesReference(r, objs[..i + 1])
      {
        assert AddressesReference(r, objs[..i]);
      }
      match objs[i] {
        case ChainObject(loc) =>
          if NftJson.IsProjectChain(loc.chain) {
            chains := chains + [loc];
          }
        case RuleObject(loc, handle, expr, _) =>
          var k := 0;
          while k < |expr| && !(NftJson.FindProjectTarget(expr[k]) != "" && handle > 0)
            invariant 0 <= k <= |expr|
            invariant forall j | 0 <= j < k :: !(NftJson.FindProjectTarget(expr[j]) != "" && handle > 0)
          {
            k := k + 1;
          }
          if k < |expr| {
            assert Nft.IsReference(objs[i]);
            refs := refs + [Reference(loc, handle)];
            assert AddressesReference(Reference(loc, handle), objs[..i + 1]);
          }
        case TableObject(_, _) =>
        case MapObject(_, _, _, _) =>
      }
    }
    assert objs[..|objs|] == objs;
  }

  lemma NothingListedNothingToDrop(chains: seq<Nft.ChainLoc>, refs: seq<Reference>, objs: seq<Nft.Object>)
    requires Nft.WellFormed(objs) && chains == [] && refs == []
    requires ListsChains(chains, objs) && ListsReferences(refs, objs)
    ensures Nft.Drop(objs, Nft.AllArtifacts) == objs
  {
    hide Nft.HasProjectTarget, NftJson.IsProjectChain;
    forall o | o in objs
      ensures !Nft.IsArtifact(o)
    {
      assert o.RuleObject? ==> Nft.ChainObject(o.loc) in objs;
    }
    Nft.DropNothing(objs, Nft.AllArtifacts);
  }

  ghost predicate FirewallPresent(b: Backend, h: Host)
  {
    match b
    case NftBackend => Nft.OWN_TABLE in h.nft
    case IptablesLegacy => forall hook :: Ipt.Own(hook) in h.mangle
  }

  /** What the read-only look at the host before a setup found. */
  datatype Preflight = Preflight(root: bool, iface: string, gateway: string, externalTuns: seq<string>)

  predicate IsInterfaceChar(c: char)
  {
    'a' <= c <= 'z' || 'A' <= c <= 'Z' || '0' <= c <= '9' || c in "_-.:@"
  }

  predicate IsInterfaceName(name: string)
  {
    1 <= |name| <= 15 && forall c | c in name :: IsInterfaceChar(c)
  }

  predicate Admits(p: Preflight)
  {
    p.root && IsInterfaceName(p.iface) && p.externalTuns == []
  }

  /** A setup is for root, an interface whose name nft and ip can take, and a host where nobody else's TUN has the
      default route. */
  lemma AdmitsExactly(p: Preflight)
    ensures Admits(p)
            <==>
            && p.root && p.externalTuns == [] && 1 <= |p.iface| <= 15
            && forall i | 0 <= i < |p.iface| ::
                 var c := p.iface[i];
                 || 'a' <= c <= 'z' || 'A' <= c <= 'Z' || '0' <= c <= '9'
                 || c == '_' || c == '-' || c == '.' || c == ':' || c == '@'
  {
    var others := "_-.:@";
    assert forall c :: c in others
                       <==> c == others[0] || c == others[1] || c == others[2] || c == others[3] || c == others[4];
    assert forall i | 0 <= i < |p.iface| :: p.iface[i] in p.iface;
  }

  /** How a setup ends. `Rejected`: nothing was touched. `NotCleaned`: the initial cleanup
      failed. `NotStarted`: cleaned, nothing installed. The rest: installed, or the
      installation failed and was rolled back with or without success. */
  datatype Outcome = Rejected | NotCleaned | NotStarted | Installed | RolledBack | NotRolledBack

  /** A record differing only in its phase means the same to a cleanup. */
  lemma PhaseDoesNotMatter(b: Backend, h: Host, r: Record, p: Phase)
    ensures PlanOf(Present(r.(phase := p))) == PlanOf(Present(r))
    ensures Recover(b, World(h, Present(r))).file.Missing? ==>
              Recover(b, World(h, Present(r.(phase := p)))) == Recover(b, World(h, Present(r)))
  {
    var q := r.(phase := p);
    assert CleanupPlan(q) == CleanupPlan(r);
    assert MayDeleteTable(q, h.nft) == MayDeleteTable(r, h.nft);
  }

  lemma InstalledIsPresent(b: Backend, r: Record, h: Host)
    ensures FirewallPresent(b, TunRecovery.Installed(b, r, h))
  {
    match b
    case NftBackend => Nft.RunScriptAddsOwnTable(h.nft, r.iface, Comment(r));
    case IptablesLegacy =>
      forall hook: Ipt.Hook
        ensures Ipt.Own(hook) in Ipt.Install(h.mangle, r.iface)
      {
        assert hook == Ipt.Prerouting || hook == Ipt.Output || hook == Ipt.Forward;
      }
  }

  lemma NonEmptyHasMember<T>(s: seq<T>)
    ensures s != [] ==> exists x :: x in s
  {
    if s != [] {
      assert s[0] in s;
    }
  }

  lemma NothingRemains(chains: seq<Nft.ChainLoc>, before: seq<Nft.Object>,
                       remainingChains: seq<Nft.ChainLoc>, remainingRefs: seq<Reference>, now: seq<Nft.Object>)
    requires ListsChains(chains, before)
    requires ListsChains(remainingChains, now) && ListsReferences(remainingRefs, now)
    requires Within(now, before) && NoReferences(now)
    requires forall loc | loc in chains :: Nft.ChainObject(loc) !in now
    ensures remainingChains == [] && remainingRefs == []
  {
    hide Nft.IsReference, NftJson.IsProjectChain;
    NonEmptyHasMember(remainingChains);
    NonEmptyHasMember(remainingRefs);
  }
}
