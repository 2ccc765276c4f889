/** The routing controller: every command may fail, with or without having been applied, every read and
    write of the record may fail, and a crash may follow any of them. `trace` lists the states in which a crash
    can leave the machine. */
module TunController {
  import opened TunHost
  import opened TunRecord
  import opened TunRecovery
  import opened TunSteps
  import opened Wrappers
  import Nft = NftRuleset
  import Ipt = MangleTable
  import NftJson

  /** What is watched during a run: the outcome a cleanup must keep having, since which state,
      and the rules and routes that belong to the project's records. */
  datatype Watch = Watch(b: Backend, goal: World, passed: set<World>, clear: bool, since: nat,
                         rules: set<Rule>, routes: set<Route>)

  /** The outcome changes: what it was before is one of those that states passed through may have. */
  ghost function Towards(watch: Watch, goal: World): Watch
  {
    watch.(goal := goal, passed := watch.passed + {watch.goal})
  }

  ghost predicate Recoverable(watch: Watch, w: World)
  {
    && WellFormed(w.host)
    && Recover(watch.b, w) in watch.passed + {watch.goal}
    && (watch.clear ==> Clear(watch.b, w.host))
    && RulesOf(PlanOf(w.file)) <= watch.rules
    && RoutesOf(PlanOf(w.file)) <= watch.routes
  }

  /** A state of a run that started from `start` with this watch. */
  ghost predicate Harmless(watch: Watch, outcomes: set<World>, start: World, w: World)
  {
    && WellFormed(w.host) && Recover(watch.b, w) in outcomes
    && Foreign(watch.rules, watch.routes, w.host) == Foreign(watch.rules, watch.routes, start.host)
    && (Clear(watch.b, start.host) ==> Clear(watch.b, w.host))
  }

  /** The watch has moved on to one of these outcomes, or stayed. */
  ghost predicate Follows(next: Watch, watch: Watch, outcomes: set<World>)
  {
    && next == watch.(goal := next.goal, passed := next.passed)
    && next.goal in outcomes + {watch.goal}
    && next.passed <= watch.passed + outcomes + {watch.goal}
  }

  /** Where clean-ups after a setup can lead, `cleaned` being where the first one leads: there and, if
      anything gets installed, to what follows the persisted record and the installation. Without a stale
      table these are one (`TunRecovery.FreshSetupKeepsRecovery`). */
  ghost function SetupOutcomes(b: Backend, r: Record, cleaned: World): set<World>
  {
    if cleaned.file.Missing? && SlotsFree(cleaned.host) && IsOwnRecord(b, r)
    then {cleaned, AfterPersisting(b, r, cleaned.host), AfterInstalling(b, r, cleaned.host)}
    else {cleaned}
  }

  lemma OutcomesSameForeign(b: Backend, r: Record, start: World, rules: set<Rule>, routes: set<Route>)
    requires RulesOf(PlanOf(start.file)) + RulesOf(CleanupPlan(r)) <= rules
    requires RoutesOf(PlanOf(start.file)) + RoutesOf(CleanupPlan(r)) <= routes
    ensures forall g | g in SetupOutcomes(b, r, Recover(b, start)) ::
              Foreign(rules, routes, g.host) == Foreign(rules, routes, start.host)
  {
    hide Recover, Foreign, CleanupPlan;
    var cleaned := Recover(b, start);
    ForeignAfterRecovery(b, start, rules, routes);
    if IsOwnRecord(b, r) {
      InstalledSameForeign(b, r, cleaned.host, rules, routes);
      ForeignAfterRecovery(b, World(cleaned.host, Present(r)), rules, routes);
      ForeignAfterRecovery(b, World(TunRecovery.Installed(b, r, cleaned.host), Present(r)), rules, routes);
    }
  }

  function WithFirewall(b: Backend, r: Record, h: Host): Host
  {
    match b
    case NftBackend => h.(nft := Nft.RunScript(h.nft, r.iface, Comment(r)))
    case IptablesLegacy => h.(mangle := Ipt.Install(h.mangle, r.iface))
  }

  lemma FirewallCompletes(b: Backend, r: Record, before: Host, routed: Host)
    requires IsOwnRecord(b, r)
    requires routed == before.(rules := before.rules + (set x | x in ProjectRules()),
                               routes := before.routes + {DefaultRoute(r.iface, r.gateway, TABLE)})
    ensures WithFirewall(b, r, routed) == TunRecovery.Installed(b, r, before)
  {
    OwnRecordPlan(b, r);
    assert (set x | x in [DefaultRoute(r.iface, r.gateway, TABLE)]) == {DefaultRoute(r.iface, r.gateway, TABLE)};
  }

  lemma AfterInstallingNoRecord(b: Backend, r: Record, h: Host)
    requires IsOwnRecord(b, r)
    ensures AfterInstalling(b, r, h).file.Missing?
  {
    OwnRecordPlan(b, r);
    if b.NftBackend? {
      RecoverInstalled(h, r);
    }
  }

  lemma NewRecordIsOwn(iface: string, gateway: string, instance: string, b: Backend)
    requires iface != "" && gateway != "" && instance != ""
    ensures IsOwnRecord(b, NewRecord(iface, gateway, instance, b))
  {
  }

  lemma QuiescentMeans(b: Backend, h: Host)
    requires Quiescent(b, h)
    ensures Recover(b, World(h, Missing)) == World(h, Missing)
  {
  }

  class Machine {
    var host: Host
    var file: RecordFile
    var clock: nat
    const fate: nat -> Fate
    var trace: seq<World>

    constructor (host: Host, file: RecordFile, fate: nat -> Fate)
      ensures this.host == host && this.file == file && this.fate == fate && clock == 0
      ensures trace == [World(host, file)]
    {
      this.host, this.file, this.fate, clock := host, file, fate, 0;
      trace := [World(host, file)];
    }

    function Now(): World
      reads this
    {
      World(host, file)
    }

    /** In the present and in every state passed through, a cleanup leads to the same outcome. */
    ghost predicate Kept(watch: Watch)
      reads this
    {
      && watch.since <= |trace|
      && WellFormed(host)
      && Recoverable(watch, Now()) && Recover(watch.b, Now()) == watch.goal
      && forall i | watch.since <= i < |trace| :: Recoverable(watch, trace[i])
    }

    ghost predicate FaultFree(from: nat)
    {
      forall k: nat | k >= from :: fate(k).Works?
    }

    method Run(command: Command, ghost watch: Watch) returns (result: Result)
      requires Kept(watch) && Covered(watch.b, Now(), command)
      modifies this`host, this`clock, this`trace
      ensures Kept(watch)
      ensures (host, result) == After(fate(old(clock)), command, old(host))
      ensures clock == old(clock) + 1
      ensures trace == old(trace) + [Now()]
    {
      CoveredCommandKeepsRecovery(watch.b, Now(), command, fate(clock));
      var outcome := After(fate(clock), command, host);
      host, result := outcome.0, outcome.1;
      clock := clock + 1;
      trace := trace + [Now()];
    }

    /** A read-only command. */
    method Query() returns (ok: bool)
      modifies this`clock
      ensures ok <==> fate(old(clock)).Works?
      ensures clock == old(clock) + 1
    {
      ok := fate(clock).Works?;
      clock := clock + 1;
    }

    /** What is read of the record; reading may fail though the file is fine. */
    method ReadRecord() returns (seen: RecordFile)
      modifies this`clock
      ensures seen == if fate(old(clock)).Works? then file else Unreadable
      ensures clock == old(clock) + 1
    {
      var ok := Query();
      seen := if ok then file else Unreadable;
    }

    /** Writes the record to a temporary file and renames it over the old one. What a clean-up leads to
        is then decided by the new record. */
    method Save(record: Record, ghost watch: Watch) returns (ok: bool, ghost next: Watch)
      requires Kept(watch)
      requires RulesOf(CleanupPlan(record)) <= watch.rules && RoutesOf(CleanupPlan(record)) <= watch.routes
      modifies this`file, this`clock, this`trace
      ensures Kept(next) && next == if ok then Towards(watch, Recover(watch.b, Now())) else watch
      ensures ok <==> fate(old(clock)).Works?
      ensures file == if ok then Present(record) else old(file)
      ensures clock == old(clock) + 1
      ensures |old(trace)| <= |trace|
    {
      hide Recover, Clear;
      ok, next := fate(clock).Works?, watch;
      clock := clock + 1;
      if ok {
        file := Present(record);
        trace := trace + [Now()];
        next := Towards(watch, Recover(watch.b, Now()));
      }
    }

    method RemoveRecord(ghost watch: Watch) returns (ok: bool)
      requires Kept(watch) && Recover(watch.b, World(host, Missing)) == watch.goal
      modifies this`file, this`clock, this`trace
      ensures Kept(watch)
      ensures ok <==> fate(old(clock)).Works?
      ensures file == if ok then Missing else old(file)
      ensures clock == old(clock) + 1
      ensures |old(trace)| <= |trace|
    {
      ok := fate(clock).Works?;
      clock := clock + 1;
      if ok {
        file := Missing;
        trace := trace + [Now()];
      }
    }

    /** Deletes the recorded policy rules; what is already gone is not an error, and an error
        does not keep the rest from being tried. */
    method UndoRules(rules: seq<Rule>, ghost watch: Watch) returns (clean: bool)
      requires Kept(watch)
      requires forall r | r in rules :: r in RulesOf(PlanOf(file))
      modifies this`host, this`clock, this`trace
      ensures Kept(watch) && |old(trace)| <= |trace| && old(clock) <= clock
      ensures host == old(host).(rules := host.rules)
      ensures clean ==> host.rules == old(host).rules - (set r | r in rules)
      ensures FaultFree(old(clock)) ==> clean
    {
      hide Recover;
      clean := true;
      for i := 0 to |rules|
        invariant Kept(watch) && |old(trace)| <= |trace| && old(clock) <= clock
        invariant host == old(host).(rules := host.rules)
        invariant clean ==> host.rules == old(host).rules - (set r | r in rules[..i])
        invariant FaultFree(old(clock)) ==> clean
      {
        var result := Run(RuleDel(rules[i]), watch);
        assert rules[..i + 1] == rules[..i] + [rules[i]];
        clean := clean && (result.Done? || result.NotFound?);
      }
      assert rules[..|rules|] == rules;
    }

    method UndoRoutes(routes: seq<Route>, ghost watch: Watch) returns (clean: bool)
      requires Kept(watch)
      requires forall r | r in routes :: r in RoutesOf(PlanOf(file))
      modifies this`host, this`clock, this`trace
      ensures Kept(watch) && |old(trace)| <= |trace| && old(clock) <= clock
      ensures host == old(host).(routes := host.routes)
      ensures clean ==> host.routes == old(host).routes - (set r | r in routes)
      ensures FaultFree(old(clock)) ==> clean
    {
      hide Recover;
      clean := true;
      for i := 0 to |routes|
        invariant Kept(watch) && |old(trace)| <= |trace| && old(clock) <= clock
        invariant host == old(host).(routes := host.routes)
        invariant clean ==> host.routes == old(host).routes - (set r | r in routes[..i])
        invariant FaultFree(old(clock)) ==> clean
      {
        var result := Run(RouteDel(routes[i]), watch);
        assert routes[..i + 1] == routes[..i] + [routes[i]];
        clean := clean && (result.Done? || result.NotFound?);
      }
      assert routes[..|routes|] == routes;
    }
  
    /** Deletes the project table, after checking that it carries the record's marker. */
    method DeleteOwnTable(ghost watch: Watch) returns (clean: bool)
      requires Kept(watch) && watch.b.NftBackend? && OwnsNftTable(Loaded(file))
      modifies this`host, this`clock, this`trace
      ensures Kept(watch) && |old(trace)| <= |trace| && old(clock) <= clock
      ensures host == old(host).(nft := host.nft)
      ensures clean ==> MayDeleteTable(Loaded(file), old(host).nft)
      ensures clean ==> host.nft == Nft.Drop(old(host).nft, Nft.WholeOwnTable)
      ensures !MayDeleteTable(Loaded(file), old(host).nft) ==> host == old(host)
      ensures FaultFree(old(clock)) ==> (clean <==> MayDeleteTable(Loaded(file), old(host).nft))
    {
      hide Recover;
      var record := Loaded(file);
      if record.instance != "" {
        var listed := Query();
        if !listed {
          return false;
        }
        if Nft.OWN_TABLE !in host.nft {
          NoTableNothingToDrop(host.nft);
          return true;
        }
        if !Nft.HasMarker(host.nft, Comment(record)) {
          return false;
        }
      }
      var result := Run(NftDeleteOwnTable, watch);
      if result.NotFound? {
        NoTableNothingToDrop(host.nft);
      }
      clean := result.Done? || result.NotFound?;
    }

    method DeleteReference(r: Reference, ghost refs: seq<Reference>, ghost before: seq<Nft.Object>, ghost watch: Watch)
      returns (clean: bool)
      requires Kept(watch) && watch.b.NftBackend?
      requires Nft.WellFormed(before) && ListsReferences(refs, before) && r in refs
      requires Within(host.nft, before)
      modifies this`host, this`clock, this`trace
      ensures Kept(watch) && |old(trace)| <= |trace| && old(clock) < clock
      ensures host == old(host).(nft := host.nft)
      ensures Nft.Drop(host.nft, Nft.AllArtifacts) == Nft.Drop(old(host).nft, Nft.AllArtifacts)
      ensures Within(host.nft, old(host).nft)
      ensures FaultFree(old(clock)) ==> clean && NoneAt({r}, host.nft)
    {
      hide Recover, Nft.IsReference, Nft.IsArtifact, ListsReferences, Nft.WellFormed, Recoverable, WellFormed;
      ReferencesAreArtifacts(refs, before, host.nft, r);
      DropEarly(host.nft, Nft.RuleAt(r.loc, r.handle));
      var result := Run(NftDeleteRule(r.loc, r.handle), watch);
      clean := result.Done? || result.NotFound?;
    }

    /** Deletes the rules that refer to project chains, each address once. */
    method DeleteReferences(refs: seq<Reference>, ghost watch: Watch) returns (clean: bool)
      requires Kept(watch) && watch.b.NftBackend?
      requires ListsReferences(refs, host.nft)
      modifies this`host, this`clock, this`trace
      ensures Kept(watch) && |old(trace)| <= |trace| && old(clock) <= clock
      ensures host == old(host).(nft := host.nft)
      ensures Nft.Drop(host.nft, Nft.AllArtifacts) == Nft.Drop(old(host).nft, Nft.AllArtifacts)
      ensures Within(host.nft, old(host).nft)
      ensures FaultFree(old(clock)) ==> clean && NoReferences(host.nft)
    {
      hide Recover, Recoverable, Nft.IsReference, Nft.IsArtifact, AddressesReference, MissesNoReference, Nft.Drop, Nft.Hits;
      hide NoneAt, Within;
      WithinItself(host.nft);
      clean := true;
      var seen: set<Reference> := {};
      ghost var before := host.nft;
      for i := 0 to |refs|
        invariant Kept(watch) && |old(trace)| <= |trace| && old(clock) <= clock
        invariant host == old(host).(nft := host.nft)
        invariant Nft.Drop(host.nft, Nft.AllArtifacts) == Nft.Drop(before, Nft.AllArtifacts)
        invariant Within(host.nft, before)
        invariant seen == set r | r in refs[..i]
        invariant FaultFree(old(clock)) ==> clean && NoneAt(seen, host.nft)
      {
        var r := refs[i];
        assert refs[..i + 1] == refs[..i] + [r];
        if r !in seen {
          ghost var objs := host.nft;
          var gone := DeleteReference(r, refs, before, watch);
          NoneAtMore(seen, r, before, objs, host.nft);
          seen := seen + {r};
          clean := clean && gone;
        }
      }
      assert refs[..|refs|] == refs;
      if FaultFree(old(clock)) {
        NoneAtNoReferences(refs, before, host.nft);
      }
    }

    method FlushProjectChain(loc: Nft.ChainLoc, ghost watch: Watch) returns (clean: bool)
      requires Kept(watch) && watch.b.NftBackend? && NftJson.IsProjectChain(loc.chain)
      modifies this`host, this`clock, this`trace
      ensures Kept(watch) && |old(trace)| <= |trace| && old(clock) < clock
      ensures host == old(host).(nft := host.nft)
      ensures Nft.Drop(host.nft, Nft.AllArtifacts) == Nft.Drop(old(host).nft, Nft.AllArtifacts)
      ensures Within(host.nft, old(host).nft)
      ensures FaultFree(old(clock)) ==>
                clean && (Nft.ChainObject(loc) in host.nft ==> forall o | o in host.nft :: !Nft.Hits(Nft.RulesIn(loc), o))
    {
      hide Recover, Recoverable, Nft.WellFormed, Nft.IsReference, Nft.IsArtifact, NftJson.IsProjectChain, NftBusy;
      ProjectChainDrops(host.nft, loc);
      var flushed := Run(NftFlushChain(loc), watch);
      clean := flushed.Done? || flushed.NotFound?;
    }

    method DeleteEmptiedChain(loc: Nft.ChainLoc, ghost watch: Watch) returns (clean: bool)
      requires Kept(watch) && watch.b.NftBackend? && NftJson.IsProjectChain(loc.chain)
      modifies this`host, this`clock, this`trace
      ensures Kept(watch) && |old(trace)| <= |trace| && old(clock) < clock
      ensures host == old(host).(nft := host.nft)
      ensures Nft.Drop(host.nft, Nft.AllArtifacts) == Nft.Drop(old(host).nft, Nft.AllArtifacts)
      ensures Within(host.nft, old(host).nft)
      ensures FaultFree(old(clock)) && !NftBusy(old(host).nft, loc) ==> clean && Nft.ChainObject(loc) !in host.nft
      ensures FaultFree(old(clock)) && Nft.ChainObject(loc) !in old(host).nft ==> clean && Nft.ChainObject(loc) !in host.nft
    {
      hide Recover, Recoverable, WellFormed, NftJson.IsProjectChain, NftBusy, NftEffect;
      DeleteChainEffect(host.nft, loc);
      var deleted := Run(NftDeleteChain(loc), watch);
      clean := deleted.Done? || deleted.NotFound?;
    }

    /** Empties one project chain and deletes it. */
    method DeleteProjectChain(loc: Nft.ChainLoc, ghost watch: Watch) returns (clean: bool)
      requires Kept(watch) && watch.b.NftBackend? && NftJson.IsProjectChain(loc.chain)
      modifies this`host, this`clock, this`trace
      ensures Kept(watch) && |old(trace)| <= |trace| && old(clock) < clock
      ensures host == old(host).(nft := host.nft)
      ensures Nft.Drop(host.nft, Nft.AllArtifacts) == Nft.Drop(old(host).nft, Nft.AllArtifacts)
      ensures Within(host.nft, old(host).nft)
      ensures FaultFree(old(clock)) && NoReferences(old(host).nft) && !Nft.Held(old(host).nft) ==>
                clean && Nft.ChainObject(loc) !in host.nft
    {
      hide Recover, Kept, Nft.IsReference, NftJson.IsProjectChain, NftBusy, Nft.Held;
      var flushed := FlushProjectChain(loc, watch);
      if !flushed {
        return false;
      }
      WithinHolds(host.nft, old(host).nft);
      if FaultFree(old(clock)) && Nft.ChainObject(loc) in host.nft && NoReferences(old(host).nft) && !Nft.Held(old(host).nft) {
        EmptyChainIsNotBusy(host.nft, loc);
      }
      clean := DeleteEmptiedChain(loc, watch);
    }

    method DeleteProjectChains(chains: seq<Nft.ChainLoc>, ghost watch: Watch) returns (clean: bool)
      requires Kept(watch) && watch.b.NftBackend?
      requires forall loc | loc in chains :: NftJson.IsProjectChain(loc.chain)
      modifies this`host, this`clock, this`trace
      ensures Kept(watch) && |old(trace)| <= |trace| && old(clock) <= clock
      ensures host == old(host).(nft := host.nft)
      ensures Nft.Drop(host.nft, Nft.AllArtifacts) == Nft.Drop(old(host).nft, Nft.AllArtifacts)
      ensures Within(host.nft, old(host).nft)
      ensures FaultFree(old(clock)) && NoReferences(old(host).nft) && !Nft.Held(old(host).nft) ==>
                clean && forall loc | loc in chains :: Nft.ChainObject(loc) !in host.nft
    {
      hide Recover, Recoverable, Nft.WellFormed, Nft.IsReference, NftJson.IsProjectChain, Nft.Held;
      clean := true;
      var seen: set<Nft.ChainLoc> := {};
      for i := 0 to |chains|
        invariant Kept(watch) && |old(trace)| <= |trace| && old(clock) <= clock
        invariant host == old(host).(nft := host.nft)
        invariant Nft.Drop(host.nft, Nft.AllArtifacts) == Nft.Drop(old(host).nft, Nft.AllArtifacts)
        invariant Within(host.nft, old(host).nft)
        invariant seen == set loc | loc in chains[..i]
        invariant FaultFree(old(clock)) && NoReferences(old(host).nft) && !Nft.Held(old(host).nft) ==>
                    clean && forall loc | loc in seen :: Nft.ChainObject(loc) !in host.nft
      {
        var loc := chains[i];
        assert chains[..i + 1] == chains[..i] + [loc];
        if loc !in seen {
          seen := seen + {loc};
          WithinHolds(host.nft, old(host).nft);
          var gone := DeleteProjectChain(loc, watch);
          clean := clean && gone;
        }
      }
      assert chains[..|chains|] == chains;
    }

    /** Reads the ruleset and picks out the project chains and the rules that refer to one. */
    method ListArtifacts() returns (ok: bool, chains: seq<Nft.ChainLoc>, refs: seq<Reference>)
      modifies this`clock
      ensures ok <==> fate(old(clock)).Works?
      ensures clock == old(clock) + 1
      ensures ok ==> ListsChains(chains, host.nft) && ListsReferences(refs, host.nft)
    {
      ok := Query();
      chains, refs := Parse(host.nft);
    }

    /** Migrates the old installation away: references first, then chains, then a second look. */
    method CleanArtifacts(ghost watch: Watch) returns (clean: bool)
      requires Kept(watch) && watch.b.NftBackend?
      modifies this`host, this`clock, this`trace
      ensures Kept(watch) && |old(trace)| <= |trace| && old(clock) <= clock
      ensures host == old(host).(nft := host.nft)
      ensures clean ==> host.nft == Nft.Drop(old(host).nft, Nft.AllArtifacts) && !Nft.Held(old(host).nft)
      ensures FaultFree(old(clock)) ==> (clean <==> !Nft.Held(old(host).nft))
    {
      hide Recover, Recoverable, Nft.IsReference, NftJson.IsProjectChain, Nft.Held;
      var ok, chains, refs := ListArtifacts();
      if !ok {
        return false;
      }
      if chains == [] && refs == [] {
        NothingListedNothingToDrop(chains, refs, host.nft);
        CleanedWasNotHeld(host.nft, host.nft);
        return true;
      }
      var listing := host.nft;
      var refsGone := DeleteReferences(refs, watch);
      WithinHolds(host.nft, listing);
      var chainsGone := DeleteProjectChains(chains, watch);
      if !refsGone || !chainsGone {
        return false;
      }
      var again, remainingChains, remainingRefs := ListArtifacts();
      if !again || remainingChains != [] || remainingRefs != [] {
        if FaultFree(old(clock)) && !Nft.Held(listing) {
          NothingRemains(chains, listing, remainingChains, remainingRefs, host.nft);
        }
        return false;
      }
      NothingListedNothingToDrop(remainingChains, remainingRefs, host.nft);
      CleanedWasNotHeld(listing, host.nft);
      clean := true;
    }

    /** Deletes the project's jump from one built-in chain until iptables finds none. */
    method DeleteMainJumps(hook: Ipt.Hook, ghost watch: Watch) returns (clean: bool)
      requires Kept(watch) && watch.b.IptablesLegacy?
      modifies this`host, this`clock, this`trace
      ensures Kept(watch) && |old(trace)| <= |trace| && old(clock) < clock
      ensures host == old(host).(mangle := host.mangle)
      ensures SameButJumps(old(host).mangle, host.mangle, hook)
      ensures clean ==> host.mangle[Ipt.BuiltIn(hook)] == Ipt.RemoveAll(old(host).mangle[Ipt.BuiltIn(hook)], Ipt.MainJump(hook))
      ensures FaultFree(old(clock)) ==> clean
    {
      hide Recover, Recoverable, Nft.WellFormed, Nft.OwnTableIsPlain, Ipt.JumpsExist, Ipt.RemoveAll, Ipt.RemoveFirst;
      var chain, jump := Ipt.BuiltIn(hook), Ipt.MainJump(hook);
      assert chain in host.mangle;
      var result := Done;
      while result.Done?
        invariant Kept(watch) && |old(trace)| <= |trace| && old(clock) <= clock
        invariant result.Done? || old(clock) < clock
        invariant host == old(host).(mangle := host.mangle)
        invariant SameButJumps(old(host).mangle, host.mangle, hook)
        invariant result.NotFound? ==> jump !in host.mangle[chain]
        invariant FaultFree(old(clock)) ==> result.Done? || result.NotFound?
        decreases result.Done?, Ipt.Count(host.mangle[chain], jump)
      {
        DeletedJump(old(host).mangle, host.mangle, hook);
        result := Run(IptDelete(chain, jump), watch);
      }
      clean := result.NotFound?;
      if clean {
        Ipt.RemoveAllOfAbsent(host.mangle[chain], jump);
      }
    }

    /** Empties and deletes one project chain, if it is there. */
    method DropOwnChain(hook: Ipt.Hook, ghost watch: Watch) returns (clean: bool)
      requires Kept(watch) && watch.b.IptablesLegacy?
      modifies this`host, this`clock, this`trace
      ensures Kept(watch) && |old(trace)| <= |trace| && old(clock) < clock
      ensures host == old(host).(mangle := host.mangle)
      ensures SameButChain(old(host).mangle, host.mangle, hook)
      ensures clean ==> Ipt.Own(hook) !in host.mangle && !Referenced(old(host).mangle, hook)
      ensures FaultFree(old(clock)) ==> (clean <==> !Referenced(old(host).mangle, hook))
      ensures FaultFree(old(clock)) && Ipt.Own(hook) in host.mangle ==> host.mangle[Ipt.Own(hook)] == []
    {
      hide Recover, Recoverable, Nft.WellFormed, Nft.OwnTableIsPlain, Ipt.JumpsExist, Referenced;
      var chain := Ipt.Own(hook);
      var listed := Query();
      if !listed {
        return false;
      }
      if chain !in host.mangle {
        AbsentChainNotReferenced(host.mangle, hook);
        return true;
      }
      EmptiedChainBusyExactly(host.mangle, hook);
      var flushed := Run(IptFlushChain(chain), watch);
      if !flushed.Done? {
        return false;
      }
      var deleted := Run(IptDeleteChain(chain), watch);
      clean := deleted.Done?;
    }

    /** Deletes the project's jumps from all built-in chains. */
    method DeleteAllMainJumps(ghost watch: Watch) returns (clean: bool)
      requires Kept(watch) && watch.b.IptablesLegacy?
      modifies this`host, this`clock, this`trace
      ensures Kept(watch) && |old(trace)| <= |trace| && old(clock) <= clock
      ensures host == old(host).(mangle := host.mangle)
      ensures Ipt.Clean(host.mangle) == Ipt.Clean(old(host).mangle)
      ensures clean ==> Jumpless(old(host).mangle, host.mangle, Ipt.HOOKS)
      ensures FaultFree(old(clock)) ==> clean
    {
      hide Recover, Recoverable, Nft.WellFormed, Nft.OwnTableIsPlain, Ipt.JumpsExist;
      clean := true;
      for i := 0 to |Ipt.HOOKS|
        invariant Kept(watch) && |old(trace)| <= |trace| && old(clock) <= clock
        invariant host == old(host).(mangle := host.mangle)
        invariant Ipt.Clean(host.mangle) == Ipt.Clean(old(host).mangle)
        invariant clean ==> Jumpless(old(host).mangle, host.mangle, Ipt.HOOKS[..i])
        invariant FaultFree(old(clock)) ==> clean
      {
        ghost var before := host.mangle;
        var gone := DeleteMainJumps(Ipt.HOOKS[i], watch);
        SameButJumpsSameClean(before, host.mangle, Ipt.HOOKS[i]);
        if clean && gone {
          JumplessMore(old(host).mangle, before, host.mangle, Ipt.HOOKS, i);
        }
        clean := clean && gone;
      }
      EveryHookListed();
    }

    /** Removes jumps and chains; without faults exactly if nobody else's rule is in the way. */
    method CleanIptables(ghost watch: Watch) returns (clean: bool)
      requires Kept(watch) && watch.b.IptablesLegacy?
      modifies this`host, this`clock, this`trace
      ensures Kept(watch) && |old(trace)| <= |trace| && old(clock) <= clock
      ensures host == old(host).(mangle := host.mangle)
      ensures clean ==> host.mangle == Ipt.Clean(old(host).mangle) && !Ipt.Obstructed(old(host).mangle)
      ensures FaultFree(old(clock)) ==> (clean <==> !Ipt.Obstructed(old(host).mangle))
    {
      hide Recover, Recoverable, Nft.WellFormed, Nft.OwnTableIsPlain, Ipt.JumpsExist, Ipt.ObstructedAt, Referenced;
      hide Jumpless, Swept, Ipt.Clean;
      ghost var base := host.mangle;
      clean := DeleteAllMainJumps(watch);
      ghost var jumpless, swept := clean, host.mangle;
      SweptItself(swept);
      for i := 0 to |Ipt.HOOKS|
        invariant Kept(watch) && |old(trace)| <= |trace| && old(clock) <= clock
        invariant host == old(host).(mangle := host.mangle)
        invariant Ipt.Clean(host.mangle) == Ipt.Clean(base)
        invariant clean ==> jumpless
        invariant clean || FaultFree(old(clock)) ==> Swept(swept, host.mangle, i)
        invariant clean ==> forall h | h in Ipt.HOOKS[..i] :: Ipt.Own(h) !in host.mangle && !Ipt.ObstructedAt(base, h)
        invariant FaultFree(old(clock)) ==> jumpless && (clean <==> forall h | h in Ipt.HOOKS[..i] :: !Ipt.ObstructedAt(base, h))
      {
        ghost var before, hook := host.mangle, Ipt.HOOKS[i];
        assert Ipt.HOOKS[..i + 1] == Ipt.HOOKS[..i] + [hook] && Ipt.Rank(hook) == i;
        var gone := DropOwnChain(Ipt.HOOKS[i], watch);
        SameButChainSameClean(before, host.mangle, hook);
        if clean || FaultFree(old(clock)) {
          InUseExactlyIfObstructed(base, swept, before, hook);
          if gone || FaultFree(old(clock)) {
            SweptMore(swept, before, host.mangle, hook);
          }
        }
        clean := clean && gone;
      }
      EveryHookListed();
      if clean {
        SweptCleanly(base, swept, host.mangle);
        NothingLeftToClean(host.mangle);
      }
    }

    /** Makes one project chain exist and be empty. */
    method EnsureOwnChain(hook: Ipt.Hook, ghost watch: Watch) returns (ok: bool)
      requires Kept(watch) && watch.b.IptablesLegacy?
      modifies this`host, this`clock, this`trace
      ensures Kept(watch) && |old(trace)| <= |trace| && old(clock) < clock
      ensures host == old(host).(mangle := host.mangle)
      ensures ok ==> host.mangle == old(host).mangle[Ipt.Own(hook) := []]
      ensures FaultFree(old(clock)) ==> ok
    {
      hide Recover, Recoverable, Nft.WellFormed, Nft.OwnTableIsPlain, Ipt.WellFormed;
      var chain := Ipt.Own(hook);
      var listed := Query();
      if !listed {
        return false;
      }
      var result;
      if chain in host.mangle {
        result := Run(IptFlushChain(chain), watch);
      } else {
        result := Run(IptNewChain(chain), watch);
      }
      ok := result.Done?;
    }

    /** Leaves exactly one project jump in one built-in chain, at its end. */
    method EnsureMainJump(hook: Ipt.Hook, ghost watch: Watch) returns (ok: bool)
      requires Kept(watch) && watch.b.IptablesLegacy? && Ipt.Own(hook) in host.mangle
      modifies this`host, this`clock, this`trace
      ensures Kept(watch) && |old(trace)| <= |trace| && old(clock) < clock
      ensures host == old(host).(mangle := host.mangle)
      ensures ok ==> host.mangle == old(host).mangle[Ipt.BuiltIn(hook) :=
                Ipt.RemoveAll(old(host).mangle[Ipt.BuiltIn(hook)], Ipt.MainJump(hook)) + [Ipt.MainJump(hook)]]
      ensures FaultFree(old(clock)) ==> ok
    {
      hide Recover, Recoverable, Nft.WellFormed, Nft.OwnTableIsPlain, Ipt.JumpsExist;
      var gone := DeleteMainJumps(hook, watch);
      if !gone {
        return false;
      }
      var result := Run(IptAppend(Ipt.BuiltIn(hook), Ipt.MainJump(hook)), watch);
      ok := result.Done?;
    }

    /** Appends the canonical rules to one emptied project chain. */
    method FillOwnChain(hook: Ipt.Hook, iface: string, ghost watch: Watch) returns (ok: bool)
      requires Kept(watch) && watch.b.IptablesLegacy?
      requires Ipt.Own(hook) in host.mangle && host.mangle[Ipt.Own(hook)] == []
      modifies this`host, this`clock, this`trace
      ensures Kept(watch) && |old(trace)| <= |trace| && old(clock) <= clock
      ensures host == old(host).(mangle := host.mangle)
      ensures ok ==> host.mangle == old(host).mangle[Ipt.Own(hook) := Ipt.ChainRules(hook, iface)]
      ensures FaultFree(old(clock)) ==> ok
    {
      hide Recover, Recoverable, Nft.WellFormed, Nft.OwnTableIsPlain, Ipt.WellFormed;
      var chain, rules := Ipt.Own(hook), Ipt.ChainRules(hook, iface);
      for i := 0 to |rules|
        invariant Kept(watch) && |old(trace)| <= |trace| && old(clock) <= clock
        invariant host == old(host).(mangle := host.mangle)
        invariant host.mangle == old(host).mangle[chain := rules[..i]]
      {
        assert rules[..i + 1] == rules[..i] + [rules[i]];
        var result := Run(IptAppend(chain, rules[i]), watch);
        if !result.Done? {
          return false;
        }
      }
      assert rules[..|rules|] == rules;
      ok := true;
    }

    method MakeOwnChains(iface: string, ghost watch: Watch) returns (ok: bool)
      requires Kept(watch) && watch.b.IptablesLegacy?
      modifies this`host, this`clock, this`trace
      ensures Kept(watch) && |old(trace)| <= |trace| && old(clock) <= clock
      ensures host == old(host).(mangle := host.mangle)
      ensures ok ==> Built(old(host).mangle, host.mangle, iface, Ipt.HOOKS, [], [])
      ensures FaultFree(old(clock)) ==> ok
    {
      hide Recover, Recoverable, Nft.WellFormed, Nft.OwnTableIsPlain, Ipt.JumpsExist;
      for i := 0 to |Ipt.HOOKS|
        invariant Kept(watch) && |old(trace)| <= |trace| && old(clock) <= clock
        invariant host == old(host).(mangle := host.mangle)
        invariant Built(old(host).mangle, host.mangle, iface, Ipt.HOOKS[..i], [], [])
      {
        ghost var before := host.mangle;
        var made := EnsureOwnChain(Ipt.HOOKS[i], watch);
        if !made {
          return false;
        }
        BuiltChain(old(host).mangle, before, iface, Ipt.HOOKS, i);
      }
      EveryHookListed();
      ok := true;
    }

    method PlaceMainJumps(iface: string, ghost base: Ipt.Mangle, ghost watch: Watch) returns (ok: bool)
      requires Kept(watch) && watch.b.IptablesLegacy?
      requires Built(base, host.mangle, iface, Ipt.HOOKS, [], [])
      modifies this`host, this`clock, this`trace
      ensures Kept(watch) && |old(trace)| <= |trace| && old(clock) <= clock
      ensures host == old(host).(mangle := host.mangle)
      ensures ok ==> Built(base, host.mangle, iface, Ipt.HOOKS, Ipt.HOOKS, [])
      ensures FaultFree(old(clock)) ==> ok
    {
      hide Recover, Recoverable, Nft.WellFormed, Nft.OwnTableIsPlain, Ipt.JumpsExist, Built;
      EveryHookListed();
      for i := 0 to |Ipt.HOOKS|
        invariant Kept(watch) && |old(trace)| <= |trace| && old(clock) <= clock
        invariant host == old(host).(mangle := host.mangle)
        invariant Built(base, host.mangle, iface, Ipt.HOOKS, Ipt.HOOKS[..i], [])
      {
        ghost var before := host.mangle;
        BuiltHasChain(base, before, iface, Ipt.HOOKS, Ipt.HOOKS[..i], Ipt.HOOKS[i]);
        var made := EnsureMainJump(Ipt.HOOKS[i], watch);
        if !made {
          return false;
        }
        BuiltJump(base, before, iface, Ipt.HOOKS, i);
      }
      ok := true;
    }

    method FillOwnChains(iface: string, order: seq<Ipt.Hook>, ghost base: Ipt.Mangle, ghost watch: Watch)
      returns (ok: bool)
      requires Kept(watch) && watch.b.IptablesLegacy? && IsOrder(order)
      requires Built(base, host.mangle, iface, Ipt.HOOKS, Ipt.HOOKS, [])
      modifies this`host, this`clock, this`trace
      ensures Kept(watch) && |old(trace)| <= |trace| && old(clock) <= clock
      ensures host == old(host).(mangle := host.mangle)
      ensures ok ==> Built(base, host.mangle, iface, Ipt.HOOKS, Ipt.HOOKS, order)
      ensures FaultFree(old(clock)) ==> ok
    {
      hide Recover, Recoverable, Nft.WellFormed, Nft.OwnTableIsPlain, Ipt.WellFormed, Ipt.ChainRules;
      EveryHookListed();
      for i := 0 to |order|
        invariant Kept(watch) && |old(trace)| <= |trace| && old(clock) <= clock
        invariant host == old(host).(mangle := host.mangle)
        invariant Built(base, host.mangle, iface, Ipt.HOOKS, Ipt.HOOKS, order[..i])
      {
        ghost var before := host.mangle;
        assert order[i] in Ipt.HOOKS && order[i] !in order[..i];
        var made := FillOwnChain(order[i], iface, watch);
        if !made {
          return false;
        }
        BuiltRules(base, before, iface, order, i);
      }
      assert order[..|order|] == order;
      ok := true;
    }

    /** Installs chains, then jumps, then the chains' rules in whatever order the program
        walks its map of them. */
    method SetupIptables(iface: string, order: seq<Ipt.Hook>, ghost watch: Watch) returns (ok: bool)
      requires Kept(watch) && watch.b.IptablesLegacy? && IsOrder(order)
      modifies this`host, this`clock, this`trace
      ensures Kept(watch) && |old(trace)| <= |trace| && old(clock) <= clock
      ensures host == old(host).(mangle := host.mangle)
      ensures ok ==> host.mangle == Ipt.Install(old(host).mangle, iface)
      ensures FaultFree(old(clock)) ==> ok
    {
      hide Recover, Kept, Built;
      EveryHookListed();
      ok := MakeOwnChains(iface, watch);
      if !ok {
        return false;
      }
      ok := PlaceMainJumps(iface, old(host).mangle, watch);
      if !ok {
        return false;
      }
      ok := FillOwnChains(iface, order, old(host).mangle, watch);
      if ok {
        BuiltIsInstalled(old(host).mangle, host.mangle, iface, order);
      }
    }

    /** Removes the project's firewall objects with the backend at hand, going by the record as it was read. */
    method CleanupFirewall(b: Backend, seen: RecordFile, ghost watch: Watch) returns (clean: bool)
      requires Kept(watch) && watch.b == b && (seen == file || seen.Unreadable?)
      modifies this`host, this`clock, this`trace
      ensures Kept(watch) && |old(trace)| <= |trace| && old(clock) <= clock
      ensures clean ==> host == CleanFirewall(b, Loaded(seen), old(host))
      ensures clean ==> FirewallYields(b, Loaded(seen), old(host)) && Clear(b, old(host))
      ensures FaultFree(old(clock)) && Clear(b, old(host)) ==> host == CleanFirewall(b, Loaded(seen), old(host))
      ensures FaultFree(old(clock)) ==> (clean <==> FirewallYields(b, Loaded(seen), old(host)) && Clear(b, old(host)))
      ensures host == old(host).(nft := host.nft, mangle := host.mangle)
    {
      hide Recover, Kept, MayDeleteTable, Nft.Held, Ipt.Obstructed;
      match b {
        case NftBackend =>
          KeptGoal(watch);
          OwnTableHoldsNothing(host.nft);
          var tableGone := true;
          if OwnsNftTable(Loaded(seen)) {
            tableGone := DeleteOwnTable(watch);
          }
          var artifactsGone := CleanArtifacts(watch);
          clean := tableGone && artifactsGone;
        case IptablesLegacy =>
          clean := CleanIptables(watch);
      }
    }

    /** Takes away what the record describes, rules, route and firewall objects in this order, and deletes
        it last, and only if all of that is known to be gone. */
    method Cleanup(b: Backend, ghost watch: Watch) returns (ok: bool)
      requires Kept(watch) && watch.b == b
      modifies this`host, this`file, this`clock, this`trace
      ensures Kept(watch) && |old(trace)| <= |trace| && old(clock) <= clock
      ensures ok ==> Now() == watch.goal && file.Missing?
      ensures ok ==> Clear(b, old(host))
      ensures FaultFree(old(clock)) && Clear(b, old(host)) ==> Now() == watch.goal
      ensures FaultFree(old(clock)) ==> (ok <==> watch.goal.file.Missing? && Clear(b, old(host)))
    {
      hide CleanNft, Nft.Held, Ipt.Obstructed;
      var seen := ReadRecord();
      var plan := PlanOf(seen);
      var policyClean := plan.Plan?;
      if plan.Plan? {
        var rulesGone := UndoRules(plan.rules, watch);
        var routesGone := UndoRoutes(plan.routes, watch);
        policyClean := rulesGone && routesGone;
      }
      ghost var undone := host;
      var firewallClean := CleanupFirewall(b, seen, watch);
      ok := policyClean && firewallClean;
      if ok {
        assert watch.goal == Recover(b, old(Now()));
        assert World(host, Missing) == watch.goal;
        RecoveryIsIdempotent(b, old(Now()));
        ok := RemoveRecord(watch);
      }
    }

    /** The watch for a run that starts here: the outcome a clean-up has now. */
    ghost function WatchFromHere(b: Backend, record: Record): Watch
      reads this
    {
      var mine, planned := PlanOf(file), CleanupPlan(record);
      Watch(b, Recover(b, Now()), {}, Clear(b, host), |trace|,
            RulesOf(mine) + RulesOf(planned), RoutesOf(mine) + RoutesOf(planned))
    }

    /** Whatever the run did since, every state it passed through recovers to one of the outcomes, has left
        everything foreign alone, and has put nothing in the way of a clean-up. */
    ghost predicate Unharmed(watch: Watch, outcomes: set<World>, start: World)
      reads this
    {
      && watch.since <= |trace|
      && (forall i | watch.since <= i < |trace| :: Harmless(watch, outcomes, start, trace[i]))
      && Harmless(watch, outcomes, start, Now())
    }

    lemma KeptIsUnharmed(watch: Watch, outcomes: set<World>, start: World)
      requires Kept(watch) && watch.passed + {watch.goal} <= outcomes
      requires watch.clear == Clear(watch.b, start.host)
      requires forall g | g in outcomes ::
                 Foreign(watch.rules, watch.routes, g.host) == Foreign(watch.rules, watch.routes, start.host)
      ensures Unharmed(watch, outcomes, start)
    {
      hide Recover, Foreign, Clear, WellFormed;
      forall w | Recoverable(watch, w)
        ensures Harmless(watch, outcomes, start, w)
      {
        ForeignAfterRecovery(watch.b, w, watch.rules, watch.routes);
      }
    }

    /** Stopping or a failed start: clean up with the backend the host offers now. */
    method Restore(detected: Option<Backend>) returns (ok: bool)
      requires WellFormed(host)
      modifies this`host, this`file, this`clock, this`trace
      ensures detected.Some? ==>
                var watch := old(WatchFromHere(detected.value, NO_RECORD));
                Unharmed(watch, {watch.goal}, old(Now()))
      ensures ok ==> detected.Some? && Now() == Recover(detected.value, old(Now())) && file.Missing?
      ensures old(file).Unreadable? || detected.None? ==> !ok && Now() == old(Now())
      ensures old(file).Present? && old(file).record.backend == NFT_BACKEND && detected != Some(NftBackend) ==>
                !ok && Now() == old(Now())
      ensures
        && FaultFree(old(clock)) && detected.Some? && !old(file).Unreadable?
        && (Loaded(old(file)).backend == NFT_BACKEND ==> detected.value.NftBackend?)
        ==> (ok <==> Recover(detected.value, old(Now())).file.Missing? && Clear(detected.value, old(host)))
    {
      hide Recover, Foreign, Clear;
      if detected.None? {
        return false;
      }
      var b := detected.value;
      ghost var watch := WatchFromHere(b, NO_RECORD);
      ForeignAfterRecovery(b, Now(), watch.rules, watch.routes);
      KeptIsUnharmed(watch, {watch.goal}, old(Now()));
      var seen := ReadRecord();
      if seen.Unreadable? || (Loaded(seen).backend == NFT_BACKEND && !b.NftBackend?) {
        return false;
      }
      ok := Cleanup(b, watch);
      KeptIsUnharmed(watch, {watch.goal}, old(Now()));
    }

    /** Adds the default route of the project's table unless it is there. */
    method EnsureDefaultRoute(route: Route, ghost watch: Watch) returns (ok: bool)
      requires Kept(watch) && route in RoutesOf(PlanOf(file)) && route.destination == "default" && route.table == TABLE
      modifies this`host, this`clock, this`trace
      ensures Kept(watch) && |old(trace)| <= |trace| && old(clock) <= clock
      ensures host == old(host).(routes := host.routes)
      ensures ok ==> host.routes == old(host).routes + {route}
      ensures FaultFree(old(clock)) && (forall r | r in old(host).routes :: r.table != TABLE) ==> ok
    {
      hide Recover;
      ok := Query();
      if !ok {
        return false;
      }
      if route in host.routes {
        return true;
      }
      if exists r | r in host.routes :: r.destination == "default" && r.table == TABLE {
        return false;
      }
      var result := Run(RouteAdd(route), watch);
      ok := result.Done?;
    }

    /** Adds the policy rules; one that exists already counts as added. */
    method AddRules(rules: seq<Rule>, ghost watch: Watch) returns (ok: bool)
      requires Kept(watch) && forall r | r in rules :: r in RulesOf(PlanOf(file))
      modifies this`host, this`clock, this`trace
      ensures Kept(watch) && |old(trace)| <= |trace| && old(clock) <= clock
      ensures host == old(host).(rules := host.rules)
      ensures ok ==> host.rules == old(host).rules + (set r | r in rules)
      ensures FaultFree(old(clock)) ==> ok
    {
      hide Recover, Recoverable, WellFormed;
      for i := 0 to |rules|
        invariant Kept(watch) && |old(trace)| <= |trace| && old(clock) <= clock
        invariant host == old(host).(rules := host.rules)
        invariant host.rules == old(host).rules + (set r | r in rules[..i])
      {
        var result := Run(RuleAdd(rules[i]), watch);
        assert rules[..i + 1] == rules[..i] + [rules[i]];
        if !(result.Done? || result.Exists?) {
          return false;
        }
      }
      assert rules[..|rules|] == rules;
      ok := true;
    }

    /** Feeds the install script to nft. If a table of the project's name was there, a clean-up leads
        elsewhere from here on. */
    method RunScript(record: Record, ghost watch: Watch) returns (ok: bool, ghost next: Watch)
      requires Kept(watch) && watch.b.NftBackend?
      modifies this`host, this`clock, this`trace
      ensures Kept(next) && next == Towards(watch, Recover(watch.b, Now()))
      ensures |old(trace)| <= |trace| && old(clock) <= clock
      ensures host == old(host) || host == old(host).(nft := Nft.RunScript(old(host).nft, record.iface, Comment(record)))
      ensures ok ==> host == old(host).(nft := Nft.RunScript(old(host).nft, record.iface, Comment(record)))
      ensures FaultFree(old(clock)) ==> ok
    {
      hide Recover, Nft.RunScript, Nft.WellFormed, Nft.OwnTableIsPlain, Nft.Held, Ipt.WellFormed;
      Nft.AddedIsWellFormed(host.nft, record.iface, Comment(record));
      Nft.AddedIsPlain(host.nft, record.iface, Comment(record));
      Nft.AddedHoldsNothing(host.nft, record.iface, Comment(record));
      var outcome := After(fate(clock), NftRunScript(record.iface, Comment(record)), host);
      host, ok := outcome.0, outcome.1.Done?;
      clock := clock + 1;
      trace := trace + [Now()];
      next := Towards(watch, Recover(watch.b, Now()));
    }

    method SetupFirewall(b: Backend, record: Record, order: seq<Ipt.Hook>, ghost watch: Watch)
      returns (ok: bool, ghost next: Watch)
      requires Kept(watch) && watch.b == b && file == Present(record) && IsOrder(order)
      modifies this`host, this`clock, this`trace
      ensures Kept(next) && |old(trace)| <= |trace| && old(clock) <= clock
      ensures next == watch || (next == Towards(watch, Recover(b, Now()))
                                && (host == old(host) || host == WithFirewall(b, record, old(host))))
      ensures ok ==> host == WithFirewall(b, record, old(host))
      ensures FaultFree(old(clock)) ==> ok
    {
      hide Recover, Recoverable, Nft.RunScript, Ipt.Install;
      match b {
        case NftBackend =>
          ok, next := RunScript(record, watch);
        case IptablesLegacy =>
          next := watch;
          ok := SetupIptables(record.iface, order, watch);
      }
    }

    /** Reads back rules, routes and the firewall objects. */
    method Verify(b: Backend, ghost watch: Watch) returns (ok: bool)
      requires Kept(watch)
      modifies this`clock
      ensures Kept(watch) && old(clock) <= clock
      ensures FaultFree(old(clock)) && FirewallPresent(b, host) ==> ok
      ensures ok ==> FirewallPresent(b, host)
    {
      hide Recoverable, WellFormed, Recover;
      var rules := Query();
      var routes := Query();
      if !rules || !routes {
        return false;
      }
      match b {
        case NftBackend =>
          var listed := Query();
          return listed && Nft.OWN_TABLE in host.nft;
        case IptablesLegacy =>
          for i := 0 to |Ipt.HOOKS|
            invariant Kept(watch) && old(clock) <= clock
            invariant forall h | h in Ipt.HOOKS[..i] :: Ipt.Own(h) in host.mangle
          {
            var listed := Query();
            if !listed || Ipt.Own(Ipt.HOOKS[i]) !in host.mangle {
              return false;
            }
          }
          EveryHookListed();
          return true;
      }
    }

    /** Installs everything the persisted record describes. */
    method Install(b: Backend, record: Record, order: seq<Ipt.Hook>, ghost watch: Watch)
      returns (ok: bool, ghost next: Watch)
      requires Kept(watch) && watch.b == b && file == Present(record) && IsOwnRecord(b, record) && IsOrder(order)
      modifies this`host, this`clock, this`trace
      ensures Kept(next) && |old(trace)| <= |trace| && old(clock) <= clock
      ensures Follows(next, watch, {AfterInstalling(b, record, old(host))})
      ensures ok ==> host == TunRecovery.Installed(b, record, old(host))
      ensures FaultFree(old(clock)) && SlotsFree(old(host)) ==> ok
    {
      hide Recover, Nft.RunScript, Kept, WithFirewall, CleanupPlan, WellFormed, TunRecovery.Installed;
      next := watch;
      OwnRecordPlan(b, record);
      var route := DefaultRoute(record.iface, record.gateway, TABLE);
      assert route in CleanupPlan(record).routes;
      ok := EnsureDefaultRoute(route, watch);
      if !ok {
        return;
      }
      ok := AddRules(ProjectRules(), watch);
      if !ok {
        return;
      }
      FirewallCompletes(b, record, old(host), host);
      KeptGoal(watch);
      ok, next := SetupFirewall(b, record, order, watch);
      if !ok {
        return;
      }
      InstalledIsPresent(b, record, old(host));
      ok := Verify(b, next);
    }

    lemma KeptGoal(watch: Watch)
      requires Kept(watch)
      ensures Recover(watch.b, Now()) == watch.goal && WellFormed(host)
    {
    }

    /** Persists the record, installs what it describes, marks it active; any failure after the record was
        persisted is rolled back by a clean-up. */
    method InstallOrRollBack(b: Backend, record: Record, order: seq<Ipt.Hook>, ghost watch: Watch)
      returns (outcome: Outcome, ghost next: Watch)
      requires Kept(watch) && watch.b == b && IsOwnRecord(b, record) && IsOrder(order)
      requires Now() == watch.goal && file.Missing? && SlotsFree(host)
      requires RulesOf(CleanupPlan(record)) <= watch.rules && RoutesOf(CleanupPlan(record)) <= watch.routes
      modifies this`host, this`file, this`clock, this`trace
      ensures Kept(next) && |old(trace)| <= |trace| && old(clock) <= clock
      ensures Follows(next, watch, {AfterPersisting(b, record, old(host)), AfterInstalling(b, record, old(host))})
      ensures outcome.NotStarted? || outcome.Installed? || outcome.RolledBack? || outcome.NotRolledBack?
      ensures outcome.NotStarted? ==> Now() == old(Now())
      ensures outcome.RolledBack? ==> Now() == next.goal && file.Missing?
      ensures outcome.Installed? ==>
                host == TunRecovery.Installed(b, record, old(host)) && file == Present(record.(phase := Active))
      ensures FaultFree(old(clock)) ==> outcome.Installed?
    {
      hide Recover, TunRecovery.Installed, SlotsFree, Kept, CleanupPlan, WellFormed, Clear;
      var saved;
      saved, next := Save(record, watch);
      if !saved {
        return NotStarted, next;
      }
      var installed;
      ghost var persisted := next;
      installed, next := Install(b, record, order, next);
      if installed {
        ghost var described := next;
        KeptGoal(next);
        AfterInstallingNoRecord(b, record, old(host));
        PhaseDoesNotMatter(b, host, record, Active);
        installed, next := Save(record.(phase := Active), next);
      }
      if installed {
        return Installed, next;
      }
      var undone := Cleanup(b, next);
      outcome := if undone then RolledBack else NotRolledBack;
    }

    /** Lists routes and rules and looks for anything in the project's slots. */
    method FindSlotsFree(ghost watch: Watch) returns (free: bool)
      requires Kept(watch)
      modifies this`clock
      ensures Kept(watch) && old(clock) <= clock
      ensures free ==> SlotsFree(host)
      ensures FaultFree(old(clock)) ==> (free <==> SlotsFree(host))
    {
      hide Recoverable, WellFormed, Recover, SlotsFree;
      var routesListed := Query();
      var rulesListed := Query();
      free := routesListed && rulesListed && SlotsFree(host);
    }

    lemma WatchIsKept(b: Backend, record: Record)
      requires WellFormed(host)
      ensures Kept(WatchFromHere(b, record))
    {
    }

    /** The whole setup, for the backend `b` detected at its start. */
    method Setup(b: Backend, preflight: Preflight, instance: string, order: seq<Ipt.Hook>) returns (outcome: Outcome)
      requires WellFormed(host) && IsOrder(order) && instance != "" && preflight.gateway != ""
      modifies this`host, this`file, this`clock, this`trace
      ensures var record := NewRecord(preflight.iface, preflight.gateway, instance, b);
              Unharmed(old(WatchFromHere(b, record)), SetupOutcomes(b, record, Recover(b, old(Now()))), old(Now()))
      ensures outcome.Rejected? <==> !Admits(preflight)
      ensures outcome.Rejected? ==> Now() == old(Now())
      ensures Admits(preflight) && !Clear(b, old(host)) ==> outcome.NotCleaned?
      ensures outcome.NotStarted? ==> Now() == Recover(b, old(Now())) && file.Missing?
      ensures outcome.RolledBack? ==>
                var record := NewRecord(preflight.iface, preflight.gateway, instance, b);
                file.Missing? && Now() in SetupOutcomes(b, record, Recover(b, old(Now())))
      ensures outcome.Installed? ==>
                var record := NewRecord(preflight.iface, preflight.gateway, instance, b);
                && host == TunRecovery.Installed(b, record, Recover(b, old(Now())).host)
                && file == Present(record.(phase := Active))
      ensures FaultFree(old(clock)) && Admits(preflight) ==>
                (outcome.Installed? <==>
                   && Clear(b, old(host))
                   && Recover(b, old(Now())).file.Missing? && SlotsFree(Recover(b, old(Now())).host))
    {
      hide Recover, Foreign, TunRecovery.Installed, CleanupPlan, Kept, WellFormed, Clear;
      var record := NewRecord(preflight.iface, preflight.gateway, instance, b);
      ghost var watch, outcomes := WatchFromHere(b, record), SetupOutcomes(b, record, Recover(b, Now()));
      WatchIsKept(b, record);
      OutcomesSameForeign(b, record, Now(), watch.rules, watch.routes) by {
        if Admits(preflight) {
          NewRecordIsOwn(preflight.iface, preflight.gateway, instance, b);
        }
      }
      KeptIsUnharmed(watch, outcomes, old(Now()));
      if !Admits(preflight) {
        return Rejected;
      }
      var cleaned := Cleanup(b, watch);
      KeptIsUnharmed(watch, outcomes, old(Now()));
      if !cleaned {
        return NotCleaned;
      }
      var free := FindSlotsFree(watch);
      if !free {
        return NotStarted;
      }
      NewRecordIsOwn(preflight.iface, preflight.gateway, instance, b);
      ghost var next;
      outcome, next := InstallOrRollBack(b, record, order, watch);
      KeptIsUnharmed(next, outcomes, old(Now()));
    }
  }

  /** One attempt at something, which ends by itself, or is cut off after some number of steps unless it has
      ended before. */
  datatype Attempt = SetUp(preflight: Preflight, instance: string, order: seq<Ipt.Hook>, fate: nat -> Fate, crash: Option<nat>)
                   | TakeDown(fate: nat -> Fate, crash: Option<nat>)

  ghost predicate IsAttempt(a: Attempt)
  {
    a.SetUp? ==> IsOrder(a.order) && a.instance != "" && a.preflight.gateway != ""
  }

  function RecordOf(b: Backend, a: Attempt): Record
    requires a.SetUp?
  {
    NewRecord(a.preflight.iface, a.preflight.gateway, a.instance, b)
  }

  /** A state from which a clean-up leads to the starting host. */
  ghost predicate LeadsTo(b: Backend, start: Host, w: World)
  {
    WellFormed(w.host) && Clear(b, w.host) && Recover(b, w) == World(start, Missing)
  }

  /** It ends by itself and nothing fails. */
  ghost predicate Smooth(a: Attempt)
  {
    a.crash.None? && forall k: nat :: a.fate(k).Works?
  }

  /** What an attempt may leave behind of a state that leads to the starting host: one that does so as well. In
      particular, a setup that is not admitted leaves everything as it is, a smooth one ends installed if the slots
      are free, and a smooth removal by a host that can do it ends with the starting host. */
  ghost predicate Leaves(b: Backend, start: Host, from: World, a: Attempt, left: World)
  {
    && LeadsTo(b, start, left)
    && (a.SetUp? && !Admits(a.preflight) && a.crash.None? ==> left == from)
    && (a.SetUp? && Admits(a.preflight) && Smooth(a) && SlotsFree(start) ==>
          left == World(TunRecovery.Installed(b, RecordOf(b, a), start), Present(RecordOf(b, a).(phase := Active))))
    && (a.TakeDown? && Smooth(a) && (Loaded(from.file).backend == NFT_BACKEND ==> b.NftBackend?) ==>
          left == World(start, Missing))
  }

  function CutAt(trace: seq<World>, crash: Option<nat>, now: World): World
  {
    if crash.Some? && crash.value + 1 < |trace| then trace[crash.value + 1] else now
  }

  /** The machine is the one that made the attempt; what is left is a state it went through. */
  method Try(b: Backend, start: Host, from: World, a: Attempt) returns (left: World, m: Machine)
    requires Quiescent(b, start) && (b.NftBackend? ==> Nft.NoOwnTable(start.nft))
    requires LeadsTo(b, start, from) && IsAttempt(a)
    ensures fresh(m) && m.fate == a.fate && left == CutAt(m.trace, a.crash, m.Now())
    ensures Leaves(b, start, from, a, left)
  {
    hide Recover, Foreign, WellFormed, Clear, SlotsFree, Quiescent, IsOwnRecord, Nft.NoOwnTable, TunRecovery.Installed;
    m := new Machine(from.host, from.file, a.fate);
    match a {
      case SetUp(preflight, instance, order, fate, crash) =>
        var outcome := m.Setup(b, preflight, instance, order);
        FreshOutcomes(b, RecordOf(b, a), start);
      case TakeDown(fate, crash) =>
        RecoveredWasReadable(b, from);
        var ok := m.Restore(Some(b));
    }
    left := CutAt(m.trace, a.crash, m.Now());
  }

  lemma RecoveredWasReadable(b: Backend, w: World)
    requires Recover(b, w).file.Missing?
    ensures !w.file.Unreadable?
  {
  }

  lemma FreshOutcomes(b: Backend, r: Record, start: Host)
    requires Quiescent(b, start) && (b.NftBackend? ==> Nft.NoOwnTable(start.nft))
    ensures SetupOutcomes(b, r, World(start, Missing)) == {World(start, Missing)}
  {
    hide SlotsFree, Quiescent, IsOwnRecord, AfterPersisting, AfterInstalling, Nft.NoOwnTable;
    if SlotsFree(start) && IsOwnRecord(b, r) {
      FreshSetupKeepsRecovery(b, r, start);
    }
  }

  /** Any number of setups and removals on a host that holds nothing of the project's, with whatever faults
      and each cut off anywhere or not: each leaves a state as above behind for the next. Then one clean-up with
      the same backend and without faults: the host is what it was before, and no record is left. */
  method CrashAndCleanUp(b: Backend, start: Host, attempts: seq<Attempt>) returns (end: World, left: seq<World>)
    requires WellFormed(start) && Quiescent(b, start) && forall a | a in attempts :: IsAttempt(a)
    requires b.NftBackend? ==> Nft.NoOwnTable(start.nft)
    ensures |left| == |attempts| + 1 && left[0] == World(start, Missing)
    ensures forall i | 0 <= i < |attempts| :: Leaves(b, start, left[i], attempts[i], left[i + 1])
    ensures end == Recover(b, left[|attempts|]) == World(start, Missing)
  {
    hide Recover, Foreign, WellFormed, Clear, Quiescent, IsAttempt, Nft.NoOwnTable, Leaves;
    end := World(start, Missing);
    left := [end];
    QuiescentMeans(b, start);
    QuiescentIsClear(b, start);
    for i := 0 to |attempts|
      invariant LeadsTo(b, start, end)
      invariant |left| == i + 1 && left[0] == World(start, Missing) && left[i] == end
      invariant forall j | 0 <= j < i :: Leaves(b, start, left[j], attempts[j], left[j + 1])
    {
      var m;
      end, m := Try(b, start, end, attempts[i]);
      LeavesLeads(b, start, left[i], attempts[i], end);
      left := left + [end];
    }
    var n := new Machine(end.host, end.file, _ => Works);
    ghost var watch := n.WatchFromHere(b, NO_RECORD);
    n.WatchIsKept(b, NO_RECORD);
    var ok := n.Cleanup(b, watch);
    end := n.Now();
  }

  lemma LeavesLeads(b: Backend, start: Host, from: World, a: Attempt, left: World)
    requires Leaves(b, start, from, a, left)
    ensures LeadsTo(b, start, left)
  {
  }
}
