/** What one fault-free cleanup makes of any state, and why no command the controller issues
    changes that outcome. */
module TunRecovery {
  import opened TunHost
  import opened TunRecord
  import Nft = NftRuleset
  import Ipt = MangleTable
  import NftJson

  /** Everything a crash leaves behind. */
  datatype World = World(host: Host, file: RecordFile)

  function RulesOf(p: Plan): set<Rule>
  {
    if p.Refuse? then {} else set r | r in p.rules
  }

  function RoutesOf(p: Plan): set<Route>
  {
    if p.Refuse? then {} else set r | r in p.routes
  }

  /** The project table may be deleted: it is not there, the record predates markers, or the
      table carries the record's marker. */
  predicate MayDeleteTable(r: Record, objs: seq<Nft.Object>)
  {
    r.instance == "" || Nft.OWN_TABLE !in objs || Nft.HasMarker(objs, Comment(r))
  }

  predicate FirewallYields(b: Backend, r: Record, h: Host)
  {
    b.NftBackend? && OwnsNftTable(r) ==> MayDeleteTable(r, h.nft)
  }

  function CleanNft(r: Record, objs: seq<Nft.Object>): seq<Nft.Object>
  {
    var own := if OwnsNftTable(r) && MayDeleteTable(r, objs) then Nft.Drop(objs, Nft.WholeOwnTable) else objs;
    Nft.Drop(own, Nft.AllArtifacts)
  }

  function CleanFirewall(b: Backend, r: Record, h: Host): Host
  {
    match b
    case NftBackend => h.(nft := CleanNft(r, h.nft))
    case IptablesLegacy => h.(mangle := Ipt.Clean(h.mangle))
  }

  /** The outcome of one fault-free cleanup with firewall backend `b`. */
  function Recover(b: Backend, w: World): World
  {
    var record, plan := Loaded(w.file), PlanOf(w.file);
    var host := CleanFirewall(b, record, w.host);
    World(host.(rules := w.host.rules - RulesOf(plan), routes := w.host.routes - RoutesOf(plan)),
          if plan.Plan? && FirewallYields(b, record, w.host) then Missing else w.file)
  }

  /** The commands the record in `file` accounts for: each one adds, or takes away, only what
      a cleanup working from that record takes away in any case. */
  ghost predicate Covered(b: Backend, w: World, c: Command)
  {
    var record, plan := Loaded(w.file), PlanOf(w.file);
    match c
    case RuleAdd(rule) => rule in RulesOf(plan)
    case RuleDel(rule) => rule in RulesOf(plan)
    case RouteAdd(route) => route in RoutesOf(plan)
    case RouteDel(route) => route in RoutesOf(plan)
    case NftRunScript(_, comment) =>
      b.NftBackend? && OwnsNftTable(record) && comment == Comment(record) && Nft.NoOwnTable(w.host.nft)
    case NftDeleteOwnTable => b.NftBackend? && OwnsNftTable(record) && MayDeleteTable(record, w.host.nft)
    case NftDeleteRule(loc, handle) =>
      b.NftBackend? && forall o | o in w.host.nft && Nft.Hits(Nft.RuleAt(loc, handle), o) :: Nft.IsArtifact(o)
    case NftFlushChain(loc) => b.NftBackend? && NftJson.IsProjectChain(loc.chain)
    case NftDeleteChain(loc) => b.NftBackend? && NftJson.IsProjectChain(loc.chain)
    case _ => b.IptablesLegacy? && CoveredIpt(c)
  }

  predicate CoveredIpt(c: Command)
  {
    match c
    case IptNewChain(chain) => chain.Own?
    case IptFlushChain(chain) => chain.Own?
    case IptDeleteChain(chain) => chain.Own?
    case IptAppend(chain, r) => IsMainJump(chain, r) || (chain.Own? && r.target.Action?)
    case IptDelete(chain, r) => IsMainJump(chain, r)
    case _ => false
  }

  predicate IsMainJump(chain: Ipt.Chain, r: Ipt.IptRule)
  {
    chain.BuiltIn? && r == Ipt.MainJump(chain.hook)
  }

  lemma CoveredMangleIsWellFormed(m: Ipt.Mangle, c: Command)
    requires Ipt.WellFormed(m)
    requires CoveredIpt(c)
    ensures Ipt.WellFormed(IptEffect(c, m).0)
  {
    var next := IptEffect(c, m).0;
    forall hook: Ipt.Hook
      ensures Ipt.BuiltIn(hook) in next
    {
      assert Ipt.BuiltIn(hook) in m;
    }
    forall chain | chain in next
      ensures Ipt.JumpsExist(next[chain], next)
    {
      assert chain in m ==> Ipt.JumpsExist(m[chain], m);
    }
  }

  /** No command of the project puts anything in the way of a clean-up. */
  lemma CoveredMangleStaysClear(m: Ipt.Mangle, c: Command)
    requires Ipt.WellFormed(m) && CoveredIpt(c) && !Ipt.Obstructed(m)
    ensures !Ipt.Obstructed(IptEffect(c, m).0)
  {
    var next := IptEffect(c, m).0;
    forall chain, r, hook | chain in next && r in next[chain]
      ensures !Ipt.Obstructs(chain, r, hook)
    {
      if chain in m && r in m[chain] {
        assert !Ipt.ObstructedAt(m, hook);
      }
    }
  }

  lemma CoveredMangle(m: Ipt.Mangle, c: Command)
    requires CoveredIpt(c)
    ensures Ipt.Clean(IptEffect(c, m).0) == Ipt.Clean(m)
  {
    var next := IptEffect(c, m).0;
    if c.IptAppend? && c.chain in m && c.chain.BuiltIn? {
      Ipt.RemoveAllOfMore(m[c.chain], c.rule_);
    } else if c.IptDelete? && c.chain in m {
      Ipt.RemoveAllOfFewer(m[c.chain], c.rule_);
    }
    Ipt.SameCleanChains(next, m);
  }

  lemma MayDeleteAfterDrop(r: Record, objs: seq<Nft.Object>, removal: Nft.Removal)
    requires Nft.OwnTableIsPlain(objs)
    requires forall o | o in objs && Nft.Hits(removal, o) :: Nft.IsArtifact(o)
    ensures MayDeleteTable(r, Nft.Drop(objs, removal)) <==> MayDeleteTable(r, objs)
  {
    hide Nft.IsArtifact, Nft.Hits;
    var next := Nft.Drop(objs, removal);
    forall o | o in objs && Nft.InOwnTable(o)
      ensures o in next
    {
    }
    assert Nft.InOwnTable(Nft.OWN_TABLE);
  }

  lemma DropEarly(objs: seq<Nft.Object>, removal: Nft.Removal)
    requires forall o | o in objs && Nft.Hits(removal, o) :: Nft.IsArtifact(o)
    ensures Nft.Drop(Nft.Drop(objs, removal), Nft.AllArtifacts) == Nft.Drop(objs, Nft.AllArtifacts)
  {
    hide Nft.IsArtifact;
    Nft.DropCovered(objs, removal, Nft.AllArtifacts);
  }

  /** Removing artifacts early does not change what cleaning leaves. */
  lemma CleanAfterDrop(r: Record, objs: seq<Nft.Object>, removal: Nft.Removal)
    requires Nft.OwnTableIsPlain(objs)
    requires forall o | o in objs && Nft.Hits(removal, o) :: Nft.IsArtifact(o)
    ensures CleanNft(r, Nft.Drop(objs, removal)) == CleanNft(r, objs)
    ensures MayDeleteTable(r, Nft.Drop(objs, removal)) <==> MayDeleteTable(r, objs)
  {
    MayDeleteAfterDrop(r, objs, removal);
    hide Nft.IsArtifact, Nft.Hits, MayDeleteTable, OwnsNftTable;
    Nft.DropCommutes(objs, removal, Nft.WholeOwnTable);
    DropEarly(Nft.Drop(objs, Nft.WholeOwnTable), removal);
    DropEarly(objs, removal);
  }

  /** What a step on the ruleset must not change. */
  ghost predicate NftKept(r: Record, objs: seq<Nft.Object>, next: seq<Nft.Object>)
  {
    && Nft.WellFormed(next) && Nft.OwnTableIsPlain(next)
    && CleanNft(r, next) == CleanNft(r, objs)
    && (OwnsNftTable(r) ==> (MayDeleteTable(r, next) <==> MayDeleteTable(r, objs)))
    && (!Nft.Held(objs) ==> !Nft.Held(next))
  }

  lemma ArtifactRemoval(r: Record, objs: seq<Nft.Object>, removal: Nft.Removal)
    requires Nft.WellFormed(objs) && Nft.OwnTableIsPlain(objs) && !removal.AllArtifacts?
    requires forall o | o in objs && Nft.Hits(removal, o) :: Nft.IsArtifact(o)
    requires removal.ChainAt? ==>
               forall o :: o in objs ==> (o.RuleObject? ==> o.loc != removal.loc) && !Nft.Holds(o, removal.loc)
    ensures NftKept(r, objs, Nft.Drop(objs, removal))
  {
    CleanAfterDrop(r, objs, removal);
    hide CleanNft, MayDeleteTable, Nft.IsArtifact, Nft.HoldsProjectChain, OwnsNftTable;
    Nft.DropKeepsWellFormed(objs, removal);
  }

  lemma OwnTableRemoval(r: Record, objs: seq<Nft.Object>)
    requires Nft.WellFormed(objs) && Nft.OwnTableIsPlain(objs) && OwnsNftTable(r) && MayDeleteTable(r, objs)
    ensures NftKept(r, objs, Nft.Drop(objs, Nft.WholeOwnTable))
  {
    hide Nft.IsArtifact, Nft.HoldsProjectChain, Nft.WellFormed;
    Nft.DropCovered(objs, Nft.WholeOwnTable, Nft.WholeOwnTable);
    Nft.DropKeepsWellFormed(objs, Nft.WholeOwnTable);
  }

  lemma ScriptKeepsClean(r: Record, objs: seq<Nft.Object>, iface: string)
    requires OwnsNftTable(r) && Nft.NoOwnTable(objs)
    ensures MayDeleteTable(r, objs) && MayDeleteTable(r, Nft.RunScript(objs, iface, Comment(r)))
    ensures CleanNft(r, Nft.RunScript(objs, iface, Comment(r))) == CleanNft(r, objs)
  {
    hide Nft.RunScript, Nft.Drop, Comment;
    Nft.RunScriptAddsOwnTable(objs, iface, Comment(r));
    assert Nft.InOwnTable(Nft.OWN_TABLE);
  }

  lemma ScriptKept(r: Record, objs: seq<Nft.Object>, iface: string)
    requires Nft.WellFormed(objs) && Nft.OwnTableIsPlain(objs) && OwnsNftTable(r) && Nft.NoOwnTable(objs)
    ensures NftKept(r, objs, Nft.RunScript(objs, iface, Comment(r)))
  {
    hide Nft.Held, Nft.WellFormed, Nft.OwnTableIsPlain, Nft.RunScript, Nft.NoOwnTable, CleanNft, MayDeleteTable;
    ScriptKeepsClean(r, objs, iface);
    Nft.AddedIsWellFormed(objs, iface, Comment(r));
    Nft.AddedIsPlain(objs, iface, Comment(r));
    Nft.AddedHoldsNothing(objs, iface, Comment(r));
  }

  lemma CoveredNft(w: World, c: Command)
    requires Nft.WellFormed(w.host.nft) && Nft.OwnTableIsPlain(w.host.nft)
    requires Covered(NftBackend, w, c)
    requires c.NftRunScript? || c.NftDeleteOwnTable? || c.NftDeleteRule? || c.NftFlushChain? || c.NftDeleteChain?
    ensures NftKept(Loaded(w.file), w.host.nft, NftEffect(c, w.host.nft).0)
  {
    var objs, r := w.host.nft, Loaded(w.file);
    hide Nft.WellFormed, Nft.OwnTableIsPlain, Nft.Held, CleanNft, MayDeleteTable, Nft.HasProjectTarget, OwnsNftTable, Nft.NoOwnTable;
    hide NftJson.IsProjectChain, Nft.RunScript;
    match c {
      case NftRunScript(iface, comment) => ScriptKept(r, objs, iface);
      case NftDeleteOwnTable => OwnTableRemoval(r, objs);
      case NftDeleteRule(loc, handle) => ArtifactRemoval(r, objs, Nft.RuleAt(loc, handle));
      case NftFlushChain(loc) => ArtifactRemoval(r, objs, Nft.RulesIn(loc));
      case NftDeleteChain(loc) =>
        if Nft.ChainObject(loc) in objs && !NftBusy(objs, loc) {
          ArtifactRemoval(r, objs, Nft.ChainAt(loc));
        }
    }
  }

  /** Nothing of anybody else's keeps a clean-up from deleting the project's chains. */
  ghost predicate Clear(b: Backend, h: Host)
  {
    match b
    case NftBackend => !Nft.Held(h.nft)
    case IptablesLegacy => !Ipt.Obstructed(h.mangle)
  }

  ghost predicate StepKeepsRecovery(b: Backend, w: World, c: Command)
  {
    var host := Effect(c, w.host).0;
    && WellFormed(host) && Recover(b, World(host, w.file)) == Recover(b, w)
    && (Clear(b, w.host) ==> Clear(b, host))
  }

  lemma NftStep(w: World, c: Command)
    requires WellFormed(w.host) && Covered(NftBackend, w, c)
    requires c.NftRunScript? || c.NftDeleteOwnTable? || c.NftDeleteRule? || c.NftFlushChain? || c.NftDeleteChain?
    ensures StepKeepsRecovery(NftBackend, w, c)
  {
    hide Nft.ScriptRules, Nft.RunScript;
    CoveredNft(w, c);
    hide Covered;
    hide Nft.WellFormed, Nft.OwnTableIsPlain, Nft.Held, Ipt.WellFormed, CleanNft, MayDeleteTable, NftEffect;
  }

  lemma IptStep(w: World, c: Command)
    requires WellFormed(w.host) && CoveredIpt(c)
    ensures StepKeepsRecovery(IptablesLegacy, w, c)
  {
    CoveredMangleIsWellFormed(w.host.mangle, c);
    CoveredMangle(w.host.mangle, c);
    if !Ipt.Obstructed(w.host.mangle) {
      CoveredMangleStaysClear(w.host.mangle, c);
    }
    hide Ipt.Obstructed;
    hide Nft.WellFormed, Nft.OwnTableIsPlain, Ipt.WellFormed, IptEffect;
  }

  lemma PolicyStep(b: Backend, w: World, c: Command)
    requires WellFormed(w.host) && Covered(b, w, c)
    requires c.RuleAdd? || c.RuleDel? || c.RouteAdd? || c.RouteDel?
    ensures StepKeepsRecovery(b, w, c)
  {
    hide Nft.WellFormed, Nft.OwnTableIsPlain, Ipt.WellFormed, CleanNft, MayDeleteTable, PlanOf;
    var host, plan := Effect(c, w.host).0, PlanOf(w.file);
    assert host.rules - RulesOf(plan) == w.host.rules - RulesOf(plan);
    assert host.routes - RoutesOf(plan) == w.host.routes - RoutesOf(plan);
  }

  /** The heart of the write-ahead protocol: a command accounted for by the persisted record
      may take effect or not, be reported as failed or be cut off by a crash; a cleanup
      afterwards ends in the same state as a cleanup before it. */
  lemma CoveredCommandKeepsRecovery(b: Backend, w: World, c: Command, fate: Fate)
    requires WellFormed(w.host) && Covered(b, w, c)
    ensures var host := After(fate, c, w.host).0;
            && WellFormed(host) && Recover(b, World(host, w.file)) == Recover(b, w)
            && (Clear(b, w.host) ==> Clear(b, host))
  {
    if fate == Fails(false) {
      assert World(w.host, w.file) == w;
    } else if c.NftRunScript? || c.NftDeleteOwnTable? || c.NftDeleteRule? || c.NftFlushChain? || c.NftDeleteChain? {
      NftStep(w, c);
    } else if c.RuleAdd? || c.RuleDel? || c.RouteAdd? || c.RouteDel? {
      PolicyStep(b, w, c);
    } else {
      IptStep(w, c);
    }
  }

  lemma CleanNftTwice(r: Record, objs: seq<Nft.Object>)
    ensures CleanNft(NO_RECORD, CleanNft(r, objs)) == CleanNft(r, objs)
  {
    var own := if OwnsNftTable(r) && MayDeleteTable(r, objs) then Nft.Drop(objs, Nft.WholeOwnTable) else objs;
    Nft.DropCovered(own, Nft.AllArtifacts, Nft.AllArtifacts);
  }

  /** A finished cleanup has nothing left to do. */
  lemma RecoveryIsIdempotent(b: Backend, w: World)
    requires Recover(b, w).file.Missing?
    ensures Recover(b, Recover(b, w)) == Recover(b, w)
  {
    var next := Recover(b, w);
    CleanNftTwice(Loaded(w.file), w.host.nft);
    Ipt.CleanIsIdempotent(w.host.mangle);
    assert next.host.rules - {} == next.host.rules;
  }

  predicate SlotsFree(h: Host)
  {
    && (forall r | r in h.routes :: r.table != TABLE)
    && (forall r | r in h.rules :: r.pref != PRIVATE_PREF && r.pref != MARK_PREF)
  }

  /** A record as this release writes it for backend `b`. */
  predicate IsOwnRecord(b: Backend, r: Record)
  {
    && r.iface != "" && r.gateway != "" && r.instance != ""
    && (r.table, r.privatePref, r.markPref) == (TABLE, PRIVATE_PREF, MARK_PREF)
    && r.backend == BackendName(b) && r.nftTable == Nft.TABLE
  }

  lemma BackendNamesDiffer()
    ensures NFT_BACKEND != IPTABLES_BACKEND
  {
    assert |NFT_BACKEND| == 3 && |IPTABLES_BACKEND| == 15;
  }

  lemma OwnRecordPlan(b: Backend, r: Record)
    requires IsOwnRecord(b, r)
    ensures CleanupPlan(r) == Plan(ProjectRules(), [DefaultRoute(r.iface, r.gateway, TABLE)])
    ensures OwnsNftTable(r) <==> b.NftBackend?
  {
    NewRecordPlan(r);
    BackendNamesDiffer();
  }

  /** The host with everything a record of this release describes in place. */
  function Installed(b: Backend, r: Record, h: Host): Host
  {
    var plan := CleanupPlan(r);
    var routed := h.(rules := h.rules + RulesOf(plan), routes := h.routes + RoutesOf(plan));
    match b
    case NftBackend => routed.(nft := Nft.RunScript(h.nft, r.iface, Comment(r)))
    case IptablesLegacy => routed.(mangle := Ipt.Install(h.mangle, r.iface))
  }

  /** Nothing on the host is the project's: a cleanup without a record would change nothing. */
  ghost predicate Quiescent(b: Backend, h: Host)
  {
    Recover(b, World(h, Missing)) == World(h, Missing)
  }

  lemma FreeSlotsHoldNoProjectRules(h: Host, r: Record)
    requires SlotsFree(h)
    ensures forall x | x in ProjectRules() :: x !in h.rules
    ensures DefaultRoute(r.iface, r.gateway, TABLE) !in h.routes
  {
    forall x | x in ProjectRules()
      ensures x.pref == PRIVATE_PREF || x.pref == MARK_PREF
    {
    }
  }

  /** Persisting the record before anything is installed costs nothing: recovering from it
      gives the untouched host back. */
  lemma PersistingKeepsRecovery(b: Backend, h: Host, r: Record)
    requires Quiescent(b, h) && IsOwnRecord(b, r) && SlotsFree(h)
    requires b.NftBackend? ==> Nft.NoOwnTable(h.nft)
    ensures Recover(b, World(h, Present(r))) == World(h, Missing)
  {
    OwnRecordPlan(b, r);
    FreeSlotsHoldNoProjectRules(h, r);
    if b.NftBackend? {
      Nft.DropNothing(h.nft, Nft.WholeOwnTable);
    }
    assert h.rules - (set x | x in ProjectRules()) == h.rules;
    assert h.routes - (set x | x in [DefaultRoute(r.iface, r.gateway, TABLE)]) == h.routes;
  }

  lemma CleanNftInstalled(objs: seq<Nft.Object>, r: Record)
    requires OwnsNftTable(r)
    ensures var next := Nft.RunScript(objs, r.iface, Comment(r));
            && MayDeleteTable(r, next)
            && CleanNft(r, next) == Nft.Drop(Nft.Drop(objs, Nft.WholeOwnTable), Nft.AllArtifacts)
  {
    Nft.RunScriptAddsOwnTable(objs, r.iface, Comment(r));
  }

  lemma RecoverInstalled(h: Host, r: Record)
    requires IsOwnRecord(NftBackend, r)
    ensures Recover(NftBackend, World(Installed(NftBackend, r, h), Present(r)))
            == World(Host(h.rules - RulesOf(CleanupPlan(r)), h.routes - RoutesOf(CleanupPlan(r)),
                          Nft.Drop(Nft.Drop(h.nft, Nft.WholeOwnTable), Nft.AllArtifacts), h.mangle), Missing)
  {
    hide Nft.RunScript, Nft.Drop, Nft.WellFormed;
    OwnRecordPlan(NftBackend, r);
    CleanNftInstalled(h.nft, r);
    var rules, routes := RulesOf(CleanupPlan(r)), RoutesOf(CleanupPlan(r));
    assert h.rules + rules - rules == h.rules - rules;
    assert h.routes + routes - routes == h.routes - routes;
  }

  lemma RecoverInstalledIptables(h: Host, r: Record)
    requires IsOwnRecord(IptablesLegacy, r)
    ensures Recover(IptablesLegacy, World(Installed(IptablesLegacy, r, h), Present(r)))
            == World(Host(h.rules - RulesOf(CleanupPlan(r)), h.routes - RoutesOf(CleanupPlan(r)),
                          h.nft, Ipt.Clean(h.mangle)), Missing)
  {
    OwnRecordPlan(IptablesLegacy, r);
    Ipt.InstallThenClean(h.mangle, r.iface);
    var rules, routes := RulesOf(CleanupPlan(r)), RoutesOf(CleanupPlan(r));
    assert h.rules + rules - rules == h.rules - rules;
    assert h.routes + routes - routes == h.routes - routes;
  }

  /** Recovering an installation gives the host back exactly if nobody else's rule or route sat where
      the installation went, nor, for nft, a table of the project's name. */
  lemma RecoveryIsExact(b: Backend, h: Host, r: Record)
    requires Quiescent(b, h) && IsOwnRecord(b, r)
    ensures Recover(b, World(Installed(b, r, h), Present(r))) == World(h, Missing)
            <==>
            && RulesOf(CleanupPlan(r)) !! h.rules && RoutesOf(CleanupPlan(r)) !! h.routes
            && (b.NftBackend? ==> Nft.NoOwnTable(h.nft))
  {
    hide CleanupPlan;
    var rules, routes := RulesOf(CleanupPlan(r)), RoutesOf(CleanupPlan(r));
    if b.NftBackend? {
      RecoverInstalled(h, r);
      assert h.nft == Nft.Drop(h.nft, Nft.AllArtifacts);
      if Nft.NoOwnTable(h.nft) {
        Nft.DropNothing(h.nft, Nft.WholeOwnTable);
      }
    } else {
      RecoverInstalledIptables(h, r);
      assert h.mangle == Ipt.Clean(h.mangle);
    }
    assert h.rules - rules == h.rules <==> rules !! h.rules;
    assert h.routes - routes == h.routes <==> routes !! h.routes;
  }

  /** Which clean-ups delete the project table: those with the nft backend that work from a record of an
      nft installation, if the record predates markers or the table carries its marker. */
  lemma TableGoesExactly(b: Backend, w: World)
    requires Nft.OWN_TABLE in w.host.nft
    ensures var r := Loaded(w.file);
            Nft.OWN_TABLE !in Recover(b, w).host.nft
            <==> b.NftBackend? && OwnsNftTable(r) && (r.instance == "" || Nft.HasMarker(w.host.nft, Comment(r)))
  {
    assert !Nft.Hits(Nft.AllArtifacts, Nft.OWN_TABLE);
  }

  /** A record of an nft installation cleaned up with a detected backend: the project table goes,
      together with the record, exactly with the nft backend. With the other one the record is deleted
      and the table stays behind. */
  lemma DetectedBackendDecidesTable(b: Backend, w: World)
    requires w.file.Present? && OwnsNftTable(w.file.record) && PlanOf(w.file).Plan?
    requires Nft.OWN_TABLE in w.host.nft && Nft.HasMarker(w.host.nft, Comment(w.file.record))
    ensures Recover(b, w).file.Missing?
    ensures Nft.OWN_TABLE !in Recover(b, w).host.nft <==> b.NftBackend?
  {
    TableGoesExactly(b, w);
  }

  function RecoverAll(bs: seq<Backend>, w: World): World
    decreases |bs|
  {
    if bs == [] then w else RecoverAll(bs[1..], Recover(bs[0], w))
  }

  /** No number of clean-ups without a record reaches a table that was left behind, whatever the
      backends. */
  lemma {:induction false} CleanUpsMissStaleTable(bs: seq<Backend>, w: World)
    requires w.file.Missing? && Nft.OWN_TABLE in w.host.nft
    ensures RecoverAll(bs, w).file.Missing? && Nft.OWN_TABLE in RecoverAll(bs, w).host.nft
    decreases |bs|
  {
    if bs != [] {
      assert !OwnsNftTable(NO_RECORD);
      TableGoesExactly(bs[0], w);
      hide Recover;
      RecoveredWithoutRecord(bs[0], w);
      CleanUpsMissStaleTable(bs[1..], Recover(bs[0], w));
    }
  }

  lemma RecoveredWithoutRecord(b: Backend, w: World)
    requires w.file.Missing?
    ensures Recover(b, w).file.Missing?
  {
  }

  // ---- what a setup finds after its first clean-up ----

  /** What a clean-up leads to once the record is persisted and nothing installed. */
  function AfterPersisting(b: Backend, r: Record, h: Host): World
  {
    Recover(b, World(h, Present(r)))
  }

  /** What a clean-up leads to once the firewall objects are in place. */
  function AfterInstalling(b: Backend, r: Record, h: Host): World
  {
    Recover(b, World(Installed(b, r, h), Present(r)))
  }

  /** Without a table of the project's name, each of the two is the host as it was, without a record. */
  lemma FreshSetupKeepsRecovery(b: Backend, r: Record, h: Host)
    requires Quiescent(b, h) && IsOwnRecord(b, r) && SlotsFree(h)
    requires b.NftBackend? ==> Nft.NoOwnTable(h.nft)
    ensures AfterPersisting(b, r, h) == AfterInstalling(b, r, h) == World(h, Missing)
  {
    hide Recover, Installed;
    OwnRecordPlan(b, r);
    FreeSlotsHoldNoProjectRules(h, r);
    PersistingKeepsRecovery(b, h, r);
    RecoveryIsExact(b, h, r);
  }

  lemma NothingToUndo(r: Record, h: Host)
    requires IsOwnRecord(NftBackend, r) && SlotsFree(h)
    ensures h.rules - RulesOf(CleanupPlan(r)) == h.rules && h.routes - RoutesOf(CleanupPlan(r)) == h.routes
  {
    OwnRecordPlan(NftBackend, r);
    FreeSlotsHoldNoProjectRules(h, r);
  }

  lemma StaleTableBlocksRecovery(r: Record, h: Host)
    requires Quiescent(NftBackend, h) && IsOwnRecord(NftBackend, r) && SlotsFree(h)
    requires Nft.OWN_TABLE in h.nft && !Nft.HasMarker(h.nft, Comment(r))
    ensures AfterPersisting(NftBackend, r, h) == World(h, Present(r))
  {
    hide CleanupPlan, Nft.HasMarker, Comment, Nft.Drop;
    NothingToUndo(r, h);
    OwnRecordPlan(NftBackend, r);
    assert h.nft == Nft.Drop(h.nft, Nft.AllArtifacts);
  }

  lemma IptablesDropsRecord(r: Record, h: Host)
    requires IsOwnRecord(NftBackend, r)
    ensures var w := Recover(IptablesLegacy, World(h, Present(r))); w.file.Missing? && w.host.nft == h.nft
  {
    hide CleanupPlan;
    OwnRecordPlan(NftBackend, r);
  }

  /** With a stale one that lacks the new marker they differ: until the script has run, no clean-up with nft
      succeeds, and the record stays, while one with iptables drops the record and leaves the table; after
      the script has run, a clean-up with nft takes the stale table along. */
  lemma StaleTableDecidesSetup(r: Record, h: Host)
    requires Quiescent(NftBackend, h) && IsOwnRecord(NftBackend, r) && SlotsFree(h)
    requires Nft.OWN_TABLE in h.nft && !Nft.HasMarker(h.nft, Comment(r))
    ensures AfterPersisting(NftBackend, r, h) == World(h, Present(r))
    ensures AfterInstalling(NftBackend, r, h) == World(h.(nft := Nft.Drop(h.nft, Nft.WholeOwnTable)), Missing)
    ensures Nft.OWN_TABLE !in AfterInstalling(NftBackend, r, h).host.nft
    ensures var other := Recover(IptablesLegacy, World(h, Present(r)));
            other.file.Missing? && other.host.nft == h.nft
  {
    IptablesDropsRecord(r, h);
    StaleTableBlocksRecovery(r, h);
    NothingToUndo(r, h);
    RecoverInstalled(h, r);
    Nft.DropCommutes(h.nft, Nft.WholeOwnTable, Nft.AllArtifacts);
    assert h.nft == Nft.Drop(h.nft, Nft.AllArtifacts) by {
      assert NO_RECORD.backend == "";
    }
    hide Recover, CleanupPlan, Installed, Nft.HasMarker, Nft.IsArtifact;
  }

  lemma CleanedHoldsNothing(objs: seq<Nft.Object>)
    requires Nft.WellFormed(objs) && forall o | o in objs :: !Nft.IsProjectChainObject(o)
    ensures !Nft.Held(objs)
  {
    hide NftJson.IsProjectChain;
    forall o | o in objs && o.MapObject?
      ensures !Nft.HoldsProjectChain(o)
    {
      assert Nft.MapWellFormed(o, objs);
      forall t | t in o.targets
        ensures !NftJson.IsProjectChain(t)
      {
        assert !Nft.IsProjectChainObject(Nft.ChainObject(Nft.ChainLoc(o.family, o.table, t)));
      }
    }
  }

  lemma NoOwnChainsNoObstacle(m: Ipt.Mangle)
    requires Ipt.WellFormed(m) && forall hook :: Ipt.Own(hook) !in m
    ensures !Ipt.Obstructed(m)
  {
    forall hook, chain, r | chain in m && r in m[chain]
      ensures !Ipt.Obstructs(chain, r, hook)
    {
      assert Ipt.JumpsExist(m[chain], m);
    }
  }

  /** On a host without anything of the project's, nothing can refer to it. */
  lemma QuiescentIsClear(b: Backend, h: Host)
    requires WellFormed(h) && Quiescent(b, h)
    ensures Clear(b, h)
  {
    hide Nft.WellFormed, Nft.OwnTableIsPlain, Nft.Held, Ipt.WellFormed, Ipt.Obstructed;
    match b {
      case NftBackend =>
        assert h.nft == Nft.Drop(h.nft, Nft.AllArtifacts);
        CleanedHoldsNothing(h.nft);
      case IptablesLegacy =>
        assert h.mangle == Ipt.Clean(h.mangle);
        NoOwnChainsNoObstacle(h.mangle);
    }
  }

  /** What is nobody's business of the project's: everything but the given rules and routes,
      the project table, the legacy artifacts, and the project's chains and jumps. */
  function Foreign(rules: set<Rule>, routes: set<Route>, h: Host): Host
  {
    Host(h.rules - rules, h.routes - routes,
         Nft.Drop(Nft.Drop(h.nft, Nft.WholeOwnTable), Nft.AllArtifacts),
         Ipt.Clean(h.mangle))
  }

  lemma ForeignAfterRecovery(b: Backend, w: World, rules: set<Rule>, routes: set<Route>)
    requires RulesOf(PlanOf(w.file)) <= rules && RoutesOf(PlanOf(w.file)) <= routes
    ensures Foreign(rules, routes, Recover(b, w).host) == Foreign(rules, routes, w.host)
  {
    var r, objs, after := Loaded(w.file), w.host.nft, Recover(b, w).host;
    assert after.rules - rules == w.host.rules - rules;
    assert after.routes - routes == w.host.routes - routes;
    if b.NftBackend? {
      var own := if OwnsNftTable(r) && MayDeleteTable(r, objs) then Nft.Drop(objs, Nft.WholeOwnTable) else objs;
      Nft.DropCommutes(own, Nft.AllArtifacts, Nft.WholeOwnTable);
      Nft.DropCovered(Nft.Drop(own, Nft.WholeOwnTable), Nft.AllArtifacts, Nft.AllArtifacts);
      Nft.DropCovered(objs, Nft.WholeOwnTable, Nft.WholeOwnTable);
    } else {
      Ipt.CleanIsIdempotent(w.host.mangle);
    }
  }

  /** Two states with the same recovery agree on everything foreign. */
  lemma SameRecoverySameForeign(b: Backend, w: World, v: World, rules: set<Rule>, routes: set<Route>)
    requires Recover(b, w) == Recover(b, v)
    requires RulesOf(PlanOf(w.file)) <= rules && RoutesOf(PlanOf(w.file)) <= routes
    requires RulesOf(PlanOf(v.file)) <= rules && RoutesOf(PlanOf(v.file)) <= routes
    ensures Foreign(rules, routes, w.host) == Foreign(rules, routes, v.host)
  {
    ForeignAfterRecovery(b, w, rules, routes);
    ForeignAfterRecovery(b, v, rules, routes);
  }

  /** An installation leaves everything foreign alone, whatever it was put on. */
  lemma InstalledSameForeign(b: Backend, r: Record, h: Host, rules: set<Rule>, routes: set<Route>)
    requires IsOwnRecord(b, r)
    requires RulesOf(CleanupPlan(r)) <= rules && RoutesOf(CleanupPlan(r)) <= routes
    ensures Foreign(rules, routes, Installed(b, r, h)) == Foreign(rules, routes, h)
  {
    hide Nft.RunScript, Ipt.Install;
    var next := Installed(b, r, h);
    assert next.rules - rules == h.rules - rules;
    assert next.routes - routes == h.routes - routes;
    Nft.RunScriptAddsOwnTable(h.nft, r.iface, Comment(r));
    Ipt.InstallThenClean(h.mangle, r.iface);
  }
}
