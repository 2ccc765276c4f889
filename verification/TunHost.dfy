/** The host the TUN routing controller acts on, and the effect of each command it runs. */
module TunHost {
  import Nft = NftRuleset
  import Ipt = MangleTable

  datatype Selector = To(cidr: string) | FwMark(mark: string)

  datatype Rule = Rule(selector: Selector, table: string, pref: string)

  datatype Route = Route(destination: string, via: string, dev: string, table: string)

  datatype Host = Host(rules: set<Rule>, routes: set<Route>, nft: seq<Nft.Object>, mangle: Ipt.Mangle)

  /** How a command ends: `NotFound` and `Exists` are the failures the controller tells
      apart by the text of the error. */
  datatype Result = Done | NotFound | Exists | Failed

  datatype Command =
    | RuleAdd(rule: Rule)
    | RuleDel(rule: Rule)
    | RouteAdd(route: Route)
    | RouteDel(route: Route)
    | NftRunScript(iface: string, comment: string)
    | NftDeleteOwnTable
    | NftDeleteRule(loc: Nft.ChainLoc, handle: nat)
    | NftFlushChain(loc: Nft.ChainLoc)
    | NftDeleteChain(loc: Nft.ChainLoc)
    | IptNewChain(chain: Ipt.Chain)
    | IptFlushChain(chain: Ipt.Chain)
    | IptDeleteChain(chain: Ipt.Chain)
    | IptAppend(chain: Ipt.Chain, rule_: Ipt.IptRule)
    | IptDelete(chain: Ipt.Chain, rule_: Ipt.IptRule)

  /** The kernel may not delete the chain: it is not empty, or a rule of its table refers to a project
      chain, this one perhaps, or an element of a map does. */
  predicate NftBusy(objs: seq<Nft.Object>, loc: Nft.ChainLoc)
  {
    exists o | o in objs ::
      || (o.RuleObject?
          && (o.loc == loc || (Nft.IsReference(o) && o.loc.family == loc.family && o.loc.table == loc.table)))
      || Nft.Holds(o, loc)
  }

  predicate IptBusy(m: Ipt.Mangle, chain: Ipt.Chain)
    requires chain in m
  {
    || m[chain] != []
    || exists c | c in m :: exists r | r in m[c] :: r.target == Ipt.Jump(chain)
  }

  function NftEffect(c: Command, objs: seq<Nft.Object>): (seq<Nft.Object>, Result)
  {
    match c
    case NftRunScript(iface, comment) => (Nft.RunScript(objs, iface, comment), Done)
    case NftDeleteOwnTable =>
      if Nft.OWN_TABLE in objs then (Nft.Drop(objs, Nft.WholeOwnTable), Done) else (objs, NotFound)
    case NftDeleteRule(loc, handle) =>
      if exists o | o in objs :: Nft.Hits(Nft.RuleAt(loc, handle), o)
      then (Nft.Drop(objs, Nft.RuleAt(loc, handle)), Done) else (objs, NotFound)
    case NftFlushChain(loc) =>
      if Nft.ChainObject(loc) in objs then (Nft.Drop(objs, Nft.RulesIn(loc)), Done) else (objs, NotFound)
    case NftDeleteChain(loc) =>
      if Nft.ChainObject(loc) !in objs then (objs, NotFound)
      else if NftBusy(objs, loc) then (objs, Failed)
      else (Nft.Drop(objs, Nft.ChainAt(loc)), Done)
    case _ => (objs, Done)
  }

  function IptEffect(c: Command, m: Ipt.Mangle): (Ipt.Mangle, Result)
  {
    match c
    case IptNewChain(chain) => if chain in m then (m, Exists) else (m[chain := []], Done)
    case IptFlushChain(chain) => if chain in m then (m[chain := []], Done) else (m, NotFound)
    case IptDeleteChain(chain) =>
      if chain !in m then (m, NotFound) else if IptBusy(m, chain) then (m, Failed) else (m - {chain}, Done)
    case IptAppend(chain, r) =>
      if chain !in m || (r.target.Jump? && r.target.chain !in m) then (m, NotFound)
      else (m[chain := m[chain] + [r]], Done)
    case IptDelete(chain, r) =>
      if chain !in m || r !in m[chain] then (m, NotFound)
      else (m[chain := Ipt.RemoveFirst(m[chain], r)], Done)
    case _ => (m, Done)
  }

  function Effect(c: Command, h: Host): (Host, Result)
  {
    match c
    case RuleAdd(rule) => if rule in h.rules then (h, Exists) else (h.(rules := h.rules + {rule}), Done)
    case RuleDel(rule) => if rule in h.rules then (h.(rules := h.rules - {rule}), Done) else (h, NotFound)
    case RouteAdd(route) =>
      if exists r | r in h.routes :: r.destination == route.destination && r.table == route.table
      then (h, Exists) else (h.(routes := h.routes + {route}), Done)
    case RouteDel(route) => if route in h.routes then (h.(routes := h.routes - {route}), Done) else (h, NotFound)
    case NftRunScript(_, _) => var (objs, r) := NftEffect(c, h.nft); (h.(nft := objs), r)
    case NftDeleteOwnTable => var (objs, r) := NftEffect(c, h.nft); (h.(nft := objs), r)
    case NftDeleteRule(_, _) => var (objs, r) := NftEffect(c, h.nft); (h.(nft := objs), r)
    case NftFlushChain(_) => var (objs, r) := NftEffect(c, h.nft); (h.(nft := objs), r)
    case NftDeleteChain(_) => var (objs, r) := NftEffect(c, h.nft); (h.(nft := objs), r)
    case _ => var (m, r) := IptEffect(c, h.mangle); (h.(mangle := m), r)
  }

  /** What becomes of one command: it takes effect and is reported as such, or it is reported as failed,
      having changed nothing or having been applied all the same. A file operation that fails changes
      nothing. */
  datatype Fate = Works | Fails(applied: bool)

  function After(fate: Fate, c: Command, h: Host): (Host, Result)
  {
    match fate
    case Works => Effect(c, h)
    case Fails(applied) => (if applied then Effect(c, h).0 else h, Failed)
  }

  ghost predicate WellFormed(h: Host)
  {
    Nft.WellFormed(h.nft) && Nft.OwnTableIsPlain(h.nft) && Ipt.WellFormed(h.mangle)
  }
}

/** The persisted record of an installation and what removing it means. */
module TunRecord {
  import opened TunHost
  import Nft = NftRuleset

  datatype Phase = Preparing | Active | Unrecorded

  datatype Record = Record(
    phase: Phase, instance: string, iface: string, gateway: string,
    table: string, privatePref: string, markPref: string,
    backend: string, nftTable: string)

  /** The record file: absent, present but unreadable, or holding a record. */
  datatype RecordFile = Missing | Unreadable | Present(record: Record)

  const NO_RECORD := Record(Unrecorded, "", "", "", "", "", "", "", "")

  const TABLE := "100"
  const PRIVATE_PREF := "100"
  const MARK_PREF := "200"
  const LEGACY_TABLE := "2022"
  const LEGACY_PRIVATE_PREF := "10010"
  const LEGACY_MARK_PREF := "10020"
  const MARK := "0x100"
  const MASK := "0x100"
  const NFT_BACKEND := "nft"
  const IPTABLES_BACKEND := "iptables-legacy"

  datatype Backend = NftBackend | IptablesLegacy

  function BackendName(b: Backend): string
  {
    match b case NftBackend => NFT_BACKEND case IptablesLegacy => IPTABLES_BACKEND
  }

  function NewRecord(iface: string, gateway: string, instance: string, b: Backend): Record
  {
    Record(Preparing, instance, iface, gateway, TABLE, PRIVATE_PREF, MARK_PREF, BackendName(b), Nft.TABLE)
  }

  predicate OwnsNftTable(r: Record)
  {
    r.backend == NFT_BACKEND && (r.nftTable == "" || r.nftTable == Nft.TABLE)
  }

  function Comment(r: Record): string
  {
    if r.instance == "" then "mihomo-tui" else "mihomo-tui:" + r.instance
  }

  /** The five policy rules for a routing table and two priorities. */
  function PolicyRules(table: string, privatePref: string, markPref: string): seq<Rule>
  {
    [ Rule(To("10.0.0.0/8"), "main", privatePref),
      Rule(To("172.16.0.0/12"), "main", privatePref),
      Rule(To("192.168.0.0/16"), "main", privatePref),
      Rule(To("100.64.0.0/10"), "main", privatePref),
      Rule(FwMark(MARK + "/" + MASK), table, markPref) ]
  }

  /** The four rules of the first release, without the carrier-grade NAT range and mask. */
  function LegacyPolicyRules(): seq<Rule>
  {
    [ Rule(To("10.0.0.0/8"), "main", LEGACY_PRIVATE_PREF),
      Rule(To("172.16.0.0/12"), "main", LEGACY_PRIVATE_PREF),
      Rule(To("192.168.0.0/16"), "main", LEGACY_PRIVATE_PREF),
      Rule(FwMark(MARK), LEGACY_TABLE, LEGACY_MARK_PREF) ]
  }

  function ProjectRules(): seq<Rule>
  {
    PolicyRules(TABLE, PRIVATE_PREF, MARK_PREF)
  }

  function DefaultRoute(iface: string, gateway: string, table: string): Route
  {
    Route("default", gateway, iface, table)
  }

  /** Which rules and which route a record describes; an incomplete record describes nothing
      and may not be acted on. */
  datatype Plan = Refuse | Plan(rules: seq<Rule>, routes: seq<Route>)

  /** The routing table and priorities a record stands for: a record of the first release
      left all three empty. */
  function RoutingValues(r: Record): (string, string, string)
  {
    if r.table == "" && r.privatePref == "" && r.markPref == ""
    then (LEGACY_TABLE, LEGACY_PRIVATE_PREF, LEGACY_MARK_PREF)
    else (r.table, r.privatePref, r.markPref)
  }

  function CleanupPlan(r: Record): Plan
  {
    if r.iface == "" && r.gateway == "" then Plan([], [])
    else if r.iface == "" || r.gateway == "" then Refuse
    else
      var (table, privatePref, markPref) := RoutingValues(r);
      if table == "" || privatePref == "" || markPref == "" then Refuse
      else
        Plan(
          if (table, privatePref, markPref) == (LEGACY_TABLE, LEGACY_PRIVATE_PREF, LEGACY_MARK_PREF)
          then LegacyPolicyRules()
          else PolicyRules(table, privatePref, markPref),
          [DefaultRoute(r.iface, r.gateway, table)])
  }

  /** What the controller works from after trying to read the file. */
  function Loaded(file: RecordFile): Record
  {
    if file.Present? then file.record else NO_RECORD
  }

  function PlanOf(file: RecordFile): Plan
  {
    if file.Unreadable? then Refuse else CleanupPlan(Loaded(file))
  }

  /** A record is acted on unless it has an interface without a gateway or the other way round, or only some of its
      table and priorities; without both interface and gateway it describes nothing. */
  lemma RefusedExactly(r: Record)
    ensures CleanupPlan(r).Refuse?
            <==>
            || (r.iface == "" <==> r.gateway != "")
            || (r.iface != "" && r.gateway != ""
                && (r.table == "" || r.privatePref == "" || r.markPref == "")
                && !(r.table == "" && r.privatePref == "" && r.markPref == ""))
    ensures r.iface == "" && r.gateway == "" ==> CleanupPlan(r) == Plan([], [])
    ensures r.iface != "" && r.gateway != "" && CleanupPlan(r).Plan? ==>
              CleanupPlan(r).routes == [Route("default", r.gateway, r.iface, if r.table == "" then "2022" else r.table)]
  {
    assert |LEGACY_TABLE| == 4 && |LEGACY_PRIVATE_PREF| == 5 && |LEGACY_MARK_PREF| == 5;
  }

  /** A record stands for a table of the project's if it is one of nft and names that table, or is too old to name
      one. */
  lemma OwnsExactly(r: Record)
    ensures OwnsNftTable(r) <==> r.backend == "nft" && r.nftTable in {"", "mihomo_tui"}
  {
  }

  /** The marker of an installation is its own: no other one has it, and a record without an instance none such. */
  lemma CommentsDiffer(r: Record, s: Record)
    ensures Comment(r) == Comment(s) <==> r.instance == s.instance
  {
    var prefix := "mihomo-tui:";
    assert |"mihomo-tui"| == 10 && |prefix| == 11;
    if r.instance != "" && s.instance != "" && Comment(r) == Comment(s) {
      assert Comment(r)[11..] == r.instance && Comment(s)[11..] == s.instance;
    }
  }

  /** A new record says what is going to be installed: the interface and gateway found, a phase before the active
      one, and the backend detected. */
  lemma NewRecordSays(iface: string, gateway: string, instance: string, b: Backend)
    ensures var r := NewRecord(iface, gateway, instance, b);
            && r.iface == iface && r.gateway == gateway && r.instance == instance && r.phase == Preparing
            && r.backend == (if b.NftBackend? then "nft" else "iptables-legacy")
            && r.table == "100" && r.privatePref == "100" && r.markPref == "200" && r.nftTable == "mihomo_tui"
            && (OwnsNftTable(r) <==> b.NftBackend?)
  {
    assert |"nft"| == 3 && |"iptables-legacy"| == 15;
  }

  /** A record written by this release describes exactly the five rules and the default route
      of the project's table. */
  lemma NewRecordPlan(r: Record)
    requires r.iface != "" && r.gateway != ""
    requires (r.table, r.privatePref, r.markPref) == (TABLE, PRIVATE_PREF, MARK_PREF)
    ensures CleanupPlan(r) == Plan(ProjectRules(), [DefaultRoute(r.iface, r.gateway, TABLE)])
  {
    assert |TABLE| == 3 && |LEGACY_TABLE| == 4;
  }
}
