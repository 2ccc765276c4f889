/** The nftables ruleset as `nft -j -a list ruleset` shows it: the JSON of rule
    expressions, the search for jumps into the project's legacy chains, and the
    removals the controller performs. */
module NftJson {

  const PREROUTING_CHAIN := "MIHOMO_TUI_PREROUTING"
  const OUTPUT_CHAIN := "MIHOMO_TUI_OUTPUT"
  const FORWARD_CHAIN := "MIHOMO_TUI_FORWARD"

  predicate IsProjectChain(chain: string)
  {
    chain == PREROUTING_CHAIN || chain == OUTPUT_CHAIN || chain == FORWARD_CHAIN
  }

  datatype Json =
    | Scalar
    | Str(text: string)
    | Arr(items: seq<Json>)
    | Obj(fields: seq<Field>)

  /** One key of a JSON object. The order of an object's fields stands for the
      (unspecified) order in which the program walks its decoded map. */
  datatype Field = Field(key: string, value: Json)

  /** The value stored under `key`, `Scalar` when there is none. */
  function Lookup(fields: seq<Field>, key: string): Json
  {
    if fields == [] then Scalar
    else if fields[0].key == key then fields[0].value
    else Lookup(fields[1..], key)
  }

  /** The project chain that this very field jumps or goes to, "" if none. */
  function JumpTarget(f: Field): string
  {
    if (f.key == "jump" || f.key == "goto") && f.value.Obj? then
      var target := Lookup(f.value.fields, "target");
      if target.Str? && IsProjectChain(target.text) then target.text else ""
    else ""
  }

  function FindProjectTarget(value: Json): string
    decreases value
  {
    match value
    case Obj(fields) => FindInFields(fields)
    case Arr(items) => FindInItems(items)
    case _ => ""
  }

  function FindInFields(fields: seq<Field>): string
    decreases fields
  {
    if fields == [] then ""
    else if JumpTarget(fields[0]) != "" then JumpTarget(fields[0])
    else
      var inner := FindProjectTarget(fields[0].value);
      if inner != "" then inner else FindInFields(fields[1..])
  }

  function FindInItems(items: seq<Json>): string
    decreases items
  {
    if items == [] then ""
    else
      var inner := FindProjectTarget(items[0]);
      if inner != "" then inner else FindInItems(items[1..])
  }

  /** The field occurs somewhere in the tree, at any depth. */
  ghost predicate Occurs(f: Field, value: Json)
    decreases value
  {
    match value
    case Obj(fields) => exists i: nat | i < |fields| :: f == fields[i] || Occurs(f, fields[i].value)
    case Arr(items) => exists i: nat | i < |items| :: Occurs(f, items[i])
    case _ => false
  }

  /** The field is a jump or a goto whose first target is the chain of this name, one of the project's three. */
  ghost predicate Refers(f: Field, name: string)
  {
    && (f.key == "jump" || f.key == "goto") && f.value.Obj?
    && (name == "MIHOMO_TUI_PREROUTING" || name == "MIHOMO_TUI_OUTPUT" || name == "MIHOMO_TUI_FORWARD")
    && exists k: nat | k < |f.value.fields| :: IsFirst(f.value.fields, k, "target") && f.value.fields[k].value == Str(name)
  }

  ghost predicate IsFirst(fields: seq<Field>, k: nat, key: string)
    requires k < |fields|
  {
    fields[k].key == key && forall j | 0 <= j < k :: fields[j].key != key
  }

  /** The tree holds, at some depth, a jump or goto to this project chain. */
  ghost predicate RefersWithin(value: Json, name: string)
  {
    exists f :: Occurs(f, value) && Refers(f, name)
  }

  lemma {:induction false} LookupIsFirst(fields: seq<Field>, key: string)
    ensures if exists k: nat | k < |fields| :: fields[k].key == key
            then exists k: nat | k < |fields| :: IsFirst(fields, k, key) && Lookup(fields, key) == fields[k].value
            else Lookup(fields, key) == Scalar
  {
    if fields != [] && fields[0].key != key {
      LookupIsFirst(fields[1..], key);
      if k: nat :| k < |fields[1..]| && IsFirst(fields[1..], k, key) {
        assert forall j | 0 < j < k + 1 :: fields[j] == fields[1..][j - 1];
        assert IsFirst(fields, k + 1, key);
      }
    } else if fields != [] {
      assert IsFirst(fields, 0, key);
    }
  }

  lemma FirstIsUnique(fields: seq<Field>, i: nat, j: nat, key: string)
    requires i < |fields| && j < |fields| && IsFirst(fields, i, key) && IsFirst(fields, j, key)
    ensures i == j
  {
  }

  lemma JumpTargetRefers(f: Field, name: string)
    requires name != ""
    ensures JumpTarget(f) == name <==> Refers(f, name)
  {
    if f.value.Obj? {
      var fields := f.value.fields;
      LookupIsFirst(fields, "target");
      if Refers(f, name) {
        var k: nat :| k < |fields| && IsFirst(fields, k, "target") && fields[k].value == Str(name);
        forall j: nat | j < |fields| && IsFirst(fields, j, "target")
          ensures j == k
        {
          FirstIsUnique(fields, j, k, "target");
        }
      }
    }
  }

  /** The search answers exactly when the tree holds such a jump, and then with the target of one; the reference
      definition does not mention the order of fields. */
  lemma FindIsExact(value: Json)
    ensures FindProjectTarget(value) != "" <==> exists name :: RefersWithin(value, name)
    ensures FindProjectTarget(value) != "" ==> RefersWithin(value, FindProjectTarget(value))
  {
    hide JumpTarget, Refers;
    FindMeets(value);
    forall name | RefersWithin(value, name)
      ensures Target(value, name)
    {
      var f :| Occurs(f, value) && Refers(f, name);
      RefersNotEmpty(f, name);
      JumpTargetRefers(f, name);
    }
    if FindProjectTarget(value) != "" {
      var f :| Occurs(f, value) && JumpTarget(f) == FindProjectTarget(value);
      JumpTargetRefers(f, FindProjectTarget(value));
      assert RefersWithin(value, FindProjectTarget(value));
    }
    if name :| RefersWithin(value, name) {
      assert Target(value, name);
    }
  }

  lemma RefersNotEmpty(f: Field, name: string)
    requires Refers(f, name)
    ensures name != ""
  {
    assert |"MIHOMO_TUI_PREROUTING"| == 21 && |"MIHOMO_TUI_OUTPUT"| == 17 && |"MIHOMO_TUI_FORWARD"| == 18;
  }

  ghost predicate Target(value: Json, name: string)
  {
    exists f :: Occurs(f, value) && JumpTarget(f) == name != ""
  }

  /** Field by field, the search answers with the target of some field, if any has one. */
  lemma {:induction false} FindMeets(value: Json)
    ensures (exists name :: Target(value, name)) ==> FindProjectTarget(value) != ""
    ensures FindProjectTarget(value) != "" ==> Target(value, FindProjectTarget(value))
    decreases value
  {
    hide JumpTarget;
    match value
    case Obj(fields) =>
      FindInFieldsMeets(value, 0);
      assert fields[0..] == fields;
      assert forall name | Target(value, name) :: FieldsTarget(fields, 0, name);
    case Arr(items) =>
      FindInItemsMeets(value, 0);
      assert items[0..] == items;
      assert forall name | Target(value, name) :: ItemsTarget(items, 0, name);
    case _ =>
  }

  ghost predicate FieldsTarget(fields: seq<Field>, from: nat, name: string)
  {
    exists f, i: nat :: from <= i < |fields| && JumpTarget(f) == name != "" && (f == fields[i] || Occurs(f, fields[i].value))
  }

  ghost predicate ItemsTarget(items: seq<Json>, from: nat, name: string)
  {
    exists f, i: nat :: from <= i < |items| && JumpTarget(f) == name != "" && Occurs(f, items[i])
  }

  lemma {:induction false} FindInFieldsMeets(value: Json, from: nat)
    requires value.Obj? && from <= |value.fields|
    ensures (exists name :: FieldsTarget(value.fields, from, name)) ==> FindInFields(value.fields[from..]) != ""
    ensures FindInFields(value.fields[from..]) != "" ==>
              FieldsTarget(value.fields, from, FindInFields(value.fields[from..]))
    decreases value, |value.fields| - from
  {
    hide JumpTarget;
    if from < |value.fields| {
      var rest := value.fields[from..];
      assert rest[1..] == value.fields[from + 1..];
      var first := value.fields[from];
      assert rest[0] == first;
      FindMeets(first.value);
      FindInFieldsMeets(value, from + 1);
      forall name | FieldsTarget(value.fields, from, name)
        ensures JumpTarget(first) != "" || Target(first.value, name) || FieldsTarget(value.fields, from + 1, name)
      {
        var f, i: nat :| from <= i < |value.fields| && JumpTarget(f) == name
                         && (f == value.fields[i] || Occurs(f, value.fields[i].value));
      }
    }
  }

  lemma {:induction false} FindInItemsMeets(value: Json, from: nat)
    requires value.Arr? && from <= |value.items|
    ensures (exists name :: ItemsTarget(value.items, from, name)) ==> FindInItems(value.items[from..]) != ""
    ensures FindInItems(value.items[from..]) != "" ==>
              ItemsTarget(value.items, from, FindInItems(value.items[from..]))
    decreases value, |value.items| - from
  {
    hide JumpTarget;
    if from < |value.items| {
      var rest := value.items[from..];
      assert rest[1..] == value.items[from + 1..];
      FindMeets(value.items[from]);
      FindInItemsMeets(value, from + 1);
      forall name | ItemsTarget(value.items, from, name)
        ensures Target(value.items[from], name) || ItemsTarget(value.items, from + 1, name)
      {
        var f, i: nat :| from <= i < |value.items| && JumpTarget(f) == name && Occurs(f, value.items[i]);
      }
    }
  }
}

module NftRuleset {
  import opened NftJson

  const FAMILY := "ip"
  const TABLE := "mihomo_tui"

  datatype ChainLoc = ChainLoc(family: string, table: string, chain: string)

  /** One entry of the ruleset listing, in listing order. `MapObject` is a named verdict map, with the
      chains its elements jump or go to. */
  datatype Object =
    | TableObject(family: string, table: string)
    | ChainObject(loc: ChainLoc)
    | RuleObject(loc: ChainLoc, handle: nat, expr: seq<Json>, comment: string)
    | MapObject(family: string, table: string, name: string, targets: set<string>)

  const OWN_TABLE := TableObject(FAMILY, TABLE)

  predicate InOwnTable(o: Object)
  {
    match o
    case TableObject(family, table) => family == FAMILY && table == TABLE
    case ChainObject(loc) => loc.family == FAMILY && loc.table == TABLE
    case RuleObject(loc, _, _, _) => loc.family == FAMILY && loc.table == TABLE
    case MapObject(family, table, _, _) => family == FAMILY && table == TABLE
  }

  /** Some expression of the rule jumps or goes to a project chain. */
  predicate HasProjectTarget(expr: seq<Json>)
  {
    exists i | 0 <= i < |expr| :: FindProjectTarget(expr[i]) != ""
  }

  /** A rule anywhere that refers to a project chain and can be addressed by handle. */
  predicate IsReference(o: Object)
  {
    o.RuleObject? && o.handle > 0 && HasProjectTarget(o.expr)
  }

  predicate IsProjectChainObject(o: Object)
  {
    o.ChainObject? && IsProjectChain(o.loc.chain)
  }

  /** An element of the map keeps the chain in use. */
  predicate Holds(o: Object, loc: ChainLoc)
  {
    o.MapObject? && o.family == loc.family && o.table == loc.table && loc.chain in o.targets
  }

  predicate HoldsProjectChain(o: Object)
  {
    o.MapObject? && exists t | t in o.targets :: IsProjectChain(t)
  }

  /** Some verdict map keeps a project chain in use; the program does not look into maps. */
  predicate Held(objs: seq<Object>)
  {
    exists o | o in objs :: HoldsProjectChain(o)
  }

  /** What the migration of the old installation removes. */
  predicate IsArtifact(o: Object)
  {
    || IsReference(o)
    || IsProjectChainObject(o)
    || (o.RuleObject? && IsProjectChain(o.loc.chain))
  }

  /** The project's three old chains, the rules in them, and the rules anywhere that refer to one. */
  lemma ArtifactsExactly(o: Object)
    ensures IsArtifact(o)
            <==>
            || (o.ChainObject?
                && o.loc.chain in {"MIHOMO_TUI_PREROUTING", "MIHOMO_TUI_OUTPUT", "MIHOMO_TUI_FORWARD"})
            || (o.RuleObject?
                && (|| o.loc.chain in {"MIHOMO_TUI_PREROUTING", "MIHOMO_TUI_OUTPUT", "MIHOMO_TUI_FORWARD"}
                    || (o.handle > 0 && exists i, name | 0 <= i < |o.expr| :: RefersWithin(o.expr[i], name))))
  {
    hide FindProjectTarget, RefersWithin;
    if o.RuleObject? {
      forall i | 0 <= i < |o.expr|
        ensures FindProjectTarget(o.expr[i]) != "" <==> exists name :: RefersWithin(o.expr[i], name)
      {
        FindIsExact(o.expr[i]);
      }
    }
  }

  /** The removals the controller asks of nft, and the overall effect of a migration. */
  datatype Removal =
    | WholeOwnTable
    | RuleAt(loc: ChainLoc, handle: nat)
    | RulesIn(loc: ChainLoc)
    | ChainAt(loc: ChainLoc)
    | AllArtifacts

  predicate Hits(r: Removal, o: Object)
  {
    match r
    case WholeOwnTable => InOwnTable(o)
    case RuleAt(loc, handle) => o.RuleObject? && o.loc == loc && o.handle == handle
    case RulesIn(loc) => o.RuleObject? && o.loc == loc
    case ChainAt(loc) => o == ChainObject(loc)
    case AllArtifacts => IsArtifact(o)
  }

  function Drop(objs: seq<Object>, r: Removal): (kept: seq<Object>)
    ensures forall o :: o in kept <==> o in objs && !Hits(r, o)
  {
    if objs == [] then []
    else (if Hits(r, objs[0]) then [] else [objs[0]]) + Drop(objs[1..], r)
  }

  lemma {:induction false} DropAppend(a: seq<Object>, b: seq<Object>, r: Removal)
    ensures Drop(a + b, r) == Drop(a, r) + Drop(b, r)
  {
    if a == [] {
      assert a + b == b;
    } else {
      assert (a + b)[1..] == a[1..] + b;
      DropAppend(a[1..], b, r);
    }
  }

  lemma {:induction false} DropNothing(objs: seq<Object>, r: Removal)
    requires forall o :: o in objs ==> !Hits(r, o)
    ensures Drop(objs, r) == objs
  {
    if objs != [] {
      DropNothing(objs[1..], r);
    }
  }

  lemma {:induction false} DropEverything(objs: seq<Object>, r: Removal)
    requires forall o :: o in objs ==> Hits(r, o)
    ensures Drop(objs, r) == []
  {
    if objs != [] {
      DropEverything(objs[1..], r);
    }
  }

  /** A removal already covered by a later one makes no difference to it. */
  lemma {:induction false} DropCovered(objs: seq<Object>, small: Removal, large: Removal)
    requires forall o :: o in objs && Hits(small, o) ==> Hits(large, o)
    ensures Drop(Drop(objs, small), large) == Drop(objs, large)
  {
    if objs != [] {
      var head := if Hits(small, objs[0]) then [] else [objs[0]];
      DropCovered(objs[1..], small, large);
      DropAppend(head, Drop(objs[1..], small), large);
      assert Drop([objs[0]], large) == if Hits(large, objs[0]) then [] else [objs[0]];
    }
  }

  lemma {:induction false} DropCommutes(objs: seq<Object>, a: Removal, b: Removal)
    ensures Drop(Drop(objs, a), b) == Drop(Drop(objs, b), a)
  {
    if objs != [] {
      var x, rest := objs[0], objs[1..];
      DropCommutes(rest, a, b);
      DropAppend(if Hits(a, x) then [] else [x], Drop(rest, a), b);
      DropAppend(if Hits(b, x) then [] else [x], Drop(rest, b), a);
      assert Drop([x], a) == if Hits(a, x) then [] else [x];
      assert Drop([x], b) == if Hits(b, x) then [] else [x];
    }
  }

  ghost predicate SameAddress(o: Object, p: Object)
  {
    o.RuleObject? && p.RuleObject? && o.loc == p.loc && o.handle == p.handle
  }

  /** What the kernel guarantees of any ruleset: chains and maps live in existing tables, rules in
      existing chains, maps refer to existing chains of their table, and a handle addresses one rule
      of its chain. */
  ghost predicate WellFormed(objs: seq<Object>)
  {
    && (forall o :: o in objs && o.RuleObject? ==> o.handle > 0 && ChainObject(o.loc) in objs)
    && (forall o :: o in objs && o.ChainObject? ==> TableObject(o.loc.family, o.loc.table) in objs)
    && (forall o, p | o in objs && p in objs && SameAddress(o, p) :: o == p)
    && (forall o | o in objs && o.MapObject? :: MapWellFormed(o, objs))
  }

  ghost predicate MapWellFormed(o: Object, objs: seq<Object>)
    requires o.MapObject?
  {
    && TableObject(o.family, o.table) in objs
    && forall t | t in o.targets :: ChainObject(ChainLoc(o.family, o.table, t)) in objs
  }

  lemma DropKeepsWellFormed(objs: seq<Object>, r: Removal)
    requires WellFormed(objs)
    requires !r.AllArtifacts?
    requires r.ChainAt? ==> forall o :: o in objs ==> (o.RuleObject? ==> o.loc != r.loc) && !Holds(o, r.loc)
    ensures WellFormed(Drop(objs, r))
  {
    hide IsArtifact;
    forall o | o in Drop(objs, r) && o.MapObject?
      ensures MapWellFormed(o, Drop(objs, r))
    {
      assert MapWellFormed(o, objs);
    }
  }

  function MaxHandle(objs: seq<Object>): (m: nat)
    ensures forall o :: o in objs && o.RuleObject? ==> o.handle <= m
  {
    if objs == [] then 0
    else
      var m := MaxHandle(objs[1..]);
      if objs[0].RuleObject? && objs[0].handle > m then objs[0].handle else m
  }

  function OwnChain(name: string): ChainLoc
  {
    ChainLoc(FAMILY, TABLE, name)
  }

  const MARK_NEW := ["ct", "state", "new", "ct", "mark", "set", "ct", "mark", "|", "0x100"]
  const RESTORE_MARK :=
    ["ct", "state", "established,related", "ct", "mark", "&", "0x100", "!=", "0",
     "meta", "mark", "set", "meta", "mark", "|", "0x100"]

  /** A rule of the script, word by word. */
  function Words(words: seq<string>): (expr: seq<Json>)
    ensures |expr| == |words| && forall i | 0 <= i < |words| :: expr[i] == Str(words[i])
  {
    seq(|words|, i requires 0 <= i < |words| => Str(words[i]))
  }

  /** The four rules of the project table, all carrying the installation's comment. */
  function ScriptRules(iface: string, comment: string, h: nat): seq<Object>
  {
    [ RuleObject(OwnChain("prerouting"), h + 1, Words(["iifname", iface] + MARK_NEW), comment),
      RuleObject(OwnChain("prerouting"), h + 2, Words(RESTORE_MARK), comment),
      RuleObject(OwnChain("output"), h + 3, Words(RESTORE_MARK), comment),
      RuleObject(OwnChain("forward"), h + 4, Words(RESTORE_MARK), comment) ]
  }

  function IfAbsent(objs: seq<Object>, o: Object): seq<Object>
  {
    if o in objs then [] else [o]
  }

  /** What the install script appends: adding a table or chain that exists is a no-op,
      adding a rule always appends. */
  function Added(objs: seq<Object>, iface: string, comment: string): seq<Object>
  {
    IfAbsent(objs, OWN_TABLE)
    + IfAbsent(objs, ChainObject(OwnChain("prerouting")))
    + IfAbsent(objs, ChainObject(OwnChain("output")))
    + IfAbsent(objs, ChainObject(OwnChain("forward")))
    + ScriptRules(iface, comment, MaxHandle(objs))
  }

  /** `nft -f -` on the install script: one atomic transaction. */
  function RunScript(objs: seq<Object>, iface: string, comment: string): seq<Object>
  {
    objs + Added(objs, iface, comment)
  }

  ghost predicate NoOwnTable(objs: seq<Object>)
  {
    forall o :: o in objs ==> !InOwnTable(o)
  }

  /** The project's own table holds no legacy chain and no jump to one. */
  ghost predicate OwnTableIsPlain(objs: seq<Object>)
  {
    forall o | o in objs && InOwnTable(o) :: !IsArtifact(o)
  }

  predicate HasMarker(objs: seq<Object>, comment: string)
  {
    exists o | o in objs :: o.RuleObject? && InOwnTable(o) && o.comment == comment
  }

  /** Membership in the appended part, one case per script line. */
  lemma AddedCases(objs: seq<Object>, iface: string, comment: string, o: Object)
    requires o in Added(objs, iface, comment)
    ensures || o == OWN_TABLE
            || o == ChainObject(OwnChain("prerouting"))
            || o == ChainObject(OwnChain("output"))
            || o == ChainObject(OwnChain("forward"))
            || o in ScriptRules(iface, comment, MaxHandle(objs))
  {
  }

  lemma OwnChainIsNotProjectChain()
    ensures !IsProjectChain("prerouting") && !IsProjectChain("output") && !IsProjectChain("forward")
  {
    assert |PREROUTING_CHAIN| == 21 && |OUTPUT_CHAIN| == 17 && |FORWARD_CHAIN| == 18;
    assert |"prerouting"| == 10 && |"output"| == 6 && |"forward"| == 7;
  }

  lemma AddedIsOwn(objs: seq<Object>, iface: string, comment: string, o: Object)
    requires o in Added(objs, iface, comment)
    ensures InOwnTable(o) && !IsArtifact(o)
  {
    AddedCases(objs, iface, comment, o);
    OwnChainIsNotProjectChain();
    if o in ScriptRules(iface, comment, MaxHandle(objs)) {
      assert forall i | 0 <= i < |o.expr| :: o.expr[i].Str?;
    }
  }

  lemma AddedIsPlain(objs: seq<Object>, iface: string, comment: string)
    requires OwnTableIsPlain(objs)
    ensures OwnTableIsPlain(RunScript(objs, iface, comment))
  {
    forall o | o in Added(objs, iface, comment)
      ensures !IsArtifact(o)
    {
      AddedIsOwn(objs, iface, comment, o);
    }
  }

  lemma AddedAddressesDiffer(objs: seq<Object>, iface: string, comment: string)
    requires WellFormed(objs)
    ensures forall o, p | o in RunScript(objs, iface, comment) && p in RunScript(objs, iface, comment) && SameAddress(o, p) :: o == p
  {
    var added, next := Added(objs, iface, comment), RunScript(objs, iface, comment);
    var m := MaxHandle(objs);
    var rules := ScriptRules(iface, comment, m);
    forall o | o in added
      ensures o.RuleObject? ==> o in rules && o.handle > m
    {
      AddedCases(objs, iface, comment, o);
    }
    forall o, p | o in next && p in next && SameAddress(o, p)
      ensures o == p
    {
      if o in objs && p in objs {
      } else if o !in objs && p !in objs {
        assert o in rules && p in rules;
      }
    }
  }

  lemma AddedIsWellFormed(objs: seq<Object>, iface: string, comment: string)
    requires WellFormed(objs)
    ensures WellFormed(RunScript(objs, iface, comment))
  {
    var added, next := Added(objs, iface, comment), RunScript(objs, iface, comment);
    var m := MaxHandle(objs);
    var rules := ScriptRules(iface, comment, m);
    assert OWN_TABLE in next;
    assert ChainObject(OwnChain("prerouting")) in next;
    assert ChainObject(OwnChain("output")) in next;
    assert ChainObject(OwnChain("forward")) in next;
    forall o | o in added
      ensures o.RuleObject? ==> o in rules && o.handle > m && ChainObject(o.loc) in next
      ensures o.ChainObject? ==> TableObject(o.loc.family, o.loc.table) in next
    {
      AddedCases(objs, iface, comment, o);
    }
    AddedAddressesDiffer(objs, iface, comment);
    forall o | o in next && o.MapObject?
      ensures o in objs && MapWellFormed(o, next)
    {
      if o in added {
        AddedCases(objs, iface, comment, o);
      }
      assert MapWellFormed(o, objs);
    }
  }

  /** The script adds no map. */
  lemma AddedHoldsNothing(objs: seq<Object>, iface: string, comment: string)
    ensures Held(RunScript(objs, iface, comment)) <==> Held(objs)
  {
    forall o | o in Added(objs, iface, comment)
      ensures !HoldsProjectChain(o)
    {
      AddedCases(objs, iface, comment, o);
    }
  }

  lemma AddedIsMarked(objs: seq<Object>, iface: string, comment: string)
    ensures OWN_TABLE in RunScript(objs, iface, comment) && HasMarker(RunScript(objs, iface, comment), comment)
  {
    hide MARK_NEW, RESTORE_MARK, Words;
    var rule := ScriptRules(iface, comment, MaxHandle(objs))[0];
    assert rule in Added(objs, iface, comment);
    assert rule in RunScript(objs, iface, comment) && InOwnTable(rule);
  }

  /** The script puts the marked table in place and touches nothing else: deleting the
      table gives what deleting it before would have given. */
  lemma RunScriptAddsOwnTable(objs: seq<Object>, iface: string, comment: string)
    ensures var next := RunScript(objs, iface, comment);
            && OWN_TABLE in next
            && HasMarker(next, comment)
            && Drop(next, WholeOwnTable) == Drop(objs, WholeOwnTable)
            && Drop(next, AllArtifacts) == Drop(objs, AllArtifacts) + Added(objs, iface, comment)
  {
    hide Added, ScriptRules, IsArtifact, HasMarker;
    var added := Added(objs, iface, comment);
    forall o | o in added
      ensures InOwnTable(o) && !IsArtifact(o)
    {
      AddedIsOwn(objs, iface, comment, o);
    }
    DropAppend(objs, added, WholeOwnTable);
    DropEverything(added, WholeOwnTable);
    DropAppend(objs, added, AllArtifacts);
    DropNothing(added, AllArtifacts);
    AddedIsMarked(objs, iface, comment);
  }
}
