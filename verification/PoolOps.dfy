/** Removing a subscription, moving members between pools, and collapsing the pools into one:
    what each makes of the configuration, and that it stays valid. */
module PoolOps {
  import opened ConfigModel
  import opened Text

  function Without(members: seq<string>, drop: set<string>): (kept: seq<string>)
    ensures forall id :: id in kept <==> id in members && id !in drop
  {
    if members == [] then []
    else (if members[0] in drop then [] else [members[0]]) + Without(members[1..], drop)
  }

  lemma {:induction false} WithoutKeepsDistinct(members: seq<string>, drop: set<string>)
    requires Distinct(members)
    ensures Distinct(Without(members, drop))
  {
    if members != [] {
      assert Distinct(members[1..]);
      WithoutKeepsDistinct(members[1..], drop);
      assert members[0] !in members[1..];
    }
  }

  /** Where the k-th kept member comes from: the order, which is the order of failing over, stays. */
  lemma {:induction false} WithoutKeepsOrder(members: seq<string>, drop: set<string>) returns (origin: seq<nat>)
    ensures |origin| == |Without(members, drop)|
    ensures forall k | 0 <= k < |origin| :: origin[k] < |members| && Without(members, drop)[k] == members[origin[k]]
    ensures forall j, k | 0 <= j < k < |origin| :: origin[j] < origin[k]
  {
    if members == [] {
      return [];
    }
    var rest := WithoutKeepsOrder(members[1..], drop);
    origin := (if members[0] in drop then [] else [0]) + seq(|rest|, k requires 0 <= k < |rest| => rest[k] + 1);
  }

  /** The first member that stays. */
  ghost predicate IsFirstLeft(id: string, members: seq<string>, drop: set<string>)
  {
    exists k: nat :: k < |members| && members[k] == id && id !in drop && forall j | 0 <= j < k :: members[j] in drop
  }

  lemma {:induction false} FirstIsFirstLeft(members: seq<string>, drop: set<string>)
    ensures Without(members, drop) != [] ==> IsFirstLeft(Without(members, drop)[0], members, drop)
  {
    if members != [] && members[0] in drop {
      FirstIsFirstLeft(members[1..], drop);
      if Without(members[1..], drop) != [] {
        var id := Without(members[1..], drop)[0];
        var k: nat :| k < |members[1..]| && members[1..][k] == id && id !in drop
                      && forall j | 0 <= j < k :: members[1..][j] in drop;
        assert forall j | 0 < j < k + 1 :: members[j] == members[1..][j - 1];
        assert members[k + 1] == id;
      }
    }
  }

  // ---- RemoveSubscription ----

  function RemoveFromPool(p: Pool, id: string): Pool
  {
    var members := Without(p.members, {id});
    var active := if p.activeMember == id then (if members != [] then members[0] else "") else p.activeMember;
    p.(members := members, activeMember := active,
       enabled := p.enabled && members != [], degraded := p.degraded || members == [])
  }

  function RemoveFromPools(pools: seq<Pool>, id: string): seq<Pool>
  {
    seq(|pools|, i requires 0 <= i < |pools| => RemoveFromPool(pools[i], id))
  }

  function RemoveAt<T>(subs: seq<T>, idx: nat): (rest: seq<T>)
    requires idx < |subs|
    ensures |rest| == |subs| - 1
  {
    subs[..idx] + subs[idx + 1..]
  }

  /** The active index after subscription `idx` is gone and `left` remain. */
  function ActiveAfterRemoval(active: int, idx: nat, left: nat): int
  {
    if left == 0 then -1
    else if active == idx then (if idx >= left then left - 1 else idx)
    else if active > idx then active - 1
    else if active >= left then left - 1
    else active
  }

  datatype Outcome = Changed(config: Config) | NotFound | Refused

  function RemoveSubscription(c: Config, name: string): Outcome
  {
    var idx := FindByName(c.subscriptions, name);
    if idx < 0 then NotFound
    else
      var subs := RemoveAt(c.subscriptions, idx);
      Changed(c.(pools := RemoveFromPools(c.pools, c.subscriptions[idx].id),
                 subscriptions := subs,
                 active := ActiveAfterRemoval(c.active, idx, |subs|)))
  }

  lemma RemovedSubscriptionsOk(subs: seq<Subscription>, idx: nat)
    requires SubscriptionsOk(subs) && idx < |subs|
    ensures SubscriptionsOk(RemoveAt(subs, idx))
    ensures forall id :: FindById(subs, id) >= 0 && id != subs[idx].id ==> FindById(RemoveAt(subs, idx), id) >= 0
  {
    var rest := RemoveAt(subs, idx);
    forall id | FindById(subs, id) >= 0 && id != subs[idx].id
      ensures FindById(rest, id) >= 0
    {
      var j := FindById(subs, id);
      assert rest[if j < idx then j else j - 1] == subs[j];
    }
  }

  lemma RemovedPoolOk(p: Pool, subs: seq<Subscription>, rest: seq<Subscription>, id: string)
    requires PoolOk(p, subs)
    requires forall m :: FindById(subs, m) >= 0 && m != id ==> FindById(rest, m) >= 0
    ensures PoolOk(RemoveFromPool(p, id), rest)
  {
    hide Blank;
    WithoutKeepsDistinct(p.members, {id});
  }

  /** Deleting a subscription keeps a valid configuration valid. */
  lemma RemovalKeepsValid(c: Config, name: string)
    requires Valid(c) && RemoveSubscription(c, name).Changed?
    ensures Valid(RemoveSubscription(c, name).config)
  {
    hide PoolOk, SettingsOk, ProvidersOk, BuiltInsOk, IsMatchRule;
    var idx := FindByName(c.subscriptions, name);
    var id, rest := c.subscriptions[idx].id, RemoveAt(c.subscriptions, idx);
    RemovedSubscriptionsOk(c.subscriptions, idx);
    var pools := RemoveFromPools(c.pools, id);
    forall i | 0 <= i < |pools|
      ensures PoolOk(pools[i], rest)
    {
      RemovedPoolOk(c.pools[i], c.subscriptions, rest, id);
    }
    forall i, j | 0 <= i < j < |pools|
      ensures Disjoint(pools[i], pools[j])
    {
      assert Disjoint(c.pools[i], c.pools[j]);
    }
  }

  /** Nothing of the removed subscription stays behind. */
  lemma RemovalErases(c: Config, name: string)
    requires Valid(c) && RemoveSubscription(c, name).Changed?
    ensures var next, id := RemoveSubscription(c, name).config, c.subscriptions[FindByName(c.subscriptions, name)].id;
            && FindById(next.subscriptions, id) < 0
            && forall p | p in next.pools :: id !in p.members && p.activeMember != id
  {
    hide SettingsOk, ProvidersOk, BuiltInsOk, IsMatchRule, PoolsOk;
    var idx := FindByName(c.subscriptions, name);
    var next := RemoveSubscription(c, name).config;
    var id, rest := c.subscriptions[idx].id, next.subscriptions;
    assert id != "" by { assert SubscriptionOk(c.subscriptions[idx]); }
    forall j | 0 <= j < |rest|
      ensures rest[j].id != id
    {
      assert rest[j] == c.subscriptions[if j < idx then j else j + 1];
    }
    forall p | p in next.pools
      ensures id !in p.members && p.activeMember != id
    {
      var i :| 0 <= i < |next.pools| && next.pools[i] == p;
      assert p == RemoveFromPool(c.pools[i], id);
    }
  }

  /** What the removal makes of each pool: the active place passes to the first member left, and a pool that is
      emptied by it is disabled and degraded; anything else of any pool stays. */
  lemma RemovalPassesOn(p: Pool, id: string)
    ensures var q := RemoveFromPool(p, id);
            && q == p.(members := q.members, activeMember := q.activeMember, enabled := q.enabled, degraded := q.degraded)
            && (forall m :: m in q.members <==> m in p.members && m != id)
            && (p.activeMember != id ==> q.activeMember == p.activeMember)
            && (p.activeMember == id ==> if q.members == [] then q.activeMember == ""
                                         else IsFirstLeft(q.activeMember, p.members, {id}))
            && (q.enabled <==> p.enabled && q.members != [])
            && (q.degraded <==> p.degraded || q.members == [])
  {
    FirstIsFirstLeft(p.members, {id});
  }

  /** The active subscription is the same one as before unless it is the one removed; then its
      successor, or the new last one, takes over. */
  lemma RemovalKeepsActive(c: Config, name: string)
    requires -1 <= c.active < |c.subscriptions| && RemoveSubscription(c, name).Changed?
    ensures var next, idx := RemoveSubscription(c, name).config, FindByName(c.subscriptions, name);
            && (c.active == -1 ==> next.active == -1)
            && (c.active >= 0 && c.active != idx ==>
                  next.active >= 0 && next.subscriptions[next.active] == c.subscriptions[c.active])
            && (c.active == idx && idx + 1 < |c.subscriptions| ==>
                  next.subscriptions[next.active] == c.subscriptions[idx + 1])
            && (c.active == idx && idx + 1 == |c.subscriptions| ==> next.active == |next.subscriptions| - 1)
  {
    hide RemoveFromPools;
  }

  // ---- assignPoolMembers ----

  function TakeFromPool(p: Pool, wanted: set<string>): Pool
  {
    var members := Without(p.members, wanted);
    if p.activeMember !in wanted then p.(members := members)
    else if members != [] then p.(members := members, activeMember := members[0])
    else p.(members := members, activeMember := "", enabled := false, degraded := true)
  }

  function AssignedPool(pools: seq<Pool>, i: nat, target: nat, wanted: set<string>): Pool
    requires i < |pools|
  {
    if i == target then pools[i] else TakeFromPool(pools[i], wanted)
  }

  function AssignMembers(pools: seq<Pool>, target: nat, wanted: set<string>): seq<Pool>
  {
    seq(|pools|, i requires 0 <= i < |pools| => AssignedPool(pools, i, target, wanted))
  }

  ghost predicate AllWanted(p: Pool, wanted: set<string>)
  {
    forall id | id in p.members :: id in wanted
  }

  /** An enabled pool that names no active member and is about to lose all of its members. */
  ghost predicate LeftEnabledAndEmpty(p: Pool, wanted: set<string>)
  {
    p.enabled && p.activeMember == "" && AllWanted(p, wanted)
  }

  lemma {:induction false} WithoutAll(members: seq<string>, drop: set<string>)
    ensures Without(members, drop) == [] <==> forall id | id in members :: id in drop
  {
    if members != [] {
      WithoutAll(members[1..], drop);
      assert forall id :: id in members <==> id == members[0] || id in members[1..];
    }
  }

  lemma TakenPoolOk(p: Pool, subs: seq<Subscription>, wanted: set<string>)
    requires PoolOk(p, subs) && "" !in wanted
    ensures PoolOk(TakeFromPool(p, wanted), subs) <==> !LeftEnabledAndEmpty(p, wanted)
  {
    hide Blank;
    WithoutKeepsDistinct(p.members, wanted);
    WithoutAll(p.members, wanted);
  }

  /** Moving the target's members out of all other pools gives valid pools exactly if no other
      enabled pool without an active member is emptied by it. */
  lemma AssignmentValidExactly(pools: seq<Pool>, target: nat, subs: seq<Subscription>)
    requires target < |pools| && SubscriptionsOk(subs)
    requires forall i | 0 <= i < |pools| :: PoolOk(pools[i], subs)
    requires forall i, j | 0 <= i < j < |pools| :: pools[i].id != pools[j].id
    requires forall i, j | 0 <= i < j < |pools| && i != target && j != target :: Disjoint(pools[i], pools[j])
    ensures var wanted := set id | id in pools[target].members;
            PoolsOk(AssignMembers(pools, target, wanted), subs)
            <==> forall i | 0 <= i < |pools| && i != target :: !LeftEnabledAndEmpty(pools[i], wanted)
  {
    var wanted := set id | id in pools[target].members;
    var next := AssignMembers(pools, target, wanted);
    NoBlankMember(pools[target], subs);
    forall i | 0 <= i < |pools|
      ensures PoolOk(next[i], subs) <==> i == target || !LeftEnabledAndEmpty(pools[i], wanted)
    {
      if i != target {
        TakenPoolOk(pools[i], subs, wanted);
      }
    }
    AssignedDisjoint(pools, target);
    AssignedKeepsIds(pools, target, wanted);
    hide PoolOk, LeftEnabledAndEmpty, Disjoint, TakeFromPool;
    if PoolsOk(next, subs) {
      forall i | 0 <= i < |pools| && i != target
        ensures !LeftEnabledAndEmpty(pools[i], wanted)
      {
        assert PoolOk(next[i], subs);
      }
    }
  }

  lemma NoBlankMember(p: Pool, subs: seq<Subscription>)
    requires SubscriptionsOk(subs) && PoolOk(p, subs)
    ensures "" !in p.members
  {
    assert forall i | 0 <= i < |subs| :: SubscriptionOk(subs[i]);
    assert FindById(subs, "") < 0;
  }

  lemma AssignedKeepsIds(pools: seq<Pool>, target: nat, wanted: set<string>)
    ensures forall i | 0 <= i < |pools| :: AssignMembers(pools, target, wanted)[i].id == pools[i].id
  {
  }

  lemma AssignedDisjoint(pools: seq<Pool>, target: nat)
    requires target < |pools|
    requires forall i, j | 0 <= i < j < |pools| && i != target && j != target :: Disjoint(pools[i], pools[j])
    ensures var next := AssignMembers(pools, target, set id | id in pools[target].members);
            forall i, j | 0 <= i < j < |pools| :: Disjoint(next[i], next[j])
  {
    var next := AssignMembers(pools, target, set id | id in pools[target].members);
    forall i, j | 0 <= i < j < |pools|
      ensures Disjoint(next[i], next[j])
    {
      if i != target && j != target {
        assert Disjoint(pools[i], pools[j]);
      }
    }
  }

  /** Membership moves, it is not copied: each ID that was in some pool still is, and the wanted
      ones are in the target alone. */
  lemma AssignmentMoves(pools: seq<Pool>, target: nat, id: string, i: nat)
    requires target < |pools| && i < |pools|
    ensures var wanted := set x | x in pools[target].members;
            id in AssignMembers(pools, target, wanted)[i].members
            <==> id in pools[i].members && (i == target || id !in pools[target].members)
  {
  }

  /** A pool that gives members away passes its active place on to the first one left if that is among them; if
      then none is left it is disabled and degraded. Anything else of it stays. */
  lemma AssignmentPassesOn(pools: seq<Pool>, target: nat, wanted: set<string>, i: nat)
    requires target < |pools| && i < |pools|
    ensures var p, q := pools[i], AssignMembers(pools, target, wanted)[i];
            && (i == target ==> q == p)
            && (i != target ==>
                  && q == p.(members := q.members, activeMember := q.activeMember, enabled := q.enabled,
                             degraded := q.degraded)
                  && (forall m :: m in q.members <==> m in p.members && m !in wanted)
                  && (p.activeMember !in wanted ==>
                        q.activeMember == p.activeMember && q.enabled == p.enabled && q.degraded == p.degraded)
                  && (p.activeMember in wanted && q.members != [] ==>
                        IsFirstLeft(q.activeMember, p.members, wanted) && q.enabled == p.enabled
                        && q.degraded == p.degraded)
                  && (p.activeMember in wanted && q.members == [] ==>
                        q.activeMember == "" && !q.enabled && q.degraded))
  {
    FirstIsFirstLeft(pools[i].members, wanted);
  }

  // ---- editing a pool ----

  datatype PoolRequest = PoolRequest(
    name: string, mode: string, members: seq<string>, activeMember: string, enabled: bool, refreshInterval: int)

  /** Index of the first pool with this ID or this name, -1 when there is none. */
  function FindPool(pools: seq<Pool>, id: string): (i: int)
    ensures -1 <= i < |pools|
    ensures i >= 0 ==> pools[i].id == id || pools[i].name == id
    ensures i < 0 ==> forall p | p in pools :: p.id != id && p.name != id
  {
    if pools == [] then -1
    else if pools[0].id == id || pools[0].name == id then 0
    else var i := FindPool(pools[1..], id); if i < 0 then -1 else i + 1
  }

  predicate NameTaken(pools: seq<Pool>, except: int, name: string)
  {
    exists j | 0 <= j < |pools| :: j != except && pools[j].name == name
  }

  function Requested(p: Pool, r: PoolRequest): Pool
  {
    p.(name := r.name, mode := NormalizedMode(r.mode), members := r.members, enabled := r.enabled,
       refreshInterval := if r.refreshInterval > 0 then r.refreshInterval else p.refreshInterval,
       activeMember := if r.activeMember == "" && r.members != [] then r.members[0] else r.activeMember)
  }

  predicate EditRefused(pools: seq<Pool>, i: int, r: PoolRequest)
  {
    Blank(r.name) || NameTaken(pools, i, r.name) || NormalizedMode(r.mode) !in {FAILOVER, MERGE}
  }

  function EditedPools(pools: seq<Pool>, i: nat, r: PoolRequest): seq<Pool>
    requires i < |pools|
  {
    AssignMembers(pools[i := Requested(pools[i], r)], i, set m | m in r.members)
  }

  function EditPool(c: Config, id: string, r: PoolRequest): Outcome
  {
    var i := FindPool(c.pools, id);
    if i < 0 then NotFound
    else if EditRefused(c.pools, i, r) then Refused
    else Changed(c.(pools := EditedPools(c.pools, i, r)))
  }

  /** An edit is refused for a blank name, one that another pool has, or an unknown mode. Else the pool gets what was
      asked for, with the first member active if none was named and its old interval if none was given; it keeps
      its ID, and of the other pools and the rest only what it takes from them changes. */
  lemma EditMeans(c: Config, id: string, r: PoolRequest)
    ensures EditPool(c, id, r).NotFound? <==> forall p | p in c.pools :: p.id != id && p.name != id
    ensures EditPool(c, id, r).Changed? ==>
              && !Blank(r.name) && r.mode in {"", "failover", "merge"}
              && var next := EditPool(c, id, r).config;
              && next == c.(pools := next.pools) && |next.pools| == |c.pools|
              && exists i | 0 <= i < |c.pools| :: AsRequested(c.pools, next.pools, i, id, r)
    ensures EditPool(c, id, r).Refused? ==>
              || Blank(r.name) || r.mode !in {"", "failover", "merge"}
              || exists p | p in c.pools :: p.name == r.name
  {
    if EditPool(c, id, r).Changed? {
      var i := FindPool(c.pools, id);
      assert AsRequested(c.pools, EditedPools(c.pools, i, r), i, id, r);
    }
  }

  ghost predicate AsRequested(was: seq<Pool>, now: seq<Pool>, i: nat, id: string, r: PoolRequest)
    requires i < |was| == |now|
  {
    && (was[i].id == id || was[i].name == id)
    && (forall j | 0 <= j < |was| && j != i :: was[j].name != r.name)
    && now[i] == Pool(was[i].id, r.name, if r.mode == "merge" then "merge" else "failover", r.members,
                      if r.activeMember == "" && r.members != [] then r.members[0] else r.activeMember,
                      r.enabled, if r.refreshInterval > 0 then r.refreshInterval else was[i].refreshInterval,
                      was[i].degraded)
  }

  /** A case in point: valid pools, as a whole configuration may be submitted with, where the second one is
      enabled and names no active member. A request that the first one take its only member is not refused,
      and leaves invalid pools. */
  lemma EditMayEmptyPool() returns (subs: seq<Subscription>, pools: seq<Pool>, r: PoolRequest)
    ensures SubscriptionsOk(subs) && PoolsOk(pools, subs) && |pools| == 2
    ensures pools[1].enabled && pools[1].members != [] && pools[1].activeMember == ""
    ensures !EditRefused(pools, 0, r)
    ensures !PoolsOk(EditedPools(pools, 0, r), subs)
  {
    var p := Pool("p", "p", "", [], "", false, 0, false);
    var q := Pool("q", "q", "", ["a"], "", true, 0, false);
    subs := [Subscription("a", "n", "u", "", "", "", "", "", 0)];
    pools := [p, q];
    r := PoolRequest("p", "", ["a"], "", true, 0);
    assert !Blank("n") && !Blank("u") && !Blank("p") && !Blank("q") by {
      assert !IsSpace("n"[0]) && !IsSpace("u"[0]) && !IsSpace("p"[0]) && !IsSpace("q"[0]);
    }
    assert subs[0].id == "a";
    assert PoolOk(p, subs) && PoolOk(q, subs);
    var wanted := set m | m in r.members;
    assert "a" in wanted;
    WithoutAll(q.members, wanted);
    assert EditedPools(pools, 0, r)[1] == TakeFromPool(q, wanted);
    assert !PoolOk(TakeFromPool(q, wanted), subs);
  }

  // ---- normalizeProfilePool ----

  const PROFILE_POOL := "profiles"
  const DAY_IN_SECONDS := 86400

  function Ids(subs: seq<Subscription>): (ids: seq<string>)
    ensures |ids| == |subs|
    ensures forall i | 0 <= i < |ids| :: ids[i] == subs[i].id
  {
    seq(|subs|, i requires 0 <= i < |subs| => subs[i].id)
  }

  function ActiveId(c: Config): string
  {
    if 0 <= c.active < |c.subscriptions| then c.subscriptions[c.active].id else ""
  }

  function ProfilePool(c: Config): Pool
  {
    Pool(PROFILE_POOL, "配置", FAILOVER, Ids(c.subscriptions), ActiveId(c), true, DAY_IN_SECONDS, false)
  }

  function Normalize(c: Config): Config
  {
    if c.subscriptions == [] then c.(pools := [], active := -1) else c.(pools := [ProfilePool(c)])
  }

  /** The check whether a normalisation is due. */
  predicate NeedsNormalization(c: Config)
  {
    if c.subscriptions == [] then c.active != -1 || c.pools != []
    else if |c.pools| != 1 then true
    else
      var p := c.pools[0];
      if p.id != PROFILE_POOL || p.mode != FAILOVER || !p.enabled || |p.members| != |c.subscriptions| then true
      else p.activeMember != ActiveId(c) || p.members != Ids(c.subscriptions)
  }

  /** The one pool of profiles: all of them in their order, the active one active, failing over. */
  lemma NormalizedMeans(c: Config)
    requires c.subscriptions != []
    ensures var d := Normalize(c);
            && d == c.(pools := d.pools) && |d.pools| == 1
            && d.pools[0].id == "profiles" && d.pools[0].name == "配置" && d.pools[0].refreshInterval == 24 * 3600
            && d.pools[0].mode == "failover" && d.pools[0].enabled && !d.pools[0].degraded
            && |d.pools[0].members| == |c.subscriptions|
            && (forall i | 0 <= i < |c.subscriptions| :: d.pools[0].members[i] == c.subscriptions[i].id)
            && d.pools[0].activeMember == if 0 <= c.active < |c.subscriptions| then c.subscriptions[c.active].id else ""
  {
  }

  lemma IdsOk(subs: seq<Subscription>)
    requires SubscriptionsOk(subs)
    ensures Distinct(Ids(subs))
    ensures forall id | id in Ids(subs) :: FindById(subs, id) >= 0
  {
    forall id | id in Ids(subs)
      ensures FindById(subs, id) >= 0
    {
      var i :| 0 <= i < |subs| && Ids(subs)[i] == id;
      assert subs[i].id == id;
    }
  }

  /** Normalising settles the matter, is idempotent, and keeps a valid configuration valid
      whatever its pools were. */
  lemma NormalizeKeepsValid(c: Config)
    requires Valid(c.(pools := []))
    ensures Valid(Normalize(c))
    ensures !NeedsNormalization(Normalize(c))
    ensures Normalize(Normalize(c)) == Normalize(c)
  {
    hide SettingsOk, ProvidersOk, BuiltInsOk, IsMatchRule;
    IdsOk(c.subscriptions);
    var p := ProfilePool(c);
    if c.subscriptions != [] {
      assert p.members[0] == c.subscriptions[0].id;
      if c.active >= 0 {
        assert p.members[c.active] == p.activeMember;
      }
      assert PoolOk(p, c.subscriptions) by {
        assert !Blank(PROFILE_POOL) && !Blank("配置") by {
          assert !IsSpace(PROFILE_POOL[0]) && !IsSpace("配置"[0]);
        }
      }
    }
  }
}
