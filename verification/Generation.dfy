/** Which subscriptions a generated core configuration draws on, and what else goes into it. */
module Generation {
  import opened ConfigModel
  import opened PoolOps
  import opened Failover
  import opened Wrappers

  // ---- activePoolSubscriptions ----

  /** The members of a merge pool that have a cache, in order. */
  function CachedMembers(subs: seq<Subscription>, members: seq<string>, files: set<string>): seq<Subscription>
  {
    if members == [] then []
    else
      var rest := CachedMembers(subs, members[..|members| - 1], files);
      var i := FindById(subs, members[|members| - 1]);
      if i >= 0 && Cached(subs[i], files) then rest + [subs[i]] else rest
  }

  /** What one enabled pool contributes; nothing usable is an error. */
  function PoolSources(p: Pool, subs: seq<Subscription>, files: set<string>): (r: Option<seq<Subscription>>)
    ensures r.Some? ==> r.value != []
  {
    if NormalizedMode(p.mode) == MERGE then
      var cached := CachedMembers(subs, p.members, files);
      if cached == [] then None else Some(cached)
    else
      var i := FindById(subs, p.activeMember);
      if i >= 0 && Cached(subs[i], files) then Some([subs[i]]) else None
  }

  function AllSources(pools: seq<Pool>, subs: seq<Subscription>, files: set<string>): Option<seq<Subscription>>
  {
    if pools == [] then Some([])
    else
      var rest, p := AllSources(pools[..|pools| - 1], subs, files), pools[|pools| - 1];
      if rest.None? || !p.enabled then rest
      else
        var more := PoolSources(p, subs, files);
        if more.None? then None else Some(rest.value + more.value)
  }

  function ActiveSources(c: Config, files: set<string>): Option<seq<Subscription>>
  {
    var all := AllSources(c.pools, c.subscriptions, files);
    if all == Some([]) then None else all
  }

  method MergeSources(subs: seq<Subscription>, members: seq<string>, files: set<string>, before: seq<Subscription>)
      returns (result: seq<Subscription>, available: nat)
    ensures result == before + CachedMembers(subs, members, files) && available == |CachedMembers(subs, members, files)|
  {
    result, available := before, 0;
    for i := 0 to |members|
      invariant result == before + CachedMembers(subs, members[..i], files)
      invariant available == |CachedMembers(subs, members[..i], files)|
    {
      assert members[..i + 1][..i] == members[..i];
      var j := FindById(subs, members[i]);
      if j >= 0 && Cached(subs[j], files) {
        result := result + [subs[j]];
        available := available + 1;
      }
    }
    assert members[..|members|] == members;
  }

  method ActivePoolSubscriptions(c: Config, files: set<string>) returns (r: Option<seq<Subscription>>)
    ensures r == ActiveSources(c, files)
  {
    hide CachedMembers, Cached, NormalizedMode;
    var result: seq<Subscription> := [];
    for i := 0 to |c.pools|
      invariant AllSources(c.pools[..i], c.subscriptions, files) == Some(result)
    {
      var p := c.pools[i];
      assert c.pools[..i + 1][..i] == c.pools[..i];
      ghost var before := result;
      if p.enabled {
        if NormalizedMode(p.mode) == MERGE {
          var available;
          result, available := MergeSources(c.subscriptions, p.members, files, result);
          if available == 0 {
            FailedPrefix(c.pools, i + 1, c.subscriptions, files);
            return None;
          }
        } else {
          var j := FindById(c.subscriptions, p.activeMember);
          if j < 0 || !Cached(c.subscriptions[j], files) {
            FailedPrefix(c.pools, i + 1, c.subscriptions, files);
            return None;
          }
          result := result + [c.subscriptions[j]];
        }
      }
    }
    assert c.pools[..|c.pools|] == c.pools;
    r := if result == [] then None else Some(result);
  }

  lemma {:induction false} FailedPrefix(pools: seq<Pool>, n: nat, subs: seq<Subscription>, files: set<string>)
    requires n <= |pools| && AllSources(pools[..n], subs, files).None?
    ensures AllSources(pools, subs, files).None?
    decreases |pools|
  {
    if n < |pools| {
      assert pools[..|pools| - 1][..n] == pools[..n];
      FailedPrefix(pools[..|pools| - 1], n, subs, files);
    } else {
      assert pools[..n] == pools;
    }
  }

  // ---- which sources those are ----

  /** The pool takes in the subscription with this ID: a merge pool all its members, any other its active
      one, if there is a cache. */
  predicate Feeds(p: Pool, subs: seq<Subscription>, files: set<string>, id: string)
  {
    && (if NormalizedMode(p.mode) == MERGE then id in p.members else id == p.activeMember)
    && FindById(subs, id) >= 0 && Cached(subs[FindById(subs, id)], files)
  }

  ghost predicate Fed(p: Pool, subs: seq<Subscription>, files: set<string>)
  {
    exists id :: Feeds(p, subs, files, id)
  }

  /** The subscription comes with some enabled pool among these. */
  ghost predicate Listed(pools: seq<Pool>, subs: seq<Subscription>, files: set<string>, s: Subscription)
  {
    exists p, id | p in pools && Feeds(p, subs, files, id) :: p.enabled && s == subs[FindById(subs, id)]
  }

  lemma {:induction false} CachedMembersExactly(
    subs: seq<Subscription>, members: seq<string>, files: set<string>, s: Subscription)
    ensures s in CachedMembers(subs, members, files)
            <==> exists id | id in members :: FindById(subs, id) >= 0 && s == subs[FindById(subs, id)] && Cached(s, files)
  {
    if members != [] {
      var n := |members| - 1;
      CachedMembersExactly(subs, members[..n], files, s);
      assert members == members[..n] + [members[n]];
    }
  }

  lemma PoolSourcesExactly(p: Pool, subs: seq<Subscription>, files: set<string>)
    ensures PoolSources(p, subs, files).Some? <==> Fed(p, subs, files)
    ensures PoolSources(p, subs, files).Some? ==>
              forall s :: s in PoolSources(p, subs, files).value
                          <==> exists id | Feeds(p, subs, files, id) :: s == subs[FindById(subs, id)]
  {
    hide Cached;
    var cached := CachedMembers(subs, p.members, files);
    assert cached != [] ==> cached[0] in cached;
    if NormalizedMode(p.mode) == MERGE {
      forall s: Subscription
        ensures s in CachedMembers(subs, p.members, files)
                <==> exists id | Feeds(p, subs, files, id) :: s == subs[FindById(subs, id)]
      {
        CachedMembersExactly(subs, p.members, files, s);
      }
      if Fed(p, subs, files) {
        var id :| Feeds(p, subs, files, id);
        assert subs[FindById(subs, id)] in CachedMembers(subs, p.members, files);
      }
    } else {
      assert Fed(p, subs, files) <==> Feeds(p, subs, files, p.activeMember);
    }
  }

  lemma {:induction false} AllSourcesExactly(pools: seq<Pool>, subs: seq<Subscription>, files: set<string>)
    ensures AllSources(pools, subs, files).Some? <==> forall p | p in pools && p.enabled :: Fed(p, subs, files)
    ensures AllSources(pools, subs, files).Some? ==>
              forall s :: s in AllSources(pools, subs, files).value <==> Listed(pools, subs, files, s)
  {
    hide Feeds, PoolSources;
    if pools != [] {
      var front, last := pools[..|pools| - 1], pools[|pools| - 1];
      assert pools == front + [last];
      AllSourcesExactly(front, subs, files);
      PoolSourcesExactly(last, subs, files);
      if AllSources(pools, subs, files).Some? {
        forall s: Subscription
          ensures s in AllSources(pools, subs, files).value <==> Listed(pools, subs, files, s)
        {
          ListedOneMore(front, last, subs, files, s);
        }
      }
    }
  }

  lemma ListedOneMore(front: seq<Pool>, last: Pool, subs: seq<Subscription>, files: set<string>, s: Subscription)
    ensures Listed(front + [last], subs, files, s)
            <==>
            || Listed(front, subs, files, s)
            || (last.enabled && exists id | Feeds(last, subs, files, id) :: s == subs[FindById(subs, id)])
  {
    hide Feeds;
  }

  /** A configuration has local sources exactly if some pool is enabled and every enabled one is fed; and they
      are what the enabled pools take in, for valid pools each of them once. */
  lemma SourcesExactly(c: Config, files: set<string>)
    ensures ActiveSources(c, files).Some?
            <==>
            && (exists p | p in c.pools :: p.enabled)
            && forall p | p in c.pools && p.enabled :: Fed(p, c.subscriptions, files)
    ensures ActiveSources(c, files).Some? ==>
              forall s :: s in ActiveSources(c, files).value <==> Listed(c.pools, c.subscriptions, files, s)
    ensures ActiveSources(c, files).Some? && PoolsOk(c.pools, c.subscriptions) && SubscriptionsOk(c.subscriptions) ==>
              OncePerId(ActiveSources(c, files).value)
  {
    hide Feeds, PoolsOk, SubscriptionsOk, OncePerId;
    AllSourcesExactly(c.pools, c.subscriptions, files);
    var all := AllSources(c.pools, c.subscriptions, files);
    assert all.Some? && all.value != [] ==> all.value[0] in all.value;
    if all.Some? && PoolsOk(c.pools, c.subscriptions) && SubscriptionsOk(c.subscriptions) {
      NoneTwice(c.pools, c.subscriptions, files);
    }
    if all.Some? && exists p | p in c.pools :: p.enabled {
      var p :| p in c.pools && p.enabled;
      var id :| Feeds(p, c.subscriptions, files, id);
      FeedsOne(p, c.subscriptions, files, id);
      assert Listed(c.pools, c.subscriptions, files, c.subscriptions[FindById(c.subscriptions, id)]);
    }
  }

  ghost predicate OncePerId(subs: seq<Subscription>)
  {
    forall i, j | 0 <= i < j < |subs| :: subs[i].id != subs[j].id
  }

  lemma FeedsOne(p: Pool, subs: seq<Subscription>, files: set<string>, id: string)
    requires Feeds(p, subs, files, id)
    ensures FindById(subs, id) >= 0 && subs[FindById(subs, id)].id == id
  {
  }

  lemma {:induction false} MembersOnce(subs: seq<Subscription>, members: seq<string>, files: set<string>)
    requires Distinct(members)
    ensures OncePerId(CachedMembers(subs, members, files))
    ensures forall s | s in CachedMembers(subs, members, files) :: s.id in members
  {
    if members != [] {
      var n := |members| - 1;
      MembersOnce(subs, members[..n], files);
      assert members == members[..n] + [members[n]] && members[n] !in members[..n];
      var front := CachedMembers(subs, members[..n], files);
      assert forall i | 0 <= i < |front| :: front[i] in front;
    }
  }

  lemma OfMembers(p: Pool, subs: seq<Subscription>, files: set<string>)
    requires PoolOk(p, subs) && SubscriptionsOk(subs) && PoolSources(p, subs, files).Some?
    ensures OncePerId(PoolSources(p, subs, files).value)
    ensures forall s | s in PoolSources(p, subs, files).value :: s.id in p.members
  {
    if NormalizedMode(p.mode) == MERGE {
      MembersOnce(subs, p.members, files);
    } else {
      assert SubscriptionOk(subs[FindById(subs, p.activeMember)]);
    }
  }

  lemma {:induction false} NoneTwice(pools: seq<Pool>, subs: seq<Subscription>, files: set<string>)
    requires PoolsOk(pools, subs) && SubscriptionsOk(subs) && AllSources(pools, subs, files).Some?
    ensures OncePerId(AllSources(pools, subs, files).value)
    ensures forall s | s in AllSources(pools, subs, files).value :: exists p | p in pools :: s.id in p.members
  {
    hide PoolSources, SubscriptionsOk, PoolOk;
    if pools != [] {
      var n := |pools| - 1;
      var front, p := pools[..n], pools[n];
      NoneTwice(front, subs, files);
      if p.enabled {
        OfMembers(p, subs, files);
        var before, more := AllSources(front, subs, files).value, PoolSources(p, subs, files).value;
        forall i, j | 0 <= i < |before| && 0 <= j < |more|
          ensures before[i].id != more[j].id
        {
          assert before[i] in before && more[j] in more;
          var q :| q in front && before[i].id in q.members;
          var k :| 0 <= k < n && front[k] == q;
          assert Disjoint(pools[k], pools[n]);
        }
        AppendOnce(before, more);
        assert forall s | s in more :: p in pools && s.id in p.members;
      }
      assert forall q | q in front :: q in pools;
    }
  }

  lemma AppendOnce(before: seq<Subscription>, more: seq<Subscription>)
    requires OncePerId(before) && OncePerId(more)
    requires forall i, j | 0 <= i < |before| && 0 <= j < |more| :: before[i].id != more[j].id
    ensures OncePerId(before + more)
  {
  }

  // ---- the generated file ----

  /** What the generated file holds: its proxy sources, and everything that does not come from
      subscriptions or pools. */
  datatype Output = Output(
    local: bool, sources: seq<string>, tun: bool, secret: string, settings: Settings,
    providers: seq<RuleProvider>, builtIns: seq<BuiltInRule>, preRules: seq<string>, postRules: seq<string>)

  function CacheFiles(subs: seq<Subscription>): seq<string>
  {
    seq(|subs|, i requires 0 <= i < |subs| => subs[i].cacheFile)
  }

  function RemoteUrls(subs: seq<Subscription>): seq<string>
  {
    if subs == [] then []
    else (if subs[0].url == "" || subs[0].url == MANUAL then [] else [subs[0].url]) + RemoteUrls(subs[1..])
  }

  function OutputOf(c: Config, local: bool, sources: seq<string>): Output
  {
    Output(local, sources, c.tun, c.secret, c.settings, c.providers, c.builtIns, c.preRules, c.postRules)
  }

  /** The file for this configuration, given which cache files exist; old configurations without any
      pool fall back to their remote addresses. */
  function Generate(c: Config, files: set<string>): Option<Output>
  {
    var active := ActiveSources(c, files);
    if active.Some? then Some(OutputOf(c, true, CacheFiles(active.value)))
    else if c.pools == [] && RemoteUrls(c.subscriptions) != [] then
      Some(OutputOf(c, false, RemoteUrls(c.subscriptions)))
    else None
  }

  /** A generated file shows the settings it is for: TUN, the API secret, the ports and the rest, the lists and rules;
      and its sources are files, those of the enabled pools, or, without any pool, all remote addresses. */
  lemma FileShowsSettings(c: Config, files: set<string>)
    requires Generate(c, files).Some?
    ensures var o := Generate(c, files).value;
            && o.tun == c.tun && o.secret == c.secret && o.settings == c.settings && o.providers == c.providers
            && o.builtIns == c.builtIns && o.preRules == c.preRules && o.postRules == c.postRules
            && (o.local ==>
                  && ActiveSources(c, files).Some? && |o.sources| == |ActiveSources(c, files).value|
                  && forall i | 0 <= i < |o.sources| ::
                       o.sources[i] == ActiveSources(c, files).value[i].cacheFile && o.sources[i] in files)
            && (!o.local ==>
                  && c.pools == []
                  && forall url :: url in o.sources
                                   <==> url != "" && url != "手动配置" && exists s | s in c.subscriptions :: s.url == url)
  {
    hide ActiveSources;
    RemoteUrlsMean(c.subscriptions);
    if ActiveSources(c, files).Some? {
      SourcesAreCached(c, files);
    }
  }

  lemma {:induction false} RemoteUrlsMean(subs: seq<Subscription>)
    ensures forall url :: url in RemoteUrls(subs)
                          <==> url != "" && url != "手动配置" && exists s | s in subs :: s.url == url
  {
    if subs != [] {
      RemoteUrlsMean(subs[1..]);
      assert forall s :: s in subs <==> s == subs[0] || s in subs[1..];
    }
  }

  lemma SourcesAreCached(c: Config, files: set<string>)
    requires ActiveSources(c, files).Some?
    ensures forall s | s in ActiveSources(c, files).value :: s.cacheFile in files
  {
    hide ActiveSources;
    SourcesExactly(c, files);
  }

  /** With the profile pool in place, generation looks at the active profile only: it succeeds exactly
      if that one has its cache, and draws on that cache alone. */
  lemma ProfileGeneration(c: Config, files: set<string>)
    requires !NeedsNormalization(c) && c.subscriptions != [] && -1 <= c.active < |c.subscriptions|
    requires SubscriptionsOk(c.subscriptions)
    ensures Generate(c, files)
            == if c.active >= 0 && Cached(c.subscriptions[c.active], files)
               then Some(OutputOf(c, true, [c.subscriptions[c.active].cacheFile])) else None
  {
    var p, subs := c.pools[0], c.subscriptions;
    assert c.pools[..|c.pools| - 1] == [] && AllSources([], subs, files) == Some([]);
    assert NormalizedMode(p.mode) != MERGE;
    assert forall i | 0 <= i < |subs| :: SubscriptionOk(subs[i]);
    if c.active >= 0 {
      assert FindById(subs, p.activeMember) == c.active;
      if Cached(subs[c.active], files) {
        assert PoolSources(p, subs, files) == Some([subs[c.active]]);
        var none: seq<Subscription> := [];
        assert c.pools != [] && none + [subs[c.active]] == [subs[c.active]];
        assert AllSources(c.pools[..|c.pools| - 1], subs, files) == Some(none);
        assert AllSources(c.pools, subs, files) == Some([subs[c.active]]);
        assert CacheFiles([subs[c.active]]) == [subs[c.active].cacheFile];
      }
    } else {
      assert FindById(subs, p.activeMember) < 0;
    }
  }

  /** So whatever else differs between two sets of profiles, their names, order, addresses, digests or
      the other profiles, the file is the same if the active cache and the remaining settings are. */
  lemma GenerationNeedsActiveOnly(c: Config, d: Config, files: set<string>, left: set<string>)
    requires !NeedsNormalization(c) && SubscriptionsOk(c.subscriptions) && 0 <= c.active < |c.subscriptions|
    requires !NeedsNormalization(d) && SubscriptionsOk(d.subscriptions) && 0 <= d.active < |d.subscriptions|
    requires c.subscriptions[c.active].cacheFile == d.subscriptions[d.active].cacheFile
    requires OutputOf(c, true, []) == OutputOf(d, true, [])
    requires c.subscriptions[c.active].cacheFile in files <==> d.subscriptions[d.active].cacheFile in left
    ensures Generate(c, files) == Generate(d, left)
  {
    hide NeedsNormalization, Generate;
    NonEmpty(c);
    NonEmpty(d);
    ProfileGeneration(c, files);
    ProfileGeneration(d, left);
  }

  lemma NonEmpty(c: Config)
    requires 0 <= c.active < |c.subscriptions|
    ensures c.subscriptions != []
  {
  }
}
