/** Sessions around the store: readers that keep snapshots, and clients that read, modify and
    submit the whole configuration while others commit in between. */
module ConfigClients {
  import opened ConfigModel
  import opened PoolOps
  import opened ConfigHeap
  import opened ConfigStore
  import opened Validation

  /** A reader's snapshot and the configuration it was taken from both read as before after any
      update, committed or given up half-way. */
  method SnapshotSurvives(store: Store, edits: seq<Edit>, flushes: bool)
      returns (snapshot: HeapConfig, result: Commit)
    requires store.Ok()
    modifies store
    ensures store.Ok() && Formed(snapshot)
    ensures View(snapshot) == old(View(store.global)) == old(store.commits[|store.commits| - 1])
    ensures Formed(old(store.global)) && View(old(store.global)) == old(View(store.global))
  {
    hide View, Arrays, Formed, Sequenced;
    ghost var was := store.global;
    PoolsAmongArrays(was);
    NotAnArray(store, was);
    snapshot := store.GlobalConfig();
    PoolsAmongArrays(snapshot);
    NotAnArray(store, snapshot);
    result := store.UpdateGlobalConfig(edits, flushes);
  }

  /** Filtering through a mere struct copy is seen by the holder of the original: its slice still
      has the old length, with the kept members moved over the dropped ones. */
  method StructCopyIsTorn(original: HeapPool, first: string, second: string)
    requires original.members.len == original.members.arr.Length == 2 && first != second
    requires Elems(original.members) == [first, second]
    modifies original.members.arr
    ensures Elems(original.members) == [second, second]
  {
    var copy := original;
    assert Without([first, second], {first}) == [second] by {
      assert [first, second][1..] == [second] && [second][1..] == [];
      assert Without([second], {first}) == [second] + Without([], {first});
    }
    ghost var was := copy.members.arr[..];
    assert was == [first, second];
    var kept := FilterInPlace(copy.members, {first});
    assert kept == 1;
    assert copy.members.arr[1..][0] == was[1..][0];
    assert copy.members.arr[..1][0] == second;
  }

  // ---- the wire ----

  /** The response to a read: everything but the secret. */
  method HandleGet(store: Store) returns (c: Config)
    requires store.Ok()
    ensures store.Ok()
    ensures c == store.commits[|store.commits| - 1].(secret := "")
  {
    hide View, Formed, Arrays;
    var snapshot := store.GlobalConfig();
    c := View(snapshot).(secret := "");
  }

  datatype Response = Accepted(config: Config) | VersionConflict | Rejected

  /** The submission of a whole configuration: validated as sent, then replaced by version. */
  method HandlePost(store: Store, req: Config, flushes: bool) returns (response: Response)
    requires store.Ok()
    modifies store
    ensures store.Ok()
    ensures var current := old(View(store.global)); var want := Merged(req, current, store.root);
            && (response.VersionConflict? <==> Valid(req) && req.version != current.version)
            && (response.Accepted? <==> Valid(req) && req.version == current.version && Valid(want) && flushes)
            && (response.Accepted? ==>
                  && store.commits == old(store.commits) + [want.(version := req.version + 1)]
                  && AsSubmitted(store.commits[|store.commits| - 1], req, current, store.root)
                  && response.config == want.(version := req.version + 1, secret := ""))
    ensures !response.Accepted? ==> store.commits == old(store.commits)
  {
    hide View, Formed, Arrays, Valid, Sequenced, AsSubmitted;
    PoolsAmongArrays(store.global);
    NotAnArray(store, store.global);
    SameBut(store.global, store.global);
    var problems := Validate(req);
    if problems != [] {
      return Rejected;
    }
    var decoded := Decode(req);
    SameBut(decoded, decoded);
    var result := store.ReplaceGlobalConfig(decoded, flushes);
    if result.Committed? {
      response := Accepted(View(result.snapshot).(secret := ""));
    } else {
      response := if result.Conflict? then VersionConflict else Rejected;
    }
  }

  /** Whatever other sessions commit in the meantime, any number of times; no path of a root daemon's machine
      ever changes by it. */
  method Others(store: Store, submissions: seq<Config>) returns (commits: nat)
    requires store.Ok()
    modifies store
    ensures store.Ok() && old(store.commits) <= store.commits
    ensures |store.commits| == old(|store.commits|) + commits
    ensures store.root ==>
              forall k | |old(store.commits)| <= k < |store.commits| ::
                SamePaths(store.commits[k], old(store.commits)[|old(store.commits)| - 1])
  {
    hide View, Formed, Arrays, Valid, Sequenced, Merged;
    commits := 0;
    for i := 0 to |submissions|
      invariant store.Ok() && old(store.commits) <= store.commits
      invariant |store.commits| == old(|store.commits|) + commits
      invariant store.root ==>
                  forall k | |old(store.commits)| <= k < |store.commits| ::
                    SamePaths(store.commits[k], old(store.commits)[|old(store.commits)| - 1])
    {
      var current := HandleGet(store);
      var response := HandlePost(store, submissions[i].(version := current.version), true);
      if response.Accepted? {
        commits := commits + 1;
      }
    }
  }

  // ---- requests that take themselves back ----

  /** The same but for the version. */
  predicate SameContent(a: Config, b: Config)
  {
    a.(version := b.version) == b
  }

  /** A profile or port request: takes a snapshot, commits its own edits, and when it cannot apply them puts the
      snapshot back; others, who do not wait for it, commit before and after its own commit. All that was
      committed since the snapshot is undone: another client loses a commit exactly if it made one, since
      then, that changed something. */
  method RollBack(store: Store, own: seq<Edit>, before: seq<Config>, after: seq<Config>)
      returns (committed: bool, restored: bool, ghost mine: nat)
    requires store.Ok()
    modifies store
    ensures store.Ok() && old(store.commits) <= store.commits
    ensures restored ==> committed && |old(store.commits)| <= mine < |store.commits| - 1
    ensures committed ==> (restored <==> Valid(old(store.commits[|store.commits| - 1])))
    ensures restored ==>
              var read, n := |old(store.commits)| - 1, |store.commits| - 1;
              && SameContent(store.commits[n], store.commits[read])
              && ((exists k | read < k < n && k != mine :: !SameContent(store.commits[k], store.commits[n]))
                  <==> (exists k | read < k < n && k != mine :: !SameContent(store.commits[k], store.commits[read])))
  {
    hide View, Formed, Arrays, Valid, Sequenced, AppliedAll;
    var current := store.GlobalConfig();
    var snapshot := View(current);
    var n := Others(store, before);
    var result := store.UpdateGlobalConfig(own, true);
    mine := |store.commits| - 1;
    if !result.Committed? {
      return false, false, mine;
    }
    n := Others(store, after);
    restored := Restored(store, snapshot);
    committed := true;
    if restored {
      SameForAll(store.commits, |old(store.commits)| - 1, |store.commits| - 1);
    }
  }

  method Restored(store: Store, snapshot: Config) returns (ok: bool)
    requires store.Ok()
    modifies store
    ensures store.Ok() && old(store.commits) <= store.commits
    ensures ok <==> Valid(snapshot)
    ensures ok ==>
              && |store.commits| == |old(store.commits)| + 1
              && SameContent(store.commits[|store.commits| - 1], snapshot)
    ensures !ok ==> store.commits == old(store.commits)
  {
    hide View, Formed, Arrays, Valid, Sequenced;
    ghost var now := View(store.global);
    ghost var next := snapshot.(version := now.version);
    assert AppliedAll(now, [Restore(snapshot)]) == AppliedAll(next, []) == Changed(next);
    var result := store.UpdateGlobalConfig([Restore(snapshot)], true);
    ok := result.Committed?;
    VersionMakesNoDifference(snapshot, now.version);
  }

  lemma VersionMakesNoDifference(c: Config, version: int)
    ensures Valid(c.(version := version)) <==> Valid(c)
  {
    hide SettingsOk, SubscriptionsOk, PoolsOk, ProvidersOk, BuiltInsOk, IsMatchRule;
  }

  lemma SameForAll(commits: seq<Config>, read: nat, n: nat)
    requires read < n < |commits| && SameContent(commits[n], commits[read])
    ensures forall k | 0 <= k < |commits| :: SameContent(commits[k], commits[n]) <==> SameContent(commits[k], commits[read])
  {
  }

  /** Whatever the configuration and the request's own edits: a client that turns TUN on or off in between is told
      that this is committed, and finds it undone. */
  method RollBackLosesCommit(store: Store, own: seq<Edit>) returns (response: Response, restored: bool)
    requires store.Ok() && Valid(store.commits[|store.commits| - 1])
    modifies store
    ensures store.Ok() && response.Accepted? && restored
    ensures var was := old(store.commits[|store.commits| - 1]);
            response.config.tun != was.tun && SameContent(store.commits[|store.commits| - 1], was)
  {
    hide View, Formed, Arrays, Valid, Sequenced, AppliedAll;
    var current := store.GlobalConfig();
    var snapshot := View(current);
    TunIsFree(snapshot);
    response := HandlePost(store, snapshot.(tun := !snapshot.tun), true);
    var mine := store.UpdateGlobalConfig(own, true);
    restored := Restored(store, snapshot);
  }

  lemma TunIsFree(c: Config)
    requires Valid(c)
    ensures Valid(c.(tun := !c.tun))
  {
    hide SettingsOk, SubscriptionsOk, PoolsOk, ProvidersOk, BuiltInsOk, IsMatchRule;
  }

  // ---- MutateServerConfig ----

  /** The local cache after a response: paths are the user's own, a masked secret changes nothing. */
  function Synced(server: Config, local: Config): Config
  {
    server.(configPath := local.configPath, binaryPath := local.binaryPath, logDir := local.logDir,
            secret := if server.secret == "" then local.secret else server.secret)
  }

  /** No update function of a client touches the version it was handed. */
  ghost predicate KeepsVersion(mutate: Config -> Config)
  {
    forall c: Config :: mutate(c).version == c.version
  }

  /** What a commit of this mutation on top of that configuration must look like. */
  ghost predicate CommittedOver(next: Config, base: Config, mutate: Config -> Config, root: bool)
  {
    next == Merged(mutate(base), base, root).(version := base.version + 1)
  }

  datatype Update = Updated(config: Config) | Unchanged(config: Config) | Conflicted | Denied

  method HandleSecret(store: Store) returns (secret: string)
    requires store.Ok()
    ensures store.Ok()
    ensures secret == store.commits[|store.commits| - 1].secret
  {
    secret := store.global.secret;
  }

  /** The configuration and, in a second request, the secret; others may commit in between. */
  method FetchConfig(store: Store, between: seq<Config>) returns (c: Config, commits: nat)
    requires store.Ok()
    modifies store
    ensures store.Ok() && old(store.commits) <= store.commits
    ensures |store.commits| == old(|store.commits|) + commits
    ensures c == old(store.commits[|store.commits| - 1]).(secret := store.commits[|store.commits| - 1].secret)
  {
    hide View, Formed, Arrays, Sequenced;
    c := HandleGet(store);
    commits := Others(store, between);
    var credentials := HandleSecret(store);
    c := c.(secret := credentials);
  }

  /** A mutation that changes nothing, of the configuration read at index `read`. */
  ghost predicate Idle(commits: seq<Config>, read: nat, mutate: Config -> Config, config: Config)
  {
    && read < |commits|
    && exists secret :: var c := commits[read].(secret := secret); mutate(c) == c && config == c.(secret := "")
  }

  /** One round: others commit before the read, within it, and between it and the submission. */
  method Attempt(store: Store, mutate: Config -> Config, before: seq<Config>, between: seq<Config>,
                 after: seq<Config>, flushes: bool) returns (result: Update, commits: nat)
    requires store.Ok()
    modifies store
    ensures store.Ok() && old(store.commits) <= store.commits
    ensures |store.commits| == old(|store.commits|) + commits + if result.Updated? then 1 else 0
    ensures result.Updated? && KeepsVersion(mutate) ==>
              var n := |store.commits|;
              && n >= 2
              && CommittedOver(store.commits[n - 1], store.commits[n - 2], mutate, store.root)
              && result.config == store.commits[n - 1].(secret := "")
    ensures result.Unchanged? ==>
              exists read :: |old(store.commits)| - 1 <= read && Idle(store.commits, read, mutate, result.config)
    ensures result.Conflicted? && KeepsVersion(mutate) ==> commits > 0
  {
    hide Valid, Sequenced, Merged, View, Formed, Arrays, KeepsVersion, Idle;
    commits := Others(store, before);
    ghost var read := |store.commits| - 1;
    var cfg, n := FetchConfig(store, between);
    ghost var fetched := |store.commits| - 1;
    commits := commits + n;
    var next := mutate(cfg);
    if next == cfg {
      IsIdle(store.commits, read, mutate, cfg);
      return Unchanged(cfg.(secret := "")), commits;
    }
    result, n := Submit(store, next, after, flushes);
    commits := commits + n;
    if KeepsVersion(mutate) {
      ReadIsCurrent(store.commits, read, fetched, |store.commits| - if result.Updated? then 2 else 1, cfg, mutate);
    }
  }

  /** The submission, after others may have committed once more. */
  method Submit(store: Store, next: Config, after: seq<Config>, flushes: bool) returns (result: Update, commits: nat)
    requires store.Ok()
    modifies store
    ensures store.Ok() && old(store.commits) <= store.commits
    ensures |store.commits| == old(|store.commits|) + commits + if result.Updated? then 1 else 0
    ensures !result.Unchanged?
    ensures result.Updated? ==>
              var n := |store.commits|;
              && n >= 2
              && next.version == store.commits[n - 2].version
              && store.commits[n - 1] == Merged(next, store.commits[n - 2], store.root).(version := next.version + 1)
              && result.config == store.commits[n - 1].(secret := "")
    ensures result.Conflicted? ==> next.version != store.commits[|store.commits| - 1].version
  {
    hide Valid, Sequenced, Merged, View, Formed, Arrays;
    commits := Others(store, after);
    var response := HandlePost(store, next, flushes);
    match response {
      case Accepted(config) => result := Updated(config);
      case Rejected => result := Denied;
      case VersionConflict => result := Conflicted;
    }
  }

  lemma {:induction false} VersionsDistinct(commits: seq<Config>, i: nat, j: nat)
    requires Sequenced(commits) && i <= j < |commits|
    ensures commits[j].version == commits[i].version + j - i
  {
    if i < j {
      VersionsDistinct(commits, i, j - 1);
    }
  }

  lemma IsIdle(commits: seq<Config>, read: nat, mutate: Config -> Config, c: Config)
    requires read < |commits| && c == commits[read].(secret := c.secret) && mutate(c) == c
    ensures Idle(commits, read, mutate, c.(secret := ""))
  {
  }

  /** A configuration read in two requests has the current version only if nobody committed since
      the first of them, and then it is the current configuration as a whole. */
  lemma ReadIsCurrent(commits: seq<Config>, read: nat, fetched: nat, base: nat, c: Config, mutate: Config -> Config)
    requires Sequenced(commits) && KeepsVersion(mutate) && read <= fetched <= base < |commits|
    requires c == commits[read].(secret := commits[fetched].secret)
    ensures if read == base then c == commits[base] && mutate(c).version == commits[base].version
            else mutate(c).version != commits[base].version
  {
    VersionsDistinct(commits, read, base);
  }

  class Client {
    var local: Config

    /** Reads, mutates and submits; on a version conflict once more. Wherever the others commit,
        a success is this mutation of the configuration that was current when it committed. */
    method MutateServerConfig(store: Store, mutate: Config -> Config, others: seq<seq<Config>>, flushes: bool)
        returns (result: Update, ghost foreign: nat)
      requires store.Ok() && |others| == 6
      modifies store, this
      ensures store.Ok() && old(store.commits) <= store.commits
      ensures |store.commits| == old(|store.commits|) + foreign + if result.Updated? then 1 else 0
      ensures result.Updated? && KeepsVersion(mutate) ==>
                var n := |store.commits|;
                && n >= 2
                && CommittedOver(store.commits[n - 1], store.commits[n - 2], mutate, store.root)
                && result.config == store.commits[n - 1].(secret := "")
      ensures result.Unchanged? ==>
                exists read :: |old(store.commits)| - 1 <= read && Idle(store.commits, read, mutate, result.config)
      ensures result.Conflicted? && KeepsVersion(mutate) ==> foreign >= 2
      ensures local == if result.Updated? || result.Unchanged? then Synced(result.config, old(local)) else old(local)
      ensures SamePaths(local, old(local))
      ensures result.Updated? || result.Unchanged? ==>
                local.secret == (if result.config.secret == "" then old(local).secret else result.config.secret)
                && local == result.config.(secret := local.secret, configPath := local.configPath,
                                           binaryPath := local.binaryPath, logDir := local.logDir)
    {
      hide Valid, Sequenced, CommittedOver, Idle, View, Formed, Arrays;
      foreign := 0;
      result := Conflicted;
      var attempt := 0;
      while attempt < 2 && result.Conflicted?
        invariant 0 <= attempt <= 2
        invariant store.Ok() && old(store.commits) <= store.commits
        invariant |store.commits| == old(|store.commits|) + foreign + if result.Updated? then 1 else 0
        invariant result.Updated? && KeepsVersion(mutate) ==>
                    var n := |store.commits|;
                    && n >= 2
                    && CommittedOver(store.commits[n - 1], store.commits[n - 2], mutate, store.root)
                    && result.config == store.commits[n - 1].(secret := "")
        invariant result.Unchanged? ==>
                  exists read :: |old(store.commits)| - 1 <= read && Idle(store.commits, read, mutate, result.config)
        invariant result.Conflicted? && KeepsVersion(mutate) ==> foreign >= attempt
        invariant result.Conflicted? || attempt > 0
        invariant local == old(local)
        decreases 2 - attempt
      {
        var k := 3 * attempt;
        var n;
        result, n := Attempt(store, mutate, others[k], others[k + 1], others[k + 2], flushes);
        foreign := foreign + n;
        attempt := attempt + 1;
      }
      if result.Updated? || result.Unchanged? {
        NotReached(this, store.global);
        local := Synced(result.config, local);
      }
    }
  }

  lemma NotReached(client: Client, c: HeapConfig)
    requires Formed(c)
    ensures client !in Arrays(c) && c.pools.arr in Arrays(c)
  {
  }
}
