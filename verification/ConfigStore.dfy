/** The one configuration all sessions share, and its commits: clone, mutate the clone, validate,
    write, swap. A commit writes no array that existed before it, which is all that keeps the
    snapshots handed out earlier from changing under their readers. */
module ConfigStore {
  import opened ConfigModel
  import opened PoolOps
  import opened ConfigHeap
  import opened Validation

  // ---- what an update function does to the configuration it is given ----

  /** `Restore` puts a whole configuration in place, such as a snapshot taken earlier, under the version there is. */
  datatype Edit =
    | Remove(name: string)
    | SetPool(id: string, request: PoolRequest)
    | Activate(name: string)
    | Restore(snapshot: Config)

  function Applied(c: Config, e: Edit): Outcome
  {
    match e
    case Remove(name) => RemoveSubscription(c, name)
    case SetPool(id, request) => EditPool(c, id, request)
    case Activate(name) =>
      var i := FindByName(c.subscriptions, name);
      if i < 0 then NotFound else Changed(c.(active := i))
    case Restore(snapshot) => Changed(snapshot.(version := c.version))
  }

  /** Activating makes the subscription of that name the active one, and restoring puts everything but the version
      back. */
  lemma AppliedMeans(c: Config, name: string, snapshot: Config)
    ensures Applied(c, Activate(name)).NotFound? <==> forall s | s in c.subscriptions :: s.name != name
    ensures var next := Applied(c, Activate(name));
            next.Changed? ==>
              && next.config == c.(active := next.config.active)
              && 0 <= next.config.active < |c.subscriptions| && c.subscriptions[next.config.active].name == name
    ensures Applied(c, Restore(snapshot)).Changed?
    ensures Applied(c, Restore(snapshot)).config.version == c.version
    ensures Applied(c, Restore(snapshot)).config.(version := snapshot.version) == snapshot
  {
  }

  /** All edits in order, given up at the first that fails. */
  function AppliedAll(c: Config, edits: seq<Edit>): Outcome
    decreases |edits|
  {
    if edits == [] then Changed(c)
    else
      var next := Applied(c, edits[0]);
      if next.Changed? then AppliedAll(next.config, edits[1..]) else next
  }

  method ApplyInPlace(c: HeapConfig, e: Edit) returns (ok: bool, next: HeapConfig)
    requires Formed(c)
    modifies Arrays(c)
    ensures Formed(next) && fresh(Arrays(next) - old(Arrays(c)))
    ensures ok == Applied(old(View(c)), e).Changed?
    ensures ok ==> View(next) == Applied(old(View(c)), e).config
  {
    hide View, RemoveSubscription, EditPool, Formed, MemberArrays, Elems, PoolsFormed;
    next := c;
    PoolsAmongArrays(c);
    match e
    case Remove(name) =>
      ok, next := RemoveSubscriptionInPlace(c, name);
    case SetPool(id, request) =>
      ok := EditPoolInPlace(c, id, request);
    case Activate(name) =>
      ok, next := ActivateInPlace(c, name);
    case Restore(snapshot) =>
      ok := true;
      SameBut(c, c);
      next := Decode(snapshot.(version := c.version));
  }

  method ActivateInPlace(c: HeapConfig, name: string) returns (ok: bool, next: HeapConfig)
    requires Formed(c)
    ensures Formed(next) && Arrays(next) == Arrays(c)
    ensures ok == Applied(View(c), Activate(name)).Changed?
    ensures ok ==> View(next) == Applied(View(c), Activate(name)).config
  {
    hide PoolValues;
    var i := FindByName(Elems(c.subscriptions), name);
    ok, next := i >= 0, c;
    if ok {
      next := c.(active := i);
    }
  }

  method ApplyAllInPlace(c: HeapConfig, edits: seq<Edit>) returns (ok: bool, next: HeapConfig)
    requires Formed(c)
    modifies Arrays(c)
    ensures Formed(next) && fresh(Arrays(next) - old(Arrays(c)))
    ensures ok == AppliedAll(old(View(c)), edits).Changed?
    ensures ok ==> View(next) == AppliedAll(old(View(c)), edits).config
  {
    hide View, Applied, Arrays;
    next := c;
    for i := 0 to |edits|
      invariant Formed(next) && fresh(Arrays(next) - old(Arrays(c)))
      invariant AppliedAll(View(next), edits[i..]) == AppliedAll(old(View(c)), edits)
    {
      assert edits[i..][0] == edits[i] && edits[i..][1..] == edits[i + 1..];
      ghost var mine := Arrays(next);
      ok, next := ApplyInPlace(next, edits[i]);
      assert forall o | o in Arrays(next) && o !in mine :: !old(allocated(o));
      if !ok {
        return false, next;
      }
    }
    ok := true;
  }

  // ---- the store ----

  /** Every commit after the first configuration is valid and one version up. */
  ghost predicate Sequenced(commits: seq<Config>)
  {
    forall k | 0 < k < |commits| :: commits[k].version == commits[k - 1].version + 1 && Valid(commits[k])
  }

  /** What a whole-configuration submission becomes: an absent secret and, in a root daemon, the
      paths of the machine are those of the server. */
  function Merged(req: Config, current: Config, root: bool): Config
  {
    var next := if req.secret == "" then req.(secret := current.secret) else req;
    if root then
      next.(configPath := current.configPath, binaryPath := current.binaryPath, logDir := current.logDir)
    else next
  }

  /** What a commit keeps of the configuration before it and takes from a submission: in a root daemon no path is
      taken from a client, an empty secret keeps the old one, and everything else is as submitted. */
  ghost predicate AsSubmitted(now: Config, req: Config, was: Config, root: bool)
  {
    && now.secret == (if req.secret == "" then was.secret else req.secret)
    && (root ==> SamePaths(now, was))
    && (!root ==> SamePaths(now, req))
    && now == req.(version := now.version, secret := now.secret, configPath := now.configPath,
                   binaryPath := now.binaryPath, logDir := now.logDir)
  }

  predicate SamePaths(a: Config, b: Config)
  {
    a.configPath == b.configPath && a.binaryPath == b.binaryPath && a.logDir == b.logDir
  }

  lemma MergedIsAsSubmitted(req: Config, was: Config, root: bool, version: int)
    ensures AsSubmitted(Merged(req, was, root).(version := version), req, was, root)
  {
  }

  datatype Commit = Committed(snapshot: HeapConfig) | Conflict | Failed

  /** A clone; what it was cloned from keeps its value. */
  method Snapshot(c: HeapConfig) returns (copy: HeapConfig)
    requires Formed(c)
    ensures Formed(c) && View(c) == old(View(c)) && Arrays(c) == old(Arrays(c))
    ensures Formed(copy) && fresh(Arrays(copy)) && View(copy) == View(c)
  {
    hide View, Arrays, Formed;
    PoolsAmongArrays(c);
    copy := Clone(c);
  }

  /** The update function's result on a clone; what it was cloned from keeps its value. */
  method EditedClone(current: HeapConfig, edits: seq<Edit>) returns (ok: bool, next: HeapConfig)
    requires Formed(current)
    ensures Formed(current) && View(current) == old(View(current)) && Arrays(current) == old(Arrays(current))
    ensures Formed(next) && fresh(Arrays(next))
    ensures ok == AppliedAll(View(current), edits).Changed?
    ensures ok ==> View(next) == AppliedAll(View(current), edits).config
  {
    hide AppliedAll, View, Arrays, Formed;
    PoolsAmongArrays(current);
    next := Clone(current);
    PoolsAmongArrays(next);
    ghost var mine := Arrays(next);
    ok, next := ApplyAllInPlace(next, edits);
    PoolsAmongArrays(next);
    assert forall o | o in Arrays(next) && o !in mine :: !old(allocated(o));
  }

  method MergedClone(req: HeapConfig, current: HeapConfig, root: bool) returns (next: HeapConfig)
    requires Formed(req) && Formed(current)
    ensures Formed(current) && View(current) == old(View(current)) && Arrays(current) == old(Arrays(current))
    ensures Formed(next) && fresh(Arrays(next))
    ensures View(next) == Merged(old(View(req)), View(current), root)
  {
    hide View, Arrays, Formed;
    ghost var was := View(req);
    PoolsAmongArrays(current);
    next := Snapshot(req);
    ghost var cloned := next;
    SameBut(cloned, cloned);
    SameBut(current, current);
    if next.secret == "" {
      next := next.(secret := current.secret);
    }
    if root {
      next := next.(configPath := current.configPath, binaryPath := current.binaryPath, logDir := current.logDir);
    }
    SameBut(cloned, next);
  }

  lemma OneMore(commits: seq<Config>, next: Config)
    requires Sequenced(commits) && Valid(next) && commits != [] && next.version == commits[|commits| - 1].version + 1
    ensures Sequenced(commits + [next])
  {
    hide Valid;
  }

  lemma PoolsAmongArrays(c: HeapConfig)
    requires Formed(c)
    ensures c.pools.len <= c.pools.arr.Length && c.pools.arr in Arrays(c)
    ensures forall o | o in Arrays(c) :: allocated(o)
  {
  }

  method Accepted(next: HeapConfig, current: HeapConfig) returns (ok: bool)
    requires Formed(next) && Formed(current)
    ensures Formed(next) && View(next) == old(View(next)) && Arrays(next) == old(Arrays(next))
    ensures Formed(current) && View(current) == old(View(current)) && Arrays(current) == old(Arrays(current))
    ensures ok <==> Valid(View(next))
  {
    hide Valid, PoolValues;
    var problems := Validate(View(next));
    ok := problems == [];
  }

  class Store {
    var global: HeapConfig
    const root: bool
    /** Every configuration there has been, the current one last. */
    ghost var commits: seq<Config>

    ghost predicate Ok()
      reads this, global.pools.arr
      reads if Formed(global) then Arrays(global) else {}
    {
      && Formed(global)
      && commits != [] && commits[|commits| - 1] == View(global)
      && Sequenced(commits)
    }

    /** Who owns the daemon, and the configuration it loaded at start. */
    constructor (loaded: HeapConfig, root: bool)
      requires Formed(loaded)
      ensures Ok() && global == loaded && commits == [View(loaded)]
    {
      global := loaded;
      this.root := root;
      commits := [View(loaded)];
    }

    /** A snapshot of the current configuration for a reader to keep. */
    method GlobalConfig() returns (snapshot: HeapConfig)
      requires Ok()
      ensures Ok()
      ensures Formed(snapshot) && fresh(Arrays(snapshot)) && View(snapshot) == commits[|commits| - 1]
    {
      hide View, Arrays, Formed, Sequenced;
      snapshot := Snapshot(global);
    }

    /** Validates, writes, and only then swaps: on any failure nothing has changed. */
    method CommitLocked(next: HeapConfig, flushes: bool) returns (result: Commit)
      requires Ok() && Formed(next)
      modifies this
      ensures Ok()
      ensures result.Committed? <==> old(Valid(View(next))) && flushes
      ensures result.Committed? ==>
                && commits == old(commits) + [old(View(next)).(version := old(View(global)).version + 1)]
                && Arrays(global) == old(Arrays(next))
                && Formed(result.snapshot) && fresh(Arrays(result.snapshot))
                && View(result.snapshot) == View(global)
      ensures !result.Committed? ==> result.Failed? && global == old(global) && commits == old(commits)
    {
      hide Valid, View, Arrays, Formed, Sequenced;
      NotAnArray(this, next);
      var accepted := Accepted(next, global);
      if !accepted || !flushes {
        return Failed;
      }
      ghost var was, before := View(next), commits;
      var committed := next.(version := global.version + 1);
      SameBut(global, global);
      SameBut(next, next);
      SameBut(next, committed);
      ValidWhateverVersion(View(next), committed.version);
      var snapshot := Snapshot(committed);
      NotAnArray(this, committed);
      NotAnArray(this, snapshot);
      global := committed;
      SameBut(committed, next);
      assert View(next) == was;
      OneMore(before, View(global));
      commits := commits + [View(global)];
      result := Committed(snapshot);
    }

    /** Commits what the edits make of the current configuration, or leaves it untouched: the edits
        rewrite arrays in place, but only those of a clone. */
    method UpdateGlobalConfig(edits: seq<Edit>, flushes: bool) returns (result: Commit)
      requires Ok()
      modifies this
      ensures Ok()
      ensures var want := AppliedAll(old(View(global)), edits);
              && (result.Committed? <==> want.Changed? && Valid(want.config) && flushes)
              && (result.Committed? ==>
                    && commits == old(commits) + [want.config.(version := old(View(global)).version + 1)]
                    && fresh(Arrays(global))
                    && Formed(result.snapshot) && fresh(Arrays(result.snapshot))
                    && View(result.snapshot) == View(global))
      ensures !result.Committed? ==> result.Failed? && global == old(global) && commits == old(commits)
    {
      hide Valid, AppliedAll, View, Arrays, Formed, Sequenced;
      NotAnArray(this, global);
      var ok, next := EditedClone(global, edits);
      if !ok {
        return Failed;
      }
      result := CommitLocked(next, flushes);
    }

    /** Replaces the whole configuration by one that was derived from the current version. */
    method ReplaceGlobalConfig(req: HeapConfig, flushes: bool) returns (result: Commit)
      requires Ok() && Formed(req)
      modifies this
      ensures Ok()
      ensures result.Conflict? <==> req.version != old(global.version)
      ensures var want := Merged(old(View(req)), old(View(global)), root);
              && (result.Committed? <==> req.version == old(global.version) && Valid(want) && flushes)
              && (result.Committed? ==>
                    && commits == old(commits) + [want.(version := req.version + 1)]
                    && AsSubmitted(View(global), old(View(req)), old(View(global)), root)
                    && fresh(Arrays(global))
                    && Formed(result.snapshot) && fresh(Arrays(result.snapshot))
                    && View(result.snapshot) == View(global))
      ensures !result.Committed? ==> global == old(global) && commits == old(commits)
    {
      hide Valid, View, Arrays, Formed, Sequenced, AsSubmitted, Merged;
      SameBut(global, global);
      SameBut(req, req);
      if req.version != global.version {
        return Conflict;
      }
      MergedIsAsSubmitted(View(req), View(global), root, req.version + 1);
      var next := MergedClone(req, global, root);
      SameBut(next, next);
      result := CommitLocked(next, flushes);
    }
  }

  lemma NotAnArray(store: Store, c: HeapConfig)
    requires Formed(c)
    ensures store !in Arrays(c) && c.pools.arr in Arrays(c)
  {
  }

  /** Single-valued fields are not reached through any array. */
  lemma SameBut(c: HeapConfig, next: HeapConfig)
    requires Formed(c)
    requires next == c.(version := next.version, secret := next.secret, configPath := next.configPath,
                        binaryPath := next.binaryPath, logDir := next.logDir)
    ensures Formed(next) && Arrays(next) == Arrays(c)
    ensures View(next) == View(c).(version := next.version, secret := next.secret, configPath := next.configPath,
                                   binaryPath := next.binaryPath, logDir := next.logDir)
  {
    hide PoolValues, PoolsFormed;
  }

  lemma ValidWhateverVersion(c: Config, version: int)
    requires Valid(c)
    ensures Valid(c.(version := version))
  {
  }
}
