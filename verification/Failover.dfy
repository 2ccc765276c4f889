/** Failing refreshes: counting them, switching a pool to its next usable member, and the bound on
    how often that can happen. */
module Failover {
  import opened ConfigModel
  import opened Sets
  import opened Text
  import opened Wrappers

  const THRESHOLD := 3

  /** The local copy of the subscription is among the cache files that exist. */
  predicate Cached(s: Subscription, files: set<string>)
  {
    s.cacheFile != "" && s.cacheFile in files
  }

  predicate Healthy(subs: seq<Subscription>, id: string)
  {
    var i := FindById(subs, id);
    i >= 0 && subs[i].failureCount < THRESHOLD
  }

  predicate Usable(subs: seq<Subscription>, id: string, files: set<string>)
  {
    Healthy(subs, id) && Cached(subs[FindById(subs, id)], files)
  }

  /** The first member in order, other than the failed one, that can take over. */
  function Successor(subs: seq<Subscription>, members: seq<string>, failed: string, files: set<string>)
      : (r: Option<string>)
    ensures match r
            case Some(id) => exists k: nat :: FirstUsable(subs, members, failed, files, k) && members[k] == id
            case None => forall m | m in members :: m == failed || !Usable(subs, m, files)
  {
    SuccessorFrom(subs, members, failed, files, 0)
  }

  ghost predicate FirstUsable(subs: seq<Subscription>, members: seq<string>, failed: string, files: set<string>, k: nat)
  {
    && k < |members| && members[k] != failed && Usable(subs, members[k], files)
    && forall j | 0 <= j < k :: members[j] == failed || !Usable(subs, members[j], files)
  }

  function SuccessorFrom(subs: seq<Subscription>, members: seq<string>, failed: string, files: set<string>, from: nat)
      : (r: Option<string>)
    requires from <= |members|
    requires forall j | 0 <= j < from :: members[j] == failed || !Usable(subs, members[j], files)
    ensures match r
            case Some(id) => exists k: nat :: FirstUsable(subs, members, failed, files, k) && members[k] == id
            case None => forall m | m in members :: m == failed || !Usable(subs, m, files)
    decreases |members| - from
  {
    if from == |members| then None
    else if members[from] != failed && Usable(subs, members[from], files) then
      assert FirstUsable(subs, members, failed, files, from);
      Some(members[from])
    else SuccessorFrom(subs, members, failed, files, from + 1)
  }

  /** The pool runs on the failed subscription, which has reached the threshold. */
  predicate Affected(p: Pool, subs: seq<Subscription>, failed: string)
  {
    && NormalizedMode(p.mode) == FAILOVER && p.enabled && p.activeMember == failed
    && FindById(subs, failed) >= 0 && subs[FindById(subs, failed)].failureCount >= THRESHOLD
  }

  function FailPool(p: Pool, subs: seq<Subscription>, failed: string, files: set<string>): Pool
  {
    if !Affected(p, subs, failed) then p
    else match Successor(subs, p.members, failed, files)
         case Some(id) => p.(activeMember := id, degraded := false)
         case None => p.(degraded := true)
  }

  function FailPools(pools: seq<Pool>, subs: seq<Subscription>, failed: string, files: set<string>): seq<Pool>
  {
    seq(|pools|, i requires 0 <= i < |pools| => FailPool(pools[i], subs, failed, files))
  }

  ghost predicate Switches(p: Pool, subs: seq<Subscription>, failed: string, files: set<string>)
  {
    Affected(p, subs, failed) && Successor(subs, p.members, failed, files).Some?
  }

  ghost predicate SwitchBefore(pools: seq<Pool>, i: nat, subs: seq<Subscription>, failed: string, files: set<string>)
    requires i <= |pools|
  {
    exists j | 0 <= j < i :: Switches(pools[j], subs, failed, files)
  }

  /** What the pass makes of a pool when the flag says that an earlier one has switched already. */
  function FailPoolFlagged(p: Pool, subs: seq<Subscription>, failed: string, files: set<string>, switched: bool): Pool
  {
    var q := FailPool(p, subs, failed, files);
    if switched && Affected(p, subs, failed) && Successor(subs, p.members, failed, files).None? then p else q
  }

  method FindSuccessor(subs: seq<Subscription>, members: seq<string>, failed: string, files: set<string>)
      returns (r: Option<string>)
    ensures r == Successor(subs, members, failed, files)
  {
    hide Usable;
    for i := 0 to |members|
      invariant forall j | 0 <= j < i :: members[j] == failed || !Usable(subs, members[j], files)
      invariant SuccessorFrom(subs, members, failed, files, i) == Successor(subs, members, failed, files)
    {
      if members[i] != failed && Usable(subs, members[i], files) {
        return Some(members[i]);
      }
    }
    r := None;
  }

  method FailOne(p: Pool, subs: seq<Subscription>, failed: string, files: set<string>, before: bool)
      returns (q: Pool, switched: bool)
    ensures q == FailPoolFlagged(p, subs, failed, files, before)
    ensures switched <==> before || Switches(p, subs, failed, files)
  {
    hide Successor, NormalizedMode;
    q, switched := p, before;
    if Affected(p, subs, failed) {
      var successor := FindSuccessor(subs, p.members, failed, files);
      if successor.Some? {
        q := p.(activeMember := successor.value, degraded := false);
        switched := true;
      }
      if !switched {
        q := q.(degraded := true);
      }
    }
  }

  /** The pass over all pools: one flag for whether anything has switched also decides whether a pool
      without a successor is marked degraded. */
  method FailoverSubscription(c: Config, failed: string, files: set<string>) returns (next: Config, switched: bool)
    ensures |next.pools| == |c.pools| && next == c.(pools := next.pools)
    ensures forall i | 0 <= i < |c.pools| ::
              next.pools[i] == FailPoolFlagged(c.pools[i], c.subscriptions, failed, files,
                                               SwitchBefore(c.pools, i, c.subscriptions, failed, files))
    ensures switched <==> SwitchBefore(c.pools, |c.pools|, c.subscriptions, failed, files)
  {
    hide Switches, FailPoolFlagged;
    var pools := c.pools;
    switched := false;
    for i := 0 to |pools|
      invariant |pools| == |c.pools|
      invariant forall j | i <= j < |pools| :: pools[j] == c.pools[j]
      invariant switched <==> SwitchBefore(c.pools, i, c.subscriptions, failed, files)
      invariant forall j | 0 <= j < i ::
                  pools[j] == FailPoolFlagged(c.pools[j], c.subscriptions, failed, files,
                                              SwitchBefore(c.pools, j, c.subscriptions, failed, files))
    {
      var p;
      p, switched := FailOne(pools[i], c.subscriptions, failed, files, switched);
      pools := pools[i := p];
    }
    next := c.(pools := pools);
  }

  /** With disjoint members at most one pool is affected, so sharing the flag is harmless: every pool
      fails over by itself. */
  lemma SharedFlagIsSound(c: Config, failed: string, files: set<string>, i: nat)
    requires PoolsOk(c.pools, c.subscriptions) && SubscriptionsOk(c.subscriptions) && i < |c.pools|
    ensures FailPoolFlagged(c.pools[i], c.subscriptions, failed, files,
                            SwitchBefore(c.pools, i, c.subscriptions, failed, files))
            == FailPool(c.pools[i], c.subscriptions, failed, files)
  {
    hide Successor, FailPool, NormalizedMode;
    var subs := c.subscriptions;
    if SwitchBefore(c.pools, i, subs, failed, files) {
      var j :| 0 <= j < i && Switches(c.pools[j], subs, failed, files);
      assert SubscriptionOk(subs[FindById(subs, failed)]);
      assert PoolOk(c.pools[i], subs) && PoolOk(c.pools[j], subs);
      assert failed in c.pools[j].members;
      assert Disjoint(c.pools[j], c.pools[i]);
      assert !Affected(c.pools[i], subs, failed);
    }
  }

  // ---- one failed refresh ----

  function CountFailure(subs: seq<Subscription>, id: string): (next: seq<Subscription>)
    ensures |next| == |subs|
    ensures forall i | 0 <= i < |subs| :: next[i].id == subs[i].id
  {
    var i := FindById(subs, id);
    if i < 0 then subs else subs[i := subs[i].(failureCount := subs[i].failureCount + 1)]
  }

  /** The configuration after a refresh of this subscription has failed. */
  function Failed(c: Config, id: string, files: set<string>): (next: Config)
    ensures |next.pools| == |c.pools|
  {
    var subs := CountFailure(c.subscriptions, id);
    if FindById(c.subscriptions, id) < 0 then c
    else c.(subscriptions := subs, pools := FailPools(c.pools, subs, id, files))
  }

  /** One commit of a refresh. A refresh that fails makes two, and others may commit in between; `Succeeded` is
      the one commit of a refresh that works. */
  datatype Step =
    | Counted(id: string)
    | Switched(id: string, files: set<string>)
    | Succeeded(id: string, cacheFile: string, digest: string)

  function After(c: Config, step: Step): (next: Config)
    ensures |next.pools| == |c.pools|
  {
    match step
    case Counted(id) => c.(subscriptions := CountFailure(c.subscriptions, id))
    case Switched(id, files) => c.(pools := FailPools(c.pools, c.subscriptions, id, files))
    case Succeeded(id, cacheFile, digest) => c.(subscriptions := Refreshed(c.subscriptions, id, cacheFile, digest))
  }

  function Refreshed(subs: seq<Subscription>, id: string, cacheFile: string, digest: string): (next: seq<Subscription>)
    ensures |next| == |subs|
    ensures forall i | 0 <= i < |subs| :: next[i].id == subs[i].id
  {
    var i := FindById(subs, id);
    if i < 0 then subs
    else subs[i := subs[i].(cacheFile := cacheFile, digest := digest, failureCount := 0)]
  }

  method CountRefresh(c: Config, id: string) returns (ok: bool, next: Config)
    ensures next == After(c, Counted(id)) && (ok <==> FindById(c.subscriptions, id) >= 0)
  {
    var i := FindById(c.subscriptions, id);
    ok, next := i >= 0, c;
    if ok {
      next := c.(subscriptions := c.subscriptions[i := c.subscriptions[i].(
        failureCount := c.subscriptions[i].failureCount + 1)]);
    }
  }

  method SwitchPools(c: Config, id: string, files: set<string>) returns (next: Config)
    requires PoolsOk(c.pools, c.subscriptions) && SubscriptionsOk(c.subscriptions)
    ensures next == After(c, Switched(id, files))
  {
    hide PoolsOk, SubscriptionsOk, FailPool, FailPoolFlagged;
    var switched;
    next, switched := FailoverSubscription(c, id, files);
    forall k | 0 <= k < |c.pools|
      ensures next.pools[k] == FailPool(c.pools[k], c.subscriptions, id, files)
    {
      SharedFlagIsSound(c, id, files, k);
    }
    assert next.pools == FailPools(c.pools, c.subscriptions, id, files);
  }

  /** The two commits a failed refresh makes, with nobody in between. */
  method RefreshFailed(c: Config, id: string, files: set<string>) returns (next: Config)
    requires PoolsOk(c.pools, c.subscriptions) && SubscriptionsOk(c.subscriptions)
    ensures next == Failed(c, id, files)
  {
    hide PoolOk, SubscriptionOk, FailPool, Disjoint;
    var ok;
    ok, next := CountRefresh(c, id);
    if ok {
      CountingKeepsOk(c, id);
      next := SwitchPools(next, id, files);
    }
  }

  lemma SameIdsSameIndex(subs: seq<Subscription>, next: seq<Subscription>, id: string)
    requires |next| == |subs| && forall i | 0 <= i < |subs| :: next[i].id == subs[i].id
    ensures FindById(next, id) == FindById(subs, id)
  {
  }

  lemma CountingKeepsOk(c: Config, id: string)
    requires PoolsOk(c.pools, c.subscriptions) && SubscriptionsOk(c.subscriptions)
    ensures var subs := CountFailure(c.subscriptions, id);
            SubscriptionsOk(subs) && PoolsOk(c.pools, subs)
  {
    hide Disjoint;
    var subs := CountFailure(c.subscriptions, id);
    forall m: string
      ensures FindById(subs, m) == FindById(c.subscriptions, m)
    {
      SameIdsSameIndex(c.subscriptions, subs, m);
    }
    forall k | 0 <= k < |c.pools|
      ensures PoolOk(c.pools[k], subs)
    {
      assert PoolOk(c.pools[k], c.subscriptions);
    }
  }

  lemma FailPoolKeepsOk(p: Pool, subs: seq<Subscription>, failed: string, files: set<string>)
    requires PoolOk(p, subs)
    ensures PoolOk(FailPool(p, subs, failed, files), subs)
    ensures FailPool(p, subs, failed, files).members == p.members
    ensures FailPool(p, subs, failed, files).id == p.id
  {
    hide Blank, Usable;
  }

  /** Each commit of a refresh keeps a valid configuration valid, so none is refused. */
  lemma StepKeepsValid(c: Config, step: Step)
    requires Valid(c)
    ensures Valid(After(c, step))
  {
    hide SettingsOk, ProvidersOk, BuiltInsOk, IsMatchRule, FailPool, PoolOk, FailPools;
    match step
    case Counted(id) => CountingKeepsOk(c, id);
    case Switched(id, files) => SwitchingKeepsOk(c, id, files);
    case Succeeded(id, cacheFile, digest) => SuccessKeepsOk(c, id, cacheFile, digest);
  }

  lemma SwitchingKeepsOk(c: Config, id: string, files: set<string>)
    requires PoolsOk(c.pools, c.subscriptions)
    ensures PoolsOk(FailPools(c.pools, c.subscriptions, id, files), c.subscriptions)
  {
    hide FailPool, PoolOk;
    var next := FailPools(c.pools, c.subscriptions, id, files);
    forall k | 0 <= k < |c.pools|
      ensures PoolOk(next[k], c.subscriptions) && next[k].members == c.pools[k].members && next[k].id == c.pools[k].id
    {
      FailPoolKeepsOk(c.pools[k], c.subscriptions, id, files);
    }
    forall i, j | 0 <= i < j < |next|
      ensures Disjoint(next[i], next[j])
    {
      assert Disjoint(c.pools[i], c.pools[j]);
    }
  }

  lemma SuccessKeepsOk(c: Config, id: string, cacheFile: string, digest: string)
    requires PoolsOk(c.pools, c.subscriptions) && SubscriptionsOk(c.subscriptions)
    ensures var subs := Refreshed(c.subscriptions, id, cacheFile, digest);
            SubscriptionsOk(subs) && PoolsOk(c.pools, subs)
  {
    hide Disjoint;
    var subs := Refreshed(c.subscriptions, id, cacheFile, digest);
    forall m: string
      ensures FindById(subs, m) == FindById(c.subscriptions, m)
    {
      SameIdsSameIndex(c.subscriptions, subs, m);
    }
    forall k | 0 <= k < |c.pools|
      ensures PoolOk(c.pools[k], subs)
    {
      assert PoolOk(c.pools[k], c.subscriptions);
    }
  }

  /** A failed refresh with nobody in between is its two commits. */
  lemma FailedIsTwoSteps(c: Config, id: string, files: set<string>)
    requires FindById(c.subscriptions, id) >= 0
    ensures Failed(c, id, files) == After(After(c, Counted(id)), Switched(id, files))
  {
    hide FailPools;
  }

  /** A pool leaves its active member only when that one has now failed three times or more in a row,
      and for the first member in order that has a cache and has failed less often. */
  lemma LeavesOnlyFailing(c: Config, id: string, files: set<string>, k: nat)
    requires PoolsOk(c.pools, c.subscriptions) && k < |c.pools|
    requires Failed(c, id, files).pools[k].activeMember != c.pools[k].activeMember
    ensures var subs, p, next := CountFailure(c.subscriptions, id), c.pools[k], Failed(c, id, files).pools[k];
            && p.activeMember == id && subs[FindById(subs, id)].failureCount >= THRESHOLD
            && exists m: nat :: FirstUsable(subs, p.members, id, files, m) && next.activeMember == p.members[m]
  {
    hide PoolOk, Disjoint, NormalizedMode;
  }

  /** Which pools a failed refresh concerns: those that are enabled, fail over, and run on it, once it has failed
      three times; the others stay as they are. Of those only the active member and the mark change: to a member
      with a cache that has failed less often, and unmarked, or none and marked. */
  lemma FailoverMeans(c: Config, failed: string, files: set<string>, k: nat)
    requires k < |c.pools|
    ensures var p, q := c.pools[k], After(c, Switched(failed, files)).pools[k];
            var i := FindById(c.subscriptions, failed);
            && q == p.(activeMember := q.activeMember, degraded := q.degraded)
            && (q != p ==>
                  && p.enabled && p.mode in {"", "failover"} && p.activeMember == failed
                  && i >= 0 && c.subscriptions[i].failureCount >= 3)
            && (q.activeMember != p.activeMember ==>
                  var j := FindById(c.subscriptions, q.activeMember);
                  && q.activeMember in p.members && j >= 0 && c.subscriptions[j].failureCount < 3
                  && c.subscriptions[j].cacheFile != "" && c.subscriptions[j].cacheFile in files && !q.degraded)
            && (q.activeMember == p.activeMember && q != p ==> q.degraded)
  {
    assert |MERGE| == 5 && |FAILOVER| == 8;
  }

  // ---- runs of refreshes ----

  /** How often pool `k` changes its active member along the run. */
  function Switchings(c: Config, steps: seq<Step>, k: nat): nat
    requires k < |c.pools|
    decreases |steps|
  {
    if steps == [] then 0
    else
      var next := After(c, steps[0]);
      (if next.pools[k].activeMember != c.pools[k].activeMember then 1 else 0)
      + Switchings(next, steps[1..], k)
  }

  function Successes(steps: seq<Step>): nat
  {
    if steps == [] then 0 else (if steps[0].Succeeded? then 1 else 0) + Successes(steps[1..])
  }

  /** The members a pool could still switch to, whatever their caches. */
  function Spare(p: Pool, subs: seq<Subscription>): set<string>
  {
    set m | m in p.members && m != p.activeMember && Healthy(subs, m)
  }

  lemma CountingSparesNoMore(c: Config, id: string, p: Pool)
    ensures Spare(p, CountFailure(c.subscriptions, id)) <= Spare(p, c.subscriptions)
  {
    var subs := CountFailure(c.subscriptions, id);
    forall m: string
      ensures FindById(subs, m) == FindById(c.subscriptions, m)
      ensures Healthy(subs, m) ==> Healthy(c.subscriptions, m)
    {
      SameIdsSameIndex(c.subscriptions, subs, m);
    }
  }

  /** A switch uses a spare member up. */
  lemma SwitchUsesUp(c: Config, id: string, files: set<string>, k: nat)
    requires k < |c.pools|
    ensures var p, q := c.pools[k], After(c, Switched(id, files)).pools[k];
            && Spare(q, c.subscriptions) <= Spare(p, c.subscriptions)
            && (q.activeMember != p.activeMember ==>
                  q.activeMember in Spare(p, c.subscriptions) && q.activeMember !in Spare(q, c.subscriptions))
  {
    hide NormalizedMode;
  }

  lemma SuccessSparesOneMore(c: Config, id: string, cacheFile: string, digest: string, p: Pool)
    ensures Spare(p, Refreshed(c.subscriptions, id, cacheFile, digest)) <= Spare(p, c.subscriptions) + {id}
  {
    var subs := Refreshed(c.subscriptions, id, cacheFile, digest);
    forall m: string
      ensures FindById(subs, m) == FindById(c.subscriptions, m)
      ensures m != id && Healthy(subs, m) ==> Healthy(c.subscriptions, m)
    {
      SameIdsSameIndex(c.subscriptions, subs, m);
    }
  }

  lemma StepSpares(c: Config, step: Step, k: nat)
    requires k < |c.pools|
    ensures var next := After(c, step); var p, q := c.pools[k], next.pools[k];
            (if q.activeMember != p.activeMember then 1 else 0) + |Spare(q, next.subscriptions)|
            <= |Spare(p, c.subscriptions)| + if step.Succeeded? then 1 else 0
  {
    hide Spare, CountFailure, Refreshed, FailPools;
    var next := After(c, step);
    var p, q := c.pools[k], next.pools[k];
    var left, spare := Spare(q, next.subscriptions), Spare(p, c.subscriptions);
    match step
    case Counted(id) =>
      CountingSparesNoMore(c, id, p);
      SubsetIsSmaller(left, spare);
    case Switched(id, files) =>
      SwitchUsesUp(c, id, files, k);
      SubsetIsSmaller(left, if q.activeMember != p.activeMember then spare - {q.activeMember} else spare);
    case Succeeded(id, cacheFile, digest) =>
      SuccessSparesOneMore(c, id, cacheFile, digest, p);
      SubsetIsSmaller(left, spare + {id});
  }

  /** However the commits of any number of refreshes interleave, and whatever caches come and go, a pool
      switches no more often than it has spare members and refreshes succeed: while all fail, at most once
      for every member but its first active one. */
  lemma {:induction false} FailoverIsBounded(c: Config, steps: seq<Step>, k: nat)
    requires k < |c.pools|
    ensures Switchings(c, steps, k) <= |Spare(c.pools[k], c.subscriptions)| + Successes(steps)
    decreases |steps|
  {
    hide After, Spare;
    if steps != [] {
      StepSpares(c, steps[0], k);
      FailoverIsBounded(After(c, steps[0]), steps[1..], k);
    }
  }

  // ---- what the count counts ----

  function Run(c: Config, steps: seq<Step>): (end: Config)
    ensures |end.pools| == |c.pools|
  {
    if steps == [] then c else After(Run(c, steps[..|steps| - 1]), steps[|steps| - 1])
  }

  /** Failed refreshes of the subscription since its last successful one, or since the start. */
  function FailuresSince(steps: seq<Step>, id: string): nat
  {
    if steps == [] then 0
    else
      var last, before := steps[|steps| - 1], steps[..|steps| - 1];
      if last.Succeeded? && last.id == id then 0
      else FailuresSince(before, id) + if last == Counted(id) then 1 else 0
  }

  predicate HasSucceeded(steps: seq<Step>, id: string)
  {
    exists i | 0 <= i < |steps| :: steps[i].Succeeded? && steps[i].id == id
  }

  lemma StepCounts(c: Config, step: Step, id: string)
    ensures var subs, next := c.subscriptions, After(c, step).subscriptions;
            && FindById(next, id) == FindById(subs, id)
            && (FindById(subs, id) >= 0 ==>
                  next[FindById(subs, id)].failureCount
                  == if step.Succeeded? && step.id == id then 0
                     else subs[FindById(subs, id)].failureCount + if step == Counted(id) then 1 else 0)
  {
    hide FailPools;
    SameIdsSameIndex(c.subscriptions, After(c, step).subscriptions, id);
    if !step.Switched? {
      SameIdsSameIndex(c.subscriptions, After(c, step).subscriptions, step.id);
    }
  }

  /** At every point of a run, whatever interleaves, the count of a subscription is the number of its failed
      refreshes since the last successful one, on top of the count it started with if there was none. */
  lemma {:induction false} CountIsFailures(c: Config, steps: seq<Step>, id: string)
    requires FindById(c.subscriptions, id) >= 0
    ensures var i := FindById(c.subscriptions, id); var end := Run(c, steps);
            && FindById(end.subscriptions, id) == i
            && end.subscriptions[i].failureCount
               == FailuresSince(steps, id) + if HasSucceeded(steps, id) then 0 else c.subscriptions[i].failureCount
  {
    hide After;
    if steps != [] {
      var n := |steps| - 1;
      CountIsFailures(c, steps[..n], id);
      StepCounts(Run(c, steps[..n]), steps[n], id);
      assert forall i | 0 <= i < n :: steps[..n][i] == steps[i];
    }
  }

  /** So no pool leaves a member that started without failures before three refreshes of it have failed with none
      succeeding in between. */
  lemma LeavesAfterThree(c: Config, steps: seq<Step>, step: Step, k: nat)
    requires k < |c.pools|
    requires var id := Run(c, steps).pools[k].activeMember; var i := FindById(c.subscriptions, id);
             i >= 0 && c.subscriptions[i].failureCount == 0
    requires Run(c, steps + [step]).pools[k].activeMember != Run(c, steps).pools[k].activeMember
    ensures FailuresSince(steps, Run(c, steps).pools[k].activeMember) >= 3
  {
    hide CountFailure, Refreshed, NormalizedMode, Successor;
    var before := Run(c, steps);
    assert (steps + [step])[..|steps|] == steps;
    assert Run(c, steps + [step]) == After(before, step);
    CountIsFailures(c, steps, before.pools[k].activeMember);
    assert Affected(before.pools[k], before.subscriptions, before.pools[k].activeMember);
  }

  /** With an active member the spare ones are fewer than the members. */
  lemma SpareIsFewer(p: Pool, subs: seq<Subscription>)
    requires p.activeMember in p.members
    ensures |Spare(p, subs)| <= |p.members| - 1
  {
    var all := set m | m in p.members;
    MembersAtMost(p.members);
    SubsetIsSmaller(Spare(p, subs), all - {p.activeMember});
  }

  lemma {:induction false} MembersAtMost(members: seq<string>)
    ensures |set m | m in members| <= |members|
  {
    if members != [] {
      var rest := members[1..];
      MembersAtMost(rest);
      assert (set m | m in members) == (set m | m in rest) + {members[0]};
    } else {
      assert (set m | m in members) == {};
    }
  }

  /** A failing refresh of an active member at the threshold either switches the pool or marks it
      degraded; with no spare member left it marks it degraded. */
  lemma SwitchesOrDegrades(c: Config, id: string, files: set<string>, k: nat)
    requires k < |c.pools| && Affected(c.pools[k], CountFailure(c.subscriptions, id), id)
    ensures var p, q := c.pools[k], Failed(c, id, files).pools[k];
            && (q.activeMember != p.activeMember || q.degraded)
            && (Spare(p, c.subscriptions) == {} ==> q.degraded && q.activeMember == p.activeMember)
  {
    hide NormalizedMode;
    var subs := CountFailure(c.subscriptions, id);
    forall m: string
      ensures FindById(subs, m) == FindById(c.subscriptions, m)
    {
      SameIdsSameIndex(c.subscriptions, subs, m);
    }
    assert forall m | m in c.pools[k].members && m != id && Healthy(subs, m) :: m in Spare(c.pools[k], c.subscriptions);
  }
}
