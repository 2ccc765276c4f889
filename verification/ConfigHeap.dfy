/** The configuration as it lives on the heap: a struct whose slices share backing arrays with
    every shallow copy of it. Mutations filter and shift those arrays in place, so a snapshot
    is only safe because cloning copies every array, the members of each pool included. */
module ConfigHeap {
  import opened ConfigModel
  import opened PoolOps

  /** A slice from the start of its backing array; `arr[len..]` is spare capacity. */
  datatype Slice<T> = Slice(arr: array<T>, len: nat)

  function Elems<T>(s: Slice<T>): seq<T>
    requires s.len <= s.arr.Length
    reads s.arr
  {
    s.arr[..s.len]
  }

  datatype HeapPool = HeapPool(
    id: string, name: string, mode: string, members: Slice<string>, activeMember: string,
    enabled: bool, refreshInterval: int, degraded: bool)

  datatype HeapConfig = HeapConfig(
    version: int, tun: bool, secret: string, configPath: string, binaryPath: string, logDir: string,
    settings: Settings,
    subscriptions: Slice<Subscription>, active: int, pools: Slice<HeapPool>,
    providers: Slice<RuleProvider>, builtInsReady: bool, builtIns: Slice<BuiltInRule>,
    preRules: Slice<string>, postRules: Slice<string>)

  /** The arrays of pool members, one per pool. */
  ghost function MemberArrays(pools: Slice<HeapPool>): set<object>
    requires pools.len <= pools.arr.Length
    reads pools.arr
  {
    set i | 0 <= i < pools.len :: pools.arr[i].members.arr as object
  }

  /** Everything the configuration can be changed through. */
  ghost function Arrays(c: HeapConfig): set<object>
    requires c.pools.len <= c.pools.arr.Length
    reads c.pools.arr
  {
    {c.subscriptions.arr as object, c.pools.arr, c.providers.arr, c.builtIns.arr, c.preRules.arr, c.postRules.arr}
    + MemberArrays(c.pools)
  }

  ghost predicate PoolsFormed(pools: Slice<HeapPool>)
    reads pools.arr
  {
    && pools.len <= pools.arr.Length
    && (forall i | 0 <= i < pools.len :: pools.arr[i].members.len <= pools.arr[i].members.arr.Length)
    && (forall i, j | 0 <= i < j < pools.len :: pools.arr[i].members.arr != pools.arr[j].members.arr)
  }

  /** Lengths fit, and no two pools share a member array. */
  ghost predicate Formed(c: HeapConfig)
    reads c.pools.arr
  {
    && PoolsFormed(c.pools)
    && c.subscriptions.len <= c.subscriptions.arr.Length
    && c.providers.len <= c.providers.arr.Length
    && c.builtIns.len <= c.builtIns.arr.Length
    && c.preRules.len <= c.preRules.arr.Length
    && c.postRules.len <= c.postRules.arr.Length
    && c.preRules.arr !in MemberArrays(c.pools)
    && c.postRules.arr !in MemberArrays(c.pools)
  }

  function PoolValue(p: HeapPool): Pool
    requires p.members.len <= p.members.arr.Length
    reads p.members.arr
  {
    Pool(p.id, p.name, p.mode, Elems(p.members), p.activeMember, p.enabled, p.refreshInterval, p.degraded)
  }

  function PoolValues(pools: Slice<HeapPool>): (values: seq<Pool>)
    requires PoolsFormed(pools)
    reads pools.arr, MemberArrays(pools)
    ensures |values| == pools.len
  {
    seq(pools.len, i requires 0 <= i < pools.len && PoolsFormed(pools) reads pools.arr, MemberArrays(pools) =>
      PoolValue(pools.arr[i]))
  }

  /** The configuration as a value: what a reader of the struct sees. */
  function View(c: HeapConfig): Config
    requires Formed(c)
    reads c.pools.arr, Arrays(c)
  {
    Config(c.version, c.tun, c.secret, c.configPath, c.binaryPath, c.logDir, c.settings,
           Elems(c.subscriptions), c.active, PoolValues(c.pools),
           Elems(c.providers), c.builtInsReady, Elems(c.builtIns), Elems(c.preRules), Elems(c.postRules))
  }

  method CopySlice<T>(s: Slice<T>) returns (copy: Slice<T>)
    requires s.len <= s.arr.Length
    ensures fresh(copy.arr) && copy.len == copy.arr.Length == s.len
    ensures Elems(copy) == Elems(s)
  {
    var arr := new T[s.len](i requires 0 <= i < s.len <= s.arr.Length reads s.arr => s.arr[i]);
    copy := Slice(arr, s.len);
  }

  method ClonePool(p: HeapPool) returns (copy: HeapPool)
    requires p.members.len <= p.members.arr.Length
    ensures fresh(copy.members.arr) && copy.members.len <= copy.members.arr.Length
    ensures PoolValue(copy) == PoolValue(p)
  {
    var members := CopySlice(p.members);
    copy := p.(members := members);
  }

  lemma PoolByPool(a: Slice<HeapPool>, b: Slice<HeapPool>)
    requires PoolsFormed(a) && PoolsFormed(b) && a.len == b.len
    requires forall j | 0 <= j < a.len :: PoolValue(a.arr[j]) == PoolValue(b.arr[j])
    ensures PoolValues(a) == PoolValues(b)
  {
    hide PoolValue;
  }

  /** The pools of a clone: every pool gets a member array of its own. */
  method ClonePools(pools: Slice<HeapPool>) returns (copy: Slice<HeapPool>)
    requires PoolsFormed(pools)
    ensures PoolsFormed(copy) && fresh(copy.arr) && fresh(MemberArrays(copy))
    ensures PoolValues(copy) == PoolValues(pools)
  {
    hide PoolValue, PoolValues;
    copy := CopySlice(pools);
    CloneMembers(pools, copy);
    PoolByPool(copy, pools);
  }

  /** Gives the pools of a copied slice member arrays of their own, one by one. */
  method CloneMembers(pools: Slice<HeapPool>, copy: Slice<HeapPool>)
    requires PoolsFormed(pools) && copy.len == pools.len <= copy.arr.Length && copy.arr != pools.arr
    requires Elems(copy) == Elems(pools)
    modifies copy.arr
    ensures PoolsFormed(copy) && fresh(MemberArrays(copy))
    ensures forall j | 0 <= j < pools.len :: PoolValue(copy.arr[j]) == PoolValue(pools.arr[j])
  {
    hide PoolValue;
    var arr := copy.arr;
    ghost var mine: seq<array<string>> := [];
    assert forall j | 0 <= j < pools.len :: Elems(copy)[j] == Elems(pools)[j];
    for i := 0 to pools.len
      invariant |mine| == i && (forall m | m in mine :: fresh(m))
      invariant forall j, k | 0 <= j < k < i :: mine[j] != mine[k]
      invariant forall j | 0 <= j < i :: arr[j].members.arr == mine[j] && arr[j].members.len <= mine[j].Length
      invariant forall j | 0 <= j < i :: PoolValue(arr[j]) == PoolValue(pools.arr[j])
      invariant forall j | i <= j < pools.len :: arr[j] == pools.arr[j]
    {
      var p := ClonePool(arr[i]);
      mine := mine + [p.members.arr];
      arr[i] := p;
    }
    assert forall j | 0 <= j < pools.len :: arr[j].members.arr in mine;
  }

  /** A deep copy: equal in value, sharing no array with anything that existed before. */
  method Clone(c: HeapConfig) returns (copy: HeapConfig)
    requires Formed(c)
    ensures Formed(copy) && fresh(Arrays(copy))
    ensures View(copy) == View(c)
  {
    hide Elems, PoolValue, PoolValues;
    var subscriptions := CopySlice(c.subscriptions);
    var providers := CopySlice(c.providers);
    var builtIns := CopySlice(c.builtIns);
    var preRules := CopySlice(c.preRules);
    var postRules := CopySlice(c.postRules);
    var pools := ClonePools(c.pools);
    copy := c.(subscriptions := subscriptions, pools := pools, providers := providers,
               builtIns := builtIns, preRules := preRules, postRules := postRules);
  }

  /** Keeps, in place, the members not dropped, and returns how many are left. Whoever still
      reads the old slice finds the kept members followed by the unchanged rest of the array. */
  method FilterInPlace(members: Slice<string>, drop: set<string>) returns (kept: nat)
    requires members.len <= members.arr.Length
    modifies members.arr
    ensures kept <= members.len
    ensures members.arr[..kept] == Without(old(Elems(members)), drop)
    ensures members.arr[kept..] == old(members.arr[kept..])
  {
    hide Without;
    kept := 0;
    var arr := members.arr;
    ghost var was := arr[..];
    ghost var done := [];
    assert done == Without(was[..0], drop) by { WithoutNothing(drop); }
    for i := 0 to members.len
      invariant kept == |done| <= i
      invariant done == Without(was[..i], drop)
      invariant forall j | 0 <= j < kept :: arr[j] == done[j]
      invariant forall j | kept <= j < arr.Length :: arr[j] == was[j]
    {
      Advance(was, i, drop);
      var id := arr[i];
      if id !in drop {
        arr[kept] := id;
        kept := kept + 1;
        done := done + [id];
      }
    }
    assert was[..members.len] == old(Elems(members));
  }

  lemma WithoutNothing(drop: set<string>)
    ensures Without([], drop) == []
  {
  }

  lemma Advance(was: seq<string>, i: nat, drop: set<string>)
    requires i < |was|
    ensures Without(was[..i + 1], drop) == Without(was[..i], drop) + if was[i] in drop then [] else [was[i]]
  {
    assert was[..i + 1] == was[..i] + [was[i]];
    WithoutAppend(was[..i], was[i], drop);
  }

  lemma {:induction false} WithoutAppend(members: seq<string>, id: string, drop: set<string>)
    ensures Without(members + [id], drop) == Without(members, drop) + if id in drop then [] else [id]
  {
    if members != [] {
      assert (members + [id])[1..] == members[1..] + [id];
      WithoutAppend(members[1..], id, drop);
    }
  }

  /** Closes the gap at `idx` by shifting what follows. */
  method ShiftDown<T>(subs: Slice<T>, idx: nat) returns (rest: Slice<T>)
    requires idx < subs.len <= subs.arr.Length
    modifies subs.arr
    ensures rest == Slice(subs.arr, subs.len - 1)
    ensures Elems(rest) == RemoveAt(old(Elems(subs)), idx)
  {
    var arr := subs.arr;
    ghost var was := Elems(subs);
    for i := idx to subs.len - 1
      invariant forall j | 0 <= j < idx :: arr[j] == was[j]
      invariant forall j | idx <= j < i :: arr[j] == was[j + 1]
      invariant forall j | i <= j < subs.len :: arr[j] == was[j]
    {
      arr[i] := arr[i + 1];
    }
    rest := Slice(arr, subs.len - 1);
    assert forall j | 0 <= j < rest.len :: Elems(rest)[j] == RemoveAt(was, idx)[j];
  }

  // ---- mutating in place ----

  method RemoveFromPoolInPlace(p: HeapPool, id: string) returns (next: HeapPool)
    requires p.members.len <= p.members.arr.Length
    modifies p.members.arr
    ensures next.members.arr == p.members.arr && next.members.len <= p.members.len
    ensures PoolValue(next) == RemoveFromPool(old(PoolValue(p)), id)
  {
    var kept := FilterInPlace(p.members, {id});
    next := p.(members := Slice(p.members.arr, kept));
    if next.activeMember == id {
      next := next.(activeMember := if kept > 0 then next.members.arr[0] else "");
    }
    if kept == 0 {
      next := next.(enabled := false, degraded := true);
    }
  }

  method TakeFromPoolInPlace(p: HeapPool, wanted: set<string>) returns (next: HeapPool)
    requires p.members.len <= p.members.arr.Length
    modifies p.members.arr
    ensures next.members.arr == p.members.arr && next.members.len <= p.members.len
    ensures PoolValue(next) == TakeFromPool(old(PoolValue(p)), wanted)
  {
    var kept := FilterInPlace(p.members, wanted);
    next := p.(members := Slice(p.members.arr, kept));
    if next.activeMember in wanted {
      if kept > 0 {
        next := next.(activeMember := next.members.arr[0]);
      } else {
        next := next.(activeMember := "", enabled := false, degraded := true);
      }
    }
  }

  /** Puts a pool back whose member array may have been filtered. */
  method PutBack(pools: Slice<HeapPool>, i: nat, p: HeapPool, ghost values: seq<Pool>)
    requires pools.len <= pools.arr.Length && i < pools.len == |values|
    requires forall j | 0 <= j < pools.len :: pools.arr[j].members.len <= pools.arr[j].members.arr.Length
    requires forall j, k | 0 <= j < k < pools.len :: pools.arr[j].members.arr != pools.arr[k].members.arr
    requires forall j | 0 <= j < pools.len && j != i :: PoolValue(pools.arr[j]) == values[j]
    requires p.members.arr == pools.arr[i].members.arr && p.members.len <= p.members.arr.Length
    modifies pools.arr
    ensures PoolsFormed(pools) && MemberArrays(pools) == old(MemberArrays(pools))
    ensures PoolValues(pools) == values[i := PoolValue(p)]
  {
    hide PoolValue;
    pools.arr[i] := p;
    assert forall j | 0 <= j < pools.len :: pools.arr[j].members.arr == old(pools.arr[j].members.arr);
  }

  method RemoveFromPoolAt(pools: Slice<HeapPool>, i: nat, id: string)
    requires PoolsFormed(pools) && i < pools.len
    modifies pools.arr, MemberArrays(pools)
    ensures PoolsFormed(pools) && MemberArrays(pools) == old(MemberArrays(pools))
    ensures PoolValues(pools) == old(PoolValues(pools))[i := RemoveFromPool(old(PoolValues(pools))[i], id)]
  {
    hide PoolValue, RemoveFromPool;
    ghost var values := PoolValues(pools);
    assert forall j | 0 <= j < pools.len :: PoolValue(pools.arr[j]) == values[j];
    var p := RemoveFromPoolInPlace(pools.arr[i], id);
    PutBack(pools, i, p, values);
  }

  method TakeFromPoolAt(pools: Slice<HeapPool>, i: nat, wanted: set<string>)
    requires PoolsFormed(pools) && i < pools.len
    modifies pools.arr, MemberArrays(pools)
    ensures PoolsFormed(pools) && MemberArrays(pools) == old(MemberArrays(pools))
    ensures PoolValues(pools) == old(PoolValues(pools))[i := TakeFromPool(old(PoolValues(pools))[i], wanted)]
  {
    hide PoolValue, TakeFromPool;
    ghost var values := PoolValues(pools);
    assert forall j | 0 <= j < pools.len :: PoolValue(pools.arr[j]) == values[j];
    var p := TakeFromPoolInPlace(pools.arr[i], wanted);
    PutBack(pools, i, p, values);
  }

  /** Takes the ID out of every pool, rewriting the shared arrays. */
  method RemoveFromPoolsInPlace(pools: Slice<HeapPool>, id: string)
    requires PoolsFormed(pools)
    modifies pools.arr, MemberArrays(pools)
    ensures PoolsFormed(pools) && MemberArrays(pools) == old(MemberArrays(pools))
    ensures PoolValues(pools) == RemoveFromPools(old(PoolValues(pools)), id)
  {
    hide PoolValues, MemberArrays, RemoveFromPool;
    ghost var was := PoolValues(pools);
    for i := 0 to pools.len
      invariant PoolsFormed(pools) && MemberArrays(pools) == old(MemberArrays(pools))
      invariant forall j | 0 <= j < i :: PoolValues(pools)[j] == RemoveFromPool(was[j], id)
      invariant forall j | i <= j < pools.len :: PoolValues(pools)[j] == was[j]
    {
      RemoveFromPoolAt(pools, i, id);
    }
  }

  /** Takes the target's members out of every other pool, rewriting the shared arrays. */
  method AssignPoolMembers(pools: Slice<HeapPool>, target: nat, wanted: set<string>)
    requires PoolsFormed(pools)
    modifies pools.arr, MemberArrays(pools)
    ensures PoolsFormed(pools) && MemberArrays(pools) == old(MemberArrays(pools))
    ensures PoolValues(pools) == AssignMembers(old(PoolValues(pools)), target, wanted)
  {
    hide PoolValues, MemberArrays, TakeFromPool;
    ghost var was := PoolValues(pools);
    for i := 0 to pools.len
      invariant PoolsFormed(pools) && MemberArrays(pools) == old(MemberArrays(pools))
      invariant forall j | 0 <= j < i :: PoolValues(pools)[j] == AssignedPool(was, j, target, wanted)
      invariant forall j | i <= j < pools.len :: PoolValues(pools)[j] == was[j]
    {
      if i != target {
        TakeFromPoolAt(pools, i, wanted);
      }
    }
  }

  method RemoveSubscriptionInPlace(c: HeapConfig, name: string) returns (found: bool, next: HeapConfig)
    requires Formed(c)
    modifies Arrays(c)
    ensures Formed(next) && Arrays(next) == old(Arrays(c))
    ensures var want := RemoveSubscription(old(View(c)), name);
            && found == want.Changed?
            && View(next) == if found then want.config else old(View(c))
  {
    hide PoolValues, RemoveFromPools, RemoveAt;
    next := c;
    var idx := FindByName(Elems(c.subscriptions), name);
    found := idx >= 0;
    if found {
      RemoveFromPoolsInPlace(c.pools, c.subscriptions.arr[idx].id);
      var rest := ShiftDown(c.subscriptions, idx);
      next := c.(subscriptions := rest, active := ActiveAfterRemoval(c.active, idx, rest.len));
    }
  }

  method ReplacePool(pools: Slice<HeapPool>, i: nat, p: HeapPool)
    requires PoolsFormed(pools) && i < pools.len
    requires p.members.len <= p.members.arr.Length && p.members.arr !in MemberArrays(pools)
    modifies pools.arr
    ensures PoolsFormed(pools) && MemberArrays(pools) <= old(MemberArrays(pools)) + {p.members.arr}
    ensures PoolValues(pools) == old(PoolValues(pools))[i := PoolValue(p)]
  {
    hide PoolValue;
    ghost var was := PoolValues(pools);
    assert forall j | 0 <= j < pools.len :: PoolValue(pools.arr[j]) == was[j];
    pools.arr[i] := p;
  }

  /** The pool as the request wants it, with a member array of its own. */
  method RequestedPool(p: HeapPool, r: PoolRequest) returns (next: HeapPool)
    requires p.members.len <= p.members.arr.Length
    ensures fresh(next.members.arr) && next.members.len <= next.members.arr.Length
    ensures PoolValue(next) == Requested(PoolValue(p), r)
  {
    var members := new string[|r.members|](j requires 0 <= j < |r.members| => r.members[j]);
    assert members[..] == r.members;
    next := p.(
      name := r.name, mode := NormalizedMode(r.mode), members := Slice(members, members.Length), enabled := r.enabled,
      refreshInterval := if r.refreshInterval > 0 then r.refreshInterval else p.refreshInterval,
      activeMember := if r.activeMember == "" && r.members != [] then r.members[0] else r.activeMember);
  }

  method EditPoolAt(pools: Slice<HeapPool>, i: nat, r: PoolRequest)
    requires PoolsFormed(pools) && i < pools.len
    modifies pools.arr, MemberArrays(pools)
    ensures PoolsFormed(pools) && fresh(MemberArrays(pools) - old(MemberArrays(pools)))
    ensures PoolValues(pools) == EditedPools(old(PoolValues(pools)), i, r)
  {
    hide PoolValue, AssignMembers, Requested;
    assert PoolValues(pools)[i] == PoolValue(pools.arr[i]);
    var p := RequestedPool(pools.arr[i], r);
    hide PoolValues;
    ReplacePool(pools, i, p);
    AssignPoolMembers(pools, i, set m | m in r.members);
  }

  method EditPoolInPlace(c: HeapConfig, id: string, r: PoolRequest) returns (ok: bool)
    requires Formed(c)
    modifies c.pools.arr, MemberArrays(c.pools)
    ensures Formed(c)
    ensures fresh(Arrays(c) - old(Arrays(c)))
    ensures var want := EditPool(old(View(c)), id, r);
            && ok == want.Changed?
            && View(c) == if ok then want.config else old(View(c))
  {
    hide PoolValues, EditRefused, EditedPools;
    var i := FindPool(PoolValues(c.pools), id);
    ok := i >= 0 && !EditRefused(PoolValues(c.pools), i, r);
    if ok {
      EditPoolAt(c.pools, i, r);
    }
  }

  // ---- a value in arrays of its own ----

  /** A decoded request, or a clone of a value kept elsewhere. */
  method Decode(c: Config) returns (h: HeapConfig)
    ensures Formed(h) && fresh(Arrays(h)) && View(h) == c
  {
    var subscriptions := FromSeq(c.subscriptions);
    var providers := FromSeq(c.providers);
    var builtIns := FromSeq(c.builtIns);
    var preRules := FromSeq(c.preRules);
    var postRules := FromSeq(c.postRules);
    var pools := DecodePools(c.pools);
    h := HeapConfig(c.version, c.tun, c.secret, c.configPath, c.binaryPath, c.logDir, c.settings,
                    subscriptions, c.active, pools, providers, c.builtInsReady, builtIns, preRules, postRules);
  }

  method FromSeq<T>(s: seq<T>) returns (slice: Slice<T>)
    ensures fresh(slice.arr) && slice.len == slice.arr.Length && Elems(slice) == s
  {
    var arr := new T[|s|](i requires 0 <= i < |s| => s[i]);
    slice := Slice(arr, |s|);
  }

  method DecodePools(pools: seq<Pool>) returns (slice: Slice<HeapPool>)
    ensures PoolsFormed(slice) && fresh(slice.arr) && fresh(MemberArrays(slice))
    ensures PoolValues(slice) == pools
  {
    var decoded: seq<HeapPool> := [];
    for i := 0 to |pools|
      invariant |decoded| == i
      invariant forall j | 0 <= j < i ::
                  decoded[j].members.len <= decoded[j].members.arr.Length && fresh(decoded[j].members.arr)
      invariant forall j, k | 0 <= j < k < i :: decoded[j].members.arr != decoded[k].members.arr
      invariant forall j | 0 <= j < i :: PoolValue(decoded[j]) == pools[j]
    {
      var p := pools[i];
      var members := FromSeq(p.members);
      decoded := decoded + [HeapPool(p.id, p.name, p.mode, members, p.activeMember, p.enabled,
                                     p.refreshInterval, p.degraded)];
    }
    slice := FromSeq(decoded);
    assert forall j | 0 <= j < |pools| :: Elems(slice)[j] == decoded[j];
  }
}
