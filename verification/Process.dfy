/** The manager of the proxy core's process: who starts it, who waits for it, who stops it, and in
    which orders these may meet. Also the buffer that keeps the end of its output. */
module Process {

  // ---- the output buffer ----

  function Tail<T>(s: seq<T>, limit: nat): (t: seq<T>)
    ensures |t| == if |s| < limit then |s| else limit
  {
    if |s| <= limit then s else s[|s| - limit..]
  }

  lemma TailOfTail<T>(s: seq<T>, more: seq<T>, limit: nat)
    ensures Tail(Tail(s, limit) + more, limit) == Tail(s + more, limit)
  {
    if |s| > limit {
      var k, all := |s| - limit, s + more;
      assert s[k..] + more == all[k..];
      DropDrop(all, k, |more|);
    }
  }

  lemma DropDrop<T>(s: seq<T>, k: nat, m: nat)
    requires k + m <= |s|
    ensures s[k..][m..] == s[k + m..]
  {
  }

  class CappedBuffer {
    const limit: nat
    var buf: seq<bv8>
    /** Everything ever written. */
    ghost var written: seq<bv8>

    ghost predicate Valid()
      reads this
    {
      buf == Tail(written, limit)
    }

    constructor (limit: nat)
      ensures Valid() && this.limit == limit && written == []
    {
      this.limit := limit;
      buf, written := [], [];
    }

    /** Whatever the sizes written, what is kept is the last `limit` bytes of it all. */
    method Write(p: seq<bv8>) returns (n: nat)
      requires Valid()
      modifies this
      ensures Valid() && written == old(written) + p && n == |p|
    {
      TailOfTail(written, p, limit);
      buf := buf + p;
      if |buf| > limit {
        buf := buf[|buf| - limit..];
      }
      written := written + p;
      n := |p|;
    }

    method String() returns (s: seq<bv8>)
      requires Valid()
      ensures s == Tail(written, limit)
    {
      s := buf;
    }
  }

  // ---- the manager ----

  /** One child after its start: until reaped, until its end is noted, cleaned up after, announced. */
  datatype Phase = Alive | Reaped | Down | Cleaned | Announced

  datatype Generation = Generation(phase: Phase, tun: bool, channel: nat, taken: nat)

  datatype Lock = Free | Starting(tun: bool)

  datatype Waiter = Waiting(gen: nat) | Received(gen: nat) | GaveUp(gen: nat)

  /** `protection` tells whether the return-path protection is installed; `rollbacks` counts the failed
      starts that have yet to remove theirs. */
  datatype State = State(
    lock: Lock, running: bool, gens: seq<Generation>, protection: bool, rollbacks: nat, stops: map<nat, Waiter>)

  datatype Step =
    | BeginStart(tun: bool, setupOk: bool)
    | Launch(ok: bool)
    | RollBack(ok: bool)          // of a start that could not launch
    | Reap(gen: nat)              // the child has exited and Wait returns
    | NoteExit(gen: nat)          // running := false, under the lock
    | CleanUp(gen: nat, ok: bool)
    | Announce(gen: nat)
    | SettleReceives(gen: nat)    // the start that launched it learns that it died at once
    | BeginStop(id: nat)
    | StopReceives(id: nat)
    | StopGivesUp(id: nat)

  const INITIAL := State(Free, false, [], false, 0, map[])

  predicate Enabled(s: State, step: Step)
  {
    match step
    case BeginStart(_, _) => s.lock.Free? && !s.running
    case Launch(_) => s.lock.Starting?
    case RollBack(_) => s.rollbacks > 0
    case Reap(g) => g < |s.gens| && s.gens[g].phase.Alive?
    case NoteExit(g) => g < |s.gens| && s.gens[g].phase.Reaped? && s.lock.Free?
    case CleanUp(g, _) => g < |s.gens| && s.gens[g].phase.Down?
    case Announce(g) => g < |s.gens| && s.gens[g].phase.Cleaned? && s.gens[g].channel < 1
    case SettleReceives(g) => g < |s.gens| && s.gens[g].channel > 0
    case BeginStop(id) => id !in s.stops && s.lock.Free? && s.running && s.gens != []
    case StopReceives(id) => id in s.stops && s.stops[id].Waiting? && s.stops[id].gen < |s.gens| && s.gens[s.stops[id].gen].channel > 0
    case StopGivesUp(id) => id in s.stops && s.stops[id].Waiting?
  }

  function WithPhase(s: State, g: nat, phase: Phase): State
    requires g < |s.gens|
  {
    s.(gens := s.gens[g := s.gens[g].(phase := phase)])
  }

  function Take(s: State, g: nat): State
    requires g < |s.gens| && s.gens[g].channel > 0
  {
    s.(gens := s.gens[g := s.gens[g].(channel := s.gens[g].channel - 1, taken := s.gens[g].taken + 1)])
  }

  function After(s: State, step: Step): State
    requires Enabled(s, step)
  {
    match step
    case BeginStart(tun, setupOk) =>
      if !tun then s.(lock := Starting(false))
      else if setupOk then s.(lock := Starting(true), protection := true)
      else s.(protection := false)
    case Launch(ok) =>
      if ok then
        s.(lock := Free, running := true, gens := s.gens + [Generation(Alive, s.lock.tun, 0, 0)])
      else s.(lock := Free, rollbacks := s.rollbacks + if s.lock.tun then 1 else 0)
    case RollBack(ok) => s.(rollbacks := s.rollbacks - 1, protection := s.protection && !ok)
    case Reap(g) => WithPhase(s, g, Reaped)
    case NoteExit(g) => WithPhase(s, g, Down).(running := false)
    case CleanUp(g, ok) =>
      WithPhase(s, g, Cleaned).(protection := if s.gens[g].tun then s.protection && !ok else s.protection)
    case Announce(g) =>
      s.(gens := s.gens[g := s.gens[g].(phase := Announced, channel := s.gens[g].channel + 1)])
    case SettleReceives(g) => Take(s, g)
    case BeginStop(id) => s.(stops := s.stops[id := Waiting(|s.gens| - 1)])
    case StopReceives(id) => Take(s, s.stops[id].gen).(stops := s.stops[id := Received(s.stops[id].gen)])
    case StopGivesUp(id) => s.(stops := s.stops[id := GaveUp(s.stops[id].gen)])
  }

  ghost predicate Moves(s: State, t: State)
  {
    exists step :: Enabled(s, step) && After(s, step) == t
  }

  /** Some interleaving of steps that leads through these states. */
  ghost predicate Run(states: seq<State>)
  {
    states != [] && forall i | 0 <= i < |states| - 1 :: Moves(states[i], states[i + 1])
  }

  predicate Over(p: Phase)
  {
    p.Down? || p.Cleaned? || p.Announced?
  }

  ghost predicate GenerationOk(g: Generation)
  {
    g.channel + g.taken == if g.phase.Announced? then 1 else 0
  }

  /** Only the latest child can still be there, and while it is, the manager says so. */
  ghost predicate LatestOnly(s: State)
  {
    && (forall g | 0 <= g < |s.gens| && !Over(s.gens[g].phase) :: s.running && g == |s.gens| - 1)
    && (s.running ==> s.gens != [] && !Over(s.gens[|s.gens| - 1].phase) && s.lock.Free?)
  }

  ghost predicate StopsOk(s: State)
  {
    forall id | id in s.stops ::
      && s.stops[id].gen < |s.gens|
      && (s.stops[id].Received? ==> s.gens[s.stops[id].gen].phase.Announced?)
  }

  ghost predicate Inv(s: State)
  {
    && (forall g | 0 <= g < |s.gens| :: GenerationOk(s.gens[g]))
    && LatestOnly(s)
    && StopsOk(s)
  }

  lemma GenerationKept(s: State, step: Step, g: nat)
    requires Inv(s) && Enabled(s, step) && g < |After(s, step).gens|
    ensures GenerationOk(After(s, step).gens[g])
  {
    hide LatestOnly;
    if g < |s.gens| {
      assert GenerationOk(s.gens[g]);
    }
  }

  lemma LatestKept(s: State, step: Step)
    requires LatestOnly(s) && Enabled(s, step)
    ensures LatestOnly(After(s, step))
  {
    var t := After(s, step);
    assert forall g | 0 <= g < |s.gens| ::
        t.gens[g].phase == s.gens[g].phase || Over(t.gens[g].phase) || (step == Reap(g) && !Over(s.gens[g].phase));
  }

  lemma StopsKept(s: State, step: Step)
    requires Inv(s) && Enabled(s, step)
    ensures StopsOk(After(s, step))
  {
    var t := After(s, step);
    assert forall g | 0 <= g < |s.gens| :: s.gens[g].phase.Announced? ==> t.gens[g].phase.Announced?;
    if step.StopReceives? {
      assert GenerationOk(s.gens[s.stops[step.id].gen]);
    }
  }

  lemma StepKeepsInv(s: State, step: Step)
    requires Inv(s) && Enabled(s, step)
    ensures Inv(After(s, step))
  {
    hide LatestOnly, StopsOk, GenerationOk;
    LatestKept(s, step);
    StopsKept(s, step);
    forall g | 0 <= g < |After(s, step).gens|
      ensures GenerationOk(After(s, step).gens[g])
    {
      GenerationKept(s, step, g);
    }
  }

  lemma {:induction false} RunKeepsInv(states: seq<State>, i: nat)
    requires Run(states) && Inv(states[0]) && i < |states|
    ensures Inv(states[i])
  {
    hide Inv, Enabled, After;
    if i > 0 {
      RunKeepsInv(states, i - 1);
      assert Moves(states[i - 1], states[i]);
      var step :| Enabled(states[i - 1], step) && After(states[i - 1], step) == states[i];
      StepKeepsInv(states[i - 1], step);
    }
  }

  /** Two children are never there at once; the exit of each is announced once at most, without waiting
      for anyone; and a stop that was told of the exit returns after it was noted and cleaned up:
      the manager runs nothing then unless it was started again. */
  lemma ManagerIsSafe(states: seq<State>, i: nat)
    requires Run(states) && states[0] == INITIAL && i < |states|
    ensures var s := states[i];
            && (forall g, h | 0 <= g < h < |s.gens| :: Over(s.gens[g].phase) || Over(s.gens[h].phase))
            && (forall g | 0 <= g < |s.gens| :: s.gens[g].channel + s.gens[g].taken <= 1)
            && (forall g | 0 <= g < |s.gens| && s.gens[g].phase.Cleaned? :: Enabled(s, Announce(g)))
            && (forall id | id in s.stops && s.stops[id].Received? ::
                  && s.stops[id].gen < |s.gens|
                  && s.gens[s.stops[id].gen].phase.Announced?
                  && (s.running ==> s.stops[id].gen < |s.gens| - 1))
  {
    RunKeepsInv(states, i);
    assert forall g | 0 <= g < |states[i].gens| :: GenerationOk(states[i].gens[g]);
  }

  // ---- the protection of a running core ----

  /** Somebody is yet to remove a protection: for a child whose exit is noted, or for a failed start. */
  ghost predicate CleanUpDue(s: State)
  {
    s.rollbacks > 0 || exists g | 0 <= g < |s.gens| :: s.gens[g].phase.Down? && s.gens[g].tun
  }

  /** The run starts with this child as the latest and never sees its exit noted. */
  ghost predicate KeepsRunning(states: seq<State>, n: nat)
  {
    forall i | 0 <= i < |states| :: states[i].running && |states[i].gens| == n
  }

  /** A state as a start leaves it: the lock released, a TUN core running behind its protection. */
  ghost predicate JustLaunched(s: State)
  {
    Inv(s) && s.running && s.protection && s.gens[|s.gens| - 1].tun
  }

  lemma NothingDueStays(s: State, step: Step)
    requires Inv(s) && s.running && s.protection && !CleanUpDue(s) && Enabled(s, step)
    requires After(s, step).running
    ensures After(s, step).protection && !CleanUpDue(After(s, step))
  {
  }

  lemma {:induction false} StaysProtected(states: seq<State>, i: nat)
    requires Run(states) && JustLaunched(states[0]) && !CleanUpDue(states[0]) && i < |states|
    requires KeepsRunning(states, |states[0].gens|)
    ensures states[i].protection && !CleanUpDue(states[i])
  {
    hide Inv, Enabled, After, CleanUpDue;
    if i > 0 {
      StaysProtected(states, i - 1);
      RunKeepsInv(states, i - 1);
      assert Moves(states[i - 1], states[i]);
      var step :| Enabled(states[i - 1], step) && After(states[i - 1], step) == states[i];
      NothingDueStays(states[i - 1], step);
    }
  }

  /** A core that was started with protection keeps it for as long as it runs, whatever happens, exactly
      if no clean-up of an earlier child or start was still due when it was launched: the manager
      does not wait for those. */
  lemma ProtectionLastsExactly(s: State)
    requires JustLaunched(s)
    ensures !CleanUpDue(s)
            <==> forall states: seq<State>, i: nat ::
                   Run(states) && states[0] == s && KeepsRunning(states, |s.gens|) && i < |states| ==> states[i].protection
  {
    if !CleanUpDue(s) {
      forall states: seq<State>, i: nat
        | Run(states) && states[0] == s && KeepsRunning(states, |s.gens|) && i < |states|
        ensures states[i].protection
      {
        StaysProtected(states, i);
      }
    } else {
      var step := RollBack(true);
      if s.rollbacks == 0 {
        var g :| 0 <= g < |s.gens| && s.gens[g].phase.Down? && s.gens[g].tun;
        step := CleanUp(g, true);
      }
      var t := After(s, step);
      assert Moves(s, t);
      var states := [s, t];
      assert Run(states) && KeepsRunning(states, |s.gens|) && !states[1].protection;
    }
  }

  /** And such a launch is possible: the core dies by itself, its exit is noted, and the next start comes
      before the clean-up. */
  lemma LaunchMayPrecedeCleanUp() returns (states: seq<State>)
    ensures Run(states) && states[0] == INITIAL
    ensures var s := states[|states| - 1]; JustLaunched(s) && CleanUpDue(s)
  {
    var s0 := INITIAL;
    var s1 := After(s0, BeginStart(true, true));
    var s2 := After(s1, Launch(true));
    var s3 := After(s2, Reap(0));
    var s4 := After(s3, NoteExit(0));
    var s5 := After(s4, BeginStart(true, true));
    var s6 := After(s5, Launch(true));
    assert Moves(s0, s1) && Moves(s1, s2) && Moves(s2, s3) && Moves(s3, s4) && Moves(s4, s5) && Moves(s5, s6);
    states := [s0, s1, s2, s3, s4, s5, s6];
    RunKeepsInv(states, 6);
    assert s6.gens[0].phase.Down? && s6.gens[0].tun;
  }
}
