/** What requests to the manager do, as functions of the state they find: start, stop and TUN requests, and
    applies of a committed configuration, one at a time. What the operating system, the core and the polling
    make of each step is part of the request. */
module ManagerSteps {
  import opened Wrappers

  /** A setup that fails does so before or after it has cleared what was installed earlier. */
  datatype Setup = Installed | Cleared | Untouched

  /** `validated` stands for the core's own check of the file, `healthyInTime` for its controller
      answering before the deadline; `stoppedAgain`, `exitCleaned` and `takenBack` are what stopping a core that
      did not, the clean-up after its exit, and removing the protection then come to. */
  datatype StartFate = StartFate(
    generated: Replacement, validated: bool, setup: Setup, started: bool, healthyInTime: bool, stoppedAgain: bool,
    exitCleaned: bool, takenBack: bool)

  /** `stateSeen` tells whether the service manager answered when asked for the state, `exitCleaned`
      whether the clean-up works that follows the exit of a child. */
  datatype StopFate = StopFate(stateSeen: bool, stopped: bool, exitCleaned: bool, cleaned: bool, stoppedInTime: bool)

  /** The steps of a roll-back, whose errors the program ignores. */
  datatype UndoFate = UndoFate(committed: bool, generated: Replacement, reloaded: bool, setup: Setup, cleaned: bool)

  predicate Undoes(u: UndoFate)
  {
    u.committed && u.generated.Replaced? && u.reloaded && u.setup.Installed? && u.cleaned
  }

  /** `healthyFirst` and `healthyThen` are the two answers of the controller, if the core is active. */
  datatype TunFate = TunFate(
    healthyFirst: bool, committed: bool, generated: Replacement, healthyThen: bool, setup: Setup, reloaded: bool,
    cleaned: bool, confirmed: bool, undo: UndoFate)

  datatype RestartFate = RestartFate(stopped: bool, exitCleaned: bool, setup: Setup, launched: bool, takenBack: bool)

  /** `restart` is what happens if the reload fails. */
  datatype ApplyFate = ApplyFate(
    generated: Replacement, setup: Setup, reloaded: bool, restart: RestartFate, cleaned: bool)

  datatype Mode = Rule | Global | Direct

  /** `Failed` is an apply that failed after its configuration was committed, which stays. */
  datatype Result = Done | Refused | RolledBack | Failed

  datatype Request =
    | Start(start: StartFate)
    | Stop(stop: StopFate)
    | SetTun(enabled: bool, fate: TunFate)
    | Configure(submitted: bool, proxyMode: Mode, committed: bool, apply: ApplyFate)  // a whole configuration
    | Refresh(apply: ApplyFate)   // subscriptions or rules have changed
    | CoreDies(cleaned: bool)

  /** `service` tells whether the core is a service of the system; `guarded`, that the child was launched with
      TUN, so that its exit is going to remove the protection; `bared`, whether there has been any moment,
      within a request or between two, in which the core ran with TUN on and without the protection. */
  datatype State = State(
    service: bool, tun: bool, mode: Mode, file: bool, active: bool, runtime: bool, protection: bool, guarded: bool,
    bared: bool)

  function Initial(service: bool): State
  {
    State(service, false, Rule, false, false, false, false, false, false)
  }

  predicate Safe(s: State)
  {
    s.active && s.runtime ==> s.protection
  }

  /** The moment after a step. */
  function Seen(s: State): State
  {
    s.(bared := s.bared || !Safe(s))
  }

  // ---- steps ----

  /** A setup first removes what an earlier one has installed. */
  function SetUp(s: State, outcome: Setup): State
  {
    match outcome
    case Untouched => s
    case Cleared => Seen(s.(protection := false))
    case Installed => Seen(Seen(s.(protection := false)).(protection := true))
  }

  function TakenDown(s: State, works: bool): State
  {
    if works then Seen(s.(protection := false)) else s
  }

  /** The core is gone; a child takes the protection along that it was launched with. */
  function Exited(s: State, cleaned: bool): State
  {
    Seen(Seen(s.(active := false)).(protection := s.protection && !(s.guarded && cleaned), guarded := false))
  }

  function Launched(s: State): State
  {
    Seen(s.(active := true, runtime := s.file, guarded := s.tun && !s.service))
  }

  function Reloaded(s: State): State
  {
    Seen(s.(runtime := s.file))
  }

  function Filed(s: State, generated: Replacement): State
  {
    s.(file := if generated.KeptWithError? then s.file else s.tun)
  }

  // ---- requests ----

  datatype Outcome = Outcome(state: State, result: Result)

  /** Protection first, then the core. */
  function Started(s: State, f: StartFate): Outcome
  {
    var filed := Filed(s, f.generated);
    var t := if s.tun then SetUp(filed, f.setup) else filed;
    if !f.generated.Replaced? || !f.validated then Outcome(filed, Refused)
    else if s.tun && !f.setup.Installed? then Outcome(t, Refused)
    else StartedBehind(t, f)
  }

  function StartedBehind(s: State, f: StartFate): Outcome
  {
    if (if s.active then !s.service else !f.started) then
      Outcome(if s.tun then TakenDown(s, f.takenBack) else s, RolledBack)
    else
      var up := if s.active then s else Launched(s);
      if f.healthyInTime then Outcome(up, Done)
      else
        var t := if f.stoppedAgain then Exited(up, f.exitCleaned) else up;
        Outcome(if s.tun then TakenDown(t, f.takenBack) else t, RolledBack)
  }

  /** The core first, then its protection. */
  function Stopped(s: State, f: StopFate): Outcome
  {
    if f.stateSeen && s.active && !f.stopped then Outcome(s, Refused)
    else
      var t := if f.stateSeen && s.active then Exited(s, f.exitCleaned) else s;
      var needed := s.tun || (s.active && s.runtime) || t.protection;
      if needed && !f.cleaned then Outcome(t, Refused)
      else
        Outcome(if needed then TakenDown(t, true) else t, if f.stoppedInTime && !t.active then Done else Refused)
  }

  /** Commits and generates as before, reloads, and puts the protection back or removes it. */
  function TunRolledBack(s: State, was: bool, u: UndoFate): State
  {
    var filed := Filed(if u.committed then s.(tun := was) else s, u.generated);
    var t := if s.active && u.reloaded then Reloaded(filed) else filed;
    if was then SetUp(t, u.setup) else TakenDown(t, u.cleaned)
  }

  function TunSet(s: State, enabled: bool, f: TunFate): Outcome
  {
    if s.tun == enabled then Outcome(s, Done)
    else if (s.active && !f.healthyFirst) || !f.committed then Outcome(s, Refused)
    else TunCommitted(s.(tun := enabled, mode := Rule), s.tun, f)
  }

  function TunCommitted(s: State, was: bool, f: TunFate): Outcome
  {
    var filed := Filed(s, f.generated);
    if !f.generated.Replaced? then Outcome(TunRolledBack(filed, was, f.undo), RolledBack)
    else if s.active && f.healthyThen then TunSwitched(filed, was, f)
    else if was && ((s.active && s.runtime) || s.protection) then
      if f.cleaned then Outcome(TakenDown(filed, true), Done) else Outcome(TunRolledBack(filed, was, f.undo), RolledBack)
    else Outcome(filed, Done)
  }

  /** Enabling protects before the reload, disabling after it. */
  function TunSwitched(s: State, was: bool, f: TunFate): Outcome
  {
    var ready := if was then s else SetUp(s, f.setup);
    if (!was && !f.setup.Installed?) || !f.reloaded then Outcome(TunRolledBack(ready, was, f.undo), RolledBack)
    else
      var t := if was then TakenDown(Reloaded(ready), f.cleaned) else Reloaded(ready);
      if (was && !f.cleaned) || !f.confirmed then Outcome(TunRolledBack(t, was, f.undo), RolledBack)
      else Outcome(t, Done)
  }

  /** A child is stopped and launched anew, with a protection of its own. */
  function Restarted(s: State, f: RestartFate): (State, bool)
  {
    var gone := Exited(s, f.exitCleaned);
    var ready := if s.tun then SetUp(gone, f.setup) else gone;
    if !f.stopped then (s, false)
    else if s.tun && !f.setup.Installed? then (ready, false)
    else if !f.launched then (if s.tun then TakenDown(ready, f.takenBack) else ready, false)
    else (Launched(ready), true)
  }

  /** Puts the committed configuration in force; `sync` says that its commit has changed TUN. A core that is a
      service is not reached: the apply then is done with the file. */
  function Applied(s: State, sync: bool, f: ApplyFate): Outcome
  {
    var filed := Filed(s, f.generated);
    var ready := if sync && s.tun then SetUp(filed, f.setup) else filed;
    if !f.generated.Replaced? then Outcome(filed, Failed)
    else if !s.active || s.service then Outcome(filed, Done)
    else if sync && s.tun && !f.setup.Installed? then Outcome(ready, Failed)
    else
      var (loaded, ok) := if f.reloaded then (Reloaded(ready), true) else Restarted(ready, f.restart);
      if !ok then Outcome(loaded, Failed)
      else if sync && !s.tun then Outcome(TakenDown(loaded, f.cleaned), if f.cleaned then Done else Failed)
      else Outcome(loaded, Done)
  }

  function Configured(s: State, enabled: bool, proxyMode: Mode, committed: bool, f: ApplyFate): Outcome
  {
    if committed then Applied(s.(tun := enabled, mode := proxyMode), s.tun != enabled, f) else Outcome(s, Refused)
  }

  function Served(s: State, request: Request): Outcome
  {
    match request
    case Start(f) => Started(s, f)
    case Stop(f) => Stopped(s, f)
    case SetTun(enabled, f) => TunSet(s, enabled, f)
    case Configure(enabled, proxyMode, committed, f) => Configured(s, enabled, proxyMode, committed, f)
    case Refresh(f) => Applied(s, false, f)
    case CoreDies(cleaned) => Outcome(Exited(s, cleaned), Done)
  }

  // ---- which requests leave a running TUN core unprotected, for good or for a moment ----

  /** The setup fails after clearing the protection of a running core; or it works, but is taken back while the
      core runs, since a child cannot be started twice, or since a core was not healthy in time and could not
      be stopped again. */
  predicate StartHazard(s: State, f: StartFate)
  {
    && s.tun && f.generated.Replaced? && f.validated
    && (|| (s.active && s.runtime && f.setup.Cleared?)
        || (s.active && s.runtime && f.setup.Installed? && !s.service && f.takenBack)
        || LeftRunning(s, f))
  }

  predicate LeftRunning(s: State, f: StartFate)
  {
    && f.setup.Installed? && !f.healthyInTime && !f.stoppedAgain && f.takenBack
    && if s.active then s.service && s.runtime else f.started
  }

  /** The state could not be read, so a running core is not stopped, but its protection is removed. */
  predicate StopHazard(s: State, f: StopFate)
  {
    s.active && s.runtime && !f.stateSeen && f.cleaned
  }

  /** Disabling takes a core whose controller does not answer any more for a stopped one, and removes its
      protection; or a roll-back ends so. */
  predicate TunHazard(s: State, enabled: bool, f: TunFate)
  {
    || TakenForStopped(s, enabled, f)
    || (var x := AtRollBack(s, enabled, f); x.Some? && RollBackHazard(x.value, s.tun, f.undo))
  }

  predicate TakenForStopped(s: State, enabled: bool, f: TunFate)
  {
    && s.active && s.runtime && s.tun && !enabled
    && f.healthyFirst && f.committed && f.generated.Replaced? && !f.healthyThen && f.cleaned
  }

  /** The state a roll-back starts in, if there is one: after which steps, and what these have done. */
  function AtRollBack(s: State, enabled: bool, f: TunFate): Option<State>
  {
    var filed := s.(tun := enabled, mode := Rule, file := if f.generated.KeptWithError? then s.file else enabled);
    if s.tun == enabled || (s.active && !f.healthyFirst) || !f.committed then None
    else if !f.generated.Replaced? then Some(filed)
    else if s.active && f.healthyThen then
      if enabled then
        if !f.setup.Installed? then Some(filed.(protection := s.protection && f.setup.Untouched?))
        else if !f.reloaded then Some(filed.(protection := true))
        else if !f.confirmed then Some(filed.(runtime := true, protection := true))
        else None
      else if !f.reloaded then Some(filed)
      else if !f.cleaned then Some(filed.(runtime := false))
      else if !f.confirmed then Some(filed.(runtime := false, protection := false))
      else None
    else if !enabled && ((s.active && s.runtime) || s.protection) && !f.cleaned then Some(filed)
    else None
  }

  /** The core runs with TUN on after the reload of a roll-back, if it works, or still does. */
  predicate OnAfterReload(s: State, was: bool, u: UndoFate)
  {
    && s.active
    && if !u.reloaded then s.runtime
       else if u.generated.KeptWithError? then s.file
       else if u.committed then was else s.tun
  }

  /** Such a core is left without protection by the setup or clean-up that follows, or has been without. */
  predicate RollBackHazard(s: State, was: bool, u: UndoFate)
  {
    && OnAfterReload(s, was, u)
    && if was then u.setup.Cleared? || (u.setup.Untouched? && !s.protection) else u.cleaned || !s.protection
  }

  predicate RollBackBares(s: State, was: bool, u: UndoFate)
  {
    && OnAfterReload(s, was, u)
    && (!s.protection || if was then !u.setup.Untouched? else u.cleaned)
  }

  /** An apply of a configuration with TUN on: its setup fails after clearing the protection the child has; or,
      as the apply has no change of TUN to follow, it does no setup, and loads the file with TUN on although
      none was done before. */
  predicate ApplyHazard(s: State, now: bool, sync: bool, f: ApplyFate)
  {
    && s.active && !s.service && now && f.generated.Replaced?
    && if sync then s.runtime && f.setup.Cleared? else !s.protection && f.reloaded
  }

  predicate Hazard(s: State, request: Request)
  {
    match request
    case Start(f) => StartHazard(s, f)
    case Stop(f) => StopHazard(s, f)
    case SetTun(enabled, f) => TunHazard(s, enabled, f)
    case Configure(enabled, _, committed, f) => committed && ApplyHazard(s, enabled, s.tun != enabled, f)
    case Refresh(f) => ApplyHazard(s, s.tun, false, f)
    case CoreDies(_) => false
  }

  /** A core that runs with TUN on is there while a setup gets beyond its preflight; or the one that has just been
      started is left running without. */
  predicate StartBares(s: State, f: StartFate)
  {
    && s.tun && f.generated.Replaced? && f.validated
    && ((s.active && s.runtime && !f.setup.Untouched?) || (!s.active && LeftRunning(s, f)))
  }

  /** Enabling: a setup as above, for a core that runs with TUN on though the configuration says off. Disabling:
      a core taken for stopped. Either: a roll-back. */
  predicate TunBares(s: State, enabled: bool, f: TunFate)
  {
    || TakenForStopped(s, enabled, f)
    || (&& enabled && !s.tun && s.active && s.runtime && f.healthyFirst && f.committed && f.generated.Replaced?
        && f.healthyThen && !f.setup.Untouched?)
    || (var x := AtRollBack(s, enabled, f); x.Some? && RollBackBares(x.value, s.tun, f.undo))
  }

  predicate ApplyBares(s: State, now: bool, sync: bool, f: ApplyFate)
  {
    && s.active && !s.service && now && f.generated.Replaced?
    && if sync then s.runtime && !f.setup.Untouched? else !s.protection && f.reloaded
  }

  predicate Bares(s: State, request: Request)
  {
    match request
    case Start(f) => StartBares(s, f)
    case Stop(f) => StopHazard(s, f)
    case SetTun(enabled, f) => TunBares(s, enabled, f)
    case Configure(enabled, _, committed, f) => committed && ApplyBares(s, enabled, s.tun != enabled, f)
    case Refresh(f) => ApplyBares(s, s.tun, false, f)
    case CoreDies(_) => false
  }

  lemma SetUpMeans(s: State, outcome: Setup)
    ensures var up := !outcome.Untouched?; var t := SetUp(s, outcome);
            t == s.(protection := if up then outcome.Installed? else s.protection,
                    bared := s.bared || (up && s.active && s.runtime))
  {
  }

  lemma TakenDownMeans(s: State, works: bool)
    ensures TakenDown(s, works)
            == s.(protection := s.protection && !works, bared := s.bared || (works && s.active && s.runtime))
  {
  }

  lemma StartExactly(s: State, f: StartFate)
    ensures var t := Started(s, f).state;
            && (s.bared ==> t.bared)
            && (Safe(s) ==> (Safe(t) <==> !StartHazard(s, f)) && (t.bared <==> s.bared || StartBares(s, f)))
  {
    var filed := Filed(s, f.generated);
    SetUpMeans(filed, f.setup);
    var t := if s.tun then SetUp(filed, f.setup) else filed;
    var up := if s.active then t else Launched(t);
    TakenDownMeans(t, f.takenBack);
    TakenDownMeans(if f.stoppedAgain then Exited(up, f.exitCleaned) else up, f.takenBack);
    hide SetUp, TakenDown;
  }

  lemma StopExactly(s: State, f: StopFate)
    ensures var t := Stopped(s, f).state;
            && (s.bared ==> t.bared)
            && (Safe(s) ==> (Safe(t) <==> !StopHazard(s, f)) && (t.bared <==> s.bared || StopHazard(s, f)))
  {
  }

  lemma RollBackExactly(s: State, was: bool, u: UndoFate)
    ensures var t := TunRolledBack(s, was, u);
            && (s.bared ==> t.bared)
            && (Safe(t) <==> !RollBackHazard(s, was, u))
            && (s.bared || Safe(s) ==> (t.bared <==> s.bared || RollBackBares(s, was, u)))
  {
    var filed := Filed(if u.committed then s.(tun := was) else s, u.generated);
    var t := if s.active && u.reloaded then Reloaded(filed) else filed;
    SetUpMeans(t, u.setup);
    TakenDownMeans(t, u.cleaned);
    hide SetUp, TakenDown;
  }

  lemma EnableExactly(s: State, f: TunFate)
    requires !s.tun
    ensures var t := TunSet(s, true, f).state;
            && (s.bared ==> t.bared)
            && (Safe(s) ==> (Safe(t) <==> !TunHazard(s, true, f)) && (t.bared <==> s.bared || TunBares(s, true, f)))
  {
    var filed := Filed(s.(tun := true, mode := Rule), f.generated);
    SetUpMeans(filed, f.setup);
    var ready := SetUp(filed, f.setup);
    RollBackExactly(filed, false, f.undo);
    RollBackExactly(ready, false, f.undo);
    RollBackExactly(Reloaded(ready), false, f.undo);
    hide SetUp, TunRolledBack, TakenDown, Undoes;
  }

  lemma DisableRunningExactly(s: State, f: TunFate)
    requires s.tun && s.active && f.healthyThen
    ensures var t := TunSet(s, false, f).state;
            && (s.bared ==> t.bared)
            && (Safe(s) ==> (Safe(t) <==> !TunHazard(s, false, f)) && (t.bared <==> s.bared || TunBares(s, false, f)))
  {
    var filed := Filed(s.(tun := false, mode := Rule), f.generated);
    var loaded := Reloaded(filed);
    TakenDownMeans(loaded, f.cleaned);
    RollBackExactly(filed, true, f.undo);
    RollBackExactly(TakenDown(loaded, f.cleaned), true, f.undo);
    hide SetUp, TunRolledBack, TakenDown, Undoes;
  }

  lemma DisableOtherExactly(s: State, f: TunFate)
    requires s.tun && !(s.active && f.healthyThen)
    ensures var t := TunSet(s, false, f).state;
            && (s.bared ==> t.bared)
            && (Safe(s) ==> (Safe(t) <==> !TunHazard(s, false, f)) && (t.bared <==> s.bared || TunBares(s, false, f)))
  {
    var filed := Filed(s.(tun := false, mode := Rule), f.generated);
    TakenDownMeans(filed, true);
    RollBackExactly(filed, true, f.undo);
    hide SetUp, TunRolledBack, TakenDown, TunSwitched, Undoes;
  }

  lemma TunExactly(s: State, enabled: bool, f: TunFate)
    ensures var t := TunSet(s, enabled, f).state;
            && (s.bared ==> t.bared)
            && (Safe(s) ==> (Safe(t) <==> !TunHazard(s, enabled, f)) && (t.bared <==> s.bared || TunBares(s, enabled, f)))
  {
    if s.tun != enabled {
      if enabled {
        EnableExactly(s, f);
      } else if s.active && f.healthyThen {
        DisableRunningExactly(s, f);
      } else {
        DisableOtherExactly(s, f);
      }
    }
    hide SetUp, TunRolledBack, TakenDown;
  }

  /** An exit takes along the protection of a child that was launched with it, and no other. */
  lemma ExitMeans(s: State, cleaned: bool)
    ensures var t := Exited(s, cleaned);
            && t == s.(active := false, guarded := false, protection := t.protection)
            && (s.guarded && cleaned ==> !t.protection) && (!(s.guarded && cleaned) ==> t.protection == s.protection)
  {
  }

  /** A restart never bares: the child is gone while its protection is renewed. */
  lemma RestartExactly(s: State, f: RestartFate)
    ensures var t := Restarted(s, f).0;
            && (s.bared ==> t.bared)
            && (s.active && s.file == s.tun && Safe(s) ==> Safe(t) && t.bared == s.bared)
  {
    var gone := Exited(s, f.exitCleaned);
    SetUpMeans(gone, f.setup);
    TakenDownMeans(if s.tun then SetUp(gone, f.setup) else gone, f.takenBack);
    hide SetUp, TakenDown;
  }

  lemma ApplyExactly(s: State, sync: bool, f: ApplyFate)
    ensures var t := Applied(s, sync, f).state;
            && (s.bared ==> t.bared)
            && (Safe(s) ==>
                  && (Safe(t) <==> !ApplyHazard(s, s.tun, sync, f))
                  && (t.bared <==> s.bared || ApplyBares(s, s.tun, sync, f)))
  {
    var filed := Filed(s, f.generated);
    var ready := if sync && s.tun then SetUp(filed, f.setup) else filed;
    SetUpMeans(filed, f.setup);
    RestartExactly(ready, f.restart);
    TakenDownMeans(if f.reloaded then Reloaded(ready) else Restarted(ready, f.restart).0, f.cleaned);
    RestartStops(ready, f.restart);
    hide SetUp, TakenDown, Restarted;
  }

  lemma RestartStops(s: State, f: RestartFate)
    ensures var (t, ok) := Restarted(s, f); ok ==> t.runtime == s.file
  {
    var ready := if s.tun then SetUp(Exited(s, f.exitCleaned), f.setup) else Exited(s, f.exitCleaned);
    SetUpMeans(Exited(s, f.exitCleaned), f.setup);
    TakenDownMeans(ready, f.takenBack);
    hide SetUp, TakenDown;
  }

  /** From a safe state, exactly the hazards end in an unsafe one, and exactly the requests above pass through
      one. */
  lemma ServedExactly(s: State, request: Request)
    ensures var t := Served(s, request).state;
            && (s.bared ==> t.bared)
            && (Safe(s) ==> (Safe(t) <==> !Hazard(s, request)) && (t.bared <==> s.bared || Bares(s, request)))
  {
    hide Started, Stopped, TunSet, Applied, Filed, SetUp;
    match request
    case Start(f) => StartExactly(s, f);
    case Stop(f) => StopExactly(s, f);
    case SetTun(enabled, f) => TunExactly(s, enabled, f);
    case Configure(enabled, proxyMode, committed, f) =>
      if committed {
        ApplyExactly(s.(tun := enabled, mode := proxyMode), s.tun != enabled, f);
      }
    case Refresh(f) => ApplyExactly(s, false, f);
    case CoreDies(_) =>
  }

  // ---- what each request achieves ----

  lemma StartMeans(s: State, f: StartFate)
    ensures var Outcome(t, r) := Started(s, f);
            && t.tun == s.tun && t.mode == s.mode && !r.Failed?
            && (r.Refused? ==> t.active == s.active && t.runtime == s.runtime)
            && (f.generated.Replaced? ==> t.file == s.tun)
            && (r.Done? <==>
                  && f.generated.Replaced? && f.validated && (s.tun ==> f.setup.Installed?)
                  && (if s.active then s.service else f.started) && f.healthyInTime)
            && (r.Done? ==> t.active && t.protection == (s.tun || s.protection))
            && (r.Done? ==> t.runtime == if s.active then s.runtime else s.tun)
            && (r.Done? ==> t.guarded == if s.active then s.guarded else s.tun && !s.service)
            && (r.RolledBack? ==> (f.healthyInTime ==> !s.service || !s.active) && (s.tun && f.takenBack ==> !t.protection))
  {
    var filed := Filed(s, f.generated);
    var t := if s.tun then SetUp(filed, f.setup) else filed;
    SetUpMeans(filed, f.setup);
    var up := if s.active then t else Launched(t);
    TakenDownMeans(t, f.takenBack);
    TakenDownMeans(if f.stoppedAgain then Exited(up, f.exitCleaned) else up, f.takenBack);
    hide SetUp, TakenDown;
  }

  lemma StopMeans(s: State, f: StopFate)
    ensures var Outcome(t, r) := Stopped(s, f);
            && t.tun == s.tun && t.file == s.file && t.mode == s.mode && (r.Done? || r.Refused?)
            && (s.active && !(f.stateSeen && f.stopped) ==> t.active) && (t.active ==> t.runtime == s.runtime)
            && (f.stateSeen && (s.active ==> f.stopped) && f.cleaned && f.stoppedInTime ==> r.Done?)
            && ((s.tun || (s.active && s.runtime)) && !f.cleaned ==> r.Refused?)
            && (r.Done? && f.stateSeen ==> !t.active && !t.protection)
  {
    TakenDownMeans(if f.stateSeen && s.active then Exited(s, f.exitCleaned) else s, true);
    hide TakenDown;
  }

  lemma TunMeans(s: State, enabled: bool, f: TunFate)
    ensures var Outcome(t, r) := TunSet(s, enabled, f);
            && t.active == s.active && !r.Failed?
            && (r.Done? ==> t.tun == enabled)
            && (r.Done? && s.tun && !enabled ==> !t.protection)
            && (r.Done? && s.tun != enabled ==> t.file == enabled)
            && (r.Done? && s.tun != enabled && s.active && f.healthyThen ==> t.runtime == t.protection == enabled)
            && (r.Refused? ==> t == s)
            && (r.RolledBack? && Undoes(f.undo) ==> t.tun == s.tun == t.protection && (t.active ==> t.runtime == t.tun))
            && t.mode == if s.tun == enabled || r.Refused? then s.mode else Rule
  {
    var filed := Filed(s.(tun := enabled, mode := Rule), f.generated);
    var ready := if enabled then SetUp(filed, f.setup) else filed;
    SetUpMeans(filed, f.setup);
    TakenDownMeans(Reloaded(ready), f.cleaned);
    TakenDownMeans(filed, true);
    RollBackMeans(filed, s.tun, f.undo);
    RollBackMeans(ready, s.tun, f.undo);
    RollBackMeans(if enabled then Reloaded(ready) else TakenDown(Reloaded(ready), f.cleaned), s.tun, f.undo);
    hide SetUp, TakenDown, TunRolledBack;
  }

  lemma RollBackMeans(s: State, was: bool, u: UndoFate)
    ensures var t := TunRolledBack(s, was, u);
            && t.active == s.active && t.mode == s.mode
            && (Undoes(u) ==>
                  t == s.(tun := was, file := was, runtime := if s.active then was else s.runtime,
                          protection := was, bared := t.bared))
  {
    var filed := Filed(if u.committed then s.(tun := was) else s, u.generated);
    var t := if s.active && u.reloaded then Reloaded(filed) else filed;
    SetUpMeans(t, u.setup);
    TakenDownMeans(t, u.cleaned);
    hide SetUp, TakenDown;
  }

  lemma RestartMeans(s: State, f: RestartFate)
    ensures var (t, ok) := Restarted(s, f);
            && t == s.(active := t.active, runtime := t.runtime, protection := t.protection, guarded := t.guarded,
                       bared := t.bared)
            && (ok ==> t.active && t.runtime == s.file && (s.tun ==> t.protection))
            && (!ok && t.active ==> t == s)
            && (ok <==> f.stopped && (s.tun ==> f.setup.Installed?) && f.launched)
            && (ok && !s.tun ==> t.protection == (s.protection && !(s.guarded && f.exitCleaned)))
  {
    var gone := Exited(s, f.exitCleaned);
    SetUpMeans(gone, f.setup);
    TakenDownMeans(if s.tun then SetUp(gone, f.setup) else gone, f.takenBack);
    hide SetUp, TakenDown, Safe;
  }

  lemma ApplyMeans(s: State, sync: bool, f: ApplyFate)
    ensures var Outcome(t, r) := Applied(s, sync, f);
            && (r.Done? || r.Failed?) && t.tun == s.tun && t.mode == s.mode
            && t.file == (if f.generated.KeptWithError? then s.file else s.tun)
            && (r.Done? && s.active && !s.service ==> t.active && t.runtime == s.tun && (sync ==> t.protection == s.tun))
            && (s.service || !s.active ==> t == s.(file := t.file) && (r.Done? <==> f.generated.Replaced?))
            && (!sync && f.reloaded ==> t.active == s.active && t.protection == s.protection)
            && (f.generated.Replaced? && !(sync && s.tun) && f.reloaded && (sync ==> f.cleaned) ==> r.Done?)
            && (s.active && !s.service && f.generated.Replaced? && sync && s.tun && !f.setup.Installed? ==>
                  && r.Failed? && t.active && t.runtime == s.runtime
                  && t.protection == (s.protection && f.setup.Untouched?))
  {
    var filed := Filed(s, f.generated);
    var ready := if sync && s.tun then SetUp(filed, f.setup) else filed;
    SetUpMeans(filed, f.setup);
    RestartMeans(ready, f.restart);
    TakenDownMeans(if f.reloaded then Reloaded(ready) else Restarted(ready, f.restart).0, f.cleaned);
    hide SetUp, TakenDown, Restarted, Safe;
  }

  // ---- runs ----

  function Run(s: State, requests: seq<Request>): State
  {
    if requests == [] then s
    else Served(Run(s, requests[..|requests| - 1]), requests[|requests| - 1]).state
  }

  /** Nothing is forgotten, and an unsafe state has been seen. */
  lemma SeenStays(s: State, request: Request)
    requires !Safe(s) ==> s.bared
    ensures var t := Served(s, request).state; (s.bared ==> t.bared) && (!Safe(t) ==> t.bared)
  {
    hide Served, Hazard, Bares;
    ServedExactly(s, request);
    if Safe(s) {
      if Hazard(s, request) {
        HazardBares(s, request);
      }
    }
  }

  lemma HazardBares(s: State, request: Request)
    requires Safe(s) && Hazard(s, request)
    ensures Bares(s, request)
  {
  }

  /** Along any run, roll-backs included, a core that runs with TUN on has been without protection at some moment
      if and only if some request of the run was one that bares, in the state it found. */
  lemma {:induction false} RunBaredExactly(s: State, requests: seq<Request>)
    requires Safe(s) && !s.bared
    ensures var end := Run(s, requests);
            && (!Safe(end) ==> end.bared)
            && (end.bared <==> exists i | 0 <= i < |requests| :: Bares(Run(s, requests[..i]), requests[i]))
  {
    hide Served, Bares, Hazard, Safe;
    if requests != [] {
      var n := |requests| - 1;
      var before := Run(s, requests[..n]);
      RunBaredExactly(s, requests[..n]);
      assert forall i | 0 <= i < n :: requests[..n][..i] == requests[..i];
      SeenStays(before, requests[n]);
      if Safe(before) {
        ServedExactly(before, requests[n]);
      }
    }
  }

  ghost predicate SafeThroughout(s: State, requests: seq<Request>)
  {
    forall i | 0 <= i <= |requests| :: Safe(Run(s, requests[..i]))
  }

  ghost predicate HazardFree(s: State, requests: seq<Request>)
  {
    forall i | 0 <= i < |requests| :: !Hazard(Run(s, requests[..i]), requests[i])
  }

  lemma SafeOneMore(s: State, requests: seq<Request>)
    requires requests != []
    ensures SafeThroughout(s, requests) <==> SafeThroughout(s, requests[..|requests| - 1]) && Safe(Run(s, requests))
  {
    hide Served, Safe, Run;
    var n := |requests| - 1;
    assert requests[..|requests|] == requests;
    assert forall i | 0 <= i <= n :: requests[..n][..i] == requests[..i];
  }

  lemma HazardOneMore(s: State, requests: seq<Request>)
    requires requests != []
    ensures var n := |requests| - 1;
            HazardFree(s, requests) <==> HazardFree(s, requests[..n]) && !Hazard(Run(s, requests[..n]), requests[n])
  {
    hide Served, Hazard, Run;
    var n := |requests| - 1;
    assert forall i | 0 <= i < n :: requests[..n][..i] == requests[..i];
  }

  /** Between requests it is protected until the first hazard, and not after that one. */
  lemma {:induction false} RunSafeUntilHazard(s: State, requests: seq<Request>)
    requires Safe(s)
    ensures SafeThroughout(s, requests) <==> HazardFree(s, requests)
  {
    hide Served, Hazard, Safe;
    if requests == [] {
      assert Run(s, []) == s;
    } else {
      var n := |requests| - 1;
      RunSafeUntilHazard(s, requests[..n]);
      SafeOneMore(s, requests);
      HazardOneMore(s, requests);
      ServedExactly(Run(s, requests[..n]), requests[n]);
      assert requests[..n][..n] == requests[..n];
    }
  }

  /** A service that runs behind its protection is started once more, and nothing fails: for a moment it runs
      without. */
  lemma SecondStartBares(undo: UndoFate)
    ensures var enable, start := SetTun(true, TunFate(true, true, Replaced, true, Installed, true, true, true, undo)),
                              Start(StartFate(Replaced, true, Installed, true, true, true, true, true));
            && var once, twice := Run(Initial(true), [enable, start]), Run(Initial(true), [enable, start, start]);
            && once.runtime && Safe(once) && !once.bared
            && Served(once, start).result.Done? && Safe(twice) && twice.bared
  {
    var enable, start := SetTun(true, TunFate(true, true, Replaced, true, Installed, true, true, true, undo)),
                      Start(StartFate(Replaced, true, Installed, true, true, true, true, true));
    var none: seq<Request> := [];
    assert [enable, start, start][..2] == [enable, start] && [enable, start][..1] == [enable] && [enable][..0] == none;
    assert Run(Initial(true), none) == Initial(true);
    assert Run(Initial(true), [enable]) == Served(Initial(true), enable).state;
    assert Run(Initial(true), [enable, start]) == Served(Run(Initial(true), [enable]), start).state;
    assert Run(Initial(true), [enable, start, start]) == Served(Run(Initial(true), [enable, start]), start).state;
  }

  /** Disabling TUN fails in the reload and is rolled back with success: the same. */
  lemma RefusedDisablingBares(s: State, f: TunFate)
    requires Safe(s) && !s.bared && s.tun && s.active && Undoes(f.undo)
    requires f.healthyFirst && f.committed && f.generated.Replaced? && f.healthyThen && !f.reloaded
    ensures var r := TunSet(s, false, f); r.result.RolledBack? && Safe(r.state) && r.state.bared
  {
    TunExactly(s, false, f);
  }

  /** Enabling TUN works but is not confirmed in time, and the roll-back fails to reload: it still removes the
      protection of a core that runs with TUN on. */
  lemma UnconfirmedEnablingEndangers(s: State, f: TunFate)
    requires Safe(s) && !s.tun && s.active && f.healthyFirst && f.committed && f.generated.Replaced? && f.healthyThen
    requires f.setup.Installed? && f.reloaded && !f.confirmed && !f.undo.reloaded && f.undo.cleaned
    ensures var r := TunSet(s, true, f); r.result.RolledBack? && r.state.runtime && !Safe(r.state)
  {
    TunExactly(s, true, f);
  }
}
