/** The manager itself: its requests and applies, step by step on its fields. */
module ManagerRequests {
  import opened Wrappers
  import opened ManagerSteps

  class Manager {
    /** The core is a service of the system, whose start is a no-op when it is active already; else it
        is a child of the daemon, and starting it twice is an error. */
    const service: bool
    var tun: bool          // as configured
    var mode: Mode         // the configured proxy mode
    var file: bool         // TUN in the generated file
    var active: bool
    var runtime: bool      // TUN in the configuration the active core runs
    var protection: bool
    var guarded: bool      // the child was launched with TUN, and its exit is going to remove the protection
    /** Whether the core has ever run with TUN on and without the protection, if for a moment. */
    ghost var bared: bool

    constructor (service: bool)
      ensures Now() == Initial(service)
    {
      this.service := service;
      mode := Rule;
      tun, file, active, runtime, protection, guarded, bared := false, false, false, false, false, false, false;
    }

    ghost function Now(): State
      reads this
    {
      State(service, tun, mode, file, active, runtime, protection, guarded, bared)
    }

    /** Looks at the moment after a step. */
    ghost method Look()
      modifies `bared
      ensures Now() == Seen(old(Now()))
    {
      bared := bared || (active && runtime && !protection);
    }

    /** What an earlier setup has installed is removed first. */
    method SetupRouting(outcome: Setup) returns (ok: bool)
      modifies `protection, `bared
      ensures ok <==> outcome.Installed?
      ensures Now() == SetUp(old(Now()), outcome)
    {
      if outcome.Untouched? {
        return false;
      }
      protection := false;
      Look();
      ok := outcome.Installed?;
      if ok {
        protection := true;
        Look();
      }
    }

    method RestoreRouting(works: bool) returns (ok: bool)
      modifies `protection, `bared
      ensures ok == works && Now() == TakenDown(old(Now()), works)
      ensures !ok ==> Now() == old(Now())
    {
      ok := works;
      if works {
        protection := false;
        Look();
      }
    }

    method StartController(starts: bool) returns (ok: bool)
      modifies `active, `runtime, `guarded, `bared
      ensures ok == if old(active) then service else starts
      ensures Now() == if !old(active) && ok then Launched(old(Now())) else old(Now())
    {
      if active {
        return service;
      }
      ok := starts;
      if ok {
        active, runtime, guarded := true, file, tun && !service;
        Look();
      }
    }

    method Exit(cleaned: bool)
      modifies `active, `protection, `guarded, `bared
      ensures Now() == Exited(old(Now()), cleaned) && !active
    {
      active := false;
      Look();
      if guarded && cleaned {
        protection := false;
      }
      guarded := false;
      Look();
    }

    method Reload()
      modifies `runtime, `bared
      ensures Now() == Reloaded(old(Now()))
    {
      runtime := file;
      Look();
    }

    method WriteFile(generated: Replacement)
      modifies `file
      ensures Now() == Filed(old(Now()), generated)
    {
      if !generated.KeptWithError? {
        file := tun;
      }
    }

    method RestartChild(f: RestartFate) returns (ok: bool)
      requires active && !service
      modifies `active, `runtime, `protection, `guarded, `bared
      ensures (Now(), ok) == Restarted(old(Now()), f)
    {
      hide Seen, SetUp, TakenDown;
      if !f.stopped {
        return false;
      }
      Exit(f.exitCleaned);
      if tun {
        var installed := SetupRouting(f.setup);
        if !installed {
          return false;
        }
      }
      if !f.launched {
        if tun {
          var restored := RestoreRouting(f.takenBack);
        }
        return false;
      }
      ok := StartController(true);
    }

    /** Protection first, then the core. */
    method StartCore(f: StartFate) returns (r: Result)
      modifies this
      ensures Outcome(Now(), r) == Started(old(Now()), f)
      ensures Safe(old(Now())) ==>
                && (Safe(Now()) <==> !StartHazard(old(Now()), f))
                && (bared <==> old(bared) || StartBares(old(Now()), f))
      ensures r.Done? <==>
                && f.generated.Replaced? && f.validated && (tun ==> f.setup.Installed?)
                && (if old(active) then service else f.started) && f.healthyInTime
      ensures r.Done? ==> active && protection == (tun || old(protection))
      ensures r.Done? ==> runtime == if old(active) then old(runtime) else tun
      ensures r.RolledBack? ==> (f.healthyInTime ==> !service || !old(active)) && (tun && f.takenBack ==> !protection)
      ensures tun == old(tun) && !r.Failed?
    {
      hide Seen, StartHazard, StartBares, Safe, SetUp, TakenDown, StartedBehind;
      StartExactly(Now(), f);
      StartMeans(Now(), f);
      WriteFile(f.generated);
      if !f.generated.Replaced? || !f.validated {
        return Refused;
      }
      if tun {
        var installed := SetupRouting(f.setup);
        if !installed {
          return Refused;
        }
      }
      r := StartBehind(f);
    }

    /** The core, once it is protected. */
    method StartBehind(f: StartFate) returns (r: Result)
      modifies this
      ensures Outcome(Now(), r) == StartedBehind(old(Now()), f)
    {
      hide Seen, TakenDown;
      var started := StartController(f.started);
      if !started {
        if tun {
          var restored := RestoreRouting(f.takenBack);
        }
        return RolledBack;
      }
      if !f.healthyInTime {
        if f.stoppedAgain {
          Exit(f.exitCleaned);
        }
        if tun {
          var restored := RestoreRouting(f.takenBack);
        }
        return RolledBack;
      }
      r := Done;
    }

    /** The core first, then its protection. */
    method StopCore(f: StopFate) returns (r: Result)
      modifies this
      ensures Outcome(Now(), r) == Stopped(old(Now()), f)
      ensures Safe(old(Now())) ==>
                && (Safe(Now()) <==> !StopHazard(old(Now()), f))
                && (bared <==> old(bared) || StopHazard(old(Now()), f))
      ensures r.Done? ==> f.stateSeen ==> !active && !protection
      ensures tun == old(tun) && file == old(file) && (r.Done? || r.Refused?)
    {
      hide Seen, StopHazard, Safe, TakenDown;
      StopExactly(Now(), f);
      StopMeans(Now(), f);
      var needed := tun || (active && runtime);
      if f.stateSeen && active {
        if !f.stopped {
          return Refused;
        }
        Exit(f.exitCleaned);
      }
      if needed || protection {
        var restored := RestoreRouting(f.cleaned);
        if !restored {
          return Refused;
        }
      }
      r := if f.stoppedInTime && !active then Done else Refused;
    }

    /** Goes on after errors. */
    method RollBackTun(was: bool, u: UndoFate)
      modifies this
      ensures Now() == TunRolledBack(old(Now()), was, u)
    {
      hide Seen, SetUp, TakenDown;
      if u.committed {
        tun := was;
      }
      WriteFile(u.generated);
      if active && u.reloaded {
        Reload();
      }
      if was {
        var installed := SetupRouting(u.setup);
      } else {
        var restored := RestoreRouting(u.cleaned);
      }
    }

    /** Enabling protects before the reload, disabling after it. A roll-back that works ends with TUN and protection
        together as TUN was before, both on or both off; the proxy mode it does not put back. */
    method SetTunMode(enabled: bool, f: TunFate) returns (r: Result)
      modifies this
      ensures Outcome(Now(), r) == TunSet(old(Now()), enabled, f)
      ensures Safe(old(Now())) ==>
                && (Safe(Now()) <==> !TunHazard(old(Now()), enabled, f))
                && (bared <==> old(bared) || TunBares(old(Now()), enabled, f))
      ensures active == old(active) && !r.Failed?
      ensures r.Done? ==> tun == enabled
      ensures r.Done? && old(tun) != enabled && active && f.healthyThen ==> runtime == protection == enabled
      ensures r.Refused? ==> tun == old(tun) && runtime == old(runtime) && protection == old(protection)
      ensures r.RolledBack? && Undoes(f.undo) ==> tun == old(tun) == protection && (active ==> runtime == tun)
      ensures mode == if old(tun) == enabled || r.Refused? then old(mode) else Rule
    {
      hide TunHazard, TunBares, Safe, TunCommitted;
      TunExactly(Now(), enabled, f);
      TunMeans(Now(), enabled, f);
      if tun == enabled {
        return Done;
      }
      if active && !f.healthyFirst {
        return Refused;
      }
      if !f.committed {
        return Refused;
      }
      tun, mode := enabled, Rule;
      r := FollowTun(enabled, f);
    }

    /** The commit is made: generates, and takes the core along if it runs. */
    method FollowTun(enabled: bool, f: TunFate) returns (r: Result)
      requires tun == enabled
      modifies this
      ensures Outcome(Now(), r) == TunCommitted(old(Now()), !enabled, f)
    {
      hide Seen, SetUp, TakenDown, TunRolledBack, TunSwitched;
      WriteFile(f.generated);
      if !f.generated.Replaced? {
        RollBackTun(!enabled, f.undo);
        return RolledBack;
      }
      if active && f.healthyThen {
        r := SwitchTun(enabled, f);
        return;
      }
      if !enabled && (tun || (active && runtime) || protection) {
        var restored := RestoreRouting(f.cleaned);
        if !restored {
          RollBackTun(!enabled, f.undo);
          return RolledBack;
        }
      }
      r := Done;
    }

    /** Takes the running core along. */
    method SwitchTun(enabled: bool, f: TunFate) returns (r: Result)
      modifies this
      ensures Outcome(Now(), r) == TunSwitched(old(Now()), !enabled, f)
    {
      hide Seen, SetUp, TakenDown, TunRolledBack;
      if enabled {
        var installed := SetupRouting(f.setup);
        if !installed {
          RollBackTun(!enabled, f.undo);
          return RolledBack;
        }
      }
      if !f.reloaded {
        RollBackTun(!enabled, f.undo);
        return RolledBack;
      }
      Reload();
      if !enabled {
        var restored := RestoreRouting(f.cleaned);
        if !restored {
          RollBackTun(!enabled, f.undo);
          return RolledBack;
        }
      }
      if !f.confirmed {
        RollBackTun(!enabled, f.undo);
        return RolledBack;
      }
      r := Done;
    }

    /** Puts the committed configuration in force; `sync` says that its commit has changed TUN. A core that is a
        service is not reached: the apply then is done with the file. */
    method Apply(sync: bool, f: ApplyFate) returns (r: Result)
      modifies `file, `active, `runtime, `protection, `guarded, `bared
      ensures Outcome(Now(), r) == Applied(old(Now()), sync, f)
      ensures Safe(old(Now())) ==>
                && (Safe(Now()) <==> !ApplyHazard(old(Now()), tun, sync, f))
                && (bared <==> old(bared) || ApplyBares(old(Now()), tun, sync, f))
      ensures r.Done? || r.Failed?
      ensures file == if f.generated.KeptWithError? then old(file) else tun
      ensures r.Done? && old(active) && !service ==> active && runtime == tun && (sync ==> protection == tun)
      ensures service || !old(active) ==>
                && active == old(active) && runtime == old(runtime) && protection == old(protection)
                && (r.Done? <==> f.generated.Replaced?)
      ensures !sync && f.reloaded ==> active == old(active) && protection == old(protection)
      ensures f.generated.Replaced? && !(sync && tun) && f.reloaded && (sync ==> f.cleaned) ==> r.Done?
      ensures old(active) && !service && f.generated.Replaced? && sync && tun && !f.setup.Installed? ==>
                && r.Failed? && active && runtime == old(runtime)
                && protection == (old(protection) && f.setup.Untouched?)
    {
      hide Seen, SetUp, TakenDown, ApplyHazard, ApplyBares, Safe, Restarted;
      ApplyExactly(Now(), sync, f);
      ApplyMeans(Now(), sync, f);
      WriteFile(f.generated);
      if !f.generated.Replaced? {
        return Failed;
      }
      var running := active && !service;
      if sync && tun && running {
        var installed := SetupRouting(f.setup);
        if !installed {
          return Failed;
        }
      }
      if running {
        if f.reloaded {
          Reload();
        } else {
          var restarted := RestartChild(f.restart);
          if !restarted {
            return Failed;
          }
        }
      }
      if sync && !tun && running {
        var restored := RestoreRouting(f.cleaned);
        if !restored {
          return Failed;
        }
      }
      r := Done;
    }

    /** A client submits a configuration, which is committed, or not, and then applied. */
    method ConfigureCore(enabled: bool, proxyMode: Mode, committed: bool, f: ApplyFate) returns (r: Result)
      modifies this
      ensures Outcome(Now(), r) == Configured(old(Now()), enabled, proxyMode, committed, f)
      ensures Safe(old(Now())) ==>
                && (Safe(Now()) <==> !(committed && ApplyHazard(old(Now()), enabled, old(tun) != enabled, f)))
                && (bared <==> old(bared) || (committed && ApplyBares(old(Now()), enabled, old(tun) != enabled, f)))
      ensures r.Refused? <==> !committed
      ensures r.Refused? ==> Now() == old(Now())
      ensures !r.Refused? ==> (r.Done? || r.Failed?) && tun == enabled && mode == proxyMode
      ensures r.Done? && old(active) && !service ==> active && runtime == tun
      ensures committed && old(active && !tun) && !service && enabled && f.generated.Replaced? && !f.setup.Installed? ==>
                && r.Failed? && active && runtime == old(runtime)
                && protection == (old(protection) && f.setup.Untouched?)
    {
      hide Applied;
      if !committed {
        return Refused;
      }
      var sync := tun != enabled;
      tun, mode := enabled, proxyMode;
      r := Apply(sync, f);
    }

    method Serve(request: Request) returns (r: Result)
      modifies this
      ensures Outcome(Now(), r) == Served(old(Now()), request)
    {
      hide Started, Stopped, TunSet, Applied, Configured, Safe;
      match request {
        case Start(f) => r := StartCore(f);
        case Stop(f) => r := StopCore(f);
        case SetTun(enabled, f) => r := SetTunMode(enabled, f);
        case Configure(enabled, proxyMode, committed, f) => r := ConfigureCore(enabled, proxyMode, committed, f);
        case Refresh(f) => r := Apply(false, f);
        case CoreDies(cleaned) =>
          Exit(cleaned);
          r := Done;
      }
    }

    /** Any sequence of requests, whatever their results. */
    method ServeAll(requests: seq<Request>) returns (results: seq<Result>)
      modifies this
      ensures Now() == Run(old(Now()), requests)
      ensures |results| == |requests|
      ensures forall i | 0 <= i < |requests| :: results[i] == Served(Run(old(Now()), requests[..i]), requests[i]).result
      ensures Safe(old(Now())) && !old(bared) ==>
                && (bared <==> exists i | 0 <= i < |requests| :: Bares(Run(old(Now()), requests[..i]), requests[i]))
                && (HazardFree(old(Now()), requests) ==> Safe(Now()))
    {
      hide Served, Bares, Safe;
      results := [];
      for i := 0 to |requests|
        invariant Now() == Run(old(Now()), requests[..i]) && |results| == i
        invariant forall j | 0 <= j < i :: results[j] == Served(Run(old(Now()), requests[..j]), requests[j]).result
      {
        assert requests[..i + 1][..i] == requests[..i];
        var r := Serve(requests[i]);
        results := results + [r];
      }
      assert requests[..|requests|] == requests;
      if Safe(old(Now())) && !old(bared) {
        RunBaredExactly(old(Now()), requests);
        RunSafeUntilHazard(old(Now()), requests);
      }
    }
  }

  /** TUN is enabled by a submitted configuration while a child runs, and its setup fails: the configuration
      stays. The next refresh of a subscription then turns TUN on without any protection. */
  method FailedSetupEndangersRefresh() returns (m: Manager, failed: Result, refreshed: Result)
    ensures fresh(m) && failed.Failed? && refreshed.Done?
    ensures m.tun && m.active && m.runtime && !m.protection
  {
    m := new Manager(false);
    var started := m.StartCore(StartFate(Replaced, true, Installed, true, true, true, true, true));
    var works := ApplyFate(Replaced, Untouched, true, RestartFate(true, true, Installed, true, true), true);
    assert m.active && !m.runtime && !m.protection;
    failed := m.ConfigureCore(true, Rule, true, works);
    refreshed := m.Apply(false, works);
  }
}
