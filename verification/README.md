# Verification of mihomo-tui

A Dafny model of the parts of mihomo-tui that keep several stores in agreement while single steps
fail, with proofs about it. `dafny verify dfyconfig.toml` checks everything.

What is modelled, file by file:

- `NftRuleset`, `MangleTable`, `TunHost`, `TunRecovery`, `TunSteps`, `TunController`: the TUN routing controller.
  The host is a set of policy rules, a set of routes, an nft ruleset and an iptables mangle table. The
  controller is a class whose every command may fail, with or without having taken effect, whose every
  read and write of the record may fail, and which may crash after any of them; `trace` holds every state a crash can
  leave behind.
- `ReturnPath`: what an installation is for. Its policy rules and firewall rules are read word by word and run on
  packets.
- `ConfigModel`, `Validation`, `PoolOps`, `ConfigHeap`, `ConfigStore`, `ConfigClients`: the shared
  configuration. Slices are real arrays, so that filtering in place and sharing are visible; clients
  read, modify and submit while others commit in between.
- `Secrets`: the two files a configuration is split into.
- `Failover`, `Names`, `Generation`, `Profiles`: failing refreshes and the switch to a backup, free
  display names, what a generated file draws on, and the profile and port requests as transactions
  over configuration, caches, generated file and core.
- `ManagerSteps`, `ManagerRequests`, `Process`, `Reconcile`, `Sessions`: requests to start, stop and set TUN, and applies of a
  configuration; the child process manager, the apply worker and the web sessions as state machines over all interleavings.
- `LogRing`: the rotating log recorder. `Rules`: the rule compiler.
- `Text`, `Sets`, `Wrappers`: small helpers.

Things the proofs turned up, each stated as a lemma or an exact condition:

- Setup cleans up with the firewall backend it detects. For a recorded nft installation and an
  iptables host, the record is deleted and the nft table stays behind
  (`TunRecovery.DetectedBackendDecidesTable`); clean-ups without a record never reach it
  (`TunRecovery.CleanUpsMissStaleTable`). A later nft setup takes it over: if that fails before its
  script has run, neither the roll-back nor any later clean-up or setup with nft succeeds, while one with
  iptables drops the record and leaves the table again; after the script has run, a clean-up with nft
  removes the stale table as well (`TunRecovery.StaleTableDecidesSetup`). Stopping does check the
  recorded backend.
- A foreign rule or verdict map that refers to a project chain makes every clean-up fail, and with it
  every setup (`TunController.Machine.CleanIptables`, `TunController.Machine.CleanArtifacts`).
- `assignPoolMembers` leaves an enabled pool empty, hence an invalid configuration, exactly if that
  pool has no active member (`PoolOps.AssignmentValidExactly`, `PoolOps.EditMayEmptyPool`).
- A comment at `Flush` says that a failed flush leaves the old values on disk. The secrets are
  written first, so after a failure of the second write a restart reads new addresses under old entries
  (`Secrets.CrashBetweenWrites`). When only the mode of a replaced file cannot be set, the commit is
  refused with both files new (`Secrets.Files.Flush`). Starting with an unreadable secrets file and saving once erases all
  secrets (`Secrets.SavingUnreadSecretsErases`).
- A new core may be launched before the clean-up for its predecessor has run, which then removes the
  new core's protection (`Process.ProtectionLastsExactly`, `Process.LaunchMayPrecedeCleanUp`).
- Requests that leave a running TUN core unprotected are known exactly (`ManagerSteps.Hazard`): a start whose
  setup fails after clearing, that starts a child twice, or that cannot stop again what was not healthy in time;
  a stop that cannot read the state; disabling TUN when the controller does not answer; and roll-backs of a
  TUN request that fail in part (`ManagerSteps.UnconfirmedEnablingEndangers`). A roll-back never puts the proxy
  mode back.
- Setting the routing up again first removes what is installed. A core that runs with TUN on is therefore
  without protection for a moment, and for good after a crash in it, when it is started a second time as a
  service (`ManagerSteps.SecondStartBares`), and when disabling TUN is rolled back with success
  (`ManagerSteps.RefusedDisablingBares`). `ManagerSteps.Bares` says exactly which requests do this.
- An apply has two hazards (`ManagerSteps.ApplyHazard`). If the routing setup fails while a
  submitted configuration enables TUN, the configuration stays, and the next refresh of a subscription loads
  it without any setup (`ManagerRequests.FailedSetupEndangersRefresh`). With the core as a service of the
  system, an apply reports success and does not reach the core (`ManagerRequests.Manager.Apply`).
- A profile or port request that is rolled back puts a whole snapshot in place, and with it undoes what others
  committed since (`ConfigClients.RollBack`, `ConfigClients.RollBackLosesCommit`).
- Backups left behind by a lowered limit reappear, out of order, when it is raised
  (`LogRing.LimitChangeExactly`, `LogRing.RaisedLimitFindsStaleBackup`).
- After one failed rotation the recorder stays enabled and drops every line
  (`LogRing.FailedRotationSilences`).
- Manager requests generate outside the apply queue, and can write an older configuration over a newer
  one (`Reconcile.DirectGenerationMayGoBack`). As both sides write the same temporary file, the worker can
  also put the older one in place itself and report its own commit as applied
  (`Reconcile.AppliedMayBeMissing`). One lock for all generations would do (`Reconcile.OneAtATimeIsInOrder`).
- A comma in the name or group of a rule list passes validation and breaks its rule
  (`Rules.CommaLosesList`).
- Rule list names that differ only in replaced characters collide, and one list is consulted for both
  (`Rules.DistinctIdsMayCollide`).

## Model

| member | source | states |
|---|---|---|
| NftJson.FindIsExact | mihomotui/tun_routing_linux.go:700-723 | the search finds a target exactly if the tree holds, at any depth, a field jump or goto whose first target is one of the three old chains, and what it finds is the target of such a field |
| NftRuleset.ArtifactsExactly | mihomotui/tun_routing_linux.go:690-762 | what a migration removes: the three old chains, by name, the rules in them, and the rules with a handle that refer to one at any depth |
| NftRuleset.RunScriptAddsOwnTable | mihomotui/tun_routing_linux.go:603-635 | the install script puts the marked table in place and changes nothing else: deleting the table afterwards equals deleting it before |
| NftRuleset.DropCommutes | mihomotui/tun_routing_linux.go:637-659 | removals from the ruleset commute, so the order of cleaning does not matter |
| MangleTable.InstallThenClean | mihomotui/tun_routing_linux.go:892-951 | cleaning an iptables installation gives what cleaning the table before it gives |
| MangleTable.InstallIgnoresLeftovers | mihomotui/tun_routing_linux.go:858-911 | whatever was left over, an installation ends the same, with exactly one jump per hook |
| MangleTable.CleanIsIdempotent | mihomotui/tun_routing_linux.go:913-951 | a cleaned table is not changed by cleaning |
| TunRecord.NewRecordPlan | mihomotui/tun_routing_linux.go:367-414 | the plan of a record this release writes is the project's rules and the one default route, and is never refused; what these do is the matter of `ReturnPath` |
| TunRecord.RefusedExactly | mihomotui/tun_routing_linux.go:387-414 | which records are refused, which describe nothing, and the route of the others |
| TunRecord.CommentsDiffer | mihomotui/tun_routing_linux.go:596-602 | no two installations have the same marker |
| TunRecord.OwnsExactly | mihomotui/tun_routing_linux.go:953-974 | which records stand for a table of the project's |
| TunRecord.NewRecordSays | mihomotui/tun_routing_linux.go:1066-1100 | interface, gateway, backend, table and priorities in a new record, in a phase before the active one |
| ReturnPath.AddedRulesRoute | mihomotui/tun_routing_linux.go:367-380 | among the rules an installation adds, a packet to a private address is looked up in the main table, any other with the project's bit in a table whose only route leads through the gateway and out of the interface, and no other packet is matched |
| ReturnPath.FilterMarks | mihomotui/tun_routing_linux.go:603-624 | either firewall marks connections that come in by the interface and packets of marked connections, and no other bit of any mark changes |
| ReturnPath.AnswersGoBack | mihomotui/tun_routing_linux.go:1066-1124 | with either backend, an answer to a connection that came in by the interface goes back through it, or to a private address the usual way |
| ReturnPath.OthersGoTheirWay | mihomotui/tun_routing_linux.go:1066-1124 | packets of other connections keep their marks and are not matched, unless they go to a private address |
| ReturnPath.LegacyRulesMatch | mihomotui/tun_routing_linux.go:402-409 | which packets the rules of the first release match, and for which tables and priorities |
| TunRecovery.CoveredCommandKeepsRecovery | mihomotui/tun_routing_linux.go:987-1018 | write-ahead step: a command the record accounts for, applied or not, failed or cut off, does not change the outcome of a later clean-up and puts nothing in its way |
| TunRecovery.PersistingKeepsRecovery | mihomotui/tun_routing_linux.go:1066-1124 | after only the record was persisted, recovery gives the untouched host back |
| TunRecovery.RecoveryIsIdempotent | mihomotui/tun_routing_linux.go:987-1018 | a finished clean-up has nothing left to do |
| TunRecovery.RecoveryIsExact | mihomotui/tun_routing_linux.go:571-594 | with either backend, recovering an installation restores the host if and only if no foreign rule or route, nor for nft a project table, sat in its slots |
| TunRecovery.SameRecoverySameForeign | mihomotui/tun_routing_linux.go:637-659 | states with the same recovery agree on every foreign rule, route, table and chain |
| TunRecovery.DetectedBackendDecidesTable | mihomotui/tun_routing_linux.go:1066-1085 | a recorded nft table is removed exactly if setup detects nft; otherwise the record goes and the table stays behind |
| TunRecovery.TableGoesExactly | mihomotui/tun_routing_linux.go:637-659 | which clean-ups delete the project table: exactly those with nft from a record of an nft installation that predates markers or whose marker the table carries |
| TunRecovery.CleanUpsMissStaleTable | mihomotui/tun_routing_linux.go:953-974 | no number of clean-ups without a record reaches a table left behind |
| TunRecovery.FreshSetupKeepsRecovery | mihomotui/tun_routing_linux.go:1066-1124 | without a table of the project's name, persisting the record and installing leave the outcome of a clean-up as it was |
| TunRecovery.StaleTableDecidesSetup | mihomotui/tun_routing_linux.go:1066-1124 | with a stale one, no clean-up with nft succeeds between persisting the record and running the script, one with iptables drops the record only, and after the script a clean-up with nft takes the stale table along |
| TunRecovery.QuiescentIsClear | mihomotui/tun_routing_linux.go:776-828 | on a host that holds nothing of the project's nothing is in the way of a clean-up |
| TunRecovery.InstalledSameForeign | mihomotui/tun_routing_linux.go:603-635 | an installation leaves every foreign rule, route, table and chain alone |
| TunController.Machine.Run | mihomotui/tun_routing_linux.go:271-299 | one command with any fate: state, result and trace afterwards, and every state recoverable |
| TunController.Machine.UndoRules | mihomotui/tun_routing_linux.go:987-1018 | deletes the recorded rules, tolerating missing ones and going on after errors |
| TunController.Machine.DeleteOwnTable | mihomotui/tun_routing_linux.go:637-659 | deletes the project table only if it carries the install marker |
| TunController.Machine.CleanArtifacts | mihomotui/tun_routing_linux.go:776-828 | references go before chains; success means that every project chain with its rules and every rule jumping or going to one is gone, in any table, and all else is as before; without faults it succeeds if and only if no verdict map holds a project chain |
| TunController.Machine.EnsureMainJump | mihomotui/tun_routing_linux.go:869-890 | deletes jumps until none matches, which terminates, and appends one |
| TunController.Machine.SetupIptables | mihomotui/tun_routing_linux.go:892-911 | for every map iteration order the result is the canonical installation |
| TunController.Machine.CleanIptables | mihomotui/tun_routing_linux.go:913-951 | success means that the table is the clean form of what it was; without faults it succeeds if and only if no other rule is in the way of deleting a project chain |
| TunController.Machine.CleanupFirewall | mihomotui/tun_routing_linux.go:953-974 | what cleaning the firewall leaves, and, without faults, exactly when it succeeds: the marker is found and nothing of anybody else's refers to a project chain |
| TunController.Machine.Cleanup | mihomotui/tun_routing_linux.go:987-1018 | success means the recovered host and no record, and nothing in the way; without faults it succeeds exactly if recovery ends without a record and nothing is in the way |
| TunController.Machine.Restore | mihomotui/tun_routing_linux.go:1020-1037 | refused for an unreadable record or another backend, and then touches nothing; otherwise as clean-up |
| TunController.Machine.RunScript | mihomotui/tun_routing_linux.go:626-635 | the script runs or not, and where a clean-up leads from then on, a stale table included |
| TunController.Machine.Install | mihomotui/tun_routing_linux.go:1089-1116 | success means every rule, the default route and the firewall objects of the record are there and nothing else changed; where clean-ups can lead afterwards |
| TunController.Machine.InstallOrRollBack | mihomotui/tun_routing_linux.go:1039-1124 | installed with the record active, or rolled back to where a clean-up leads; every state in between leads to one of the stated outcomes |
| TunController.Machine.Setup | mihomotui/tun_routing_linux.go:1066-1124 | all or nothing on any host: installed on top of the recovered host, with the return path of `ReturnPath.AnswersGoBack`, or back to where a clean-up leads; on every path and in every state passed through foreign objects are unchanged and clean-ups lead to the stated outcomes only; without faults it succeeds exactly if the slots are free and nothing is in the way |
| TunController.CrashAndCleanUp | mihomotui/tun_routing_linux.go:1066-1124 | any number of setups and removals with any faults, each cut off between any two steps or not, then one clean-up: each leaves a state behind that leads back, smooth ones the installation or the starting host, and in the end the host is exactly as before the first and no record is left |
| TunController.Try | mihomotui/tun_routing_linux.go:1020-1124 | what one attempt leaves, as a state its machine went through |
| TunSteps.Parse | mihomotui/tun_routing_linux.go:725-762 | lists exactly the project chains and exactly the rules that refer to one, looking no further in a rule than the first match |
| TunSteps.AdmitsExactly | mihomotui/tun_routing_linux.go:444-560 | which hosts and interface names a setup is refused for |
| ConfigHeap.Clone | mihomotui/config_store.go:14-28 | equal in value and sharing no array with anything that existed, pool members included |
| ConfigHeap.FilterInPlace | mihomotui/config.go:588-612 | the kept members in order, and what a holder of the old slice reads afterwards |
| ConfigHeap.RemoveSubscriptionInPlace | mihomotui/config.go:579-628 | the in-place removal refines the removal on values, using the arrays it was given only |
| ConfigHeap.AssignPoolMembers | mihomotui/daemon_handlers_pool.go:11-41 | the in-place exclusive move refines the move on values |
| ConfigHeap.EditPoolInPlace | mihomotui/daemon_handlers_pool.go:103-135 | an edited pool and the move of its members, or a refusal that changes nothing |
| ConfigStore.Store.CommitLocked | mihomotui/config_store.go:32-44 | commits exactly if valid and written, one version up; otherwise nothing changes |
| ConfigStore.Store.UpdateGlobalConfig | mihomotui/config_store.go:50-61 | commits the edited value in fresh arrays or changes nothing, and writes no array that existed, even when edits fail half-way |
| ConfigStore.Store.ReplaceGlobalConfig | mihomotui/config_store.go:74-91 | conflict exactly for another version; else what is committed is as submitted, but that an empty secret keeps the old one and that in a root daemon the three paths stay |
| ConfigStore.AppliedMeans | mihomotui/config_store.go:50-61 | activating and restoring do what they are for |
| ConfigClients.SnapshotSurvives | mihomotui/config_store.go:14-61 | an earlier snapshot and the old configuration read the same after any update |
| ConfigClients.StructCopyIsTorn | mihomotui/config.go:588-612 | filtering through a plain struct copy corrupts the original: [a, b] without a reads [b, b] |
| ConfigClients.HandlePost | mihomotui/daemon_handlers_config.go:18-56 | invalid, conflicting and accepted submissions told apart exactly; what is kept of the old configuration; and the response without the secret |
| ConfigClients.Others | mihomotui/config_store.go:86-90 | along any sequence of submissions no client changes a path of a root daemon |
| ConfigClients.ReadIsCurrent | mihomotui/ipc_client.go:192-210 | a configuration read in two requests has the current version only if it is current as a whole |
| ConfigClients.Attempt | mihomotui/ipc_client.go:273-301 | one round with commits by others in all three gaps; an idle one has read no configuration older than the round |
| ConfigClients.VersionsDistinct | mihomotui/config_store.go:36-36 | versions number the commits, one by one |
| ConfigClients.Client.MutateServerConfig | mihomotui/ipc_client.go:243-303 | no lost update: success is the mutation of the configuration current at commit, an unchanged one is unchanged relative to a read made during the call and commits nothing, and giving up takes two commits by others |
| ConfigClients.RollBack | mihomotui/manager_profiles.go:105-135 | putting a snapshot back undoes all that was committed since: another client loses a commit exactly if it made one, since then, that changed something |
| ConfigClients.RollBackLosesCommit | mihomotui/manager_profiles.go:105-113 | on any valid configuration, an accepted submission between snapshot and roll-back is gone afterwards |
| Validation.ValidatePorts | mihomotui/config_validate.go:43-68 | no problem exactly for enabled ports in range and distinct |
| Validation.ValidateSubscriptions | mihomotui/config_validate.go:121-150 | no problem exactly for well-formed subscriptions with unique IDs and names and an active index in range |
| Validation.ValidatePools | mihomotui/config_validate.go:151-192 | no problem exactly for well-formed, pairwise disjoint pools of existing members |
| Validation.ValidateBuiltIns | mihomotui/config_validate.go:218-270 | no problem exactly for ordered rules with one enabled MATCH, the last |
| Validation.Validate | mihomotui/config_validate.go:37-278 | no problem if and only if the configuration is valid |
| PoolOps.RemovalKeepsValid | mihomotui/config.go:579-628 | deleting a subscription keeps a valid configuration valid |
| PoolOps.RemovalErases | mihomotui/config.go:585-612 | no list, pool or active member refers to the removed subscription |
| PoolOps.RemovalPassesOn | mihomotui/config.go:588-612 | a pool passes the active place to its first member left, and is disabled and degraded exactly when emptied; the rest of it stays |
| PoolOps.WithoutKeepsOrder | mihomotui/config.go:588-612 | kept members stay in their order |
| PoolOps.RemovalKeepsActive | mihomotui/config.go:613-626 | the active subscription is the same one unless it was removed; then its successor or the new last one |
| PoolOps.AssignmentValidExactly | mihomotui/daemon_handlers_pool.go:11-41 | the move gives valid pools if and only if it empties no other enabled pool without an active member |
| PoolOps.EditMayEmptyPool | mihomotui/daemon_handlers_pool.go:103-135 | valid pools and an accepted request after which they are invalid |
| PoolOps.AssignmentMoves | mihomotui/daemon_handlers_pool.go:11-41 | an ID stays in a pool exactly if that is the target or the target does not claim it |
| PoolOps.AssignmentPassesOn | mihomotui/daemon_handlers_pool.go:11-41 | a pool that gives away its active member runs on the first one left, or is disabled and degraded; the rest of it stays |
| PoolOps.EditMeans | mihomotui/daemon_handlers_pool.go:103-135 | what an edit sets, what it leaves, and when it is refused |
| PoolOps.NormalizeKeepsValid | mihomotui/manager_profiles.go:62-103 | normalising keeps validity whatever the pools were, is idempotent and settles the check |
| PoolOps.NormalizedMeans | mihomotui/manager_profiles.go:62-75 | the one pool holds all profiles in their order, fails over and runs on the active one |
| Secrets.SecretsFromConfig | mihomotui/secrets.go:53-71 | the loops collect the secrets by ID and by name |
| Secrets.PublicConfigForDisk | mihomotui/secrets.go:75-89 | the loops replace every secret by its reference |
| Secrets.LoadRuntimeSecrets | mihomotui/secrets.go:126-137 | the loops put every filed secret back |
| Secrets.ContainsInlineSecrets | mihomotui/secrets.go:91-106 | reports exactly whether the API secret or some address is neither blank nor a reference nor the marker for none |
| Secrets.RoundTripExactly | mihomotui/secrets.go:53-138 | splitting and merging a list undo each other if and only if every secret has a key and no entry of that key another URL |
| Secrets.LoadUndoesSplit | mihomotui/secrets.go:53-138 | the same for a whole configuration |
| Secrets.ValidIsRecoverable | mihomotui/config_validate.go:121-150 | valid configurations meet the condition |
| Secrets.PublicHoldsNothing | mihomotui/secrets.go:75-106 | the public form holds no secret, is its own public form and has none to split off |
| Secrets.PublicIsPublic | mihomotui/secrets.go:48-89 | every address in the public form is blank, the marker for none, or a reference; those stay as they were, and every other one with an ID or name is filed under it |
| Secrets.FiledIsSecret | mihomotui/secrets.go:53-71 | what is filed is no such address, and belongs to an entry of that ID or name |
| Secrets.SecretsDoNotShow | mihomotui/secrets.go:75-89 | lists that differ in secret values only have the same public form |
| Secrets.Files.Flush | mihomotui/config.go:478-504 | which of the two files are replaced when either replacement fails, before it or with an error after it |
| Secrets.StartupUndoesFlush | mihomotui/config.go:478-504 | a restart finds the flushed configuration if and only if it is recoverable and nothing of it is missing |
| Secrets.RepairedExactly | mihomotui/config.go:405-457 | loading leaves a configuration alone exactly if it is complete, and completes any other |
| Secrets.ValidNeedsLittle | mihomotui/config.go:405-457 | a valid configuration is complete exactly if it has a pool for its subscriptions, both paths, both log limits, a controller address, and a core or an address to get one from |
| Secrets.RepairKeepsValid | mihomotui/config.go:400-457 | loading keeps a valid configuration valid |
| Secrets.DefaultPoolOk | mihomotui/config.go:403-418 | the pool made for old subscriptions holds all in their order and runs on the active one or the first |
| Secrets.RepairsFill | mihomotui/config.go:430-457 | what is filled in for settings that are not given |
| Secrets.RepairsAreValid | mihomotui/config.go:430-457 | settings whose empty fields are their only fault become valid |
| Secrets.CrashBetweenWrites | mihomotui/config.go:478-504 | between the writes every subscription loads the new URL of its own ID, its own old public URL, or its own reference, and the last exactly when stated |
| Secrets.CrashBetweenRuleWrites | mihomotui/secrets.go:126-137 | the same of every rule subscription, by its name |
| Secrets.SavingUnreadSecretsErases | mihomotui/secrets.go:108-138 | starting without readable secrets and saving leaves references only, for good |
| Failover.Successor | mihomotui/daemon_handlers_subscription.go:363-373 | the first member in order with a cache and fewer than three failures, none exactly if there is no such member |
| Failover.FailoverSubscription | mihomotui/daemon_handlers_subscription.go:349-393 | what the pass with its one shared flag does to each pool, for all configurations |
| Failover.SharedFlagIsSound | mihomotui/daemon_handlers_subscription.go:349-380 | with disjoint members the shared flag changes nothing: each pool fails over by itself |
| Failover.RefreshFailed | mihomotui/daemon_handlers_subscription.go:185-237 | a failed refresh with nobody in between counts once and then fails over |
| Failover.StepKeepsValid | mihomotui/daemon_handlers_subscription.go:197-237 | none of the commits of a refresh can be refused, wherever others commit in between |
| Failover.FailedIsTwoSteps | mihomotui/daemon_handlers_subscription.go:185-237 | a failed refresh is its two commits, one after the other |
| Failover.LeavesOnlyFailing | mihomotui/daemon_handlers_subscription.go:355-373 | a member is left only at a count of three or more, for the first usable one in order |
| Failover.CountIsFailures | mihomotui/daemon_handlers_subscription.go:197-222 | at every point of a run, however commits interleave, the count is the number of failed refreshes since the last successful one, on top of the initial count if there was none |
| Failover.LeavesAfterThree | mihomotui/daemon_handlers_subscription.go:349-373 | no pool leaves a member that started without failures before three of its refreshes failed with none succeeding in between |
| Failover.FailoverMeans | mihomotui/daemon_handlers_subscription.go:349-393 | which pools a switch may touch, what of them, and to which members |
| Failover.SwitchUsesUp | mihomotui/daemon_handlers_subscription.go:349-393 | the commit that switches adds no spare member, and uses one up if it does switch |
| Failover.FailoverIsBounded | mihomotui/daemon_handlers_subscription.go:349-393 | however the commits of failing and succeeding refreshes interleave and whatever caches come and go, a pool switches at most once per spare member and successful refresh |
| Failover.SpareIsFewer | mihomotui/daemon_handlers_subscription.go:363-373 | spare members are at most the members less one |
| Failover.SwitchesOrDegrades | mihomotui/daemon_handlers_subscription.go:363-380 | a failing member at the threshold is left or the pool degraded, degraded if no member is spare |
| Names.UniqueSubscriptionName | mihomotui/daemon_handlers_subscription.go:852-862 | ends, with the first candidate, from the trimmed or derived name on, that is no ID and no name: that name itself, or it and a number from two on |
| Names.DecimalInjective | mihomotui/daemon_handlers_subscription.go:858-860 | different numbers give different suffixes |
| Names.DecimalIsNumber | mihomotui/daemon_handlers_subscription.go:858-860 | the digits of a number read as that number |
| Generation.ActivePoolSubscriptions | mihomotui/subscription_pool.go:113-152 | the nested loops collect the usable sources of all enabled pools or fail at the first pool without any |
| Generation.SourcesExactly | mihomotui/subscription_pool.go:113-152 | there are sources exactly if some pool is enabled and every enabled one has a usable subscription; they are what the enabled pools take in, and for valid pools none comes twice |
| Generation.ProfileGeneration | mihomotui/subscription_pool.go:113-152 | with the profile pool, generation succeeds exactly if the active profile has its cache, and draws on that alone |
| Generation.GenerationNeedsActiveOnly | mihomotui/manager_profiles.go:176-199 | equal active cache and settings give equal files, whatever the other profiles |
| Generation.FileShowsSettings | mihomotui/mihomo_config.go:555-590 | the generated file shows TUN, secret, settings, lists and rules of the configuration, and its sources are existing caches or, without pools, the remote addresses |
| Profiles.Manager.ApplyProfileConfig | mihomotui/manager_profiles.go:115-135 | the new configuration in force, or snapshot, file and core as before |
| Profiles.Manager.Import | mihomotui/manager_profiles.go:137-203 | one profile more under a new name built from the one asked for or derived, with its cache, or everything as before |
| Profiles.Manager.Activate | mihomotui/manager_profiles.go:239-257 | the profile active and in force, or everything as before |
| Profiles.Manager.Update | mihomotui/manager_profiles.go:258-310 | new bytes, digest and, for the active profile, file and core; or the old ones back in all four stores |
| Profiles.Manager.Rename | mihomotui/manager_profiles.go:311-329 | the name is the one asked for, trimmed, only that changes, and the generated file needs no renewal |
| Profiles.Manager.Delete | mihomotui/manager_profiles.go:330-352 | profile and cache gone and the rest in force, or everything as before |
| Profiles.Manager.SetProxyPort | mihomotui/manager_api.go:372-466 | the core on the one mixed port, or everything as before; always the latter without a profile or with a core that does not answer |
| Profiles.Manager.StartCore | mihomotui/manager_api.go:202-243 | refused without a profile, or for a child that runs; otherwise the core runs on the file of the configuration, or has been stopped when it was not healthy in time, even if it had been active before |
| Profiles.DeleteKeepsProfiles | mihomotui/manager_profiles.go:330-352 | deletion keeps the pool normalised, the active index and every cache right |
| Profiles.RefreshKeepsProfiles | mihomotui/manager_profiles.go:258-310 | new bytes touch no other profile's cache, and an inactive one's do not show in what the core reads |
| Profiles.RefreshMeans | mihomotui/manager_profiles.go:275-290 | one profile has the new digest, no failures and the cache of its ID; nothing else changes |
| Profiles.LoadTells | mihomotui/manager_profiles.go:258-310 | what a core has read is the same exactly for the same settings and the same bytes |
| ManagerSteps.StartMeans | mihomotui/manager_api.go:202-243 | when a start succeeds and what it achieves |
| ManagerSteps.StopMeans | mihomotui/manager_api.go:245-274 | what a stop achieves, and when it does not |
| ManagerSteps.TunMeans | mihomotui/manager_api.go:276-370 | what a TUN request achieves, on a stopped core as well |
| ManagerSteps.ExitMeans | mihomotui/mihomo_process.go:164-187 | a child takes along the protection it was launched with |
| ManagerSteps.ServedExactly | mihomotui/manager_api.go:202-370 | from a safe state, which requests end in an unsafe one, and which pass through one, exactly, for every outcome of every step |
| ManagerSteps.RunBaredExactly | mihomotui/manager_api.go:202-370 | along every run, roll-backs and failures included, the core has been bare at some moment if and only if some request of the run bares in the state it found |
| ManagerSteps.RunSafeUntilHazard | mihomotui/manager_api.go:202-370 | between requests a running TUN core is protected throughout if and only if the run meets no hazard |
| ManagerSteps.RollBackExactly | mihomotui/manager_api.go:303-314 | which roll-backs of a TUN request end unsafe, and which pass through an unsafe moment |
| ManagerSteps.RestartExactly | mihomotui/mihomo_process.go:281-293 | restarting a child never bares it |
| ManagerSteps.SecondStartBares | mihomotui/manager_api.go:217-223 | a run in which nothing fails and a protected service is bare for a moment |
| ManagerSteps.RefusedDisablingBares | mihomotui/manager_api.go:303-334 | a disabling that fails in the reload and is rolled back with success bares the core |
| ManagerSteps.UnconfirmedEnablingEndangers | mihomotui/manager_api.go:303-355 | an unconfirmed enabling whose roll-back cannot reload ends with an unprotected TUN core |
| ManagerRequests.Manager.StartCore | mihomotui/manager_api.go:202-243 | what a start does and when it succeeds; the protection is installed before the core is started: exactly which starts end with an unprotected TUN core, and exactly which pass through one |
| ManagerRequests.Manager.StopCore | mihomotui/manager_api.go:245-274 | the core is stopped before the protection goes: unprotected, at the end or on the way, exactly if the state could not be read |
| ManagerRequests.Manager.SetTunMode | mihomotui/manager_api.go:276-370 | setup before the reload and removal after it: exactly which requests, roll-backs and their failures included, end with an unprotected TUN core, and which pass through one; what a roll-back that works restores |
| ManagerRequests.Manager.Apply | mihomotui/reconcile.go:98-140 | after a success a child runs on the committed TUN setting, with the protection to match if that has changed; a service core is not reached; exactly which applies end with, and which pass through, an unprotected TUN core |
| ManagerRequests.Manager.ConfigureCore | mihomotui/daemon_handlers_config.go:37-47 | a submitted configuration is committed and then applied, and stays when that fails; the exact hazards |
| ManagerRequests.FailedSetupEndangersRefresh | mihomotui/reconcile.go:92-140 | a start, a submission that fails to enable TUN and a refresh end with an unprotected TUN core |
| ManagerRequests.Manager.ServeAll | mihomotui/manager_api.go:202-370 | serves any sequence of requests, whatever their results: a running TUN core has been without protection at some moment if and only if some request met a state in which it bares |
| Reconcile.RunKeepsInv | mihomotui/reconcile.go:39-140 | what holds in every state of a run in which nobody is overtaken: nobody writes from a snapshot older than a commit after somebody has written from one that has it |
| Reconcile.GoesBackExactly | mihomotui/mihomo_config.go:592-608 | along a run, with generations by the worker and by manager requests, an older file replaces a newer one if and only if one read before a commit is put in place after one read after it; only then can the core go back |
| Reconcile.InFileExactly | mihomotui/mihomo_config.go:592-608 | a commit is in the file exactly if what was put in place last had been read after it |
| Reconcile.OneAtATimeIsInOrder | mihomotui/reconcile.go:39-65 | if never two snapshots are held at once, nobody is overtaken |
| Reconcile.WorkerAloneIsInOrder | mihomotui/reconcile.go:39-65 | as long as only the worker generates, nobody is overtaken |
| Reconcile.DirectGenerationMayGoBack | mihomotui/manager_profiles.go:115-135 | a run in which a manager request puts an older file over the worker's |
| Reconcile.AppliedMayBeMissing | mihomotui/mihomo_config.go:592-608 | a run in which the file never goes back and the worker reports a commit as applied that is not in the file |
| Reconcile.SettlesOnTheLatest | mihomotui/reconcile.go:69-140 | with nobody overtaken, once all is queued and drained and the last generation got to replace the file, the latest wanted version is generated |
| Reconcile.AnsweredOnce | mihomotui/reconcile.go:69-79 | one answer per request, whoever generates what |
| Reconcile.AnsweredInTurn | mihomotui/reconcile.go:39-79 | requests are answered in the order they were queued in |
| Reconcile.AppliedIsInForce | mihomotui/reconcile.go:98-140 | with nobody overtaken, "applied" means generated and loaded at that version or later |
| Reconcile.WorkerNeverBlocks | mihomotui/reconcile.go:39-65 | the worker can always take its next step, whoever stopped waiting |
| Sessions.WindowsApart | internal/webgateway/server.go:291-298 | attempts share a window with rising numbers or lie in windows more than a minute apart |
| Sessions.TenPerWindow | internal/webgateway/server.go:291-304 | at most ten attempts of a window are admitted |
| Sessions.TwentyPerMinute | internal/webgateway/server.go:291-304 | at most twenty are admitted in any minute, wherever it starts |
| Sessions.RefusedAfterTen | internal/webgateway/server.go:291-304 | an attempt is refused only if the ten before it were made within the same minute |
| Sessions.Server.GetSession | internal/webgateway/server.go:238-257 | access exactly for a session under 12 hours old and under 30 minutes idle; an expired one is closed once and removed |
| Sessions.Server.Refresh | internal/webgateway/server.go:194-198 | moves the idle limit of one session and never its age |
| Sessions.Server.Sweep | internal/webgateway/server.go:327-333 | removes exactly the expired sessions in any order |
| Sessions.Server.IssueSession | internal/webgateway/server.go:322-343 | a new session exactly if there is room after the sweep; never more than sixteen |
| Sessions.Server.Close | internal/webgateway/server.go:57-69 | every session ever issued is closed, none twice |
| Sessions.Server.TryLogin | internal/webgateway/server.go:280-321 | every attempt counts; exactly when it is refused, for the limit, another check or a wrong password, and then nothing changes; else it gets a session exactly if fewer than sixteen are live |
| Process.TailOfTail | mihomotui/mihomo_process.go:34-42 | cutting at every write equals cutting once at the end |
| Process.CappedBuffer.Write | mihomotui/mihomo_process.go:24-48 | the buffer is the last limit bytes of everything written |
| Process.ManagerIsSafe | mihomotui/mihomo_process.go:89-279 | one child at most, its exit announced once without waiting, and a stop that received it comes after the exit was noted and cleaned up |
| Process.ProtectionLastsExactly | mihomotui/mihomo_process.go:156-187 | a launched core keeps its protection in every continuation if and only if no earlier clean-up was due |
| Process.LaunchMayPrecedeCleanUp | mihomotui/mihomo_process.go:164-187 | a run that launches while a clean-up is due |
| LogRing.RenameKeepsReading | mihomotui/manager_logging.go:254-273 | moving a file into an empty slot does not change what the ring reads |
| LogRing.Recorder.Shift | mihomotui/manager_logging.go:254-273 | no live backup but the oldest is ever overwritten, and the ring stays a suffix of the log |
| LogRing.Recorder.Rotate | mihomotui/manager_logging.go:254-273 | failing anywhere, the ring still reads as the most recent part of the log; without faults only the oldest backup is lost |
| LogRing.Recorder.WriteLine | mihomotui/manager_logging.go:193-207 | a written line is the end of the log and of one file, in one piece, and sizes stay within the larger of limit and line; without faults, where the content of each file goes |
| LogRing.Recorder.Consume | mihomotui/manager_logging.go:163-191 | the log grows by the payloads of the stream, line by line |
| LogRing.FramedAlike | mihomotui/manager_logging.go:163-191 | a payload is recorded alike, framed as an event or not and with whatever spaces around |
| LogRing.FailedRotationSilences | mihomotui/manager_logging.go:52-119 | after a failed rotation every line is dropped and enabling again changes nothing, until the recorder has been disabled |
| LogRing.TotalSizeBound | mihomotui/manager_logging.go:254-273 | the ring holds at most backups plus one times the larger of limit and longest line |
| LogRing.Recorder.Apply | mihomotui/manager_logging.go:52-71 | limits take effect at once and touch no file; the ring stays a suffix of the log if the files it takes in are empty |
| LogRing.LimitChangeExactly | mihomotui/manager_logging.go:52-71 | another number of backups is harmless, whatever was logged, if and only if no file it takes in says anything |
| LogRing.RaisedLimitFindsStaleBackup | mihomotui/manager_logging.go:52-71 | filling the ring, lowering the limit, logging and raising it again has a stale backup return out of order |
| Rules.BuildRuleConfig | mihomotui/mihomo_config.go:373-431 | the loops emit the layers in order, as text, and register every list, in each proxy mode |
| Rules.ReadsBackExactly | mihomotui/mihomo_config.go:391-391 | a reference to a list is read as meant if and only if neither its name nor its group has a comma in it |
| Rules.ReadBackExactly | mihomotui/mihomo_config.go:385-421 | the same for all references of a configuration |
| Rules.CommaLosesList | mihomotui/config_validate.go:194-216 | a provider named "a,b" passes validation and its rule refers to a list nobody registered |
| Rules.LooksUpItsOwnExactly | mihomotui/mihomo_config.go:385-421 | every list is found under its name if and only if no name stands for two different lists |
| Rules.CompilationKeepsMeaning | mihomotui/mihomo_config.go:373-431 | reading the emitted text at its commas and evaluating it from the top means what the layers mean, for every connection, if names are not shared and neither a name nor a group has a comma in it |
| Rules.EndsInFallback | mihomotui/mihomo_config.go:422-431 | for valid built-in rules the text ends in MATCH and decides everything, commas or not |
| Rules.GroupsAreKept | mihomotui/mihomo_config.go:373-431 | a written group is kept, none or Auto stands for the default one, in lists and at the end of written rules |
| Rules.ListsAreAsWritten | mihomotui/mihomo_config.go:385-421 | address, behavior, format, interval, group and path of each list |
| Rules.EveryListIsUsed | mihomotui/mihomo_config.go:373-431 | the lists the text refers to are exactly those registered and those of written rules, if neither a name nor a group has a comma in it |
| Rules.DistinctIdsMayCollide | mihomotui/config_validate.go:218-270 | valid built-in rules with different IDs and lists can share one name |
| Rules.PathsSharedExactly | mihomotui/mihomo_config.go:401-414 | two lists are kept in one file exactly if their replaced names and their formats are one |

## Left out

- TunController.Machine.Setup: assumes that the nft table `mihomo_tui`, if there is one, holds none of the old MIHOMO_TUI chains and no jump to one.
- TunController.CrashAndCleanUp: clean-up uses the same backend as setup; for another one see `TunRecovery.DetectedBackendDecidesTable`.
- TunHost.NftBusy: takes a chain for undeletable whenever it holds rules, a verdict map holds it, or a rule of its table refers to some project chain, not this one perhaps.
- ConfigHeap.Clone: the version catalogue and the legacy custom rules, copied like the other lists, are not fields of the model.
- ConfigStore.Store.UpdateGlobalConfig: editing in place is modelled for removals, pool edits and activations; any other result of an update function is a configuration put in place as a whole.
- ConfigClients.Client.MutateServerConfig: the controller address that comes with the credentials is not kept apart from the other settings; the promise about a success is for mutations that leave the version alone.
- ConfigStore.Store.ReplaceGlobalConfig: the many settings without part in the modelled logic (telemetry, download addresses, timestamps, quota figures) are not fields of the model.
- Secrets.Ref: a name is cut to 64 characters, not bytes, and trimming knows the ASCII blanks only; custom rules of old releases are not migrated.
- Failover.FailoverSubscription: switch times and reasons are not recorded; which cache files exist is an input of each pass.
- Profiles.Manager.ApplyProfileConfig: steps that take something back are assumed to work, since the program ignores their errors; a core whose controller does not answer counts as not running. Requests come one at a time; what others commit meanwhile is the matter of `ConfigClients.RollBack`.
- Profiles.Manager.Import: fetching, converting, judging the address and deriving a name from it are inputs, the new ID is unused, the API secret is set already.
- ManagerRequests.Manager.SetTunMode: polling is one answer, confirmed or not.
- ManagerRequests.Manager.Apply: applies and manager requests come one at a time; a clean-up still due when a child is launched anew is the matter of `Process.ProtectionLastsExactly`.
- Reconcile.GoesBackExactly: the temporary file is written in one step; one written in part, or by two at once, is not modelled. TUN routing during an apply is the matter of `ManagerRequests.Manager.Apply`.
- ReturnPath.AnswersGoBack: the rules others have installed, in the same chains or with other priorities, are not run; the nft table is the project's alone.
- Sessions.Server.IssueSession: a random token is never drawn twice; passwords, CSRF tokens and cookies are not modelled.
- Sessions.Server.TryLogin: the clock does not run backwards.
- Process.ManagerIsSafe: signals and time-outs are free choices; the fallback that polls a manager without an exit channel is left out.
- LogRing.Recorder.WriteLine: file modes, locks and reconnecting to the stream are left out.
- Rules.BuildRuleConfig: the shortened digest of an address is an arbitrary function.
- Rules.Read: the core that reads the text is not part of the repository; blanks around the fields, which it trims, and parameters after the third field are not modelled, and what other kinds of rules decide is an input.
- `mergeSubscriptionMetadata`, `ensureDefaultPool` and label helpers: one-branch field copies that would add easy members only.
- Subscription download, quota parsing, profile conversion, version catalogue, external resources, HTTP transport, user interface: library-bound or without shared state.
