# Verified model of the yui control plane

A Dafny model of the parts of yui whose correctness spans several functions or whole runs: the `yui update` handoff, the
process owner of a Claude CLI, managed checkouts, Project Knowledge, the Agent/Role/Profile store, the command tree with
its routing and completion, AgentRun records and the Controller cleanup. `dafny verify dfyconfig.toml` checks everything.
Child processes, the kernel, disks and users appear as arbitrary answers, so every theorem holds for all of them.

| file | what it covers |
|---|---|
| `Json.dfy` | text trimming (`Text`), `Options`, parsed JSON and spawn results (`JsonValues`) |
| `UpdatePorts.dfy` | the inventory verdict (`ControllerInventory`) and the doctor verdict (`DoctorVerdict`) |
| `UpdateProtocol.dfy` | the update as one automaton over its calls, and the code as methods that only make accepted calls |
| `UpdateTheorems.dfy`, `UpdateOutcome.dfy` | what every accepted run guarantees; how a run ends, from the ports' answers alone |
| `WireFormats.dfy` | what the update reads from child processes, on the fields of the JSON values |
| `SingleOwner.dfy` | the update composed with the production start port, over what the system may do meanwhile |
| `ProcessCustody.dfy` | the process forest, the owner loop, and how long the loop drains |
| `CheckoutSwap.dfy` | replace and delete of a managed checkout with a failure or a crash at every call |
| `Knowledge.dfy` | Knowledge entries, proposals and their decisions; the fresh-id search |
| `AgentStore.dfy`, `AgentEffects.dfy` | Agents, Roles, Sessions, Profiles and the default Agent in one store; what each command does |
| `CommandCatalog.dfy`, `InvocationRouter.dfy`, `Completion.dfy` | command tree and validator, routing, shell completion |
| `AgentRuns.dfy`, `ControllerCleanup.dfy` | AgentRun history; scan, confirm, re-scan, act |

Values are datatypes, rules are functions, and code that works step by step is a method or a class. Every call that may
fail or be interrupted draws its outcome nondeterministically inside the method that models it.

## What the proofs found

* A doctor report that meets every documented health condition is still rejected when its `checks` array holds a `null`
  (`DocumentedConditionsAreNotEnough`). `Healthy` is the exact condition, proved in both directions.
* `healCheckoutSwap` destroys the only complete checkout when the registered path holds a partial directory beside a
  complete parked one. It keeps a complete checkout exactly when the registered path is not partial (`Home.Heal`), and
  `BrokenDiscardThenHealLosesBoth` shows how `restoreCheckoutSwap` can lead there. Over all commands, failures and crashes
  a recorded Project has some complete checkout registered or parked exactly when no heal removed a parked one beside a
  partial one, and the next run can put one back exactly when no discard of a promoted clone was left partway, the only
  way such a heal comes about (`Home.History`). One replace alone never loses the last one (`Home.ReplaceCheckout`).
* The code documents (src/repository/checkoutSwap.ts:24-29) that a parked checkout is removed only after the catalog
  transaction commits. Across runs it is not: after a crash between swap and transaction the next heal removes the parked
  copy beside the promoted clone (`CrashAfterSwapThenHealLosesUncommitted`). A heal brings a parked checkout back exactly
  when nothing is at the registered path (`Home.Heal`), and over whole histories without a commit a checkout of the start
  is gone exactly when a heal removed it beside something there (`Home.History`).
* The exit status of the process owner is that of the last reap under the root's PID. It is surely the root's own when
  that PID was reaped once; `ReusedPidReportsAnotherStatus` gives a run where it is not.
* A Role session set that is switched while its Agent runs may go on naming an Agent that is later removed
  (`SetMayNameRemovedAgent`). A set falls behind its Role exactly by a bind while its active Agent runs
  (`FallsBehindExactly`); without one all sets name configured Agents (`SetsFollowTheirRoles`), and a name dangles exactly
  by removing an Agent a set still names (`DanglesExactly`). All other references resolve (`ReferencesResolve`).
* The duplicate branch of `planKnowledgeAcceptance` and the lifecycle and Session guards of `config agent remove` never
  decide on a store these commands built (`NoDuplicate`, `RemovalIsAllowedExactly`).
* An exception leaves the update exactly when a staged package gets a preflight answer without a value, and then before
  the lock is taken, or when the release of the acquired lock throws (`BracketsClose`).
* The option arm of the root command never matches a typed command (`ArmMatchesPrefix`).

## Model

| member | source | states |
|---|---|---|
| ControllerInventory.RunningVerdict | src/cli/updatePorts.ts:334-408 | The verdict is running exactly when one listed inventory is clean, holds a single Home Controller, current and with process proof, no artifact, and the probe names a well-formed identity |
| ControllerInventory.AbsentVerdict | src/cli/updatePorts.ts:410-430 | The verdict is absent exactly when nothing of the Home is listed and the live probe fails with CONTROLLER_NOT_RUNNING |
| ControllerInventory.VerdictIgnoresOrder | src/cli/updatePorts.ts:352-408 | Permuting the inventory changes neither verdict nor PID |
| DoctorVerdict.GroupByName | src/cli/updatePorts.ts:1351-1358 | The loop files each check under its name, in order, and throws exactly on a null entry |
| DoctorVerdict.AssertDoctorStorageHealthy | src/cli/updatePorts.ts:1319-1436 | Returns normally exactly on a healthy report: trusted envelope, exit 0, healthy, nothing blocking, every expected check once and ok |
| DoctorVerdict.DocumentedConditionsAreNotEnough | src/cli/updatePorts.ts:1351-1358 | A report meeting every documented condition but with a null check is rejected |
| UpdateProtocol.UpdateRun.RunUpdate | src/cli/updateOrchestrator.ts:115-144 | For every behaviour of the ports, a missing preflight value included, the calls made and the result returned are accepted by the automaton |
| UpdateProtocol.UpdateRun.RunStagedUpdate | src/cli/updateOrchestrator.ts:146-219 | From the staged package on, the run moves only along accepted calls and releases the lock it took, or escapes |
| UpdateProtocol.UpdateRun.CaptureControllerLifecycle | src/cli/updateOrchestrator.ts:322-418 | Returns a lifecycle only past the fence, otherwise the abort the automaton prescribes |
| UpdateProtocol.UpdateRun.ActivateAndVerify | src/cli/updateOrchestrator.ts:221-320 | Activate, migrate, verify and start or restore end in the settled state of exactly the returned result |
| UpdateProtocol.UpdateRun.VerifyActivated | src/cli/updatePorts.ts:222-280 | Verification passes exactly on a resolved binary, a healthy doctor, the staged version and a refreshed Session wrapper, and only then records binary and version |
| UpdateProtocol.UpdateRun.RestartControllerForUpdate | src/cli/updatePorts.ts:562-632 | The spawns of the production start port follow the automaton, whose phase afterwards is that of the outcome |
| UpdateProtocol.UpdateRun.StopMismatchedReplacementOrBlock | src/cli/updatePorts.ts:647-694 | A doubted replacement is stopped under its own PID after ownership is shown, or reported as unknown-active |
| UpdateProtocol.UpdateRun.RestoreControllerOrReport | src/cli/updateOrchestrator.ts:420-438 | Restores exactly when a Controller was captured and marks a failed restore as not recoverable |
| UpdateTheorems.CallsAreOrdered | src/cli/updateOrchestrator.ts:115-404 | Every run makes its calls in one fixed order, each kind at most once |
| UpdateTheorems.StopIsExact | src/cli/updateOrchestrator.ts:352-396 | A stop is only ever asked for the PID an earlier status of the same run named |
| UpdateTheorems.ActivationIsFenced | src/cli/updateOrchestrator.ts:198-239 | With lifecycle ports, activation never precedes a confirmed exact stop or a status saying not running |
| UpdateTheorems.RestoreIsFenced | src/cli/updateOrchestrator.ts:263-312 | A restore follows a confirmed stop, comes directly after the failed activation, verification or start, restores the captured identity, and never happens in a run that migrates |
| UpdateTheorems.RecoverableExactly | src/cli/updateOrchestrator.ts:228-312 | An aborted result is recoverable exactly when activation was never called, or migration was and ownership is not unknown |
| UpdateTheorems.NoSilentOutage | src/cli/updateOrchestrator.ts:228-312 | After a confirmed stop every aborted result restored, migrated or reports unknown ownership |
| UpdateTheorems.BracketsClose | src/cli/updateOrchestrator.ts:132-143 | The lock is released exactly when it was acquired, cleanup runs exactly when staging succeeded, and an exception leaves exactly when a staged package gets a preflight without a value, before the lock, or when releasing the acquired lock throws |
| UpdateTheorems.EffectsPrecedeRelease | src/cli/updateOrchestrator.ts:212-218 | No effect follows the release of the lock, and cleanup comes last |
| UpdateTheorems.UpdatedMeansVerified | src/cli/updateOrchestrator.ts:263-320 | An updated result means the staged version was activated, migrated if due, verified and its replacement authenticated |
| UpdateOutcome.OutcomeIsExact | src/cli/updateOrchestrator.ts:115-438 | The ports' answers alone decide how any run ends: the first thing that goes wrong gives the phase, the recoverability, the backup and the ownership flag, and a throwing restore or release shows |
| UpdateOutcome.UpdatedExactly | src/cli/updateOrchestrator.ts:146-320 | An update succeeds exactly when staging and preflight return and do not block, the lock is taken and released, no Controller is in the way, and activation, a due migration, verification and the replacement all succeed; it then installs the staged version |
| UpdateOutcome.Update | src/cli/updateOrchestrator.ts:115-144 | Running the update on any ports ends as they decide |
| WireFormats.IdentityMeans | src/cli/updateOrchestrator.ts:480-488 | An identity is read exactly from a record with a non-empty path, text arguments and a non-empty version, field by field |
| WireFormats.StatusMeans | src/cli/updateOrchestrator.ts:354-377 | The status flag is the boolean field running, and an owner needs a positive safe PID and a spelled-out identity |
| WireFormats.StopMeans | src/cli/updateOrchestrator.ts:392-396 | A stop is confirmed exactly by stopped true under the asked PID |
| WireFormats.MigrationMeans | src/cli/updateOrchestrator.ts:471-474 | A migration result is well formed exactly when its backup path is absent or a text |
| WireFormats.CommandMeans | src/cli/updatePorts.ts:743-784 | A Controller command answers exactly by exit 0 and a success envelope, and fails with the code on stdout before that on stderr |
| WireFormats.InventoryRowMeans | src/cli/updatePorts.ts:352-378 | Which inventory rows are Home Controllers, current ones and Controller artifacts |
| WireFormats.ProcessProofMeans | src/cli/updatePorts.ts:385-407 | The process proof is the first record among the processes, and its PID counts only if it is one |
| WireFormats.ProbeMeans | src/cli/updatePorts.ts:850-868 | The live probe names an identity exactly by a successful command whose data spells it |
| WireFormats.RestartMeans | src/cli/updatePorts.ts:894-965 | A restart names its replacement exactly by a success envelope that says restarted under a PID, with a well-formed previous PID if any |
| WireFormats.FencedStopMeans | src/cli/updatePorts.ts:463-547 | A fenced stop confirms exactly by stopped true under that PID and no false alreadyStopped |
| WireFormats.ReadinessMeans | src/cli/updatePorts.ts:583-632 | Readiness means the restart PID under the activated executable, entry point and version |
| WireFormats.VersionMeans | src/domain/validation.ts:73-75 | A concrete version is three numbers and an optional tail, as the pattern says |
| WireFormats.ReportedVersionMeans | src/cli/updatePorts.ts:1268-1284 | The reported version is the trimmed version field of a success envelope with exit 0, if concrete |
| SingleOwner.RestoreFindsNothingAlive | src/cli/updateOrchestrator.ts:283-312 | With the production start port, nothing this update has in custody is alive when the old Controller is restored |
| SingleOwner.OneControllerAtATime | src/cli/updatePorts.ts:562-694 | From activation on at most one Controller is alive, unless the start lost track, and then none is restored |
| SingleOwner.OutcomeTellsOwnership | src/cli/updatePorts.ts:562-694 | Unknown ownership is reported exactly when the start lost track; an updated run leaves at most its replacement |
| ProcessForest.MoveKeepsRooted | native/claude-process-owner.c:65-88 | Every fork, exit with adoption, collection and subreaper change keeps each process under the owner by live parents |
| ProcessForest.NoChildNoDescendant | native/claude-process-owner.c:107-113 | An owner without children has no descendant in any state, so ECHILD is proof |
| ProcessForest.ChildrenStay | native/claude-process-owner.c:40-46 | A listed child keeps its PID until the owner itself waits for it |
| ProcessForest.HeirIsNearest | native/claude-process-owner.c:60-66 | Orphans go to the first live subreaper above them, at the latest to the owner |
| ProcessOwner.Supervisor.Own | native/claude-process-owner.c:86-121 | Leaving the loop on ECHILD means an empty forest and an ended root; the code is the exit code of the last reap under its PID, or 128 and its signal; losing the root never decides, and SIGKILL rounds once begun go on |
| ProcessOwner.Supervisor.SignalChildren | native/claude-process-owner.c:34-52 | One read of own children; each listed child gets the signal, and every kill hits the very child that was listed |
| ProcessOwner.Supervisor.Escalate | native/claude-process-owner.c:91-101 | SIGTERM for the first second of draining, SIGKILL ever after, and a warning once a listing or a kill failed |
| ProcessOwner.Supervisor.Wait | native/claude-process-owner.c:102-118 | A wait reaps one own zombie, records the root's status, and reports no child only on an empty forest |
| ProcessDrain.DrainEnds | native/claude-process-owner.c:89-118 | Once nothing forks, and however late each SIGKILL takes effect, a drain is over when as many kill rounds took effect as there were processes plus live ones |
| ProcessDrain.GenerationsDie | native/claude-process-owner.c:89-118 | Once n kill rounds took effect every live process is more than n forks away from the owner |
| ProcessDrain.DrainEndsByHeight | native/claude-process-owner.c:89-118 | A drain is over when one kill round per generation took effect and one turn per process went by |
| ProcessDrain.KillRoundReaches | native/claude-process-owner.c:34-118 | With a complete listing and no forks, a SIGKILL round that goes on reaches every child the owner had and reaps a zombie if there was one |
| ProcessDrain.ReapsAreBounded | native/claude-process-owner.c:89-118 | Once nothing forks processes only go, and no more are reaped than there were, whatever the signals do |
| ProcessDrain.OwnDrains | native/claude-process-owner.c:86-121 | The loop itself reaps no more processes than there are once nothing forks, and is over, after its first SIGKILL round, within both of these deadlines, which are n * (d + 1) turns for n rounds when every SIGKILL takes effect within d turns (`DelayedDeadline`) |
| ProcessDrain.ReusedPidReportsAnotherStatus | native/claude-process-owner.c:103-106 | A run in which the owner reports 7, a stranger's status under the root's reused PID, though the root exited with 0 |
| CheckoutSwap.Home.Heal | src/repository/checkoutSwap.ts:39-49 | A heal that returns leaves nothing parked, brings a parked checkout back exactly when nothing was at the registered path, keeps a complete one exactly when that path was not partial, and records exactly what it removed |
| CheckoutSwap.CrashAfterSwapThenHealLosesUncommitted | src/repository/checkoutSwap.ts:39-79 | A crash after the swap and before the commit, then a heal: the uncommitted run has lost the starting checkout |
| CheckoutSwap.Home.Swap | src/repository/checkoutSwap.ts:58-79 | The previous checkout survives every failure and crash; success parks it and registers the clone |
| CheckoutSwap.Home.Restore | src/repository/checkoutSwap.ts:87-93 | The parked checkout survives; success registers it again |
| CheckoutSwap.Home.ReplaceCheckout | src/commands/projectCommands.ts:881-1044 | Until its transaction commits the starting checkout is never destroyed, and if it was registered a single failure leaves it registered and no fresh clone staged; a discard left partway means no commit and a complete backup; it succeeds exactly when it is allowed, a complete checkout is there and no call fails, up to removing the backup, and has then passed every git check in order, committed and registered a fresh clone |
| CheckoutSwap.Home.DeleteProject | src/commands/projectCommands.ts:1099-1227 | While the record stands the starting checkout is registered or in the tombstone, and if it was registered a single failure leaves it registered; success removes the record of a retired Project |
| CheckoutSwap.Home.RetireProject | src/commands/projectCommands.ts:1052-1097 | Retiring turns an active record into a retired one and touches nothing else |
| CheckoutSwap.Home.History | src/commands/projectCommands.ts:907-1043 | Over all commands, failures and crashes a recorded Project has some complete checkout exactly when no heal removed a parked one beside a partial one, and one the next run can put back exactly when no discard was left partway; without a commit a checkout of the start is gone exactly when a heal removed it beside something at the registered path |
| FreshIds.NextId | src/commands/projectCommands.ts:1562-1576 | The unbounded search returns the first unused id within one more step than there are used ids |
| FreshIds.TakenIdsAreCounted | src/commands/projectCommands.ts:1562-1576 | As many consecutive taken ids need as many used ones |
| Numerals.DecimalReadsBack | src/commands/projectCommands.ts:1562-1576 | An id number is its decimal notation, read back digit by digit, without a needless zero |
| Knowledge.StepKeeps | src/commands/projectCommands.ts:1414-1437 | Every command keeps ids unique, proposals decided once and every version on record |
| Knowledge.AdditionIsExact | src/commands/projectCommands.ts:1414-1437 | Adding appends one active entry with the trimmed texts and no provenance, and is refused exactly for a Session or a blank text |
| Knowledge.NoVersionIsLost | src/commands/projectCommands.ts:1928-2003 | Every text an entry ever held is, at the end of any history, in that entry or in an accepted proposal naming it |
| Knowledge.DecisionsAreFinal | src/repository/project.ts:418-445 | A decided proposal never changes again |
| Knowledge.AcceptedAtMostOnce | src/commands/projectCommands.ts:1692-1710 | Each fingerprint has at most one pending or accepted proposal |
| Knowledge.UpdateIsAllowedExactly | src/commands/projectCommands.ts:1941-1972 | accept --update works exactly for a pending proposal and an active entry that came from a proposal |
| Knowledge.PromotionIsExact | src/commands/projectCommands.ts:1973-2001 | Plain acceptance works exactly for a pending proposal without an active title conflict and with an active superseded entry; it retires exactly that entry, appends the proposal as the new entry and accepts exactly this proposal for it |
| Knowledge.UpdateTakesEffect | src/commands/projectCommands.ts:1962-2001 | accept --update gives exactly the target the text and provenance, leaves every other entry, and accepts exactly this proposal for it |
| Knowledge.RetirementIsExact | src/repository/project.ts:324-342 | Retiring changes the status of exactly the named entry, and is refused exactly for a Session or an unknown entry |
| Knowledge.RejectionIsExact | src/commands/projectCommands.ts:2015-2041 | Rejecting touches exactly the named pending proposal |
| Knowledge.ProposalsAreDeduplicated | src/commands/projectCommands.ts:1682-1735 | Who may propose; a readable candidate that is open already is answered and changes nothing; another one is appended, as proposed and pending, exactly when it is well named |
| Knowledge.ProposingAgainChangesNothing | src/commands/projectCommands.ts:1692-1710 | Once a candidate was open at any point of a history and its proposal was not rejected since, proposing it again leaves the Project as it is |
| Knowledge.NoDuplicate | src/repository/project.ts:458-464 | On a reachable Project no active entry carries the fingerprint of a pending proposal |
| Knowledge.AgentsOnlyPropose | src/commands/projectCommands.ts:1583-1591 | A managed Session never writes Knowledge and decides nothing |
| Knowledge.KnowledgeStore.AcceptProposal | src/commands/projectCommands.ts:1916-2003 | The stored record becomes what the transition says, under the first free id, or stays untouched |
| Knowledge.KnowledgeStore.ProposeKnowledge | src/commands/projectCommands.ts:1682-1735 | The stored record gains the proposal under the first free id, or stays untouched |
| AgentStore.AlwaysIntact | src/commands/agentCommands.ts:200-320 | Every sequence of commands keeps the store intact |
| AgentStore.ReferencesResolve | src/commands/globalRoleCommands.ts:188-412 | In a reachable store bindings, Sessions, explicit Profiles and the default Agent name configured Agents of the same product and plan |
| AgentEffects.AddingIsExact | src/commands/agentCommands.ts:86-122 | Adding works exactly for a free id, a product reached over the plan, and a plan given, implied or named by the id; it stores what was asked for, or the default product |
| AgentEffects.UpdatingIsExact | src/commands/agentCommands.ts:183-265 | An update works exactly when it is consistent and hindered by no reference, and changes just the fields asked for |
| AgentEffects.RemovingIsExact | src/commands/agentCommands.ts:275-320 | Removal works exactly on a configured Agent that nothing names, and takes just it away |
| AgentEffects.AddingRoleIsExact | src/commands/globalRoleCommands.ts:173-205 | A new Role has one binding with the Agent's own product and plan |
| AgentEffects.UpdatingRoleIsExact | src/commands/globalRoleCommands.ts:252-312 | An update reconfigures one binding, or adds it, and keeps the active Agent |
| AgentEffects.BindingRoleIsExact | src/commands/globalRoleCommands.ts:314-363 | Binding keeps a known binding or adds one, makes the Agent active, and moves the session set unless its Agent runs |
| AgentEffects.UnbindingRoleIsExact | src/commands/globalRoleCommands.ts:385-428 | Unbinding works exactly on a dormant, idle binding no worker Profile uses, and drops it with its Session |
| AgentEffects.RemovingRoleIsExact | src/commands/globalRoleCommands.ts:365-383 | A Role goes with its session set, unless it is a system Role or a Session of it runs |
| AgentEffects.RecordingSessionIsExact | src/executor/agentExecutor.ts:181-260 | Recording keeps a known native id, a replacement needs an ended Session and another id, and only the active Agent's entry is written |
| AgentEffects.LaunchingIsExact | src/executor/agentExecutor.ts:181-260 | A launch never takes over a running Session under another native id |
| AgentEffects.EndingIsExact | src/executor/agentExecutor.ts:324-345 | An ended Session stays known under its native id |
| AgentEffects.ProfileChangesAreExact | src/commands/profileCommands.ts:334-400 | Explicit runtimes need a configured Agent, each setting is cleared, given or kept, and old settings are never carried to another Agent |
| AgentEffects.BuiltinProfilesStay | src/commands/profileCommands.ts:230-260 | Built-in Profiles cannot be removed, and a reset makes just them inherit again |
| AgentEffects.ProfileRunsWith | src/profile/agentProfileRuntime.ts:57-134 | A Profile runs its own Agent plainly or the worker's Agent under the worker's configuration |
| AgentStore.AddedAgentCanBeRemoved | src/commands/agentCommands.ts:86-320 | Adding an Agent and removing it restores the store |
| AgentStore.RemovalIsAllowedExactly | src/commands/agentCommands.ts:275-320 | An Agent can be removed exactly when it is configured, unbound, not the default and in no explicit Profile |
| AgentStore.ReferencedIdentityIsFixed | src/commands/agentCommands.ts:235-265 | The product and plan of a bound or profiled Agent never change |
| AgentStore.UnbindFreesAgent | src/commands/globalRoleCommands.ts:385-428 | Once unbound from a Role, an Agent can be removed exactly when no other Role, Profile or default refers to it |
| AgentStore.RebindingIsUndone | src/commands/globalRoleCommands.ts:314-428 | Binding a new Agent to a Role, binding the old one again and unbinding the new one restores every Role and that Role's Sessions |
| AgentStore.SettingsWereChosenForTheirAgent | src/commands/profileCommands.ts:334-400 | After any history, a model or effort a Profile carries was named for it by a command since when it has run the same Agent |
| AgentStore.ProfilesAlwaysResolve | src/profile/agentProfileRuntime.ts:57-134 | On an intact store an explicit Profile always has a runtime and an inherited one exactly when there is a worker |
| AgentStore.SetMayNameRemovedAgent | src/role/role.ts:277-290 | A concrete history after which a session set names a removed Agent as active |
| AgentStore.FallsBehindExactly | src/role/role.ts:277-290 | A session set comes to name another Agent than its Role exactly by a bind while its active Agent has a running Session |
| AgentStore.SetsFollowTheirRoles | src/role/role.ts:277-290 | After any history without such a bind, every set names its Role's active and configured Agent |
| AgentStore.DanglesExactly | src/commands/agentCommands.ts:275-320 | A set comes to name an unconfigured Agent exactly by the removal of an Agent some set still names |
| AgentStore.Database.RunAll | src/commands/agentCommands.ts:200-320 | Running the commands in transactions yields the specified store and keeps it intact |
| CommandTree.Build | src/cli/commandCatalog.ts:74-113 | Paths spell out positions and exactly the childless nodes are leaves |
| CommandTree.BuildIsExact | src/cli/commandCatalog.ts:74-113 | Every node states what its entry says: hybrid exactly for an executable parent, arguments, usage and examples by their defaults, the rest unchanged, children in order |
| CommandTree.CheckNode | src/cli/commandCatalog.ts:1751-1787 | The checks of one node pass exactly when its tokens are unambiguous, its sections list each once, its texts are given and each of its completions has one source |
| CommandTree.Validate | src/cli/commandCatalog.ts:1716-1836 | The validator accepts exactly the trees all of whose nodes pass and in which at most one command, directly below the root, completes command paths |
| CommandTree.ProviderIsARootCommand | src/cli/commandCatalog.ts:1716-1836 | In a valid tree a command that completes command paths is a visible bare command of the root and the only one, workspace maps included although the validator does not look at them there |
| CommandTree.ValidityMeans | src/cli/commandCatalog.ts:1716-1836 | In a built tree validity means that every node passes and at most one command of the root completes command paths |
| CommandTree.VisibleChildrenExactly | src/cli/commandCatalog.ts:1639-1645 | On an accepted node the visible children are the children that are not hidden, each once |
| CommandTree.ImmediateTokensExactly | src/cli/commandCatalog.ts:1653-1671 | The ordered tokens are the names of those children and of the values, each once, in the order of the sections |
| CommandTree.SectionsInOrder | src/cli/commandCatalog.ts:1653-1667 | A visible section keeps id, title and order, and one that shows nothing is left out |
| InvocationRouter.LookupInvertsPath | src/cli/commandCatalog.ts:1677-1685 | Looking a node up by its own path finds exactly that node |
| InvocationRouter.LookupFindsThePath | src/cli/commandCatalog.ts:1673-1685 | A lookup finds only the node at the end of the path and fails exactly where a word names no child |
| InvocationRouter.FindCommandNode | src/cli/commandCatalog.ts:1677-1685 | The loop walks the tree along the words, without a leading root name |
| InvocationRouter.ResolveHelpPath | src/cli/invocationRouter.ts:15-28 | Help succeeds exactly on public paths and otherwise points to the nearest group |
| InvocationRouter.NearestGroupIsDeepest | src/cli/invocationRouter.ts:15-28 | The nearest group is the last parent the path reaches publicly |
| InvocationRouter.HelpAcceptsTheListing | src/cli/commandCatalog.ts:1838-1846 | The public paths are exactly the empty one and the listed ones |
| InvocationRouter.ListingIsExact | src/cli/commandCatalog.ts:1838-1846 | The listing names every public path once and nothing else |
| InvocationRouter.ListingFollowsTheTree | src/cli/commandCatalog.ts:1838-1846 | The listing is in preorder |
| InvocationRouter.ListPublicPaths | src/cli/commandCatalog.ts:1838-1846 | The visit pushes exactly the preorder listing |
| InvocationRouter.ResolveExecutionPath | src/cli/invocationRouter.ts:30-61 | The loop ends where the recursive walk ends |
| InvocationRouter.ExecutionFollowsTheWords | src/cli/invocationRouter.ts:30-61 | Execution passes along the words as far as they name visible or internal children; what it ends in depends on the last node and on whether words are left |
| InvocationRouter.HiddenCommandsRunExactly | src/cli/invocationRouter.ts:37-48 | A hidden command runs exactly under one of six full paths |
| InvocationRouter.ExecutableParentsRun | src/cli/invocationRouter.ts:57-60 | Typing the public path of a command with children runs it exactly when its entry says executable |
| InvocationRouter.PublicPathExecutes | src/cli/invocationRouter.ts:30-61 | A public path executes the very node it names, or is incomplete for a group |
| InvocationRouter.WordsAfterALeafNeverMatter | src/cli/invocationRouter.ts:34-36 | Words after a leaf never change what is executed |
| InvocationRouter.CompletionAgrees | src/cli/dynamicCompletion.ts:56-66 | Where no hidden child is met, execution ends at the node completion stops at or rejects the word it could not follow |
| InvocationRouter.CompletionFollowsTheWords | src/cli/dynamicCompletion.ts:56-66 | Completion stops where a word names no child or a leaf is reached, hidden ones included |
| InvocationRouter.ResolveCommand | src/cli/dynamicCompletion.ts:56-66 | The completion loop stops where the recursive walk stops |
| CompletionDispatch.DispatchIsDeepest | src/cli/completion.ts:251-270 | The first matching option arm is the deepest entry with options whose words start the typed words |
| CompletionDispatch.ArmMatchesPrefix | src/cli/completion.ts:268-270 | On plain paths an arm matches exactly the typed paths it starts, except that the root's arm matches none |
| CompletionDispatch.Dispatch | src/cli/completion.ts:86-89 | A case statement runs the first matching arm |
| ShellQuoting.QuotedWordReadsBack | src/cli/completion.ts:292-302 | A quoted word is read back unchanged exactly when it holds no NUL |
| ShellQuoting.QuotedListReadsBack | src/cli/completion.ts:251-261 | An array literal of quoted words is read back as that list |
| AgentRuns.StepContinues | src/agentRun/agentRun.ts:217-249 | Each accepted transition starts from an active valid run and only extends it |
| AgentRuns.HistoryGrows | src/agentRun/agentRun.ts:217-249 | Over any transitions inputs are appended and the first is rebound at most once |
| AgentRuns.HistoryIsOrdered | src/agentRun/agentRun.ts:286-296 | Sequence numbers are 1..n, times do not go back, and a result exists exactly when the run is terminal |
| AgentRuns.TerminalNeverChanges | src/agentRun/agentRun.ts:496-508 | Once terminal, a run is the same after any further transitions |
| AgentRuns.AppendIsExact | src/agentRun/agentRun.ts:237-249 | On reachable runs the guard on updatedAt alone decides the time; an accepted input is appended under the next number and that time, and nothing else changes |
| AgentRuns.AppendsAreKept | src/agentRun/agentRun.ts:237-249 | After any history the inputs are those of the start and then every accepted append, in order |
| AgentRuns.SnapshotIsAllowedExactly | src/agentRun/agentRun.ts:217-235 | The context is bound exactly once; the first input gets the reference and deltas, and nothing else changes |
| AgentRuns.FinishIsAllowedExactly | src/agentRun/agentRun.ts:466-597 | Completing needs an active run, a usable text and well-formed provider and system reports; failing a known reason, a usable diagnostic and, if given, a usable partial output and provider report; the clock never decides, and the run keeps exactly what was reported |
| ControllerCleanup.RunCleanup | src/commands/controllerCommands.ts:383-482 | What is touched is exactly what was confirmed, is unchanged and still cleanable in the second scan; each is reported cleaned or failed as it went, the selection is accounted for, and the reclaimed memory is the sum over what was cleaned |
| ControllerCleanup.Select | src/commands/controllerCommands.ts:402-424 | The selection is exactly what the answers confirmed |
| ControllerCleanup.Revalidate | src/commands/controllerCommands.ts:439-455 | The second scan splits the selection into ready, exactly what it still shows unchanged and cleanable, and skipped, losing nothing |
| ControllerCleanup.CleanAll | src/commands/controllerCommands.ts:457-469 | Each ready resource is cleaned or reported as failed |
| ControllerCleanup.TotalsAddUp | src/commands/controllerCommands.ts:471-480 | Reclaimed memory and remaining issues are a sum and a count |
| ControllerCleanup.ReviewFollowsTheScan | src/commands/controllerCommands.ts:390-392 | Resources are reviewed in the order of the scan |

## Left out

- ProcessDrain.OwnDrains: the deadlines assume, from the first SIGKILL round on, no forks, complete listings and that each SIGKILL takes effect by some turn; prompt reaction to a stop signal is not claimed, since one that lands just before the blocking wait does not interrupt it.
- ProcessOwner.Supervisor.Own: follows the loop for any finite number of turns and takes a positive monotonic clock; process set-up before the fork, an ignored SIGCHLD and `exec` are not modelled.
- SingleOwner.OneControllerAtATime: quantifies over every world in which processes may die at any time and only a restart or a restore adds one, a restart under the PID it reports; the spawned commands themselves are not modelled.
- UpdateProtocol.UpdateRun.RunUpdate: the production stage, preflight, migrate, status, stop and restore ports are arbitrary answers, of which only a preflight may lack a value; their parsers, npm, sockets and message texts are not modelled.
- CommandTree.Build: the shorthand of a value given by its name alone is a value with that summary; message texts of the validator are not modelled.
- Knowledge.StepKeeps: one active Project; timestamps, evidence lookup and digests, scope and expiry texts are carried along by the source and not modelled, and the fingerprint is any digest.
- AgentStore.AlwaysIntact: commands run one after another; workspaces, skills, launch revisions, Session archives, names' syntax and the runtime guards' inputs are abstracted.
- AgentRuns.HistoryIsOrdered: the checks of a run's immutable lineage and of an input's schema are single facts of the run and the input; unknown fields and timestamp syntax are not modelled.
- ControllerCleanup.RunCleanup: answers are taken as read (yes, no or the typed word); rendering is not modelled.
- CompletionDispatch.DispatchIsDeepest: static option arms for bash and zsh; the dynamic arms and fish are not modelled.
- Wizards, pickers, tables, help texts, reports, configuration keys other than the default Agent, grants, jobs, delivery and the remaining command families are not part of this model.
