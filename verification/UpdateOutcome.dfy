// How an update ends, computed from the answers of its ports alone.

module UpdateOutcome {
  import opened JsonValues
  import opened Options
  import opened ControllerInventory
  import opened UpdateProtocol
  import opened UpdateTheorems

  // ----- The outcome in terms of the ports -----

  /** The preflight lets the staged version through, and a due migration can be carried out. */
  predicate Admitted(ports: Ports) {
    && ports.preflight.Returned? && !ports.preflight.value.NoValue? && !ports.preflight.value.Blocked?
    && (MigrationDue(ports) ==> ports.migrate.Some? && ports.CompleteLifecycle())
  }

  predicate LockRefused(ports: Ports) { ports.handover.Some? && ports.handover.value.Threw? }

  predicate ReleaseThrows(ports: Ports) { ports.handover == Some(Returned(false)) }

  /** No Controller is in the way: there are no lifecycle ports, it says it is stopped, or its exact stop was confirmed. */
  predicate OldControllerGone(ports: Ports) {
    !ports.AnyLifecycle() || (ports.CompleteLifecycle() && (SaysStopped(ports) || OwnerStopped(ports)))
  }

  ghost predicate MigrationFails(ports: Ports) {
    MigrationDue(ports) && forall backup :: !MigratedTo(ports, backup)
  }

  /** The backup the migration names; none when none is due. */
  ghost function BackupOf(ports: Ports): (backup: Option<string>)
    requires !MigrationFails(ports)
    ensures if MigrationDue(ports) then MigratedTo(ports, backup) else backup.None?
  {
    if MigrationDue(ports) then (var backup :| MigratedTo(ports, backup); backup) else None
  }

  /** The production start stopped the very replacement it could not authenticate. */
  predicate ReplacementStopped(ports: Ports) {
    && IsReal(ports) && RestartPid(Script(ports).restart).Some?
    && OwnedBy(Ownership(ports), RestartPid(Script(ports).restart).value)
    && FencedStopConfirms(Script(ports).stop, RestartPid(Script(ports).restart).value)
  }

  predicate CannotStart(ports: Ports) { IsReal(ports) && !ports.verify.RealVerify? }

  /** Nothing is known to be alive, but no replacement runs. */
  predicate StartFails(ports: Ports, version: string) {
    match ports.start
    case None => false
    case Some(FakeStart(outcome)) => outcome == StartFailed
    case Some(RealStart(_)) => CannotStart(ports) || (!ReplacementReady(ports, version) && ReplacementStopped(ports))
  }

  /** A failure that gives the captured Controller back; a restore that throws leaves it unrecoverable. */
  function GivenBack(ports: Ports, failure: Result): Result
    requires failure.Aborted?
  {
    if OwnerStopped(ports) && ports.restore == Some(false) then failure.(recoverable := false, restoreFailed := true) else failure
  }

  function Refusal(phase: UpdatePhase, recoverable: bool, version: string): (r: Result)
    ensures r.Aborted?
  {
    Aborted(phase, recoverable, Some(version), None, None, false, false)
  }

  /** The result of an admitted update under the lock: the first thing that goes wrong decides. */
  ghost function ResultOf(ports: Ports, version: string): Result {
    if !OldControllerGone(ports) then Refusal(PreflightPhase, true, version)
    else if !ports.activate then GivenBack(ports, Refusal(ActivatePhase, false, version))
    else if MigrationFails(ports) then Refusal(MigratePhase, true, version)
    else if !VerifyPasses(ports.verify, version) || StartFails(ports, version) then
      if MigrationDue(ports) then Aborted(VerifyPhase, true, Some(version), None, BackupOf(ports), false, false)
      else GivenBack(ports, Refusal(VerifyPhase, false, version))
    else if !ReplacementReady(ports, version) then
      Aborted(VerifyPhase, false, Some(version), None, BackupOf(ports), true, false)
    else Updated(version, BackupOf(ports))
  }

  /** How runUpdate ends. */
  ghost function OutcomeOf(ports: Ports): Outcome {
    if ports.stage.Threw? then Finished(Aborted(StagePhase, true, None, None, None, false, false), false)
    else
      var version := ports.stage.value.version;
      if ports.preflight == Returned(NoValue) then Escaped
      else if !Admitted(ports) then
        var report := if ports.preflight.Returned? && ports.preflight.value.Blocked? then Some(ports.preflight.value.report) else None;
        Finished(Refusal(PreflightPhase, true, version).(report := report), !ports.cleanup)
      else if LockRefused(ports) then Finished(Refusal(CoordinationPhase, true, version), !ports.cleanup)
      else if ReleaseThrows(ports) then Escaped
      else Finished(ResultOf(ports, version), !ports.cleanup)
  }

  // ----- What is still ahead of a run in a given state -----

  ghost function Close(ports: Ports, st: State, r: Result): Outcome {
    if st.held && ReleaseThrows(ports) then Escaped else Finished(r, !ports.cleanup)
  }

  ghost function Restored(ports: Ports, st: State, failure: Result): Result {
    if st.captured.Some? && ports.restore == Some(false) && failure.Aborted?
    then failure.(recoverable := false, restoreFailed := true) else failure
  }

  ghost function Late(ports: Ports, st: State): Result {
    var failure := Abort(st, VerifyPhase, st.migrating);
    if st.migrating then failure else Restored(ports, st, failure)
  }

  ghost function Ends(ports: Ports, st: State, outcome: StartOutcome): Result {
    match outcome
    case Started => Updated(st.version, st.backup)
    case UnknownActive => Aborted(VerifyPhase, false, Some(st.version), None, st.backup, true, false)
    case StartFailed => Late(ports, st)
  }

  ghost function Blocked(ports: Ports, pid: int): StartOutcome
    requires IsReal(ports)
  {
    if OwnedBy(Ownership(ports), pid) && FencedStopConfirms(Script(ports).stop, pid) then StartFailed else UnknownActive
  }

  ghost function Read(ports: Ports, version: string, pid: int, identityOk: bool): StartOutcome
    requires IsReal(ports)
  {
    if identityOk && Ready(ports, Readiness(ports), pid, version) then Started else Blocked(ports, pid)
  }

  ghost function Launched(ports: Ports, version: string): StartOutcome {
    match ports.start
    case None => Started
    case Some(FakeStart(outcome)) => outcome
    case Some(RealStart(script)) =>
      match RestartPid(script.restart)
      case None => UnknownActive
      case Some(pid) => Read(ports, version, pid, LiveIdentityMatches(ports, script.identity, version))
  }

  ghost function FromPrepared(ports: Ports, st: State): Result {
    if !VerifyPasses(ports.verify, st.version) || CannotStart(ports) then Late(ports, st)
    else Ends(ports, st, Launched(ports, st.version))
  }

  ghost function FromActivated(ports: Ports, st: State): Result {
    if ports.migrate.None? then Late(ports, st)
    else match MigrationBackup(ports.migrate.value)
      case None => Abort(st, MigratePhase, true)
      case Some(backup) => FromPrepared(ports, st.(backup := backup))
  }

  ghost function FromQuiesced(ports: Ports, st: State): Result {
    if !ports.activate then Restored(ports, st, Abort(st, ActivatePhase, false))
    else if st.migrating then FromActivated(ports, st)
    else FromPrepared(ports, st)
  }

  ghost function FromCaptured(ports: Ports, st: State, pid: int, id: Identity): Result {
    if ports.stop.Some? && StopConfirms(ports.stop.value, pid) then FromQuiesced(ports, st.(captured := Some(id)))
    else Abort(st, PreflightPhase, true)
  }

  ghost function FromFenced(ports: Ports, st: State): Result {
    if SaysStopped(ports) then FromQuiesced(ports, st)
    else match NamedOwner(ports)
      case None => Abort(st, PreflightPhase, true)
      case Some((pid, id)) => FromCaptured(ports, st, pid, id)
  }

  ghost function FromFence(ports: Ports, st: State): Result {
    if !ports.AnyLifecycle() then FromQuiesced(ports, st)
    else if !ports.CompleteLifecycle() then Abort(st, PreflightPhase, true)
    else FromFenced(ports, st)
  }

  ghost function FromUnfenced(ports: Ports, st: State): Outcome {
    if ports.handover.None? || ports.handover.value.Threw? then Close(ports, st, Abort(st, CoordinationPhase, true))
    else Close(ports, st.(held := true), FromFence(ports, st))
  }

  ghost function FromStaged(ports: Ports, st: State): Outcome {
    if ports.preflight.Threw? then Close(ports, st, Abort(st, PreflightPhase, true))
    else if ports.preflight.value.NoValue? then Escaped
    else if !Admitted(ports) then
      var report := if ports.preflight.value.Blocked? then Some(ports.preflight.value.report) else None;
      Close(ports, st, Abort(st, PreflightPhase, true).(report := report))
    else
      var next := st.(migrating := MigrationDue(ports));
      if ports.handover.None? then Close(ports, next, FromFence(ports, next)) else FromUnfenced(ports, next)
  }

  ghost function Ahead(ports: Ports, st: State): Outcome {
    match st.phase
    case Begin =>
      if ports.stage.Threw? then Finished(Aborted(StagePhase, true, None, None, None, false, false), false)
      else FromStaged(ports, st.(version := ports.stage.value.version))
    case HasStage => FromStaged(ports, st)
    case Unfenced => FromUnfenced(ports, st)
    case Fenced => Close(ports, st, FromFenced(ports, st))
    case Captured(pid, id) => Close(ports, st, FromCaptured(ports, st, pid, id))
    case Quiesced => Close(ports, st, FromQuiesced(ports, st))
    case Activated => Close(ports, st, FromActivated(ports, st))
    case Prepared => Close(ports, st, FromPrepared(ports, st))
    case Verified => Close(ports, st, Ends(ports, st, Launched(ports, st.version)))
    case Restoring(failure) => Close(ports, st, Restored(ports, st, failure))
    case Settled(r) => Close(ports, st, r)
    case Escaping => Escaped
    case Ended(o) => o
    case _ => if IsReal(ports) then Close(ports, st, Ends(ports, st, FromStart(ports, st))) else Escaped
  }

  ghost function FromStart(ports: Ports, st: State): StartOutcome
    requires IsReal(ports)
  {
    match st.phase
    case Restarted(pid) => Read(ports, st.version, pid, LiveIdentityMatches(ports, Script(ports).identity, st.version))
    case Reading(pid, identityOk) => Read(ports, st.version, pid, identityOk)
    case Doubted(pid) => Blocked(ports, pid)
    case Condemned(pid) => if FencedStopConfirms(Script(ports).stop, pid) then StartFailed else UnknownActive
    case _ => StartFailed
  }

  // ----- Every call leaves what is ahead unchanged -----

  lemma OutcomesLeadOn(ports: Ports, st: State, n: State)
    requires n == st.(phase := n.phase, called := n.called)
    ensures forall o :: Close(ports, n, Ends(ports, n, o)) == Close(ports, st, Ends(ports, st, o))
    ensures forall o :: n.phase == AfterStart(st, o) ==> Ahead(ports, n) == Close(ports, st, Ends(ports, st, o))
  {}

  lemma LaunchLeadsOn(ports: Ports, st: State, e: Event, p: Phase, called: set<Kind>)
    requires st.phase.Verified? && StartStep(ports, st, e) == Some(p)
    ensures Ahead(ports, st.(phase := p, called := called)) == Ahead(ports, st)
  {
    hide Ready, LiveIdentityMatches, OwnedBy, RestartPid, FencedStopConfirms, Readiness, Ownership, AfterStart, Read;
    OutcomesLeadOn(ports, st, st.(phase := p, called := called));
    hide Close, Ends;
  }

  lemma ReadLeadsOn(ports: Ports, st: State, e: Event, p: Phase, called: set<Kind>)
    requires (st.phase.Restarted? || st.phase.Reading?) && StartStep(ports, st, e) == Some(p)
    ensures Ahead(ports, st.(phase := p, called := called)) == Ahead(ports, st)
  {
    hide Ready, LiveIdentityMatches, OwnedBy, RestartPid, FencedStopConfirms, Readiness, Ownership, AfterStart, Blocked;
    OutcomesLeadOn(ports, st, st.(phase := p, called := called));
    hide Close, Ends;
  }

  lemma BlockLeadsOn(ports: Ports, st: State, e: Event, p: Phase, called: set<Kind>)
    requires (st.phase.Doubted? || st.phase.Condemned?) && StartStep(ports, st, e) == Some(p)
    ensures Ahead(ports, st.(phase := p, called := called)) == Ahead(ports, st)
  {
    hide Ready, LiveIdentityMatches, OwnedBy, RestartPid, FencedStopConfirms, Readiness, Ownership, AfterStart;
    OutcomesLeadOn(ports, st, st.(phase := p, called := called));
    hide Close, Ends;
  }

  lemma StartLeadsOn(ports: Ports, st: State, e: Event, n: State)
    requires Starting(st.phase) && Step(ports, st, e) == Some(n)
    ensures Ahead(ports, n) == Ahead(ports, st)
  {
    hide Step, StartStep, Ahead;
    StartAdvance(ports, st, e, n);
    if st.phase.Verified? { LaunchLeadsOn(ports, st, e, n.phase, n.called); }
    else if st.phase.Doubted? || st.phase.Condemned? { BlockLeadsOn(ports, st, e, n.phase, n.called); }
    else { ReadLeadsOn(ports, st, e, n.phase, n.called); }
  }

  /** What is ahead does not depend on the phase, the lock or the record of calls. */
  ghost predicate SameFacts(a: State, b: State) {
    a.version == b.version && a.migrating == b.migrating && a.captured == b.captured && a.backup == b.backup
  }

  lemma SameQuiesced(ports: Ports, a: State, b: State)
    ensures SameFacts(a, b) ==> FromQuiesced(ports, a) == FromQuiesced(ports, b)
  {}

  lemma SameFenced(ports: Ports, a: State, b: State)
    ensures SameFacts(a, b) ==> FromFenced(ports, a) == FromFenced(ports, b) && FromFence(ports, a) == FromFence(ports, b)
  {
    hide FromQuiesced, RunningFlag, ExactOwner, StopConfirms;
    SameQuiesced(ports, a, b);
    forall id: Identity { SameQuiesced(ports, a.(captured := Some(id)), b.(captured := Some(id))); }
  }

  lemma SameStaged(ports: Ports, a: State, b: State)
    ensures SameFacts(a, b) && a.held == b.held ==>
      FromUnfenced(ports, a) == FromUnfenced(ports, b) && FromStaged(ports, a) == FromStaged(ports, b)
  {
    hide FromFence;
    var due := MigrationDue(ports);
    SameFenced(ports, a, b);
    SameFenced(ports, a.(migrating := due), b.(migrating := due));
  }

  lemma StageLeadsOn(ports: Ports, st: State, e: Event, n: State)
    requires Step(ports, st, e) == Some(n) && st.phase.Begin?
    ensures Ahead(ports, n) == Ahead(ports, st)
  {
    hide StartStep, FromStaged;
    if ports.stage.Returned? { SameStaged(ports, st.(version := ports.stage.value.version), n); }
  }

  lemma CheckLeadsOn(ports: Ports, st: State, e: Event, n: State)
    requires Step(ports, st, e) == Some(n) && st.phase.HasStage?
    ensures Ahead(ports, n) == Ahead(ports, st)
  {
    hide StartStep, FromQuiesced, FromFenced, FromUnfenced;
    var due := st.(migrating := MigrationDue(ports));
    SameFenced(ports, due, n);
    SameQuiesced(ports, due, n);
    SameStaged(ports, due, n);
  }

  lemma UnfencedLeadsOn(ports: Ports, st: State, e: Event, n: State)
    requires Step(ports, st, e) == Some(n) && st.phase.Unfenced?
    ensures Ahead(ports, n) == Ahead(ports, st)
  {
    hide StartStep, FromQuiesced, FromFenced;
    SameFenced(ports, st, n);
    SameQuiesced(ports, st, n);
  }

  lemma FenceLeadsOn(ports: Ports, st: State, e: Event, n: State)
    requires Step(ports, st, e) == Some(n) && (st.phase.Fenced? || st.phase.Captured?)
    ensures Ahead(ports, n) == Ahead(ports, st)
  {
    hide StartStep, FromQuiesced, ExactOwner, RunningFlag, StopConfirms;
    SameQuiesced(ports, st, n);
    forall id: Identity { SameQuiesced(ports, st.(captured := Some(id)), n.(captured := Some(id))); }
  }

  lemma WorkLeadsOn(ports: Ports, st: State, e: Event, n: State)
    requires Step(ports, st, e) == Some(n) && (st.phase.Quiesced? || st.phase.Activated? || st.phase.Prepared?)
    ensures Ahead(ports, n) == Ahead(ports, st)
  {
    hide StartStep, MigrationBackup, VerifyPasses, Ready, LiveIdentityMatches, OwnedBy, RestartPid, Read;
  }

  lemma EndLeadsOn(ports: Ports, st: State, e: Event, n: State)
    requires Step(ports, st, e) == Some(n)
    requires st.phase.Restoring? || st.phase.Settled? || st.phase.Escaping? || st.phase.Ended?
    ensures Ahead(ports, n) == Ahead(ports, st)
  {
    hide StartStep;
  }

  lemma {:induction false} RunLeadsOn(ports: Ports, t: seq<Event>)
    requires Run(ports, t).Some?
    ensures Ahead(ports, Run(ports, t).value) == Ahead(ports, INITIAL)
  {
    hide Step, Ahead;
    if t != [] {
      var init, e := t[..|t| - 1], t[|t| - 1];
      RunLeadsOn(ports, init);
      var st, n := Run(ports, init).value, Run(ports, t).value;
      if Starting(st.phase) { StartLeadsOn(ports, st, e, n); }
      else if st.phase.Fenced? || st.phase.Captured? { FenceLeadsOn(ports, st, e, n); }
      else if st.phase.Quiesced? || st.phase.Activated? || st.phase.Prepared? { WorkLeadsOn(ports, st, e, n); }
      else if st.phase.Begin? { StageLeadsOn(ports, st, e, n); }
      else if st.phase.HasStage? { CheckLeadsOn(ports, st, e, n); }
      else if st.phase.Unfenced? { UnfencedLeadsOn(ports, st, e, n); }
      else { EndLeadsOn(ports, st, e, n); }
    }
  }

  // ----- The outcome -----

  lemma LaunchedMeans(ports: Ports, version: string)
    requires !CannotStart(ports)
    ensures Launched(ports, version) == if StartFails(ports, version) then StartFailed
                                        else if ReplacementReady(ports, version) then Started else UnknownActive
  {
    hide LiveIdentityMatches, Ready, OwnedBy, RestartPid, FencedStopConfirms, Readiness, Ownership;
  }

  lemma OwnersAreExclusive(ports: Ports)
    ensures !(SaysStopped(ports) && OwnerStopped(ports))
  {}

  lemma PreparedMeans(ports: Ports, st: State)
    requires st.captured.Some? <==> OwnerStopped(ports)
    requires st.migrating <==> MigrationDue(ports)
    requires !MigrationFails(ports) && st.backup == BackupOf(ports)
    ensures FromPrepared(ports, st) ==
      if !VerifyPasses(ports.verify, st.version) || StartFails(ports, st.version) then
        if MigrationDue(ports) then Aborted(VerifyPhase, true, Some(st.version), None, BackupOf(ports), false, false)
        else GivenBack(ports, Refusal(VerifyPhase, false, st.version))
      else if !ReplacementReady(ports, st.version) then
        Aborted(VerifyPhase, false, Some(st.version), None, BackupOf(ports), true, false)
      else Updated(st.version, BackupOf(ports))
  {
    hide VerifyPasses, OwnerStopped, Launched, ReplacementStopped;
    if !CannotStart(ports) { LaunchedMeans(ports, st.version); }
  }

  lemma QuiescedMeans(ports: Ports, st: State)
    requires st.captured.Some? <==> OwnerStopped(ports)
    requires st.migrating <==> MigrationDue(ports)
    requires MigrationDue(ports) ==> ports.migrate.Some?
    requires st.backup.None? && OldControllerGone(ports)
    ensures FromQuiesced(ports, st) == ResultOf(ports, st.version)
  {
    hide VerifyPasses, OwnerStopped, StartFails, ReplacementReady, MigrationBackup, SaysStopped;
    if ports.activate && !MigrationFails(ports) {
      PreparedMeans(ports, st.(backup := BackupOf(ports)));
      hide FromPrepared;
    } else if ports.activate {
      assert MigrationBackup(ports.migrate.value).Some? ==> MigratedTo(ports, MigrationBackup(ports.migrate.value).value);
    }
  }

  lemma FenceMeans(ports: Ports, st: State)
    requires st.captured.None? && st.backup.None? && (st.migrating <==> MigrationDue(ports))
    requires MigrationDue(ports) ==> ports.migrate.Some?
    ensures FromFence(ports, st) == ResultOf(ports, st.version)
  {
    hide FromQuiesced, RunningFlag, ExactOwner, StopConfirms;
    OwnersAreExclusive(ports);
    if OldControllerGone(ports) {
      var captured := if OwnerStopped(ports) then Some(NamedOwner(ports).value.1) else None;
      if !ports.AnyLifecycle() { NoOwnerWithoutPorts(ports); }
      QuiescedMeans(ports, st.(captured := captured));
    }
  }

  lemma NoOwnerWithoutPorts(ports: Ports)
    requires !ports.AnyLifecycle()
    ensures !OwnerStopped(ports)
  {}

  lemma AheadMeans(ports: Ports)
    ensures Ahead(ports, INITIAL) == OutcomeOf(ports)
  {
    hide FromFence, ResultOf;
    if ports.stage.Returned? && Admitted(ports) {
      var st := INITIAL.(version := ports.stage.value.version, migrating := MigrationDue(ports));
      FenceMeans(ports, st);
    }
  }

  /** The ports' answers decide how an update ends, in every run. */
  lemma OutcomeIsExact(ports: Ports, t: seq<Event>, o: Outcome)
    requires Accepts(ports, t, o)
    ensures o == OutcomeOf(ports)
  {
    RunLeadsOn(ports, t);
    AheadMeans(ports);
    hide Run, OutcomeOf;
  }

  /** An update succeeds exactly when nothing is in the way, and then installs the staged version. */
  lemma UpdatedExactly(ports: Ports, t: seq<Event>, o: Outcome)
    requires Accepts(ports, t, o)
    ensures o.Finished? && o.result.Updated? <==>
      && ports.stage.Returned?
      && ports.preflight.Returned? && !ports.preflight.value.NoValue? && !ports.preflight.value.Blocked?
      && (MigrationDue(ports) ==> ports.migrate.Some? && ports.CompleteLifecycle())
      && (ports.handover.Some? ==> ports.handover.value.Returned? && ports.handover.value.value)
      && (ports.AnyLifecycle() ==> ports.CompleteLifecycle() && (SaysStopped(ports) || OwnerStopped(ports)))
      && ports.activate && (MigrationDue(ports) ==> exists backup :: MigratedTo(ports, backup))
      && VerifyPasses(ports.verify, ports.stage.value.version) && ReplacementReady(ports, ports.stage.value.version)
    ensures o.Finished? && o.result.Updated? ==>
      && o.result.installed == ports.stage.value.version
      && (if MigrationDue(ports) then MigratedTo(ports, o.result.backup) else o.result.backup.None?)
      && (o.cleanupWarning <==> !ports.cleanup)
  {
    OutcomeIsExact(ports, t, o);
    hide Run, Accepts, VerifyPasses, MigratedTo, SaysStopped, OwnerStopped, ReplacementReady, ResultOf, StartFails;
    if ports.stage.Returned? { SucceedsExactly(ports, ports.stage.value.version); }
  }

  lemma SucceedsExactly(ports: Ports, version: string)
    ensures ResultOf(ports, version).Updated? <==>
      && OldControllerGone(ports) && ports.activate && !MigrationFails(ports)
      && VerifyPasses(ports.verify, version) && ReplacementReady(ports, version)
    ensures ResultOf(ports, version).Updated? ==> ResultOf(ports, version) == Updated(version, BackupOf(ports))
  {
    hide VerifyPasses, MigratedTo, OldControllerGone, OwnerStopped, RestartPid;
  }

  /** `yui update` on any ports: it always ends, and as they decide. */
  method Update(ports: Ports) returns (o: Outcome)
    ensures o == OutcomeOf(ports)
  {
    hide OutcomeOf;
    var run := new UpdateRun(ports);
    o := run.RunUpdate();
    OutcomeIsExact(ports, run.trace, o);
  }
}
