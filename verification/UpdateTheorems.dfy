// What every accepted update run guarantees, whatever the ports answer.

module UpdateTheorems {
  import opened JsonValues
  import opened Options
  import opened ControllerInventory
  import opened UpdateProtocol

  /** The one order in which a run may make its calls. */
  function Rank(k: Kind): nat {
    match k
    case KStage => 0 case KCheck => 1 case KAcquire => 2 case KStatus => 3 case KStop => 4 case KActivate => 5
    case KMigrate => 6 case KVerify => 7 case KStart => 8 case KRestart => 8 case KIdentity => 9 case KReadiness => 10
    case KOwnership => 11 case KFencedStop => 12 case KRestore => 13 case KRelease => 14 case KCleanup => 15
  }

  /** Every call made before this phase ranks below this. */
  function Bound(st: State): nat {
    match st.phase
    case Begin => 0 case HasStage => 1 case Unfenced => 2 case Fenced => 3 case Captured(_, _) => 4 case Quiesced => 5
    case Activated => 6 case Prepared => 7 case Verified => 8 case Restarted(_) => 9 case Reading(_, _) => 10
    case Doubted(_) => 11 case Condemned(_) => 12 case Restoring(_) => 13
    case Settled(_) => if st.held then 14 else 15
    case Escaping => 15 case Ended(_) => 16
  }

  predicate SaysStopped(ports: Ports) {
    match ports.status
    case Some(Returned(v)) => RunningFlag(v) == Some(false)
    case _ => false
  }

  /** The exact owner named by the status port. */
  function NamedOwner(ports: Ports): Option<(int, Identity)> {
    match ports.status
    case Some(Returned(v)) => if RunningFlag(v) == Some(true) then ExactOwner(v) else None
    case _ => None
  }

  /** The named owner's stop was confirmed under its exact PID. */
  predicate OwnerStopped(ports: Ports) {
    NamedOwner(ports).Some? && ports.stop.Some? && StopConfirms(ports.stop.value, NamedOwner(ports).value.0)
  }

  predicate LockTaken(ports: Ports, called: set<Kind>) {
    KAcquire in called && ports.handover.Some? && ports.handover.value.Returned?
  }

  predicate MigratedTo(ports: Ports, backup: Option<string>) {
    ports.migrate.Some? && MigrationBackup(ports.migrate.value) == Some(backup)
  }

  /** What an aborted result says about the calls that were made. */
  predicate Honest(r: Result, captured: Option<Identity>, called: set<Kind>) {
    r.Aborted? ==>
      && (r.recoverable <==> KActivate !in called || (KMigrate in called && !r.ownershipUnknown))
      && (captured.Some? ==> KRestore in called || KMigrate in called || r.ownershipUnknown)
      && (r.ownershipUnknown ==> KRestore !in called)
  }

  /** The replacement reported ready; the production start authenticated it twice under the restart's own PID. */
  predicate ReplacementReady(ports: Ports, version: string) {
    match ports.start
    case None => true
    case Some(FakeStart(outcome)) => outcome == Started
    case Some(RealStart(script)) =>
      && RestartPid(script.restart).Some? && LiveIdentityMatches(ports, script.identity, version)
      && Ready(ports, Readiness(ports), RestartPid(script.restart).value, version)
  }

  predicate MigrationDue(ports: Ports) {
    ports.preflight.Returned? && ports.preflight.value.MigrationReady?
  }

  ghost predicate Complete(ports: Ports, r: Result, st: State) {
    r.Updated? ==>
      && KActivate in st.called && ports.activate && KVerify in st.called && KRestore !in st.called
      && r.installed == st.version && r.backup == st.backup
      && VerifyPasses(ports.verify, st.version) && ReplacementReady(ports, st.version)
      && (st.migrating ==> KMigrate in st.called && MigratedTo(ports, r.backup))
  }

  /** Past the fence: nothing is running, as far as the lifecycle ports can tell. */
  predicate Fence(ports: Ports, st: State) {
    && (st.captured.Some? ==> OwnerStopped(ports) && KStop in st.called && st.captured == Some(NamedOwner(ports).value.1))
    && (ports.AnyLifecycle() ==> ports.CompleteLifecycle() && KStatus in st.called && (st.captured.Some? || SaysStopped(ports)))
    && (ports.handover.Some? ==> LockTaken(ports, st.called))
    && (!ports.AnyLifecycle() ==> st.captured.None?)
    && (st.migrating <==> MigrationDue(ports))
  }

  /** Calls so far rank below the next one. */
  ghost predicate Ordered(st: State) {
    forall k :: k in st.called ==> Rank(k) < Bound(st)
  }

  /** Reading the preflight answer threw, before any lock was taken. */
  predicate CheckEscapes(ports: Ports, called: set<Kind>) {
    ports.preflight == Returned(NoValue) && KAcquire !in called && KActivate !in called
  }

  /** The lock is held from its acquisition to its release. */
  predicate Locking(ports: Ports, st: State) {
    && (st.held <==> LockTaken(ports, st.called) && KRelease !in st.called)
    && (KRelease in st.called ==> LockTaken(ports, st.called))
    && (st.phase.Escaping? ==> KRelease in st.called || CheckEscapes(ports, st.called))
    && (st.phase.Ended? ==> !st.held)
  }

  /** What each call already made implies. */
  predicate History(ports: Ports, st: State) {
    && (KActivate in st.called ==> Fence(ports, st))
    && (KMigrate in st.called ==> st.migrating && KActivate in st.called)
    && (KRestore in st.called ==> KMigrate !in st.called && st.captured.Some?)
    && (KVerify in st.called ==> Swapped(ports, st))
    && (st.migrating ==> ports.migrate.Some?)
    && (st.captured.Some? && !st.phase.Quiesced? ==> KActivate in st.called)
    && (st.phase.Begin? || (ports.stage.Threw? && st.phase.Ended?) || (ports.stage.Returned? && st.version == ports.stage.value.version))
  }

  /** The new binary is in place and the Home is migrated when it had to be. */
  predicate Swapped(ports: Ports, st: State) {
    && KActivate in st.called && ports.activate
    && (st.migrating <==> KMigrate in st.called) && (st.migrating ==> MigratedTo(ports, st.backup))
  }

  ghost predicate AtPhase(ports: Ports, st: State) {
    match st.phase
    case Begin => st == INITIAL
    case HasStage => st.captured.None?
    case Unfenced => st.captured.None? && (st.migrating <==> MigrationDue(ports))
    case Fenced => st.captured.None? && (st.migrating <==> MigrationDue(ports)) && ports.CompleteLifecycle() && (ports.handover.Some? ==> st.held)
    case Captured(pid, id) =>
      && KStatus in st.called && NamedOwner(ports) == Some((pid, id)) && st.captured.None?
      && (st.migrating <==> MigrationDue(ports))
      && ports.CompleteLifecycle() && (ports.handover.Some? ==> st.held)
    case Quiesced => Fence(ports, st)
    case Activated => KActivate in st.called && ports.activate && st.migrating
    case Prepared => Swapped(ports, st)
    case Restoring(f) =>
      && f.Aborted? && !f.recoverable && !f.ownershipUnknown
      && KActivate in st.called && KMigrate !in st.called && st.captured.Some?
    case Settled(r) => Honest(r, st.captured, st.called) && Complete(ports, r, st)
    case Escaping => true
    case Ended(o) =>
      && (KCleanup in st.called <==> ports.stage.Returned?)
      && (o.Escaped? ==> KRelease in st.called || CheckEscapes(ports, st.called)) && (ports.stage.Threw? ==> o.Finished? && o.result.Aborted?)
      && (o.Finished? ==> Honest(o.result, st.captured, st.called) && Complete(ports, o.result, st))
    case Verified => Checked(ports, st)
    case Restarted(pid) => Checked(ports, st) && SpawnedAs(ports, pid)
    case Reading(pid, identityOk) =>
      && Checked(ports, st) && SpawnedAs(ports, pid)
      && identityOk == LiveIdentityMatches(ports, Script(ports).identity, st.version)
    case Doubted(pid) => Checked(ports, st) && SpawnedAs(ports, pid)
    case Condemned(pid) => Checked(ports, st) && SpawnedAs(ports, pid)
  }

  ghost predicate Checked(ports: Ports, st: State) {
    KVerify in st.called && VerifyPasses(ports.verify, st.version)
  }

  /** The production restart named this PID. */
  predicate SpawnedAs(ports: Ports, pid: int) {
    IsReal(ports) && RestartPid(Script(ports).restart) == Some(pid)
  }

  ghost predicate Inv(ports: Ports, st: State) {
    Ordered(st) && Locking(ports, st) && History(ports, st) && AtPhase(ports, st)
  }

  predicate Starting(p: Phase) {
    p.Verified? || p.Restarted? || p.Reading? || p.Doubted? || p.Condemned?
  }

  /** A start call moves on inside startController or ends it with one of its three outcomes. */
  ghost predicate StartMove(ports: Ports, st: State, e: Event, p: Phase) {
    && 8 <= Bound(st) <= Rank(KindOf(e)) <= 12
    && (|| (Starting(p) && AtPhase(ports, st.(phase := p)) && Rank(KindOf(e)) < Bound(st.(phase := p)))
        || exists o :: p == AfterStart(st, o) && (o == Started ==> ReplacementReady(ports, st.version)))
  }

  lemma LaunchMove(ports: Ports, st: State, e: Event, p: Phase)
    requires st.phase.Verified?
    requires AtPhase(ports, st) && StartStep(ports, st, e) == Some(p)
    ensures StartMove(ports, st, e, p)
  {
    hide Fence, Swapped, IsActivatedIdentity, VerifyPasses;
  }

  lemma ReadMove(ports: Ports, st: State, e: Event, p: Phase)
    requires st.phase.Restarted? || st.phase.Reading?
    requires AtPhase(ports, st) && StartStep(ports, st, e) == Some(p)
    ensures StartMove(ports, st, e, p)
  {
    hide Fence, Swapped, IsActivatedIdentity, VerifyPasses;
  }

  lemma DoubtMove(ports: Ports, st: State, e: Event, p: Phase)
    requires st.phase.Doubted?
    requires AtPhase(ports, st) && StartStep(ports, st, e) == Some(p)
    ensures StartMove(ports, st, e, p)
  {
    hide Fence, Swapped, IsActivatedIdentity, VerifyPasses, LiveIdentityMatches, Ready;
  }

  lemma StopMove(ports: Ports, st: State, e: Event, p: Phase)
    requires st.phase.Condemned?
    requires AtPhase(ports, st) && StartStep(ports, st, e) == Some(p)
    ensures StartMove(ports, st, e, p)
  {
    hide Fence, Swapped, IsActivatedIdentity, VerifyPasses, LiveIdentityMatches, Ready;
  }

  lemma BeginKeeps(ports: Ports, st: State, e: Event, n: State)
    requires st.phase.Begin?
    requires Inv(ports, st) && Step(ports, st, e) == Some(n)
    ensures Locking(ports, n) && History(ports, n) && AtPhase(ports, n) && Bound(st) <= Rank(KindOf(e)) < Bound(n)
  {
    hide StartStep, Ready, LiveIdentityMatches, RestartPid, OwnedBy;
  }

  lemma CheckKeeps(ports: Ports, st: State, e: Event, n: State)
    requires st.phase.HasStage?
    requires Inv(ports, st) && Step(ports, st, e) == Some(n)
    ensures Locking(ports, n) && History(ports, n) && AtPhase(ports, n) && Bound(st) <= Rank(KindOf(e)) < Bound(n)
  {
    hide StartStep, Ready, LiveIdentityMatches, RestartPid, OwnedBy;
  }

  lemma LockKeeps(ports: Ports, st: State, e: Event, n: State)
    requires st.phase.Unfenced?
    requires Inv(ports, st) && Step(ports, st, e) == Some(n)
    ensures Locking(ports, n) && History(ports, n) && AtPhase(ports, n) && Bound(st) <= Rank(KindOf(e)) < Bound(n)
  {
    hide StartStep, Ready, LiveIdentityMatches, RestartPid, OwnedBy;
  }

  lemma StatusKeeps(ports: Ports, st: State, e: Event, n: State)
    requires st.phase.Fenced?
    requires Inv(ports, st) && Step(ports, st, e) == Some(n)
    ensures Locking(ports, n) && History(ports, n) && AtPhase(ports, n) && Bound(st) <= Rank(KindOf(e)) < Bound(n)
  {
    hide StartStep, Ready, LiveIdentityMatches, RestartPid, OwnedBy;
  }

  lemma StopKeeps(ports: Ports, st: State, e: Event, n: State)
    requires st.phase.Captured?
    requires Inv(ports, st) && Step(ports, st, e) == Some(n)
    ensures Locking(ports, n) && History(ports, n) && AtPhase(ports, n) && Bound(st) <= Rank(KindOf(e)) < Bound(n)
  {
    hide StartStep, Ready, LiveIdentityMatches, RestartPid, OwnedBy;
  }

  lemma ActivateKeeps(ports: Ports, st: State, e: Event, n: State)
    requires st.phase.Quiesced?
    requires Inv(ports, st) && Step(ports, st, e) == Some(n)
    ensures Locking(ports, n) && History(ports, n) && AtPhase(ports, n) && Bound(st) <= Rank(KindOf(e)) < Bound(n)
  {
    hide StartStep, Ready, LiveIdentityMatches, RestartPid, OwnedBy;
  }

  lemma MigrateKeeps(ports: Ports, st: State, e: Event, n: State)
    requires st.phase.Activated?
    requires Inv(ports, st) && Step(ports, st, e) == Some(n)
    ensures Locking(ports, n) && History(ports, n) && AtPhase(ports, n) && Bound(st) <= Rank(KindOf(e)) < Bound(n)
  {
    hide StartStep, Ready, LiveIdentityMatches, RestartPid, OwnedBy;
  }

  lemma VerifyKeeps(ports: Ports, st: State, e: Event, n: State)
    requires st.phase.Prepared?
    requires Inv(ports, st) && Step(ports, st, e) == Some(n)
    ensures Locking(ports, n) && History(ports, n) && AtPhase(ports, n) && Bound(st) <= Rank(KindOf(e)) < Bound(n)
  {
    hide StartStep, Ready, LiveIdentityMatches, RestartPid, OwnedBy;
  }

  lemma RestoreKeeps(ports: Ports, st: State, e: Event, n: State)
    requires st.phase.Restoring?
    requires Inv(ports, st) && Step(ports, st, e) == Some(n)
    ensures Locking(ports, n) && History(ports, n) && AtPhase(ports, n) && Bound(st) <= Rank(KindOf(e)) < Bound(n)
  {
    hide StartStep, Ready, LiveIdentityMatches, RestartPid, OwnedBy;
  }

  lemma ReleaseKeeps(ports: Ports, st: State, e: Event, n: State)
    requires st.phase.Settled? && st.held
    requires Inv(ports, st) && Step(ports, st, e) == Some(n)
    ensures Locking(ports, n) && History(ports, n) && AtPhase(ports, n) && Bound(st) <= Rank(KindOf(e)) < Bound(n)
  {
    hide StartStep, Ready, LiveIdentityMatches, RestartPid, OwnedBy;
  }

  lemma CleanupKeeps(ports: Ports, st: State, e: Event, n: State)
    requires st.phase.Settled? && !st.held
    requires Inv(ports, st) && Step(ports, st, e) == Some(n)
    ensures Locking(ports, n) && History(ports, n) && AtPhase(ports, n) && Bound(st) <= Rank(KindOf(e)) < Bound(n)
  {
    hide StartStep, Ready, LiveIdentityMatches, RestartPid, OwnedBy;
  }

  lemma FinalKeeps(ports: Ports, st: State, e: Event, n: State)
    requires st.phase.Escaping? || st.phase.Ended?
    requires Inv(ports, st) && Step(ports, st, e) == Some(n)
    ensures Locking(ports, n) && History(ports, n) && AtPhase(ports, n) && Bound(st) <= Rank(KindOf(e)) < Bound(n)
  {
    hide StartStep, Ready, LiveIdentityMatches, RestartPid, OwnedBy;
  }

  lemma OutcomeKeeps(ports: Ports, st: State, o: StartOutcome)
    requires Starting(st.phase) && AtPhase(ports, st) && History(ports, st) && Ordered(st)
    requires o == Started ==> ReplacementReady(ports, st.version)
    ensures AtPhase(ports, st.(phase := AfterStart(st, o)))
  {}

  /** Recording a start call changes none of the facts kept about the others. */
  lemma StartCallsAreNeutral(ports: Ports, st: State, k: Kind)
    requires 8 <= Rank(k) <= 12 && AtPhase(ports, st) && (Starting(st.phase) || st.phase.Settled? || st.phase.Restoring?)
    ensures AtPhase(ports, st.(called := st.called + {k}))
  {}

  lemma StartAdvance(ports: Ports, st: State, e: Event, n: State)
    requires Starting(st.phase) && Step(ports, st, e) == Some(n)
    ensures StartStep(ports, st, e) == Some(n.phase)
    ensures n == st.(phase := n.phase, called := st.called + {KindOf(e)})
  {}

  lemma StartMoves(ports: Ports, st: State, e: Event, p: Phase)
    requires Starting(st.phase) && AtPhase(ports, st) && History(ports, st) && Ordered(st)
    requires StartStep(ports, st, e) == Some(p)
    ensures AtPhase(ports, st.(phase := p)) && (Starting(p) || p.Settled? || p.Restoring?)
    ensures 8 <= Bound(st) <= Rank(KindOf(e)) <= 12 && Rank(KindOf(e)) < Bound(st.(phase := p))
  {
    hide StartStep, Fence, Checked, Swapped, ReplacementReady, IsActivatedIdentity;
    if st.phase.Doubted? { DoubtMove(ports, st, e, p); }
    else if st.phase.Condemned? { StopMove(ports, st, e, p); }
    else if st.phase.Verified? { LaunchMove(ports, st, e, p); }
    else { ReadMove(ports, st, e, p); }
    if !Starting(p) {
      var o :| p == AfterStart(st, o) && (o == Started ==> ReplacementReady(ports, st.version));
      OutcomeKeeps(ports, st, o);
    }
  }

  lemma StartKeeps(ports: Ports, st: State, e: Event, n: State)
    requires Starting(st.phase) && Inv(ports, st) && Step(ports, st, e) == Some(n)
    ensures Locking(ports, n) && History(ports, n) && AtPhase(ports, n) && Bound(st) <= Rank(KindOf(e)) < Bound(n)
  {
    hide Step, AtPhase, StartStep;
    StartAdvance(ports, st, e, n);
    StartMoves(ports, st, e, n.phase);
    StartCallsAreNeutral(ports, st.(phase := n.phase), KindOf(e));
  }

  lemma StepKeeps(ports: Ports, st: State, e: Event, n: State)
    requires Inv(ports, st) && Step(ports, st, e) == Some(n)
    ensures Inv(ports, n) && Bound(st) <= Rank(KindOf(e)) < Bound(n) && n.called == st.called + {KindOf(e)}
  {
    hide Advance, Locking, History, AtPhase, Rank, Bound;
    match st.phase {
      case Begin => BeginKeeps(ports, st, e, n);
      case HasStage => CheckKeeps(ports, st, e, n);
      case Unfenced => LockKeeps(ports, st, e, n);
      case Fenced => StatusKeeps(ports, st, e, n);
      case Captured(_, _) => StopKeeps(ports, st, e, n);
      case Quiesced => ActivateKeeps(ports, st, e, n);
      case Activated => MigrateKeeps(ports, st, e, n);
      case Prepared => VerifyKeeps(ports, st, e, n);
      case Restoring(_) => RestoreKeeps(ports, st, e, n);
      case Settled(_) => if st.held { ReleaseKeeps(ports, st, e, n); } else { CleanupKeeps(ports, st, e, n); }
      case Escaping | Ended(_) => FinalKeeps(ports, st, e, n);
      case _ => StartKeeps(ports, st, e, n);
    }
  }

  lemma InitialInv(ports: Ports)
    ensures Inv(ports, INITIAL)
  {}

  /** Which state each fencing call is made in, and with which arguments. */
  lemma CallerState(ports: Ports, st: State, e: Event)
    requires Step(ports, st, e).Some?
    ensures e.Stop? ==> st.phase.Captured? && e.pid == st.phase.pid && ports.stop == Some(e.stopped)
    ensures e.Status? ==> st.phase.Fenced? && ports.status == Some(e.status)
    ensures e.Activate? ==> st.phase.Quiesced?
    ensures e.Restore? ==> st.phase.Restoring? && st.captured == Some(e.captured)
  {}

  lemma KeepsCaptured(ports: Ports, st: State, e: Event)
    requires Step(ports, st, e).Some? && st.captured.Some?
    ensures Step(ports, st, e).value.captured.Some?
  {
    if Starting(st.phase) {
      StartAdvance(ports, st, e, Step(ports, st, e).value);
    }
  }

  lemma ConfirmedStopCaptures(ports: Ports, st: State, e: Event)
    requires Step(ports, st, e).Some? && e.Stop? && StopConfirms(e.stopped, e.pid)
    ensures Step(ports, st, e).value.captured.Some?
  {
    CallerState(ports, st, e);
  }

  // ----- Whole runs -----

  ghost predicate Calls(t: seq<Event>, k: Kind) {
    exists i :: 0 <= i < |t| && KindOf(t[i]) == k
  }

  lemma CallsExtend(init: seq<Event>, e: Event, k: Kind)
    ensures Calls(init + [e], k) <==> Calls(init, k) || KindOf(e) == k
  {
    var t := init + [e];
    if Calls(init, k) {
      var i :| 0 <= i < |init| && KindOf(init[i]) == k;
      assert t[i] == init[i];
    }
    if KindOf(e) == k {
      assert t[|init|] == e;
    }
  }

  /** The state before call i, which the automaton allows there. */
  lemma {:induction false} StateBefore(ports: Ports, t: seq<Event>, i: nat) returns (st: State)
    requires Run(ports, t).Some? && i < |t|
    ensures Run(ports, t[..i]) == Some(st) && Step(ports, st, t[i]).Some?
    ensures Run(ports, t[..i + 1]) == Step(ports, st, t[i])
  {
    hide Step;
    var init := t[..|t| - 1];
    if i == |t| - 1 {
      st := Run(ports, init).value;
      assert t[..i + 1] == t;
    } else {
      st := StateBefore(ports, init, i);
      assert init[..i] == t[..i] && init[..i + 1] == t[..i + 1];
    }
  }

  /** Every reachable state keeps the invariant, and its call record is the trace's. */
  lemma {:induction false} Reachable(ports: Ports, t: seq<Event>)
    requires Run(ports, t).Some?
    ensures Inv(ports, Run(ports, t).value)
    ensures forall k :: k in Run(ports, t).value.called <==> Calls(t, k)
  {
    hide Step, Inv;
    if t == [] {
      InitialInv(ports);
    } else {
      var init, e := t[..|t| - 1], t[|t| - 1];
      Reachable(ports, init);
      StepKeeps(ports, Run(ports, init).value, e, Run(ports, t).value);
      assert t == init + [e];
      forall k ensures Calls(t, k) <==> Calls(init, k) || KindOf(e) == k {
        CallsExtend(init, e, k);
      }
    }
  }

  lemma OrderedBound(ports: Ports, st: State, k: Kind)
    requires Inv(ports, st) && k in st.called
    ensures Rank(k) < Bound(st)
  {}

  /**
   * Every run makes its calls in the one protocol order, each at most once: stage, preflight, lock, status, exact
   * stop, activate, migrate, verify, start, restore, release, cleanup.
   */
  lemma {:induction false} CallsAreOrdered(ports: Ports, t: seq<Event>, i: nat, j: nat)
    requires Run(ports, t).Some? && i < j < |t|
    ensures Rank(KindOf(t[i])) < Rank(KindOf(t[j]))
  {
    hide Step, Run, Inv, Rank, Bound;
    var before := StateBefore(ports, t, j);
    Reachable(ports, t[..j]);
    StepKeeps(ports, before, t[j], Step(ports, before, t[j]).value);
    assert KindOf(t[..j][i]) == KindOf(t[i]);
    OrderedBound(ports, before, KindOf(t[i]));
  }

  lemma CapturedFacts(ports: Ports, st: State)
    requires Inv(ports, st) && st.phase.Captured?
    ensures NamedOwner(ports) == Some((st.phase.pid, st.phase.identity)) && KStatus in st.called
  {}

  /** A stop call names the exact PID that an earlier status call exposed. */
  lemma StopIsExact(ports: Ports, t: seq<Event>, i: nat)
    requires Run(ports, t).Some? && i < |t| && t[i].Stop?
    ensures NamedOwner(ports).Some? && t[i].pid == NamedOwner(ports).value.0 && ports.stop == Some(t[i].stopped)
    ensures exists j :: 0 <= j < i && t[j].Status? && ports.status == Some(t[j].status)
  {
    hide Step, Run, Inv;
    var st := StateBefore(ports, t, i);
    Reachable(ports, t[..i]);
    CallerState(ports, st, t[i]);
    CapturedFacts(ports, st);
    var j :| 0 <= j < i && KindOf(t[..i][j]) == KStatus;
    assert t[j] == t[..i][j];
    var before := StateBefore(ports, t, j);
    CallerState(ports, before, t[j]);
  }

  predicate SaysNotRunning(e: Event) {
    e.Status? && e.status.Returned? && RunningFlag(e.status.value) == Some(false)
  }

  predicate ConfirmsExactStop(ports: Ports, e: Event) {
    e.Stop? && NamedOwner(ports).Some? && e.pid == NamedOwner(ports).value.0 && StopConfirms(e.stopped, e.pid)
  }

  /** Some call before position n satisfies the fence: the old Controller is not running. */
  ghost predicate FencedBefore(ports: Ports, t: seq<Event>, n: nat)
    requires n <= |t|
  {
    exists j :: 0 <= j < n && (SaysNotRunning(t[j]) || ConfirmsExactStop(ports, t[j]))
  }

  lemma FenceIsInTrace(ports: Ports, t: seq<Event>, n: nat, st: State)
    requires Run(ports, t).Some? && n <= |t| && Run(ports, t[..n]) == Some(st)
    requires ports.AnyLifecycle() && Fence(ports, st)
    ensures FencedBefore(ports, t, n)
  {
    hide Step, Run, Inv;
    Reachable(ports, t[..n]);
    var k := if st.captured.Some? then KStop else KStatus;
    assert Calls(t[..n], k);
    var j :| 0 <= j < n && KindOf(t[..n][j]) == k;
    assert t[j] == t[..n][j];
    if st.captured.Some? {
      StopIsExact(ports, t, j);
      assert ConfirmsExactStop(ports, t[j]);
    } else {
      var before := StateBefore(ports, t, j);
      CallerState(ports, before, t[j]);
      assert SaysNotRunning(t[j]);
    }
  }

  lemma QuiescedFacts(ports: Ports, st: State)
    requires Inv(ports, st) && st.phase.Quiesced?
    ensures Fence(ports, st) && KRelease !in st.called
  {
    if KRelease in st.called {
      OrderedBound(ports, st, KRelease);
    }
  }

  /**
   * With lifecycle ports, activation comes after a confirmed stop of the exact owner or a not-running status; with a
   * handover port it comes under the lock.
   */
  lemma ActivationIsFenced(ports: Ports, t: seq<Event>, i: nat)
    requires Run(ports, t).Some? && i < |t| && t[i].Activate?
    ensures ports.AnyLifecycle() ==> FencedBefore(ports, t, i)
    ensures ports.handover.Some? ==> ports.handover.value.Returned? && Calls(t[..i], KAcquire) && !Calls(t[..i], KRelease)
  {
    hide Step, Run, Inv;
    var st := StateBefore(ports, t, i);
    Reachable(ports, t[..i]);
    CallerState(ports, st, t[i]);
    QuiescedFacts(ports, st);
    if ports.AnyLifecycle() {
      FenceIsInTrace(ports, t, i, st);
    }
  }

  lemma RestoringFacts(ports: Ports, st: State)
    requires Inv(ports, st) && st.phase.Restoring?
    ensures OwnerStopped(ports) && st.captured == Some(NamedOwner(ports).value.1) && KStop in st.called
  {}

  lemma NeverBoth(ports: Ports, st: State)
    requires Inv(ports, st)
    ensures !(KMigrate in st.called && KRestore in st.called)
  {}

  /** This call ended the update in a failure that gives the old Controller back. */
  predicate Foils(ports: Ports, e: Event) {
    match e
    case Activate(ok) => !ok
    case Verify(ok) => !ok || (IsReal(ports) && !ports.verify.RealVerify?) // the production start refuses
    case Start(outcome) => outcome == StartFailed
    case FencedStop(pid, fenced) => FencedStopConfirms(fenced, pid)
    case _ => false
  }

  lemma StartEntersRestoring(ports: Ports, st: State, e: Event)
    requires StartStep(ports, st, e).Some? && StartStep(ports, st, e).value.Restoring?
    ensures Foils(ports, e)
  {
    hide RestartPid, LiveIdentityMatches, Ready, OwnedBy, FencedStopConfirms;
  }

  lemma FailureEntersRestoring(ports: Ports, st: State, e: Event)
    requires Step(ports, st, e).Some? && Step(ports, st, e).value.phase.Restoring?
    requires st.phase.Quiesced? || st.phase.Prepared?
    ensures Foils(ports, e)
  {
    hide StartStep, VerifyPasses;
  }

  lemma NothingElseEntersRestoring(ports: Ports, st: State, e: Event)
    requires Step(ports, st, e).Some? && !st.phase.Quiesced? && !st.phase.Prepared? && !Starting(st.phase)
    ensures !Step(ports, st, e).value.phase.Restoring?
  {
    hide StartStep, RunningFlag, ExactOwner, MigrationBackup, StopConfirms;
    assert StartStep(ports, st, e).None? by { NoStart(ports, st, e); }
  }

  lemma NoStart(ports: Ports, st: State, e: Event)
    requires !Starting(st.phase)
    ensures StartStep(ports, st, e).None?
  {}

  lemma EntersRestoring(ports: Ports, st: State, e: Event)
    requires Step(ports, st, e).Some? && Step(ports, st, e).value.phase.Restoring?
    ensures Foils(ports, e)
  {
    if Starting(st.phase) {
      StartAdvance(ports, st, e, Step(ports, st, e).value);
      StartEntersRestoring(ports, st, e);
    } else if st.phase.Quiesced? || st.phase.Prepared? {
      FailureEntersRestoring(ports, st, e);
    } else {
      NothingElseEntersRestoring(ports, st, e);
    }
    hide Step, StartStep;
  }

  lemma StartsElsewhere(ports: Ports)
    ensures Run(ports, []) == Some(INITIAL) && !INITIAL.phase.Restoring?
  {}

  /**
   * A restore relaunches the captured identity after its exact stop was confirmed, directly after the failed
   * activation, verification or start, and never in a run that migrates.
   */
  lemma RestoreIsFenced(ports: Ports, t: seq<Event>, i: nat)
    requires Run(ports, t).Some? && i < |t| && t[i].Restore?
    ensures OwnerStopped(ports) && t[i].captured == NamedOwner(ports).value.1 && Calls(t[..i], KStop)
    ensures i > 0 && Foils(ports, t[i - 1])
    ensures !Calls(t, KMigrate)
  {
    hide Step, Run, Inv, OwnerStopped, Foils;
    var st := StateBefore(ports, t, i);
    Reachable(ports, t[..i]);
    CallerState(ports, st, t[i]);
    RestoringFacts(ports, st);
    StartsElsewhere(ports);
    var before := StateBefore(ports, t, i - 1);
    EntersRestoring(ports, before, t[i - 1]);
    Reachable(ports, t);
    NeverBoth(ports, Run(ports, t).value);
    assert KindOf(t[i]) == KRestore;
  }

  lemma EndFacts(ports: Ports, st: State)
    requires Inv(ports, st) && st.phase.Ended?
    ensures KCleanup in st.called <==> ports.stage.Returned?
    ensures KRelease in st.called <==> LockTaken(ports, st.called)
    ensures st.phase.outcome.Escaped? ==> KRelease in st.called || CheckEscapes(ports, st.called)
    ensures st.phase.outcome.Finished? ==>
              Honest(st.phase.outcome.result, st.captured, st.called) && Complete(ports, st.phase.outcome.result, st)
    ensures st.phase.outcome.Finished? && st.phase.outcome.result.Updated? ==>
              && ports.stage.Returned? && st.version == ports.stage.value.version
              && (KMigrate in st.called <==> MigrationDue(ports))
              && (MigrationDue(ports) ==> MigratedTo(ports, st.phase.outcome.result.backup))
  {}

  /** An abort is recoverable exactly when nothing was activated, or a migration ran and ownership is known. */
  lemma RecoverableExactly(ports: Ports, t: seq<Event>, r: Result, warned: bool)
    requires Accepts(ports, t, Finished(r, warned)) && r.Aborted?
    ensures r.recoverable <==> !Calls(t, KActivate) || (Calls(t, KMigrate) && !r.ownershipUnknown)
  {
    hide Step, Run, Inv, Complete;
    Reachable(ports, t);
    EndFacts(ports, Run(ports, t).value);
  }

  lemma {:induction false} CapturedIsKept(ports: Ports, t: seq<Event>, i: nat)
    requires Run(ports, t).Some? && i < |t| && t[i].Stop? && StopConfirms(t[i].stopped, t[i].pid)
    ensures Run(ports, t).value.captured.Some?
    decreases |t|
  {
    hide Step, Run, StopConfirms;
    var st := StateBefore(ports, t, |t| - 1);
    assert t[..|t| - 1 + 1] == t;
    if i < |t| - 1 {
      assert t[..|t| - 1][i] == t[i];
      CapturedIsKept(ports, t[..|t| - 1], i);
      KeepsCaptured(ports, st, t[|t| - 1]);
    } else {
      ConfirmedStopCaptures(ports, st, t[i]);
    }
  }

  /** Once the old Controller's stop is confirmed, an abort restores it, has migrated, or reports unknown ownership. */
  lemma NoSilentOutage(ports: Ports, t: seq<Event>, r: Result, warned: bool, i: nat)
    requires Accepts(ports, t, Finished(r, warned)) && r.Aborted?
    requires i < |t| && t[i].Stop? && StopConfirms(t[i].stopped, t[i].pid)
    ensures Calls(t, KRestore) || Calls(t, KMigrate) || r.ownershipUnknown
    ensures r.ownershipUnknown ==> !Calls(t, KRestore)
  {
    hide Step, Run, Inv, Complete;
    Reachable(ports, t);
    EndFacts(ports, Run(ports, t).value);
    CapturedIsKept(ports, t, i);
  }

  /** The two calls from which an exception leaves. */
  predicate Throws(ports: Ports, called: set<Kind>) {
    || (KCheck in called && ports.preflight == Returned(NoValue))
    || (KRelease in called && ports.handover == Some(Returned(false)))
  }

  predicate EscapeKnown(ports: Ports, st: State) {
    && (st.phase.Escaping? || st.phase == Ended(Escaped) <==> Throws(ports, st.called))
    && (KCheck in st.called <==> ports.stage.Returned? && !st.phase.Begin? && !st.phase.HasStage?)
    && (st.phase.HasStage? ==> ports.stage.Returned?)
  }

  predicate Outer(p: Phase) { p.Begin? || p.HasStage? || p.Settled? || p.Escaping? || p.Ended? }

  lemma StartStaysInside(ports: Ports, st: State, e: Event)
    requires StartStep(ports, st, e).Some?
    ensures var p := StartStep(ports, st, e).value; !p.Begin? && !p.HasStage? && !p.Escaping? && !p.Ended?
    ensures KindOf(e) != KCheck && KindOf(e) != KRelease
  {
    hide RestartPid, LiveIdentityMatches, Ready, OwnedBy, FencedStopConfirms, Readiness, Ownership;
  }

  lemma InnerStep(ports: Ports, st: State, e: Event)
    requires Step(ports, st, e).Some? && !Outer(st.phase)
    ensures var p := Step(ports, st, e).value.phase; !p.Begin? && !p.HasStage? && !p.Escaping? && !p.Ended?
    ensures KindOf(e) != KCheck && KindOf(e) != KRelease
  {
    hide StartStep, RunningFlag, ExactOwner, MigrationBackup, VerifyPasses, StopConfirms;
    if StartStep(ports, st, e).Some? { StartStaysInside(ports, st, e); }
  }

  lemma OuterStep(ports: Ports, st: State, e: Event)
    requires Step(ports, st, e).Some? && Outer(st.phase) && EscapeKnown(ports, st)
    ensures EscapeKnown(ports, Step(ports, st, e).value)
  {
    hide StartStep;
  }

  lemma {:induction false} EscapeIsKnown(ports: Ports, t: seq<Event>)
    requires Run(ports, t).Some?
    ensures EscapeKnown(ports, Run(ports, t).value)
  {
    hide Step, StartStep;
    if t != [] {
      var init, e := t[..|t| - 1], t[|t| - 1];
      var st := Run(ports, init).value;
      EscapeIsKnown(ports, init);
      if Outer(st.phase) {
        OuterStep(ports, st, e);
      } else {
        InnerStep(ports, st, e);
        StepRecords(ports, st, e);
      }
    }
  }

  lemma StepRecords(ports: Ports, st: State, e: Event)
    requires Step(ports, st, e).Some?
    ensures Step(ports, st, e).value.called == st.called + {KindOf(e)}
  {
    hide Advance;
  }

  /**
   * The lock is released exactly when it was acquired; staging is cleaned exactly when it succeeded. An exception leaves
   * exactly when a staged package gets a preflight answer without a value, before any lock or activation, or when the
   * release of an acquired lock throws.
   */
  lemma BracketsClose(ports: Ports, t: seq<Event>, o: Outcome)
    requires Accepts(ports, t, o)
    ensures Calls(t, KRelease) <==> Calls(t, KAcquire) && ports.handover.Some? && ports.handover.value.Returned?
    ensures Calls(t, KCleanup) <==> ports.stage.Returned?
    ensures o.Escaped? ==>
      Calls(t, KRelease) || (ports.preflight == Returned(NoValue) && !Calls(t, KAcquire) && !Calls(t, KActivate))
    ensures o.Escaped? <==>
      || (ports.stage.Returned? && ports.preflight == Returned(NoValue))
      || (Calls(t, KAcquire) && ports.handover == Some(Returned(false)))
  {
    hide Step, Run, Inv, Complete;
    Reachable(ports, t);
    EndFacts(ports, Run(ports, t).value);
    EscapeIsKnown(ports, t);
  }

  /** Nothing but the staging cleanup follows the release, and nothing follows the cleanup. */
  lemma EffectsPrecedeRelease(ports: Ports, t: seq<Event>, i: nat, j: nat)
    requires Run(ports, t).Some? && i < j < |t| && (t[i].Release? || t[i].Cleanup?)
    ensures t[i].Release? && t[j].Cleanup?
  {
    hide Step, Run;
    CallsAreOrdered(ports, t, i, j);
  }

  /**
   * An updated result means: the staged version was activated, a due migration completed, and verify passed — for the
   * production verify, a healthy doctor report and a version report equal to the staged one.
   */
  lemma UpdatedMeansVerified(ports: Ports, t: seq<Event>, r: Result, warned: bool)
    requires Accepts(ports, t, Finished(r, warned)) && r.Updated?
    ensures ports.stage.Returned? && r.installed == ports.stage.value.version
    ensures ports.activate && Calls(t, KActivate) && !Calls(t, KRestore) && VerifyPasses(ports.verify, r.installed)
    ensures (Calls(t, KMigrate) <==> MigrationDue(ports)) && (MigrationDue(ports) ==> MigratedTo(ports, r.backup))
    ensures ReplacementReady(ports, r.installed)
  {
    hide Step, Run, Inv, VerifyPasses, ReplacementReady;
    Reachable(ports, t);
    EndFacts(ports, Run(ports, t).value);
  }
}
