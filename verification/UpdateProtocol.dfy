// The `yui update` handoff: one automaton over the calls a run makes, the run
// itself as methods that emit only accepted calls, and what every accepted run
// guarantees.

module UpdateProtocol {
  import opened JsonValues
  import opened Options
  import opened ControllerInventory
  import opened Text
  import DoctorVerdict

  // ----- Ports: what each injected effect answers -----

  datatype Staged = Staged(binaryPath: string, version: string)

  datatype BlockReport = BlockReport(
    message: string, action: string, blockers: Option<seq<string>>, retryCommand: Option<string>, sceneUnchanged: bool)

  /** NoValue is null or undefined, on which reading the status throws; an unknown status acts as AlreadyCurrent. */
  datatype Preflight = AlreadyCurrent | MigrationReady(stepCount: int) | Blocked(report: BlockReport) | NoValue

  datatype StartOutcome = Started | UnknownActive | StartFailed

  /** Every spawn the production startController port may make, in order. */
  datatype StartScript = StartScript(
    restart: Spawn, identity: Spawn, readyStatus: Spawn, readyProbe: Spawn, ownerStatus: Spawn, ownerProbe: Spawn,
    stop: Spawn)

  datatype StartPort = FakeStart(outcome: StartOutcome) | RealStart(script: StartScript)

  /** binary is the activated global binary when npm names one that exists. */
  datatype VerifyScript = VerifyScript(
    binary: Option<string>, entrypoint: string, doctor: Spawn, version: Spawn, refresh: Spawn)

  datatype VerifyPort = FakeVerify(ok: bool) | RealVerify(script: VerifyScript)

  /** A bool answer tells whether the port returned (true) or threw (false). */
  datatype Ports = Ports(
    home: string,
    execPath: string,
    stage: Attempt<Staged>,
    preflight: Attempt<Preflight>,
    handover: Option<Attempt<bool>>, // acquired: does its release return?
    status: Option<Attempt<Value>>,
    stop: Option<Attempt<Value>>,
    activate: bool,
    migrate: Option<Attempt<Value>>,
    verify: VerifyPort,
    start: Option<StartPort>,
    restore: Option<bool>,
    cleanup: bool)
  {
    predicate AnyLifecycle() {
      status.Some? || stop.Some? || start.Some? || restore.Some?
    }

    predicate CompleteLifecycle() {
      status.Some? && stop.Some? && start.Some? && restore.Some?
    }
  }

  // ----- Results -----

  datatype UpdatePhase =
    StagePhase | PreflightPhase | CoordinationPhase | ActivatePhase | MigratePhase | VerifyPhase

  datatype Result =
    | Updated(installed: string, backup: Option<string>)
    | Aborted(phase: UpdatePhase, recoverable: bool, version: Option<string>, report: Option<BlockReport>,
              backupPath: Option<string>, ownershipUnknown: bool, restoreFailed: bool)

  /** Escaped: an exception left runUpdate. */
  datatype Outcome = Finished(result: Result, cleanupWarning: bool) | Escaped

  // ----- Dynamic checks on what ports return -----

  function RunningFlag(v: Value): Option<bool> {
    match v
    case Some(Obj(o)) => (match Field(o, "running") case Some(Bool(b)) => Some(b) case _ => None)
    case _ => None
  }

  /** The exact PID and identity a running status must expose. */
  function ExactOwner(v: Value): Option<(int, Identity)> {
    match v
    case Some(Obj(o)) =>
      (match (Field(o, "pid"), Field(o, "identity"))
       case (Some(Int(pid)), Some(Obj(id))) =>
         if IsPositivePid(Some(Int(pid))) && ParseIdentity(id).Some? then Some((pid, ParseIdentity(id).value)) else None
       case _ => None)
    case _ => None
  }

  predicate StopConfirms(r: Attempt<Value>, pid: int) {
    match r
    case Returned(Some(Obj(o))) => Field(o, "stopped") == Some(Bool(true)) && Field(o, "pid") == Some(Int(pid))
    case _ => false
  }

  /** Some(backup) for a well-formed migration result. */
  function MigrationBackup(r: Attempt<Value>): Option<Option<string>> {
    match r
    case Returned(Some(Obj(o))) =>
      (match Field(o, "backupPath")
       case None => Some(None)
       case Some(Str(path)) => Some(Some(path))
       case _ => None)
    case _ => None
  }

  predicate SpawnOk(r: Spawn) {
    !r.error && r.status == Some(0)
  }

  // ----- The activated binary's version and doctor -----

  predicate IsDigit(c: char) { '0' <= c <= '9' }

  function SkipDigits(s: string): string {
    if s != [] && IsDigit(s[0]) then SkipDigits(s[1..]) else s
  }

  /** The rest of s after one or more digits followed by `.`; None otherwise. */
  function SkipComponent(s: string): Option<string> {
    if s == [] || !IsDigit(s[0]) then None
    else
      var rest := SkipDigits(s);
      if rest != [] && rest[0] == '.' then Some(rest[1..]) else None
  }

  predicate IsSuffixChar(c: char) {
    IsDigit(c) || 'A' <= c <= 'Z' || 'a' <= c <= 'z' || c == '.' || c == '-'
  }

  predicate IsConcreteVersion(s: string) {
    match SkipComponent(s)
    case None => false
    case Some(minor) =>
      match SkipComponent(minor)
      case None => false
      case Some(patch) =>
        && patch != [] && IsDigit(patch[0])
        && var rest := SkipDigits(patch);
           rest == [] || ((rest[0] == '-' || rest[0] == '+') && |rest| > 1
                          && forall i :: 1 <= i < |rest| ==> IsSuffixChar(rest[i]))
  }

  function ReportedVersion(r: Spawn): Option<string> {
    if r.status != Some(0) then None
    else match SuccessEnvelope(r)
      case None => None
      case Some(data) =>
        match Field(data, "version")
        case Some(Str(v)) => if IsConcreteVersion(Trim(v)) then Some(Trim(v)) else None
        case _ => None
  }

  ghost predicate VerifyPasses(port: VerifyPort, version: string) {
    match port
    case FakeVerify(ok) => ok
    case RealVerify(s) =>
      s.binary.Some? && DoctorVerdict.Healthy(s.doctor) && ReportedVersion(s.version) == Some(version) && SpawnOk(s.refresh)
  }

  // ----- The replacement start -----

  /** The PID an authenticated restart result names. */
  function RestartPid(r: Spawn): Option<int> {
    if !SpawnOk(r) then None
    else match r.stdout
      case Some(Obj(o)) =>
        if Field(o, "ok") != Some(Bool(true)) || ("output" in o && !o["output"].Str?) then None
        else (match Field(o, "data")
          case Some(Obj(d)) =>
            if Field(d, "restarted") == Some(Bool(true)) && IsPositivePid(Field(d, "pid"))
              && (Field(d, "previousPid").Some? ==> IsPositivePid(Field(d, "previousPid")))
            then Some(d["pid"].n) else None
          case _ => None)
      case _ => None
  }

  predicate IsActivatedIdentity(ports: Ports, id: Identity, version: string) {
    && id.version == version && id.executablePath == ports.execPath
    && ports.verify.RealVerify? && id.args == [ports.verify.script.entrypoint]
  }

  predicate LiveIdentityMatches(ports: Ports, probe: Spawn, version: string) {
    match ProbeIdentity(probe)
    case Returned(id) => IsActivatedIdentity(ports, id, version)
    case Threw(_) => false
  }

  predicate OwnedBy(lifecycle: Attempt<Lifecycle>, pid: int) {
    lifecycle.Returned? && lifecycle.value.Running? && lifecycle.value.pid == Some(pid)
  }

  /** The replacement is ready: the Home is owned by pid under the activated identity. */
  predicate Ready(ports: Ports, lifecycle: Attempt<Lifecycle>, pid: int, version: string) {
    OwnedBy(lifecycle, pid) && IsActivatedIdentity(ports, lifecycle.value.identity, version)
  }

  predicate FencedStopConfirms(r: Spawn, pid: int) {
    && SpawnOk(r)
    && match r.stdout
       case Some(Obj(o)) =>
         && Field(o, "ok") == Some(Bool(true))
         && (match Field(o, "data")
             case Some(Obj(d)) =>
               && Field(d, "stopped") == Some(Bool(true)) && Field(d, "pid") == Some(Int(pid))
               && (Field(d, "alreadyStopped").Some? ==> Field(d, "alreadyStopped") == Some(Bool(true)))
             case _ => false)
       case _ => false
  }

  // ----- The automaton -----

  datatype Event =
    | Stage(staged: Attempt<Staged>)
    | Check(preflight: Attempt<Preflight>)
    | Acquire(acquired: Attempt<bool>)
    | Status(status: Attempt<Value>)
    | Stop(pid: int, stopped: Attempt<Value>)
    | Activate(ok: bool)
    | Migrate(migrated: Attempt<Value>)
    | Verify(ok: bool)
    | Start(outcome: StartOutcome)
    | Restart(restarted: Spawn)
    | ReadIdentity(identity: Spawn)
    | ReadReadiness(lifecycle: Attempt<Lifecycle>)
    | ReadOwnership(lifecycle: Attempt<Lifecycle>)
    | FencedStop(pid: int, fenced: Spawn)
    | Restore(captured: Identity, ok: bool)
    | Release(ok: bool)
    | Cleanup(ok: bool)

  datatype Kind =
    KStage | KCheck | KAcquire | KStatus | KStop | KActivate | KMigrate | KVerify | KStart | KRestart | KIdentity
    | KReadiness | KOwnership | KFencedStop | KRestore | KRelease | KCleanup

  function KindOf(e: Event): Kind {
    match e
    case Stage(_) => KStage case Check(_) => KCheck case Acquire(_) => KAcquire case Status(_) => KStatus
    case Stop(_, _) => KStop case Activate(_) => KActivate case Migrate(_) => KMigrate case Verify(_) => KVerify
    case Start(_) => KStart case Restart(_) => KRestart case ReadIdentity(_) => KIdentity
    case ReadReadiness(_) => KReadiness case ReadOwnership(_) => KOwnership case FencedStop(_, _) => KFencedStop
    case Restore(_, _) => KRestore case Release(_) => KRelease case Cleanup(_) => KCleanup
  }

  /** What a run owes next. */
  datatype Phase =
    | Begin
    | HasStage
    | Unfenced
    | Fenced
    | Captured(pid: int, identity: Identity)
    | Quiesced
    | Activated
    | Prepared
    | Verified
    | Restarted(pid: int)
    | Reading(pid: int, identityOk: bool)
    | Doubted(pid: int)
    | Condemned(pid: int)
    | Restoring(failure: Result)
    | Settled(result: Result)
    | Escaping
    | Ended(outcome: Outcome)

  /** called is the set of kinds of calls made so far. */
  datatype State = State(
    phase: Phase, version: string, held: bool, migrating: bool, captured: Option<Identity>, backup: Option<string>,
    called: set<Kind>)

  const INITIAL := State(Begin, "", false, false, None, None, {})

  function Abort(st: State, phase: UpdatePhase, recoverable: bool): Result {
    Aborted(phase, recoverable, Some(st.version), None, st.backup, false, false)
  }

  /** The phase once the lock question is settled: no call is due without lifecycle ports. */
  function FencePhase(ports: Ports, st: State): Phase {
    if !ports.AnyLifecycle() then Quiesced
    else if !ports.CompleteLifecycle() then Settled(Abort(st, PreflightPhase, true))
    else Fenced
  }

  function AfterCheck(ports: Ports, st: State, p: Preflight): State {
    if p.NoValue? then st.(phase := Escaping)
    else if p.Blocked? then st.(phase := Settled(Abort(st, PreflightPhase, true).(report := Some(p.report))))
    else if p.MigrationReady? && (ports.migrate.None? || !ports.CompleteLifecycle())
    then st.(phase := Settled(Abort(st, PreflightPhase, true)))
    else
      var next := st.(migrating := p.MigrationReady?);
      next.(phase := if ports.handover.None? then FencePhase(ports, next) else Unfenced)
  }

  /** Owe the captured Controller its restore, when there is one. */
  function Recover(st: State, failure: Result): Phase {
    if st.captured.Some? then Restoring(failure) else Settled(failure)
  }

  /** A failure after activation: a migrated Home stays quiesced, any other gets its Controller back. */
  function FailLate(st: State): Phase {
    var failure := Abort(st, VerifyPhase, st.migrating);
    if st.migrating then Settled(failure) else Recover(st, failure)
  }

  function AfterStart(st: State, outcome: StartOutcome): Phase {
    match outcome
    case Started => Settled(Updated(st.version, st.backup))
    case UnknownActive => Settled(Aborted(VerifyPhase, false, Some(st.version), None, st.backup, true, false))
    case StartFailed => FailLate(st)
  }

  /** The production start refuses to run before the production verify has passed. */
  function AfterVerify(ports: Ports, st: State): Phase {
    if ports.start.None? then Settled(Updated(st.version, st.backup))
    else if ports.start.value.RealStart? && !ports.verify.RealVerify? then AfterStart(st, StartFailed)
    else Verified
  }

  function AfterStatus(st: State, status: Attempt<Value>): Phase {
    var refused := Settled(Abort(st, PreflightPhase, true));
    if status.Threw? then refused
    else match RunningFlag(status.value)
      case None => refused
      case Some(false) => Quiesced
      case Some(true) =>
        match ExactOwner(status.value)
        case None => refused
        case Some((pid, id)) => Captured(pid, id)
  }

  function AfterStop(st: State, pid: int, id: Identity, stopped: Attempt<Value>): State {
    if StopConfirms(stopped, pid) then st.(phase := Quiesced, captured := Some(id))
    else st.(phase := Settled(Abort(st, PreflightPhase, true)))
  }

  function AfterActivate(st: State, ok: bool): Phase {
    if !ok then Recover(st, Abort(st, ActivatePhase, false))
    else if st.migrating then Activated else Prepared
  }

  function AfterMigrate(st: State, migrated: Attempt<Value>): State {
    match MigrationBackup(migrated)
    case None => st.(phase := Settled(Abort(st, MigratePhase, true)))
    case Some(backup) => st.(phase := Prepared, backup := backup)
  }

  function AfterRestart(st: State, restarted: Spawn): Phase {
    match RestartPid(restarted)
    case None => AfterStart(st, UnknownActive)
    case Some(pid) => Restarted(pid)
  }

  function AfterReadiness(ports: Ports, st: State, pid: int, identityOk: bool, lifecycle: Attempt<Lifecycle>): Phase {
    if identityOk && Ready(ports, lifecycle, pid, st.version) then AfterStart(st, Started) else Doubted(pid)
  }

  function AfterOwnership(st: State, pid: int, lifecycle: Attempt<Lifecycle>): Phase {
    if OwnedBy(lifecycle, pid) then Condemned(pid) else AfterStart(st, UnknownActive)
  }

  function AfterFencedStop(st: State, pid: int, fenced: Spawn): Phase {
    AfterStart(st, if FencedStopConfirms(fenced, pid) then StartFailed else UnknownActive)
  }

  function AfterRestore(failure: Result, ok: bool): Phase {
    Settled(if ok || failure.Updated? then failure else failure.(recoverable := false, restoreFailed := true))
  }

  /** One call: None when the protocol does not allow it or the ports did not answer it so. */
  ghost function Step(ports: Ports, st: State, e: Event): Option<State> {
    match Advance(ports, st, e)
    case None => None
    case Some(next) => Some(next.(called := st.called + {KindOf(e)}))
  }

  ghost function Advance(ports: Ports, st: State, e: Event): Option<State> {
    match st.phase
    case Begin =>
      if e != Stage(ports.stage) then None
      else if ports.stage.Threw?
      then Some(st.(phase := Ended(Finished(Aborted(StagePhase, true, None, None, None, false, false), false))))
      else Some(st.(phase := HasStage, version := ports.stage.value.version))
    case HasStage =>
      if e != Check(ports.preflight) then None
      else if ports.preflight.Threw? then Some(st.(phase := Settled(Abort(st, PreflightPhase, true))))
      else Some(AfterCheck(ports, st, ports.preflight.value))
    case Unfenced =>
      if ports.handover.None? || e != Acquire(ports.handover.value) then None
      else if e.acquired.Threw? then Some(st.(phase := Settled(Abort(st, CoordinationPhase, true))))
      else Some(st.(held := true, phase := FencePhase(ports, st)))
    case Fenced =>
      if ports.status.None? || e != Status(ports.status.value) then None
      else Some(st.(phase := AfterStatus(st, e.status)))
    case Captured(pid, id) =>
      if ports.stop.None? || e != Stop(pid, ports.stop.value) then None else Some(AfterStop(st, pid, id, e.stopped))
    case Quiesced =>
      if e != Activate(ports.activate) then None else Some(st.(phase := AfterActivate(st, e.ok)))
    case Activated =>
      if ports.migrate.None? || e != Migrate(ports.migrate.value) then None else Some(AfterMigrate(st, e.migrated))
    case Prepared =>
      if !e.Verify? || e.ok != VerifyPasses(ports.verify, st.version) then None
      else Some(st.(phase := if e.ok then AfterVerify(ports, st) else FailLate(st)))
    case Restoring(failure) =>
      if st.captured.None? || ports.restore.None? || e != Restore(st.captured.value, ports.restore.value) then None
      else Some(st.(phase := AfterRestore(failure, e.ok)))
    case Settled(result) =>
      if st.held then
        if ports.handover.None? || ports.handover.value.Threw? || e != Release(ports.handover.value.value) then None
        else Some(st.(held := false, phase := if e.ok then st.phase else Escaping))
      else if e != Cleanup(ports.cleanup) then None
      else Some(st.(phase := Ended(Finished(result, !e.ok))))
    case Escaping =>
      if e != Cleanup(ports.cleanup) then None else Some(st.(phase := Ended(Escaped)))
    case Ended(_) => None
    case _ =>
      match StartStep(ports, st, e)
      case None => None
      case Some(next) => Some(st.(phase := next))
  }

  /** The calls of startController: one injected call, or the production restart and its fences. */
  ghost function StartStep(ports: Ports, st: State, e: Event): Option<Phase> {
    if !IsReal(ports) then
      if st.phase.Verified? && ports.start.Some? && e == Start(ports.start.value.outcome)
      then Some(AfterStart(st, e.outcome)) else None
    else match st.phase
      case Verified =>
        if e != Restart(Script(ports).restart) then None else Some(AfterRestart(st, e.restarted))
      case Restarted(pid) =>
        if e != ReadIdentity(Script(ports).identity) then None
        else Some(Reading(pid, LiveIdentityMatches(ports, e.identity, st.version)))
      case Reading(pid, identityOk) =>
        if e != ReadReadiness(Readiness(ports)) then None
        else Some(AfterReadiness(ports, st, pid, identityOk, e.lifecycle))
      case Doubted(pid) =>
        if e != ReadOwnership(Ownership(ports)) then None else Some(AfterOwnership(st, pid, e.lifecycle))
      case Condemned(pid) =>
        if e != FencedStop(pid, Script(ports).stop) then None else Some(AfterFencedStop(st, pid, e.fenced))
      case _ => None
  }

  predicate IsReal(ports: Ports) {
    ports.start.Some? && ports.start.value.RealStart?
  }

  function Script(ports: Ports): StartScript
    requires IsReal(ports)
  {
    ports.start.value.script
  }

  function Readiness(ports: Ports): Attempt<Lifecycle>
    requires IsReal(ports)
  {
    ReadControllerLifecycle(ports.home, Script(ports).readyStatus, Script(ports).readyProbe)
  }

  function Ownership(ports: Ports): Attempt<Lifecycle>
    requires IsReal(ports)
  {
    ReadControllerLifecycle(ports.home, Script(ports).ownerStatus, Script(ports).ownerProbe)
  }

  ghost function Run(ports: Ports, t: seq<Event>): Option<State> {
    if t == [] then Some(INITIAL)
    else match Run(ports, t[..|t| - 1])
      case None => None
      case Some(st) => Step(ports, st, t[|t| - 1])
  }

  /** A complete run: the automaton accepts the trace and ends with this outcome. */
  ghost predicate Accepts(ports: Ports, t: seq<Event>, o: Outcome) {
    Run(ports, t).Some? && Run(ports, t).value.phase == Ended(o)
  }

  // ----- The code -----

  datatype Capture = Known(wasRunning: bool, identity: Option<Identity>) | Refused(result: Result)

  /** The same state up to the record of calls. */
  ghost predicate SameRun(a: State, b: State) {
    a.(called := b.called) == b
  }

  /** A move to this phase that leaves everything else but the record of calls. */
  ghost predicate Moved(a: State, b: State, phase: Phase) {
    SameRun(a.(phase := phase), b)
  }

  class UpdateRun {
    const ports: Ports
    var trace: seq<Event>
    ghost var st: State
    // Closure state of the production ports.
    var verifiedActivatedBinary: Option<string>
    var verifiedActivatedVersion: Option<string>

    constructor (ports: Ports)
      ensures Valid() && trace == [] && this.ports == ports
    {
      this.ports := ports;
      trace := [];
      st := INITIAL;
      verifiedActivatedBinary, verifiedActivatedVersion := None, None;
    }

    ghost predicate Valid()
      reads this
    {
      Run(ports, trace) == Some(st)
    }

    /** Record one port call; the automaton must allow it. */
    method Emit(e: Event)
      requires Valid() && Step(ports, st, e).Some?
      modifies this`trace, this`st
      ensures Valid() && trace == old(trace) + [e] && Some(st) == Step(ports, old(st), e)
    {
      trace := trace + [e];
      st := Step(ports, st, e).value;
      assert trace[..|trace| - 1] == old(trace);
    }

    method CallStatus()
      requires Valid() && st.phase == Fenced && ports.status.Some?
      modifies this`trace, this`st
      ensures Valid() && Moved(old(st), st, AfterStatus(old(st), ports.status.value))
    {
      Emit(Status(ports.status.value));
    }

    method CallStop(pid: int)
      requires Valid() && st.phase.Captured? && st.phase.pid == pid && ports.stop.Some?
      modifies this`trace, this`st
      ensures Valid() && SameRun(AfterStop(old(st), pid, old(st).phase.identity, ports.stop.value), st)
    {
      Emit(Stop(pid, ports.stop.value));
    }

    method CallActivate()
      requires Valid() && st.phase == Quiesced
      modifies this`trace, this`st
      ensures Valid() && Moved(old(st), st, AfterActivate(old(st), ports.activate))
    {
      Emit(Activate(ports.activate));
    }

    method CallMigrate()
      requires Valid() && st.phase == Activated && ports.migrate.Some?
      modifies this`trace, this`st
      ensures Valid() && SameRun(AfterMigrate(old(st), ports.migrate.value), st)
    {
      Emit(Migrate(ports.migrate.value));
    }

    method CallVerify(ok: bool)
      requires Valid() && st.phase == Prepared && ok == VerifyPasses(ports.verify, st.version)
      modifies this`trace, this`st
      ensures Valid() && Moved(old(st), st, if ok then AfterVerify(ports, old(st)) else FailLate(old(st)))
    {
      Emit(Verify(ok));
    }

    method CallStart(outcome: StartOutcome)
      requires Valid() && st.phase == Verified && ports.start == Some(FakeStart(outcome))
      modifies this`trace, this`st
      ensures Valid() && Moved(old(st), st, AfterStart(old(st), outcome))
    {
      Emit(Start(outcome));
    }

    method CallRestart()
      requires Valid() && st.phase == Verified && IsReal(ports)
      modifies this`trace, this`st
      ensures Valid() && Moved(old(st), st, AfterRestart(old(st), Script(ports).restart))
    {
      Emit(Restart(Script(ports).restart));
    }

    method CallReadIdentity(pid: int)
      requires Valid() && st.phase == Restarted(pid) && IsReal(ports)
      modifies this`trace, this`st
      ensures Valid() && Moved(old(st), st, Reading(pid, LiveIdentityMatches(ports, Script(ports).identity, st.version)))
    {
      Emit(ReadIdentity(Script(ports).identity));
    }

    method CallReadiness()
      requires Valid() && st.phase.Reading? && IsReal(ports)
      modifies this`trace, this`st
      ensures Valid()
      ensures Moved(old(st), st, AfterReadiness(ports, old(st), old(st).phase.pid, old(st).phase.identityOk, Readiness(ports)))
    {
      Emit(ReadReadiness(Readiness(ports)));
    }

    method CallOwnership()
      requires Valid() && st.phase.Doubted? && IsReal(ports)
      modifies this`trace, this`st
      ensures Valid() && Moved(old(st), st, AfterOwnership(old(st), old(st).phase.pid, Ownership(ports)))
    {
      Emit(ReadOwnership(Ownership(ports)));
    }

    method CallFencedStop(pid: int)
      requires Valid() && st.phase == Condemned(pid) && IsReal(ports)
      modifies this`trace, this`st
      ensures Valid() && Moved(old(st), st, AfterFencedStop(old(st), pid, Script(ports).stop))
    {
      Emit(FencedStop(pid, Script(ports).stop));
    }

    method CallRestore(identity: Identity)
      requires Valid() && st.phase.Restoring? && st.captured == Some(identity) && ports.restore.Some?
      modifies this`trace, this`st
      ensures Valid() && Moved(old(st), st, AfterRestore(old(st).phase.failure, ports.restore.value))
    {
      Emit(Restore(identity, ports.restore.value));
    }

    /** The preflight call, and the lock when it is due. */
    method CallCheck()
      requires Valid() && st.phase == HasStage
      modifies this`trace, this`st
      ensures Valid()
      ensures ports.preflight.Threw? ==> Moved(old(st), st, Settled(Abort(old(st), PreflightPhase, true)))
      ensures ports.preflight.Returned? ==> SameRun(AfterCheck(ports, old(st), ports.preflight.value), st)
    {
      Emit(Check(ports.preflight));
    }

    method CallAcquire()
      requires Valid() && st.phase == Unfenced && ports.handover.Some?
      modifies this`trace, this`st
      ensures Valid()
      ensures ports.handover.value.Threw? ==> Moved(old(st), st, Settled(Abort(old(st), CoordinationPhase, true)))
      ensures ports.handover.value.Returned? ==>
                SameRun(old(st).(held := true, phase := FencePhase(ports, old(st))), st)
    {
      Emit(Acquire(ports.handover.value));
    }

    method CallRelease()
      requires Valid() && st.phase.Settled? && st.held && ports.handover.Some? && ports.handover.value.Returned?
      modifies this`trace, this`st
      ensures Valid()
      ensures SameRun(old(st).(held := false, phase := if ports.handover.value.value then old(st).phase else Escaping), st)
    {
      Emit(Release(ports.handover.value.value));
    }

    method RunUpdate() returns (o: Outcome)
      requires Valid() && trace == []
      modifies this
      ensures Valid() && Accepts(ports, trace, o)
    {
      Emit(Stage(ports.stage));
      if ports.stage.Threw? {
        return Finished(Aborted(StagePhase, true, None, None, None, false, false), false);
      }
      var result := RunStagedUpdate(ports.stage.value);
      Emit(Cleanup(ports.cleanup));
      if result.None? {
        return Escaped;
      }
      return Finished(result.value, !ports.cleanup);
    }

    /** None: an exception leaves, from reading the preflight status or from releasing the handover lock. */
    method RunStagedUpdate(staged: Staged) returns (r: Option<Result>)
      requires Valid() && st == INITIAL.(phase := HasStage, version := staged.version, called := st.called)
      modifies this
      ensures Valid() && !st.held
      ensures st.phase == if r.Some? then Settled(r.value) else Escaping
    {
      var version := Some(staged.version);
      var preflight := ports.preflight;
      CallCheck();
      if preflight.Threw? {
        return Some(Aborted(PreflightPhase, true, version, None, None, false, false));
      }
      if preflight.value.NoValue? {
        return None;
      }
      if preflight.value.Blocked? {
        return Some(Aborted(PreflightPhase, true, version, Some(preflight.value.report), None, false, false));
      }
      if preflight.value.MigrationReady? && ports.migrate.None? {
        return Some(Aborted(PreflightPhase, true, version, None, None, false, false));
      }
      if preflight.value.MigrationReady? && !ports.CompleteLifecycle() {
        return Some(Aborted(PreflightPhase, true, version, None, None, false, false));
      }
      var release := None;
      if ports.handover.Some? {
        CallAcquire();
        if ports.handover.value.Threw? {
          return Some(Aborted(CoordinationPhase, true, version, None, None, false, false));
        }
        release := Some(ports.handover.value.value);
      }
      var captured := CaptureControllerLifecycle(staged);
      var result;
      if captured.Refused? {
        result := captured.result;
      } else {
        result := ActivateAndVerify(staged, captured, preflight.value.MigrationReady?);
      }
      if release.Some? {
        CallRelease();
        if !release.value {
          return None;
        }
      }
      return Some(result);
    }

    method CaptureControllerLifecycle(staged: Staged) returns (c: Capture)
      requires Valid() && staged.version == st.version && st.captured.None? && st.backup.None?
      requires st.phase == FencePhase(ports, st)
      modifies this`trace, this`st
      ensures Valid()
      ensures match c
              case Refused(result) => Moved(old(st), st, Settled(result))
              case Known(was, id) =>
                && Moved(old(st).(captured := id), st, Quiesced) && was == id.Some?
                && (ports.AnyLifecycle() ==> ports.CompleteLifecycle()) && (was ==> ports.AnyLifecycle())
    {
      var refused := Refused(Aborted(PreflightPhase, true, Some(staged.version), None, None, false, false));
      if !ports.AnyLifecycle() {
        return Known(false, None);
      }
      if ports.status.None? || ports.stop.None? || ports.start.None? || ports.restore.None? {
        return refused;
      }
      var status := ports.status.value;
      CallStatus();
      if status.Threw? || RunningFlag(status.value).None? {
        return refused;
      }
      if !RunningFlag(status.value).value {
        return Known(false, None);
      }
      var owner := ExactOwner(status.value);
      if owner.None? {
        return refused;
      }
      var stopped := ports.stop.value;
      CallStop(owner.value.0);
      if !StopConfirms(stopped, owner.value.0) {
        return refused;
      }
      return Known(true, Some(owner.value.1));
    }

    method ActivateAndVerify(staged: Staged, lifecycle: Capture, migrating: bool) returns (r: Result)
      requires Valid() && staged.version == st.version && st.phase == Quiesced && st.backup.None?
      requires lifecycle.Known? && lifecycle.identity == st.captured && lifecycle.wasRunning == st.captured.Some?
      requires migrating == st.migrating && (migrating ==> ports.migrate.Some?)
      requires ports.AnyLifecycle() ==> ports.CompleteLifecycle()
      requires st.captured.Some? ==> ports.AnyLifecycle()
      modifies this
      ensures Valid() && st.phase == Settled(r) && st.held == old(st.held)
    {
      hide MigrationBackup;
      var version := Some(staged.version);
      verifiedActivatedBinary, verifiedActivatedVersion := None, None;
      CallActivate();
      if !ports.activate {
        r := RestoreControllerOrReport(lifecycle, Aborted(ActivatePhase, false, version, None, None, false, false));
        return;
      }
      var backup := None;
      if migrating {
        var migration := MigrationBackup(ports.migrate.value);
        CallMigrate();
        if migration.None? {
          return Aborted(MigratePhase, true, version, None, None, false, false);
        }
        backup := migration.value;
      }
      var healthy := VerifyActivated(staged);
      if !healthy {
        var failure := Aborted(VerifyPhase, migrating, version, None, backup, false, false);
        if migrating {
          return failure;
        }
        r := RestoreControllerOrReport(lifecycle, failure);
        return;
      }
      if ports.start.Some? {
        var outcome := StartController();
        if outcome != Started {
          var unknownActive := outcome == UnknownActive;
          var failure := Aborted(VerifyPhase, migrating && !unknownActive, version, None, backup, unknownActive, false);
          if unknownActive || migrating {
            return failure;
          }
          r := RestoreControllerOrReport(lifecycle, failure);
          return;
        }
      }
      return Updated(staged.version, backup);
    }

    method VerifyActivated(staged: Staged) returns (ok: bool)
      requires Valid() && staged.version == st.version && st.phase == Prepared
      requires verifiedActivatedBinary.None? && verifiedActivatedVersion.None?
      modifies this`trace, this`st, this`verifiedActivatedBinary, this`verifiedActivatedVersion
      ensures Valid() && ok == VerifyPasses(ports.verify, st.version)
      ensures Moved(old(st), st, if ok then AfterVerify(ports, old(st)) else FailLate(old(st)))
      ensures if ok && ports.verify.RealVerify?
              then verifiedActivatedBinary == ports.verify.script.binary && verifiedActivatedVersion == Some(st.version)
              else verifiedActivatedBinary.None? && verifiedActivatedVersion.None?
    {
      if ports.verify.FakeVerify? {
        ok := ports.verify.ok;
      } else {
        ok := VerifyInstalled(ports.verify.script, staged.version);
        if ok {
          verifiedActivatedBinary := ports.verify.script.binary;
          verifiedActivatedVersion := Some(staged.version);
        }
      }
      CallVerify(ok);
    }

    /** The production verify port: doctor, version, then the Session wrapper refresh. */
    static method VerifyInstalled(script: VerifyScript, version: string) returns (ok: bool)
      ensures ok == VerifyPasses(RealVerify(script), version)
    {
      if script.binary.None? {
        return false;
      }
      var healthy := DoctorVerdict.AssertDoctorStorageHealthy(script.doctor);
      return healthy && ReportedVersion(script.version) == Some(version) && SpawnOk(script.refresh);
    }

    /** The injected start port, or the production one. */
    method StartController() returns (outcome: StartOutcome)
      requires Valid() && ports.start.Some? && st.phase == AfterVerify(ports, st)
      requires if ports.verify.RealVerify?
               then verifiedActivatedBinary.Some? && verifiedActivatedVersion == Some(st.version)
               else verifiedActivatedBinary.None?
      modifies this`trace, this`st
      ensures Valid() && Moved(old(st), st, AfterStart(old(st), outcome))
    {
      match ports.start.value {
        case FakeStart(answer) =>
          CallStart(answer);
          return answer;
        case RealStart(script) =>
          if verifiedActivatedBinary.None? || verifiedActivatedVersion.None? {
            return StartFailed;
          }
          outcome := RestartControllerForUpdate(script, verifiedActivatedVersion.value);
      }
    }

    method RestartControllerForUpdate(script: StartScript, version: string) returns (outcome: StartOutcome)
      requires Valid() && st.phase == Verified && ports.start == Some(RealStart(script)) && version == st.version
      modifies this`trace, this`st
      ensures Valid() && Moved(old(st), st, AfterStart(old(st), outcome))
    {
      CallRestart();
      var replacement := RestartPid(script.restart);
      if replacement.None? {
        return UnknownActive;
      }
      var pid := replacement.value;
      CallReadIdentity(pid);
      var identityOk := LiveIdentityMatches(ports, script.identity, version);
      var readiness := ReadControllerLifecycle(ports.home, script.readyStatus, script.readyProbe);
      CallReadiness();
      if identityOk && Ready(ports, readiness, pid, version) {
        return Started;
      }
      outcome := StopMismatchedReplacementOrBlock(script, pid);
    }

    method StopMismatchedReplacementOrBlock(script: StartScript, pid: int) returns (outcome: StartOutcome)
      requires Valid() && st.phase == Doubted(pid) && ports.start == Some(RealStart(script))
      modifies this`trace, this`st
      ensures Valid() && Moved(old(st), st, AfterStart(old(st), outcome))
    {
      var ownership := ReadControllerLifecycle(ports.home, script.ownerStatus, script.ownerProbe);
      CallOwnership();
      if !OwnedBy(ownership, pid) {
        return UnknownActive;
      }
      CallFencedStop(pid);
      return if FencedStopConfirms(script.stop, pid) then StartFailed else UnknownActive;
    }

    method RestoreControllerOrReport(lifecycle: Capture, failure: Result) returns (r: Result)
      requires Valid() && failure.Aborted? && lifecycle.Known? && st.phase == Recover(st, failure)
      requires lifecycle.identity == st.captured && lifecycle.wasRunning == st.captured.Some?
      requires st.captured.Some? ==> ports.restore.Some?
      modifies this`trace, this`st
      ensures Valid() && st.phase == Settled(r) && st.held == old(st.held)
    {
      if !lifecycle.wasRunning {
        return failure;
      }
      CallRestore(lifecycle.identity.value);
      if ports.restore.value {
        return failure;
      }
      return failure.(recoverable := false, restoreFailed := true);
    }
  }
}
