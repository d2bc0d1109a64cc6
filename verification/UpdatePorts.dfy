// The fail-closed classifiers behind the production update ports.

module ControllerInventory {
  import opened JsonValues
  import opened Options

  datatype Identity = Identity(executablePath: string, args: seq<string>, version: string)

  datatype Lifecycle = Absent | Running(pid: Option<int>, identity: Identity)

  const NOT_RUNNING := "CONTROLLER_NOT_RUNNING"

  /** The first string code found on stdout, then on stderr. */
  function ErrorCode(r: Spawn): Option<string> {
    match (CodeOf(r.stdout), CodeOf(r.stderr))
    case (Some(c), _) => Some(c)
    case (None, c) => c
  }

  function CodeOf(v: Value): Option<string> {
    match v
    case Some(Obj(fields)) =>
      (match Field(fields, "code") case Some(Str(c)) => Some(c) case _ => None)
    case _ => None
  }

  function RunControllerCommand(r: Spawn): Attempt<Record> {
    if r.error || r.status != Some(0) then Threw(ErrorCode(r))
    else match r.stdout
      case Some(Obj(envelope)) =>
        (match (Field(envelope, "ok"), Field(envelope, "data"))
         case (Some(Bool(true)), Some(Obj(data))) => Returned(data)
         case _ => Threw(None))
      case _ => Threw(None)
  }

  predicate AllText(items: seq<Json>) {
    forall i :: 0 <= i < |items| ==> items[i].Str?
  }

  function Texts(items: seq<Json>): seq<string>
    requires AllText(items)
  {
    seq(|items|, i requires 0 <= i < |items| => items[i].s)
  }

  function ParseIdentity(o: Record): Option<Identity> {
    match (Field(o, "executablePath"), Field(o, "args"), Field(o, "version"))
    case (Some(Str(path)), Some(Arr(args)), Some(Str(version))) =>
      if path != "" && version != "" && AllText(args)
      then Some(Identity(path, Texts(args), version)) else None
    case _ => None
  }

  function ProbeIdentity(probe: Spawn): Attempt<Identity> {
    match RunControllerCommand(probe)
    case Threw(code) => Threw(code)
    case Returned(data) =>
      match ParseIdentity(data) case Some(id) => Returned(id) case None => Threw(None)
  }

  predicate HasText(o: Record, key: string, text: string) {
    Field(o, key) == Some(Str(text))
  }

  predicate IsHomeController(home: string, r: Json) {
    r.Obj? && HasText(r.fields, "yuiHome", home) && HasText(r.fields, "kind", "controller")
  }

  predicate IsControllerArtifact(home: string, r: Json) {
    && r.Obj? && HasText(r.fields, "yuiHome", home) && HasText(r.fields, "kind", "artifact")
    && match Field(r.fields, "artifact")
       case Some(Obj(a)) =>
         HasText(a, "artifactKind", "controller-discovery") || HasText(a, "artifactKind", "controller-socket")
       case _ => false
  }

  predicate IsCurrent(r: Json) {
    r.Obj? && HasText(r.fields, "state", "current")
  }

  function HomeControllers(home: string, rs: seq<Json>): (cs: seq<Json>)
    ensures forall r :: r in cs <==> r in rs && IsHomeController(home, r)
  {
    if rs == [] then []
    else (if IsHomeController(home, rs[0]) then [rs[0]] else []) + HomeControllers(home, rs[1..])
  }

  predicate WarningsClear(data: Record) {
    match Field(data, "warnings")
    case None => true
    case Some(Arr(ws)) => ws == []
    case _ => false
  }

  /** The first element of `processes` that is a record, when there is one. */
  function ProcessProof(r: Json): Option<Record> {
    match r
    case Obj(fields) => (match Field(fields, "processes") case Some(Arr(ps)) => FirstRecord(ps) case _ => None)
    case _ => None
  }

  function FirstRecord(ps: seq<Json>): Option<Record> {
    if ps == [] then None
    else if ps[0].Obj? then Some(ps[0].fields)
    else FirstRecord(ps[1..])
  }

  function PidOf(process: Record): Option<int> {
    if IsPositivePid(Field(process, "pid")) then Some(process["pid"].n) else None
  }

  function ReadControllerLifecycle(home: string, status: Spawn, probe: Spawn): Attempt<Lifecycle> {
    match RunControllerCommand(status)
    case Threw(code) => Threw(code)
    case Returned(data) =>
      match Field(data, "resources")
      case Some(Arr(resources)) =>
        if WarningsClear(data) then Classify(home, resources, probe) else Threw(None)
      case _ => Threw(None)
  }

  function Classify(home: string, resources: seq<Json>, probe: Spawn): Attempt<Lifecycle> {
    var controllers := HomeControllers(home, resources);
    if (exists r :: r in resources && IsControllerArtifact(home, r))
      || (exists r :: r in controllers && !IsCurrent(r))
      || |controllers| > 1
    then Threw(None)
    else if controllers == [] then ProveAbsent(probe)
    else match ProcessProof(controllers[0])
      case None => Threw(None)
      case Some(process) =>
        match ProbeIdentity(probe)
        case Threw(code) => Threw(code)
        case Returned(id) => Returned(Running(PidOf(process), id))
  }

  function ProveAbsent(probe: Spawn): Attempt<Lifecycle> {
    match RunControllerCommand(probe)
    case Threw(code) => if code == Some(NOT_RUNNING) then Returned(Absent) else Threw(None)
    case Returned(_) => Threw(None)
  }

  // ----- What the verdict means -----

  ghost predicate NoArtifacts(home: string, rs: seq<Json>) {
    forall r :: r in rs ==> !IsControllerArtifact(home, r)
  }

  /** Position i holds the only Controller resource of the Home. */
  ghost predicate SoleController(home: string, rs: seq<Json>, i: nat) {
    && i < |rs| && IsHomeController(home, rs[i])
    && forall j :: 0 <= j < |rs| && j != i ==> !IsHomeController(home, rs[j])
  }

  /** A successful status command whose inventory carries no warning. */
  ghost predicate CleanInventory(status: Spawn, rs: seq<Json>) {
    exists data ::
      && RunControllerCommand(status) == Returned(data)
      && Field(data, "resources") == Some(Arr(rs)) && WarningsClear(data)
  }

  lemma {:induction false} ControllersByPosition(home: string, rs: seq<Json>)
    ensures HomeControllers(home, rs) == [] <==> forall j :: 0 <= j < |rs| ==> !IsHomeController(home, rs[j])
    ensures forall i: nat :: SoleController(home, rs, i) ==> HomeControllers(home, rs) == [rs[i]]
    ensures |HomeControllers(home, rs)| == 1 ==> exists i: nat :: SoleController(home, rs, i)
  {
    if rs != [] {
      var tail := rs[1..];
      ControllersByPosition(home, tail);
      forall i: nat | SoleController(home, rs, i) ensures HomeControllers(home, rs) == [rs[i]] {
        if i > 0 {
          assert rs[i] == tail[i - 1] && !IsHomeController(home, rs[0]);
          assert forall j :: 0 <= j < |tail| ==> tail[j] == rs[j + 1];
          assert SoleController(home, tail, i - 1);
        } else {
          assert forall j :: 0 <= j < |tail| ==> tail[j] == rs[j + 1];
          assert HomeControllers(home, tail) == [];
        }
      }
      if |HomeControllers(home, rs)| == 1 {
        if IsHomeController(home, rs[0]) {
          assert HomeControllers(home, tail) == [];
          assert forall j :: 0 < j < |rs| ==> rs[j] == tail[j - 1];
          assert SoleController(home, rs, 0);
        } else {
          var i: nat :| SoleController(home, tail, i);
          assert forall j :: 0 < j < |rs| ==> rs[j] == tail[j - 1];
          assert SoleController(home, rs, i + 1);
        }
      }
    }
  }

  lemma CleanIsClassified(home: string, status: Spawn, probe: Spawn, rs: seq<Json>)
    requires CleanInventory(status, rs)
    ensures ReadControllerLifecycle(home, status, probe) == Classify(home, rs, probe)
    ensures forall other :: CleanInventory(status, other) ==> other == rs
  {
    hide Classify;
  }

  lemma ReturnedIsClean(home: string, status: Spawn, probe: Spawn) returns (rs: seq<Json>)
    requires ReadControllerLifecycle(home, status, probe).Returned?
    ensures CleanInventory(status, rs)
  {
    hide Classify;
    rs := RunControllerCommand(status).value["resources"].items;
    assert Field(RunControllerCommand(status).value, "resources") == Some(Arr(rs));
  }

  lemma ClassifiedRunning(home: string, rs: seq<Json>, probe: Spawn, pid: Option<int>, id: Identity)
    ensures Classify(home, rs, probe) == Returned(Running(pid, id)) <==>
            && NoArtifacts(home, rs) && ProbeIdentity(probe) == Returned(id)
            && exists i: nat :: SoleController(home, rs, i) && IsCurrent(rs[i])
                                && ProcessProof(rs[i]).Some? && pid == PidOf(ProcessProof(rs[i]).value)
  {
    hide IsHomeController, IsControllerArtifact, IsCurrent, ProcessProof, PidOf, ProbeIdentity, RunControllerCommand;
    ControllersByPosition(home, rs);
    if Classify(home, rs, probe) == Returned(Running(pid, id)) {
      var i: nat :| SoleController(home, rs, i);
      assert HomeControllers(home, rs)[0] in HomeControllers(home, rs);
    }
  }

  lemma ClassifiedAbsent(home: string, rs: seq<Json>, probe: Spawn)
    ensures Classify(home, rs, probe) == Returned(Absent) <==>
            && RunControllerCommand(probe) == Threw(Some(NOT_RUNNING)) && NoArtifacts(home, rs)
            && forall j :: 0 <= j < |rs| ==> !IsHomeController(home, rs[j])
  {
    hide IsHomeController, IsControllerArtifact, IsCurrent, ProcessProof, PidOf, ProbeIdentity, RunControllerCommand;
    ControllersByPosition(home, rs);
  }

  /** The verdict is running exactly for one current, proven, artifact-free Controller. */
  lemma RunningVerdict(home: string, status: Spawn, probe: Spawn, pid: Option<int>, id: Identity)
    ensures ReadControllerLifecycle(home, status, probe) == Returned(Running(pid, id)) <==>
            exists rs, i: nat ::
              && CleanInventory(status, rs) && SoleController(home, rs, i)
              && IsCurrent(rs[i]) && NoArtifacts(home, rs)
              && ProcessProof(rs[i]).Some? && pid == PidOf(ProcessProof(rs[i]).value)
              && ProbeIdentity(probe) == Returned(id)
  {
    hide Classify, ReadControllerLifecycle, CleanInventory, SoleController, NoArtifacts, ProcessProof, IsCurrent, RunControllerCommand;
    if rs :| CleanInventory(status, rs) {
      CleanIsClassified(home, status, probe, rs);
      ClassifiedRunning(home, rs, probe, pid, id);
    } else if ReadControllerLifecycle(home, status, probe).Returned? {
      var _ := ReturnedIsClean(home, status, probe);
    }
  }

  /** The verdict is absent exactly when no Controller is listed and the live probe says so. */
  lemma AbsentVerdict(home: string, status: Spawn, probe: Spawn)
    ensures ReadControllerLifecycle(home, status, probe) == Returned(Absent) <==>
            && RunControllerCommand(probe) == Threw(Some(NOT_RUNNING))
            && exists rs :: CleanInventory(status, rs) && NoArtifacts(home, rs)
                 && forall j :: 0 <= j < |rs| ==> !IsHomeController(home, rs[j])
  {
    hide Classify, ReadControllerLifecycle, CleanInventory, SoleController, NoArtifacts, ProcessProof, IsCurrent, RunControllerCommand;
    if rs :| CleanInventory(status, rs) {
      CleanIsClassified(home, status, probe, rs);
      ClassifiedAbsent(home, rs, probe);
    } else if ReadControllerLifecycle(home, status, probe).Returned? {
      var _ := ReturnedIsClean(home, status, probe);
    }
  }

  lemma {:induction false} ControllersCount(home: string, rs: seq<Json>, c: Json)
    ensures multiset(HomeControllers(home, rs))[c] == if IsHomeController(home, c) then multiset(rs)[c] else 0
  {
    if rs != [] {
      ControllersCount(home, rs[1..], c);
      assert rs == [rs[0]] + rs[1..];
    }
  }

  lemma EqualUpToOne<T>(a: seq<T>, b: seq<T>)
    requires multiset(a) == multiset(b)
    ensures |a| == |b|
    ensures |a| <= 1 ==> a == b
  {
    assert |a| == |multiset(a)| == |multiset(b)| == |b|;
    if |a| == 1 {
      assert a[0] in multiset(b);
    }
  }

  lemma SameControllers(home: string, rs: seq<Json>, permuted: seq<Json>)
    requires multiset(rs) == multiset(permuted)
    ensures multiset(HomeControllers(home, rs)) == multiset(HomeControllers(home, permuted))
  {
    forall c ensures multiset(HomeControllers(home, rs))[c] == multiset(HomeControllers(home, permuted))[c] {
      ControllersCount(home, rs, c);
      ControllersCount(home, permuted, c);
    }
  }

  lemma SameMembers(rs: seq<Json>, permuted: seq<Json>, r: Json)
    requires multiset(rs) == multiset(permuted)
    ensures r in rs <==> r in permuted
  {
    assert r in rs <==> r in multiset(rs);
    assert r in permuted <==> r in multiset(permuted);
  }

  /** The inventory has no order: any permutation of it gets the same verdict. */
  lemma VerdictIgnoresOrder(home: string, rs: seq<Json>, permuted: seq<Json>, probe: Spawn)
    requires multiset(rs) == multiset(permuted)
    ensures Classify(home, rs, probe) == Classify(home, permuted, probe)
  {
    SameControllers(home, rs, permuted);
    EqualUpToOne(HomeControllers(home, rs), HomeControllers(home, permuted));
    forall r ensures r in rs <==> r in permuted {
      SameMembers(rs, permuted, r);
    }
    var artifact := exists r :: r in rs && IsControllerArtifact(home, r);
    assert artifact <==> exists r :: r in permuted && IsControllerArtifact(home, r);
  }
}

module DoctorVerdict {
  import opened JsonValues
  import opened Options

  const STORAGE_CHECKS: seq<string> := ["storage schema", "storage compatibility", "storage state"]

  predicate Named(c: Json, name: string) {
    c.Obj? && Field(c.fields, "name") == Some(Str(name))
  }

  predicate CheckOk(c: Json) {
    c.Obj? && Field(c.fields, "status") == Some(Str("ok"))
  }

  predicate WellFormedBlocker(c: Json) {
    c.Obj? && IsText(Field(c.fields, "name")) && IsText(Field(c.fields, "status"))
  }

  /** The elements of checks that carry the given name, in order. */
  ghost function WithName(checks: seq<Json>, name: string): seq<Json> {
    if checks == [] then []
    else
      var rest := WithName(checks[..|checks| - 1], name);
      var last := checks[|checks| - 1];
      if Named(last, name) then rest + [last] else rest
  }

  /**
   * Groups the checks by name. Reading `name` from a null element throws, so a
   * null anywhere in the array makes the whole verdict fail.
   */
  method GroupByName(checks: seq<Json>) returns (r: Attempt<map<string, seq<Json>>>)
    ensures r.Returned? <==> Null !in checks
    ensures r.Returned? ==> forall n :: WithName(checks, n) == if n in r.value then r.value[n] else []
  {
    var byName: map<string, seq<Json>> := map[];
    for i := 0 to |checks|
      invariant Null !in checks[..i]
      invariant forall n :: WithName(checks[..i], n) == if n in byName then byName[n] else []
    {
      var c := checks[i];
      assert checks[..i + 1][..i] == checks[..i];
      if c.Null? {
        return Threw(None);
      }
      if c.Obj? && IsText(Field(c.fields, "name")) {
        var name := c.fields["name"].s;
        byName := byName[name := (if name in byName then byName[name] else []) + [c]];
      }
    }
    assert checks[..|checks|] == checks;
    return Returned(byName);
  }

  /** Exactly one element of the array bears the name, and it is ok. */
  ghost predicate OnceAndOk(checks: seq<Json>, name: string) {
    exists i: nat :: SoleNamed(checks, name, i) && CheckOk(checks[i])
  }

  /** The conditions the doctor documentation lists for a healthy report. */
  ghost predicate DocumentedHealthy(r: Spawn) {
    && r.status == Some(0)
    && exists data, storage, checks :: SuccessEnvelope(r) == Some(data) && HealthyData(data, storage, checks)
  }

  ghost predicate HealthyData(data: Record, storage: Record, checks: seq<Json>) {
    && Field(data, "storage") == Some(Obj(storage)) && Field(data, "checks") == Some(Arr(checks))
    && Field(storage, "healthy") == Some(Bool(true)) && Field(storage, "blocking") == Some(Arr([]))
    && forall n :: n in STORAGE_CHECKS ==> OnceAndOk(checks, n)
  }

  ghost predicate ChecksWithoutNull(r: Spawn) {
    match SuccessEnvelope(r)
    case Some(data) => (match Field(data, "checks") case Some(Arr(checks)) => Null !in checks case _ => true)
    case None => true
  }

  ghost predicate Healthy(r: Spawn) {
    DocumentedHealthy(r) && ChecksWithoutNull(r)
  }

  ghost predicate SoleNamed(checks: seq<Json>, name: string, i: nat) {
    && i < |checks| && Named(checks[i], name)
    && forall j :: 0 <= j < |checks| && j != i ==> !Named(checks[j], name)
  }

  lemma {:induction false} NoneNamed(checks: seq<Json>, name: string)
    requires forall j :: 0 <= j < |checks| ==> !Named(checks[j], name)
    ensures WithName(checks, name) == []
  {
    if checks != [] {
      NoneNamed(checks[..|checks| - 1], name);
    }
  }

  lemma {:induction false} WithNameMembers(checks: seq<Json>, name: string, j: nat)
    requires j < |checks| && Named(checks[j], name)
    ensures checks[j] in WithName(checks, name)
  {
    if j < |checks| - 1 {
      WithNameMembers(checks[..|checks| - 1], name, j);
    }
  }

  lemma {:induction false} SoleIsGroup(checks: seq<Json>, name: string, i: nat)
    requires SoleNamed(checks, name, i)
    ensures WithName(checks, name) == [checks[i]]
  {
    var init := checks[..|checks| - 1];
    if i == |checks| - 1 {
      NoneNamed(init, name);
    } else {
      assert SoleNamed(init, name, i);
      SoleIsGroup(init, name, i);
    }
  }

  lemma {:induction false} SingletonGroup(checks: seq<Json>, name: string) returns (i: nat)
    requires |WithName(checks, name)| == 1
    ensures SoleNamed(checks, name, i)
  {
    var init := checks[..|checks| - 1];
    if Named(checks[|checks| - 1], name) {
      i := |checks| - 1;
      forall j | 0 <= j < i ensures !Named(checks[j], name) {
        if Named(checks[j], name) { WithNameMembers(init, name, j); }
      }
    } else {
      i := SingletonGroup(init, name);
      assert checks[i] == init[i];
      assert forall j :: 0 <= j < |init| ==> init[j] == checks[j];
    }
  }

  lemma OnceAndOkByGroup(checks: seq<Json>, name: string)
    ensures OnceAndOk(checks, name) <==>
            |WithName(checks, name)| == 1 && CheckOk(WithName(checks, name)[0])
  {
    if OnceAndOk(checks, name) {
      var i: nat :| SoleNamed(checks, name, i) && CheckOk(checks[i]);
      SoleIsGroup(checks, name, i);
    }
    if |WithName(checks, name)| == 1 {
      var i := SingletonGroup(checks, name);
      SoleIsGroup(checks, name, i);
    }
  }

  /** assertDoctorStorageHealthy: returns normally exactly on a healthy report. */
  method AssertDoctorStorageHealthy(r: Spawn) returns (ok: bool)
    ensures ok <==> Healthy(r)
  {
    var envelope := SuccessEnvelope(r);
    if envelope.None? {
      return false;
    }
    var data := envelope.value;
    if !("storage" in data && data["storage"].Obj? && "checks" in data && data["checks"].Arr?) {
      return false;
    }
    var storage, checks := data["storage"].fields, data["checks"].items;
    if !("healthy" in storage && storage["healthy"].Bool?) {
      return false;
    }
    var grouped := GroupByName(checks);
    if grouped.Threw? {
      return false;
    }
    var missingOrMalformed, blockingChecks := 0, 0;
    for i := 0 to |STORAGE_CHECKS|
      invariant missingOrMalformed >= 0 && blockingChecks >= 0
      invariant missingOrMalformed == 0 && blockingChecks == 0 <==>
                forall k :: 0 <= k < i ==> OnceAndOk(checks, STORAGE_CHECKS[k])
    {
      var name := STORAGE_CHECKS[i];
      OnceAndOkByGroup(checks, name);
      var entries := if name in grouped.value then grouped.value[name] else [];
      if |entries| != 1 {
        missingOrMalformed := missingOrMalformed + 1;
      } else if !(entries[0].Obj? && IsText(Field(entries[0].fields, "status"))) {
        missingOrMalformed := missingOrMalformed + 1;
      } else if entries[0].fields["status"].s != "ok" {
        blockingChecks := blockingChecks + 1;
      }
    }
    assert (forall n :: n in STORAGE_CHECKS ==> OnceAndOk(checks, n)) <==>
           forall k :: 0 <= k < |STORAGE_CHECKS| ==> OnceAndOk(checks, STORAGE_CHECKS[k]);
    if missingOrMalformed > 0 {
      return false;
    }
    if !("blocking" in storage && storage["blocking"].Arr?) {
      return false;
    }
    var declared := storage["blocking"].items;
    if exists c :: c in declared && !WellFormedBlocker(c) {
      return false;
    }
    if storage["healthy"].b && (blockingChecks > 0 || declared != []) {
      return false;
    }
    if !storage["healthy"].b || blockingChecks > 0 || declared != [] {
      return false;
    }
    assert HealthyData(data, storage, checks);
    return r.status == Some(0);
  }

  function StorageCheck(name: string): Json {
    Obj(map["name" := Str(name), "status" := Str("ok")])
  }

  function StorageChecks(extra: seq<Json>): seq<Json> {
    [StorageCheck("storage schema"), StorageCheck("storage compatibility"), StorageCheck("storage state")] + extra
  }

  const CLEAN_STORAGE: Record := map["healthy" := Bool(true), "blocking" := Arr([])]

  function ReportData(extra: seq<Json>): Record {
    map["storage" := Obj(CLEAN_STORAGE), "checks" := Arr(StorageChecks(extra))]
  }

  function ReportWith(extra: seq<Json>): (r: Spawn)
    ensures SuccessEnvelope(r) == Some(ReportData(extra))
  {
    Spawn(false, false, Some(0), Some(Obj(map["ok" := Bool(true), "data" := Obj(ReportData(extra))])), None)
  }

  lemma ExpectedOnce(extra: seq<Json>, i: nat)
    requires i < 3 && (extra == [] || extra == [Null])
    ensures OnceAndOk(StorageChecks(extra), STORAGE_CHECKS[i])
  {
    var checks := StorageChecks(extra);
    assert "storage schema" != "storage state" by {
      assert "storage schema"[9] == 'c' && "storage state"[9] == 't';
    }
    assert |"storage compatibility"| == 21 && |"storage schema"| == 14 && |"storage state"| == 13;
    assert SoleNamed(checks, STORAGE_CHECKS[i], i) && CheckOk(checks[i]);
  }

  lemma ReportIsDocumentedHealthy(extra: seq<Json>)
    requires extra == [] || extra == [Null]
    ensures DocumentedHealthy(ReportWith(extra))
    ensures ChecksWithoutNull(ReportWith(extra)) <==> Null !in StorageChecks(extra)
  {
    ExpectedOnce(extra, 0);
    ExpectedOnce(extra, 1);
    ExpectedOnce(extra, 2);
    assert HealthyData(ReportData(extra), CLEAN_STORAGE, StorageChecks(extra));
  }

  /** The documented conditions do not suffice: an unrelated null check fails the verdict. */
  lemma DocumentedConditionsAreNotEnough()
    ensures DocumentedHealthy(ReportWith([Null])) && !Healthy(ReportWith([Null]))
    ensures Healthy(ReportWith([]))
  {
    ReportIsDocumentedHealthy([Null]);
    ReportIsDocumentedHealthy([]);
    assert StorageChecks([Null])[3] == Null;
  }
}
