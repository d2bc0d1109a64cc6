// What the update reads from its child processes, stated on the fields of the
// JSON values themselves.

module WireFormats {
  import opened JsonValues
  import opened Options
  import opened Text
  import opened ControllerInventory
  import opened UpdateProtocol
  import DoctorVerdict

  /** The value is a record that holds j under the key. */
  predicate Has(v: Value, key: string, j: Json) {
    v.Some? && v.value.Obj? && key in v.value.fields && v.value.fields[key] == j
  }

  predicate Lacks(v: Value, key: string) { v.Some? && v.value.Obj? && key !in v.value.fields }

  predicate IsPid(pid: int) { 1 <= pid <= 9_007_199_254_740_991 }

  function Strings(texts: seq<string>): (items: seq<Json>)
    ensures |items| == |texts| && forall i :: 0 <= i < |items| ==> items[i] == Str(texts[i])
  {
    seq(|texts|, i requires 0 <= i < |texts| => Str(texts[i]))
  }

  /** The record spells out exactly this identity. */
  predicate Spells(o: Record, id: Identity) {
    && id.executablePath != "" && Has(Some(Obj(o)), "executablePath", Str(id.executablePath))
    && Has(Some(Obj(o)), "args", Arr(Strings(id.args)))
    && id.version != "" && Has(Some(Obj(o)), "version", Str(id.version))
  }

  lemma IdentityMeans(o: Record, id: Identity)
    ensures ParseIdentity(o) == Some(id) <==> Spells(o, id)
  {
    if Spells(o, id) { assert Texts(Strings(id.args)) == id.args; }
    if ParseIdentity(o) == Some(id) { assert o["args"].items == Strings(id.args); }
  }

  /** The status port: a running flag, and for a running Controller its exact PID and identity. */
  lemma StatusMeans(v: Value, running: bool, pid: int, id: Identity)
    ensures RunningFlag(v) == Some(running) <==> Has(v, "running", Bool(running))
    ensures ExactOwner(v) == Some((pid, id)) <==>
      IsPid(pid) && Has(v, "pid", Int(pid)) && exists o :: Has(v, "identity", Obj(o)) && Spells(o, id)
  {
    hide ParseIdentity, Spells;
    if v.Some? && v.value.Obj? && "identity" in v.value.fields && v.value.fields["identity"].Obj? {
      IdentityMeans(v.value.fields["identity"].fields, id);
    }
  }

  lemma StopMeans(r: Attempt<Value>, pid: int)
    ensures StopConfirms(r, pid) <==> r.Returned? && Has(r.value, "stopped", Bool(true)) && Has(r.value, "pid", Int(pid))
  {}

  lemma MigrationMeans(r: Attempt<Value>, backup: Option<string>)
    ensures MigrationBackup(r) == Some(backup) <==>
      r.Returned? && if backup.Some? then Has(r.value, "backupPath", Str(backup.value)) else Lacks(r.value, "backupPath")
  {}

  /** A Controller command answers with a success envelope and exit code 0. */
  predicate Answers(r: Spawn, data: Record) {
    !r.error && r.status == Some(0) && Has(r.stdout, "ok", Bool(true)) && Has(r.stdout, "data", Obj(data))
  }

  /** It fails with this code: the one on stdout, or the one on stderr when stdout has none. */
  predicate FailsWith(r: Spawn, code: string) {
    && (r.error || r.status != Some(0))
    && (Has(r.stdout, "code", Str(code)) || (!HasCode(r.stdout) && Has(r.stderr, "code", Str(code))))
  }

  predicate HasCode(v: Value) { v.Some? && v.value.Obj? && "code" in v.value.fields && v.value.fields["code"].Str? }

  lemma CommandMeans(r: Spawn, data: Record, code: string)
    ensures RunControllerCommand(r) == Returned(data) <==> Answers(r, data)
    ensures RunControllerCommand(r) == Threw(Some(code)) <==> FailsWith(r, code)
  {}

  lemma EnvelopeMeans(r: Spawn, data: Record)
    ensures SuccessEnvelope(r) == Some(data) <==>
      && !r.error && !r.signalled && r.status.Some?
      && Has(r.stdout, "ok", Bool(true)) && Has(r.stdout, "data", Obj(data))
  {}

  /** The rows of the inventory that the verdict looks at. */
  lemma InventoryRowMeans(home: string, r: Json)
    ensures IsHomeController(home, r) <==> Has(Some(r), "yuiHome", Str(home)) && Has(Some(r), "kind", Str("controller"))
    ensures IsCurrent(r) <==> Has(Some(r), "state", Str("current"))
    ensures IsControllerArtifact(home, r) <==>
      && Has(Some(r), "yuiHome", Str(home)) && Has(Some(r), "kind", Str("artifact"))
      && exists a :: Has(Some(r), "artifact", Obj(a))
           && (|| Has(Some(Obj(a)), "artifactKind", Str("controller-discovery"))
               || Has(Some(Obj(a)), "artifactKind", Str("controller-socket")))
  {}

  lemma WarningsMeans(data: Record)
    ensures WarningsClear(data) <==> "warnings" !in data || data["warnings"] == Arr([])
  {}

  /** The process proof is the first record among the processes; its PID counts only if it is one. */
  lemma {:induction false} FirstRecordMeans(ps: seq<Json>, process: Record)
    ensures FirstRecord(ps) == Some(process) <==>
      exists i :: 0 <= i < |ps| && ps[i] == Obj(process) && forall j :: 0 <= j < i ==> !ps[j].Obj?
  {
    if ps != [] && !ps[0].Obj? {
      var rest := ps[1..];
      FirstRecordMeans(rest, process);
      if FirstRecord(ps) == Some(process) {
        var i :| 0 <= i < |rest| && rest[i] == Obj(process) && forall j :: 0 <= j < i ==> !rest[j].Obj?;
        assert ps[i + 1] == Obj(process);
        assert forall j :: 0 <= j < i + 1 ==> !ps[j].Obj? by {
          forall j | 0 <= j < i + 1 ensures !ps[j].Obj? { if j > 0 { assert ps[j] == rest[j - 1]; } }
        }
      }
      if i :| 0 <= i < |ps| && ps[i] == Obj(process) && forall j :: 0 <= j < i ==> !ps[j].Obj? {
        assert rest[i - 1] == Obj(process);
        assert forall j :: 0 <= j < i - 1 ==> rest[j] == ps[j + 1];
      }
    }
  }

  lemma ProcessProofMeans(r: Json, process: Record, pid: int)
    ensures ProcessProof(r) == Some(process) <==>
      exists ps :: Has(Some(r), "processes", Arr(ps)) && FirstRecord(ps) == Some(process)
    ensures PidOf(process) == Some(pid) <==> IsPid(pid) && Has(Some(Obj(process)), "pid", Int(pid))
  {
    if r.Obj? && "processes" in r.fields && r.fields["processes"].Arr? {
      assert Has(Some(r), "processes", Arr(r.fields["processes"].items));
    }
  }

  /** The restart names its replacement: a success envelope whose data says restarted, under a PID. */
  lemma RestartMeans(r: Spawn, pid: int)
    ensures RestartPid(r) == Some(pid) <==>
      && !r.error && r.status == Some(0) && Has(r.stdout, "ok", Bool(true))
      && (Lacks(r.stdout, "output") || exists text :: Has(r.stdout, "output", Str(text)))
      && exists d :: Has(r.stdout, "data", Obj(d)) && NamesReplacement(d, pid)
  {
    if r.stdout.Some? && r.stdout.value.Obj? {
      var o := r.stdout.value.fields;
      if "data" in o && o["data"].Obj? { assert Has(r.stdout, "data", Obj(o["data"].fields)); }
      if "output" in o && o["output"].Str? { assert Has(r.stdout, "output", Str(o["output"].s)); }
    }
  }

  predicate NamesReplacement(d: Record, pid: int) {
    && Has(Some(Obj(d)), "restarted", Bool(true)) && IsPid(pid) && Has(Some(Obj(d)), "pid", Int(pid))
    && ("previousPid" in d ==> d["previousPid"].Int? && IsPid(d["previousPid"].n))
  }

  lemma FencedStopMeans(r: Spawn, pid: int)
    ensures FencedStopConfirms(r, pid) <==>
      && !r.error && r.status == Some(0) && Has(r.stdout, "ok", Bool(true))
      && exists d :: Has(r.stdout, "data", Obj(d)) && ConfirmsStop(d, pid)
  {
    if r.stdout.Some? && r.stdout.value.Obj? && "data" in r.stdout.value.fields && r.stdout.value.fields["data"].Obj? {
      assert Has(r.stdout, "data", Obj(r.stdout.value.fields["data"].fields));
    }
  }

  predicate ConfirmsStop(d: Record, pid: int) {
    && Has(Some(Obj(d)), "stopped", Bool(true)) && Has(Some(Obj(d)), "pid", Int(pid))
    && ("alreadyStopped" in d ==> d["alreadyStopped"] == Bool(true))
  }

  /** The live probe names an identity: a successful command whose data spells it. */
  lemma ProbeMeans(probe: Spawn, id: Identity)
    ensures ProbeIdentity(probe) == Returned(id) <==> exists o :: Answers(probe, o) && Spells(o, id)
  {
    hide Answers, Spells, RunControllerCommand, ParseIdentity;
    forall o ensures (RunControllerCommand(probe) == Returned(o) <==> Answers(probe, o)) && (ParseIdentity(o) == Some(id) <==> Spells(o, id)) {
      CommandMeans(probe, o, "");
      IdentityMeans(o, id);
    }
  }

  /** A replacement is ready under its PID with exactly the activated binary, entry point and version. */
  lemma ReadinessMeans(ports: Ports, lifecycle: Attempt<Lifecycle>, probe: Spawn, pid: int, version: string)
    ensures Ready(ports, lifecycle, pid, version) <==>
      && ports.verify.RealVerify?
      && lifecycle == Returned(Running(Some(pid), Identity(ports.execPath, [ports.verify.script.entrypoint], version)))
    ensures LiveIdentityMatches(ports, probe, version) <==>
      && ports.verify.RealVerify?
      && exists o :: Answers(probe, o) && Spells(o, Identity(ports.execPath, [ports.verify.script.entrypoint], version))
    ensures OwnedBy(lifecycle, pid) <==> exists id :: lifecycle == Returned(Running(Some(pid), id))
  {
    hide Answers, Spells, RunControllerCommand, ParseIdentity;
    if ports.verify.RealVerify? {
      var id := Identity(ports.execPath, [ports.verify.script.entrypoint], version);
      forall o ensures (RunControllerCommand(probe) == Returned(o) <==> Answers(probe, o)) && (ParseIdentity(o) == Some(id) <==> Spells(o, id)) {
        CommandMeans(probe, o, "");
        IdentityMeans(o, id);
      }
    }
    if OwnedBy(lifecycle, pid) { assert lifecycle == Returned(Running(Some(pid), lifecycle.value.identity)); }
  }

  // ----- Versions -----

  predicate AllDigits(s: string) { s != [] && forall i :: 0 <= i < |s| ==> '0' <= s[i] <= '9' }

  /** What may follow the third number: nothing, or a sign and one or more letters, digits, dots or dashes. */
  predicate IsTail(s: string) {
    s == "" || (|s| > 1 && (s[0] == '-' || s[0] == '+')
                && forall i :: 1 <= i < |s| ==>
                  '0' <= s[i] <= '9' || 'A' <= s[i] <= 'Z' || 'a' <= s[i] <= 'z' || s[i] == '.' || s[i] == '-')
  }

  ghost predicate IsVersion(s: string) {
    exists a, b, c, tail :: VersionParts(s, a, b, c, tail)
  }

  predicate VersionParts(s: string, a: string, b: string, c: string, tail: string) {
    AllDigits(a) && AllDigits(b) && AllDigits(c) && IsTail(tail) && s == a + "." + (b + "." + (c + tail))
  }

  lemma {:induction false} SkipsExactly(digits: string, rest: string)
    requires digits == "" || AllDigits(digits)
    requires rest == "" || !IsDigit(rest[0])
    ensures SkipDigits(digits + rest) == rest
    decreases |digits|
  {
    if digits == "" {
      assert digits + rest == rest;
    } else {
      assert (digits + rest)[1..] == digits[1..] + rest;
      SkipsExactly(digits[1..], rest);
    }
  }

  lemma {:induction false} DigitsFirst(s: string) returns (digits: string)
    ensures s == digits + SkipDigits(s) && (digits == "" || AllDigits(digits))
    ensures SkipDigits(s) == "" || !IsDigit(SkipDigits(s)[0])
    ensures s != "" && IsDigit(s[0]) ==> digits != ""
  {
    if s != [] && IsDigit(s[0]) {
      var rest := DigitsFirst(s[1..]);
      digits := [s[0]] + rest;
    } else {
      digits := "";
    }
  }

  lemma ComponentSkipped(digits: string, rest: string)
    requires AllDigits(digits)
    ensures SkipComponent(digits + "." + rest) == Some(rest)
  {
    assert digits + "." + rest == digits + ("." + rest);
    SkipsExactly(digits, "." + rest);
    assert ("." + rest)[1..] == rest;
  }

  lemma ComponentFound(s: string) returns (digits: string)
    requires SkipComponent(s).Some?
    ensures AllDigits(digits) && s == digits + "." + SkipComponent(s).value
  {
    digits := DigitsFirst(s);
    assert SkipDigits(s) == "." + SkipDigits(s)[1..];
  }

  /** Exactly three numbers and an optional pre-release or build tail. */
  lemma VersionMeans(s: string)
    ensures IsConcreteVersion(s) <==> IsVersion(s)
  {
    if a, b, c, tail :| VersionParts(s, a, b, c, tail) {
      ComponentSkipped(a, b + "." + (c + tail));
      ComponentSkipped(b, c + tail);
      SkipsExactly(c, tail);
    }
    if IsConcreteVersion(s) {
      var a := ComponentFound(s);
      var b := ComponentFound(SkipComponent(s).value);
      var patch := SkipComponent(SkipComponent(s).value).value;
      var c := DigitsFirst(patch);
      assert VersionParts(s, a, b, c, SkipDigits(patch));
    }
  }

  /** A reported version is the trimmed text of the envelope's version field, if that is a version. */
  lemma ReportedVersionMeans(r: Spawn, version: string)
    ensures ReportedVersion(r) == Some(version) <==>
      && r.status == Some(0) && IsVersion(version)
      && exists data, raw :: SuccessEnvelope(r) == Some(data) && Has(Some(Obj(data)), "version", Str(raw)) && version == Trim(raw)
  {
    VersionMeans(version);
    hide IsConcreteVersion, IsVersion, Trim, SuccessEnvelope;
    if SuccessEnvelope(r).Some? {
      var data := SuccessEnvelope(r).value;
      if "version" in data && data["version"].Str? { assert Has(Some(Obj(data)), "version", Str(data["version"].s)); }
    }
  }

  /** The production verify passes exactly for an existing binary, a healthy doctor, the same version and a refreshed wrapper. */
  lemma VerifyMeans(s: VerifyScript, version: string)
    ensures VerifyPasses(RealVerify(s), version) <==>
      && s.binary.Some? && DoctorVerdict.Healthy(s.doctor) && ReportedVersion(s.version) == Some(version)
      && !s.refresh.error && s.refresh.status == Some(0)
  {}
}
