// The record of one AgentRun: inputs are only appended, the first one is bound
// to its context at most once, and a terminal run never changes again.

module AgentRuns {
  import opened Options
  import opened Text

  /** conforms tells whether the input passes its own schema and fits the run's envelope context. */
  datatype Input = Input(content: string, snapshot: Option<string>, deltas: seq<string>, conforms: bool)

  /** Times are milliseconds, as Date.parse compares them. */
  datatype Record = Record(sequence: int, submittedAt: int, input: Input)

  datatype Status = Active | Completed | Failed

  /** What the provider reported of the Turn, without its status. */
  datatype Provider = Provider(
    namespace: string, account: string, conversation: string, turn: Option<string>, attempt: Option<string>)

  datatype Commit = Commit(project: string, head: string, branch: string)

  /** The workspace snapshot taken by the system, if any. */
  datatype Evidence = Evidence(snapshot: Option<seq<Commit>>)

  datatype Result = Result(
    output: Option<string>, diagnostic: Option<string>, completedAt: int, provider: Option<Provider>,
    evidence: Option<Evidence>, reason: Option<string>)

  /** lineage stands for every field no transition changes; sound tells whether the validator's checks on it pass. */
  datatype Run = Run(
    lineage: string, sound: bool, inputs: seq<Record>, status: Status, result: Option<Result>, createdAt: int, updatedAt: int)

  const MAX_RESULT_BYTES := 524_288
  const MAX_DIAGNOSTIC_BYTES := 16_384

  function Utf8Length(s: string): nat {
    if s == [] then 0
    else
      (if s[0] < '\U{80}' then 1 else if s[0] < '\U{800}' then 2 else if s[0] < '\U{10000}' then 3 else 4) + Utf8Length(s[1..])
  }

  predicate IsBoundedText(s: string, limit: nat) {
    '\0' !in s && Trim(s) != "" && Utf8Length(s) <= limit
  }

  /** The length adds up over the characters, each of which takes one to four bytes. */
  lemma {:induction false} Utf8LengthAdds(a: string, b: string)
    ensures Utf8Length(a + b) == Utf8Length(a) + Utf8Length(b)
    ensures |a| == 1 ==> Utf8Length(a) == if a[0] as int < 0x80 then 1 else if a[0] as int < 0x800 then 2
                                          else if a[0] as int < 0x1_0000 then 3 else 4
    decreases |a|
  {
    if a == [] {
      assert a + b == b;
    } else {
      assert (a + b)[0] == a[0] && (a + b)[1..] == a[1..] + b;
      Utf8LengthAdds(a[1..], b);
    }
  }

  /** A result is at most 512 KiB and a diagnostic at most 16 KiB of text that is not blank and holds no NUL. */
  lemma TextsMean(s: string)
    ensures IsResultText(s) <==> RequireText(s).Some? && Utf8Length(s) <= 512 * 1024
    ensures IsDiagnostic(s) <==> RequireText(s).Some? && Utf8Length(s) <= 16 * 1024
  {
    RequireTextMeans(s, Trim(s));
    hide Trim, Utf8Length;
  }

  predicate IsResultText(s: string) { IsBoundedText(s, MAX_RESULT_BYTES) }

  predicate IsDiagnostic(s: string) { IsBoundedText(s, MAX_DIAGNOSTIC_BYTES) }

  const FAILURE_REASONS := {
    "startup-failed", "runtime-failed", "delivery-unknown", "missing-result", "workspace-unavailable", "workspace-dirty",
    "workspace-branch-mismatch", "cancelled"}

  // ----- The validator -----

  predicate IsGiven(s: string) { RequireText(s).Some? }

  predicate IsGivenIfAny(o: Option<string>) { o.Some? ==> IsGiven(o.value) }

  predicate IsProvider(v: Provider) {
    && IsGiven(v.namespace) && IsGiven(v.account) && IsGiven(v.conversation)
    && IsGivenIfAny(v.turn) && IsGivenIfAny(v.attempt) && (v.turn.Some? || v.attempt.Some?)
  }

  predicate IsCommitId(s: string) {
    |s| == 40 && forall c :: c in s ==> '0' <= c <= '9' || 'a' <= c <= 'f'
  }

  predicate IsEvidence(e: Evidence) {
    e.snapshot.Some? ==>
      var commits := e.snapshot.value;
      && (forall c :: c in commits ==> RequireIdentity(c.project).Some? && IsCommitId(c.head) && IsGiven(c.branch))
      && forall i, j :: 0 <= i < j < |commits| ==> commits[i].project != commits[j].project
  }

  predicate ResultValid(status: Status, r: Result) {
    && (r.provider.Some? ==> IsProvider(r.provider.value)) && (r.evidence.Some? ==> IsEvidence(r.evidence.value))
    && (r.output.Some? ==> IsResultText(r.output.value)) && (r.diagnostic.Some? ==> IsDiagnostic(r.diagnostic.value))
    && (status.Failed? ==> r.reason.Some? && r.reason.value in FAILURE_REASONS && r.diagnostic.Some? && r.evidence.None?)
    && (status.Completed? ==> r.output.Some? && r.reason.None? && r.diagnostic.None?)
  }

  predicate InputsValid(inputs: seq<Record>) {
    && inputs != []
    && (forall i :: 0 <= i < |inputs| ==> inputs[i].sequence == i + 1 && inputs[i].input.conforms)
    && (forall i :: 0 < i < |inputs| ==> inputs[i - 1].submittedAt <= inputs[i].submittedAt)
  }

  predicate RunValid(run: Run) {
    && run.sound && InputsValid(run.inputs)
    && (run.status.Active? ==> run.result.None?)
    && (!run.status.Active? ==> run.result.Some? && ResultValid(run.status, run.result.value))
  }

  /** validateRun: the run itself, or None for a thrown error. */
  function Validate(run: Run): Option<Run> { if RunValid(run) then Some(run) else None }

  // ----- Transitions -----

  /** A failure's diagnostic is the bounded one; cutting it can still leave only white space. */
  datatype Transition =
    | Snapshot(ref: string, deltaIds: seq<string>, fits: bool)
    | Append(input: Input, now: int)
    | Complete(output: string, now: int, provider: Option<Provider>, evidence: Option<Evidence>)
    | Fail(reason: string, diagnostic: string, now: int, provider: Option<Provider>, partialOutput: Option<string>)

  /** createRun; it does not run the validator. */
  function Create(lineage: string, sound: bool, input: Input, now: int): Option<Run> {
    if !input.conforms then None else Some(Run(lineage, sound, [Record(1, now, input)], Active, None, now, now))
  }

  function Finish(run: Run, status: Status, r: Result, now: int): Option<Run> {
    if !run.status.Active? then None
    else if r.output.Some? && !IsResultText(r.output.value) then None
    else if r.diagnostic.Some? && !IsDiagnostic(r.diagnostic.value) then None
    else if r.provider.Some? && !IsProvider(r.provider.value) then None
    else if r.evidence.Some? && !IsEvidence(r.evidence.value) then None
    else Validate(run.(status := status, result := Some(r), updatedAt := now))
  }

  function Step(run: Run, t: Transition): Option<Run> {
    match t
    case Snapshot(ref, deltaIds, fits) =>
      if run.inputs == [] || !run.status.Active? || run.inputs[0].input.snapshot.Some? then None
      else
        var first := run.inputs[0];
        var bound := Record(1, first.submittedAt, Input(first.input.content, Some(ref), deltaIds, fits));
        Validate(run.(inputs := [bound] + run.inputs[1..]))
    case Append(input, now) =>
      if !RunValid(run) || !run.status.Active? || now < run.updatedAt || !input.conforms then None
      else Validate(run.(inputs := run.inputs + [Record(|run.inputs| + 1, now, input)], updatedAt := now))
    case Complete(output, now, provider, evidence) =>
      Finish(run, Completed, Result(Some(output), None, now, provider, evidence, None), now)
    case Fail(reason, diagnostic, now, provider, partialOutput) =>
      Finish(run, Failed, Result(partialOutput, Some(diagnostic), now, provider, None, Some(reason)), now)
  }

  /** The run after any transitions; a refused one changes nothing. */
  function After(run: Run, ts: seq<Transition>): Run {
    if ts == [] then run
    else
      var before := After(run, ts[..|ts| - 1]);
      var next := Step(before, ts[|ts| - 1]);
      if next.None? then before else next.value
  }

  /** Transitions run one after another; a refused one leaves the run as it is. */
  lemma {:induction false} TransitionsRunInOrder(run: Run, a: seq<Transition>, b: seq<Transition>, t: Transition)
    ensures After(run, a + b) == After(After(run, a), b)
    ensures After(run, [t]) == if Step(run, t).Some? then Step(run, t).value else run
    decreases |b|
  {
    hide Step;
    assert [t][..0] == [];
    if b == [] {
      assert a + b == a;
    } else {
      assert (a + b)[..|a + b| - 1] == a + b[..|b| - 1];
      TransitionsRunInOrder(run, a, b[..|b| - 1], t);
    }
  }

  /** On reachable active runs no input was submitted after the last update. */
  predicate Timely(run: Run) {
    run.status.Active? ==> forall i :: 0 <= i < |run.inputs| ==> run.inputs[i].submittedAt <= run.updatedAt
  }

  predicate Reachable(run: Run) { RunValid(run) && Timely(run) }

  /** b continues a: inputs are only appended and the first is rebound at most once, from no snapshot to one. */
  predicate Continues(a: Run, b: Run) {
    && a.lineage == b.lineage && a.createdAt == b.createdAt
    && 0 < |a.inputs| <= |b.inputs|
    && (forall i :: 0 < i < |a.inputs| ==> b.inputs[i] == a.inputs[i])
    && a.inputs[0].submittedAt == b.inputs[0].submittedAt && a.inputs[0].input.content == b.inputs[0].input.content
    && (a.inputs[0].input.snapshot.Some? ==> b.inputs[0] == a.inputs[0])
    && (b.inputs[0] != a.inputs[0] ==> b.inputs[0].input.snapshot.Some?)
    && (!a.status.Active? ==> a == b)
  }

  lemma StepContinues(run: Run, t: Transition)
    requires Reachable(run) && Step(run, t).Some?
    ensures run.status.Active? && Reachable(Step(run, t).value) && Continues(run, Step(run, t).value)
  {
    hide IsBoundedText, IsProvider, IsEvidence;
  }

  /** Every run of transitions from a valid created run keeps the history valid and only ever extends it. */
  lemma {:induction false} HistoryGrows(run: Run, ts: seq<Transition>, k: nat)
    requires Reachable(run) && k <= |ts|
    ensures Reachable(After(run, ts)) && Continues(After(run, ts[..k]), After(run, ts))
  {
    hide Step, RunValid;
    if k == |ts| {
      assert ts[..k] == ts;
      if ts != [] { HistoryGrows(run, ts, k - 1); }
      ReachableHasInputs(After(run, ts));
    } else {
      var n := |ts| - 1;
      HistoryGrows(run, ts[..n], k);
      assert ts[..n][..k] == ts[..k];
      var before := After(run, ts[..n]);
      if Step(before, ts[n]).Some? { StepContinues(before, ts[n]); }
    }
  }

  lemma ReachableHasInputs(run: Run)
    requires Reachable(run)
    ensures run.inputs != []
  {}

  /** A new run is active with its one input and no result. */
  lemma CreatedIsReachable(lineage: string, sound: bool, input: Input, now: int)
    ensures var r := Create(lineage, sound, input, now);
            && (r.Some? <==> input.conforms)
            && (r.Some? ==>
                 && (Reachable(r.value) <==> sound)
                 && r.value == Run(lineage, sound, [Record(1, now, input)], Active, None, now, now))
  {}

  /** Sequence numbers are 1..n, times do not go backwards, and there is a result exactly when the run is terminal. */
  lemma HistoryIsOrdered(lineage: string, input: Input, now: int, ts: seq<Transition>)
    requires input.conforms
    ensures var r := After(Create(lineage, true, input, now).value, ts);
            && (forall i :: 0 <= i < |r.inputs| ==> r.inputs[i].sequence == i + 1)
            && (forall i, j :: 0 <= i <= j < |r.inputs| ==> r.inputs[i].submittedAt <= r.inputs[j].submittedAt)
            && (r.result.Some? <==> !r.status.Active?)
            && (r.status.Active? ==> forall i :: 0 <= i < |r.inputs| ==> r.inputs[i].submittedAt <= r.updatedAt)
  {
    hide Step, After;
    CreatedIsReachable(lineage, true, input, now);
    HistoryGrows(Create(lineage, true, input, now).value, ts, 0);
    var r := After(Create(lineage, true, input, now).value, ts);
    forall i, j | 0 <= i <= j < |r.inputs| ensures r.inputs[i].submittedAt <= r.inputs[j].submittedAt { OrderedTo(r.inputs, i, j); }
  }

  lemma {:induction false} OrderedTo(inputs: seq<Record>, i: nat, j: nat)
    requires InputsValid(inputs) && i <= j < |inputs|
    ensures inputs[i].submittedAt <= inputs[j].submittedAt
    decreases j
  {
    if i < j { OrderedTo(inputs, i, j - 1); }
  }

  /**
   * On a reachable active run the guard on updatedAt decides alone: the validator's own time check never refuses. The
   * input is appended under the next sequence number and this time, and nothing else changes but the update time.
   */
  lemma AppendIsExact(run: Run, input: Input, now: int)
    requires Reachable(run)
    ensures var r := Step(run, Append(input, now));
            && (r.Some? <==> run.status.Active? && input.conforms && now >= run.updatedAt)
            && (r.Some? ==>
                 r.value == run.(inputs := run.inputs + [Record(|run.inputs| + 1, now, input)], updatedAt := now))
  {}

  /** The records that the accepted appends of a history add, in order. */
  function Appended(run: Run, ts: seq<Transition>): seq<Record> {
    if ts == [] then []
    else
      var n := |ts| - 1;
      var before := After(run, ts[..n]);
      Appended(run, ts[..n]) +
      if ts[n].Append? && before.status.Active? && ts[n].input.conforms && ts[n].now >= before.updatedAt
      then [Record(|before.inputs| + 1, ts[n].now, ts[n].input)] else []
  }

  lemma OthersAppendNothing(run: Run, t: Transition)
    requires Reachable(run) && !t.Append? && Step(run, t).Some?
    ensures var r := Step(run, t).value; |r.inputs| == |run.inputs| && r.inputs[1..] == run.inputs[1..]
  {
    hide IsBoundedText, IsProvider, IsEvidence;
  }

  /** After any history the inputs are those of the start, the first perhaps bound, and then every accepted append in order. */
  lemma {:induction false} AppendsAreKept(run: Run, ts: seq<Transition>)
    requires Reachable(run)
    ensures var r := After(run, ts);
            && |r.inputs| == |run.inputs| + |Appended(run, ts)|
            && r.inputs[1..] == run.inputs[1..] + Appended(run, ts)
  {
    ReachableHasInputs(run);
    if ts == [] {
      assert Appended(run, ts) == [];
    } else {
      var n := |ts| - 1;
      var before := After(run, ts[..n]);
      AppendsAreKept(run, ts[..n]);
      HistoryGrows(run, ts[..n], 0);
      ReachableHasInputs(before);
      if ts[n].Append? { AppendIsExact(before, ts[n].input, ts[n].now); }
      else if Step(before, ts[n]).Some? { OthersAppendNothing(before, ts[n]); }
      hide Step, RunValid, Continues;
    }
  }

  /** The context is bound exactly once, and binding it changes only the first input's snapshot. */
  lemma SnapshotIsAllowedExactly(run: Run, ref: string, deltaIds: seq<string>, fits: bool)
    requires Reachable(run)
    ensures var r := Step(run, Snapshot(ref, deltaIds, fits));
            && (r.Some? <==> run.status.Active? && run.inputs[0].input.snapshot.None? && fits)
            && (r.Some? ==>
                 var first := run.inputs[0];
                 r.value == run.(inputs :=
                   [Record(1, first.submittedAt, Input(first.input.content, Some(ref), deltaIds, true))] + run.inputs[1..]))
  {
    var first := run.inputs[0];
    var next := [Record(1, first.submittedAt, Input(first.input.content, Some(ref), deltaIds, fits))] + run.inputs[1..];
    assert next[0].input.conforms == fits && forall i :: 0 < i < |next| ==> next[i] == run.inputs[i];
    assert fits ==> InputsValid(next) by {
      assert forall i :: 0 < i < |next| ==> run.inputs[i - 1].submittedAt <= run.inputs[i].submittedAt;
    }
  }

  /** Finishing ignores the clock: it is accepted exactly for an active run, usable texts and a well-formed report. */
  lemma FinishIsAllowedExactly(
    run: Run, output: string, reason: string, diagnostic: string, now: int, provider: Option<Provider>,
    evidence: Option<Evidence>, partial: Option<string>)
    requires Reachable(run)
    ensures Step(run, Complete(output, now, provider, evidence)).Some? <==>
              && run.status.Active? && IsResultText(output)
              && (provider.Some? ==> IsProvider(provider.value)) && (evidence.Some? ==> IsEvidence(evidence.value))
    ensures Step(run, Fail(reason, diagnostic, now, provider, partial)).Some? <==>
              && run.status.Active? && reason in FAILURE_REASONS && IsDiagnostic(diagnostic)
              && (provider.Some? ==> IsProvider(provider.value)) && (partial.Some? ==> IsResultText(partial.value))
    ensures Step(run, Complete(output, now, provider, evidence)).Some? ==>
              Step(run, Complete(output, now, provider, evidence)).value
              == run.(status := Completed, updatedAt := now, result := Some(Result(Some(output), None, now, provider, evidence, None)))
    ensures Step(run, Fail(reason, diagnostic, now, provider, partial)).Some? ==>
              Step(run, Fail(reason, diagnostic, now, provider, partial)).value
              == run.(status := Failed, updatedAt := now,
                      result := Some(Result(partial, Some(diagnostic), now, provider, None, Some(reason))))
  {
    hide IsBoundedText, IsProvider, IsEvidence;
  }

  /** Once terminal at any point of its history, a run stays what it is, result and all. */
  lemma TerminalNeverChanges(run: Run, ts: seq<Transition>, k: nat)
    requires Reachable(run) && k <= |ts| && !After(run, ts[..k]).status.Active?
    ensures After(run, ts) == After(run, ts[..k])
  {
    hide Step, After;
    HistoryGrows(run, ts, k);
  }
}
