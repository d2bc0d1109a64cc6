// runUpdate composed with the production startController port: the old
// Controller is never brought back beside a live replacement.

module SingleOwner {
  import opened JsonValues
  import opened Options
  import opened ControllerInventory
  import opened UpdateProtocol
  import opened UpdateTheorems

  /**
   * What the operating system may do across one call to the live Controllers in this update's custody: the one its
   * status named and those it spawned. Processes may die at any time; only a restart and a restore may add one, a
   * restart under the PID it reports, and without an authenticated report anything may be running.
   */
  ghost predicate Confined(ports: Ports, e: Event, before: set<int>, after: set<int>) {
    match e
    case Status(_) =>
      && (SaysNotRunning(e) ==> after == {})
      && (NamedOwner(ports).Some? ==> after <= {NamedOwner(ports).value.0})
    case Stop(pid, stopped) => after <= before && (StopConfirms(stopped, pid) ==> pid !in after)
    case Restart(restarted) => RestartPid(restarted).Some? ==> after <= before + {RestartPid(restarted).value}
    case FencedStop(pid, fenced) => after <= before && (FencedStopConfirms(fenced, pid) ==> pid !in after)
    case Restore(_, _) => exists p :: after <= before + {p}
    case Start(_) => true
    case _ => after <= before
  }

  /** w[i] is the set of live Controllers before call i. */
  ghost predicate World(ports: Ports, t: seq<Event>, w: seq<set<int>>) {
    && |w| == |t| + 1
    && forall i :: 0 <= i < |t| ==> Confined(ports, t[i], w[i], w[i + 1])
  }

  /** The start attempt lost track of the replacement. */
  predicate LostTrack(ports: Ports, called: set<Kind>)
    requires IsReal(ports)
  {
    && KRestart in called
    && match RestartPid(Script(ports).restart)
       case None => true
       case Some(pid) =>
         || (KOwnership in called && !OwnedBy(Ownership(ports), pid))
         || (KFencedStop in called && !FencedStopConfirms(Script(ports).stop, pid))
  }

  predicate AtMostOne(live: set<int>) {
    forall a, b :: a in live && b in live ==> a == b
  }

  ghost predicate Settling(ports: Ports, st: State, live: set<int>)
    requires IsReal(ports)
  {
    && (KRestore in st.called ==> !LostTrack(ports, st.called))
    && (KActivate in st.called ==> AtMostOne(live) || LostTrack(ports, st.called))
  }

  ghost predicate ResultTellsTruth(ports: Ports, r: Result, called: set<Kind>, live: set<int>)
    requires IsReal(ports)
  {
    && (r.Aborted? ==> (r.ownershipUnknown <==> LostTrack(ports, called)))
    && (r.Updated? ==> !LostTrack(ports, called) && RestartPid(Script(ports).restart).Some?
                       && live <= {RestartPid(Script(ports).restart).value})
  }

  ghost predicate Custody(ports: Ports, st: State, live: set<int>)
    requires IsReal(ports)
  {
    match st.phase
    case Captured(pid, _) => live <= {pid}
    case Quiesced => live == {}
    case Activated => live == {}
    case Prepared => live == {}
    case Verified => live == {}
    case Restarted(pid) => live <= {pid} && KRestart in st.called
    case Reading(pid, _) => live <= {pid} && KRestart in st.called
    case Doubted(pid) => live <= {pid} && KRestart in st.called
    case Condemned(pid) =>
      live <= {pid} && KRestart in st.called && KOwnership in st.called && OwnedBy(Ownership(ports), pid)
    case Restoring(f) => live == {} && !LostTrack(ports, st.called) && f.Aborted? && !f.ownershipUnknown
    case Settled(r) => Settling(ports, st, live) && ResultTellsTruth(ports, r, st.called, live)
    case Ended(o) =>
      Settling(ports, st, live) && (o.Finished? ==> ResultTellsTruth(ports, o.result, st.called, live))
    case Escaping => Settling(ports, st, live)
    case _ => true
  }

  predicate Closing(p: Phase) { p.Restoring? || p.Settled? || p.Escaping? || p.Ended? }

  predicate Checking(p: Phase) { p.Begin? || p.HasStage? || p.Unfenced? || p.Fenced? || p.Captured? }

  lemma WhilePreparing(ports: Ports, st: State, e: Event, n: State, before: set<int>, after: set<int>)
    requires IsReal(ports) && Ordered(st) && Custody(ports, st, before) && Confined(ports, e, before, after)
    requires Step(ports, st, e) == Some(n) && (st.phase.Begin? || st.phase.HasStage? || st.phase.Unfenced?)
    ensures Custody(ports, n, after)
  {
    hide RestartPid, OwnedBy, FencedStopConfirms, Ownership, SaysNotRunning, StopConfirms, NamedOwner;
    NothingStarted(st);
  }

  lemma WhileStopping(ports: Ports, st: State, e: Event, n: State, before: set<int>, after: set<int>)
    requires IsReal(ports) && Ordered(st) && AtPhase(ports, st)
    requires Custody(ports, st, before) && Confined(ports, e, before, after)
    requires Step(ports, st, e) == Some(n) && (st.phase.Fenced? || st.phase.Captured?)
    ensures Custody(ports, n, after)
  {
    hide RestartPid, OwnedBy, FencedStopConfirms, Ownership;
    NothingStarted(st);
  }

  lemma NothingStarted(st: State)
    requires Ordered(st) && Checking(st.phase)
    ensures KRestart !in st.called && KActivate !in st.called && KRestore !in st.called
  {
    assert Rank(KRestart) == 8 && Rank(KActivate) == 5 && Rank(KRestore) == 13;
  }

  lemma BeforeStart(ports: Ports, st: State, e: Event, n: State, before: set<int>, after: set<int>)
    requires IsReal(ports) && Inv(ports, st) && Custody(ports, st, before) && Confined(ports, e, before, after)
    requires Step(ports, st, e) == Some(n) && (st.phase.Quiesced? || st.phase.Activated? || st.phase.Prepared?)
    ensures Custody(ports, n, after)
  {}

  lemma RestoringCustody(ports: Ports, st: State, e: Event, n: State, before: set<int>, after: set<int>)
    requires IsReal(ports) && Custody(ports, st, before) && Confined(ports, e, before, after)
    requires Step(ports, st, e) == Some(n) && st.phase.Restoring?
    ensures Custody(ports, n, after)
  {
    hide RestartPid, OwnedBy, FencedStopConfirms, Ownership;
  }

  lemma ClosingCustody(ports: Ports, st: State, e: Event, n: State, before: set<int>, after: set<int>)
    requires IsReal(ports) && Custody(ports, st, before) && Confined(ports, e, before, after)
    requires Step(ports, st, e) == Some(n) && Closing(st.phase) && !st.phase.Restoring?
    ensures Custody(ports, n, after)
  {
    hide RestartPid, OwnedBy, FencedStopConfirms, Ownership;
  }

  /** The calls a start has not made yet, by the protocol order. */
  lemma NotYet(st: State)
    requires Ordered(st) && Starting(st.phase)
    ensures !st.phase.Condemned? ==> KOwnership !in st.called
    ensures KFencedStop !in st.called && KRestore !in st.called
  {
    assert Rank(KOwnership) == 11 && Rank(KFencedStop) == 12 && Rank(KRestore) == 13;
  }

  /** A start call whose outcome is known ends with nothing alive unless it started the replacement. */
  ghost predicate OutcomeCustody(ports: Ports, o: StartOutcome, called: set<Kind>, live: set<int>)
    requires IsReal(ports)
  {
    match o
    case Started => !LostTrack(ports, called) && RestartPid(Script(ports).restart).Some?
                    && live <= {RestartPid(Script(ports).restart).value}
    case UnknownActive => LostTrack(ports, called)
    case StartFailed => !LostTrack(ports, called) && live == {}
  }

  lemma OutcomeEnds(ports: Ports, st: State, o: StartOutcome, k: Kind, live: set<int>)
    requires IsReal(ports) && KRestore !in st.called && k != KRestore
    requires OutcomeCustody(ports, o, st.called + {k}, live)
    ensures Custody(ports, st.(phase := AfterStart(st, o), called := st.called + {k}), live)
  {}

  lemma LaunchCustody(ports: Ports, st: State, e: Event, p: Phase, before: set<int>, after: set<int>)
    requires IsReal(ports) && st.phase.Verified? && before == {}
    requires StartStep(ports, st, e) == Some(p) && Confined(ports, e, before, after)
    ensures KindOf(e) == KRestart
    ensures || (p == AfterStart(st, UnknownActive) && OutcomeCustody(ports, UnknownActive, st.called + {KRestart}, after))
            || (p.Restarted? && after <= {p.pid})
  {}

  lemma ReadingCustody(ports: Ports, st: State, e: Event, p: Phase, before: set<int>, after: set<int>)
    requires IsReal(ports) && (st.phase.Restarted? || st.phase.Reading?) && before <= {st.phase.pid}
    requires SpawnedAs(ports, st.phase.pid) && KOwnership !in st.called && KFencedStop !in st.called
    requires StartStep(ports, st, e) == Some(p) && Confined(ports, e, before, after)
    ensures KindOf(e) == KIdentity || KindOf(e) == KReadiness
    ensures || (p == AfterStart(st, Started) && OutcomeCustody(ports, Started, st.called + {KindOf(e)}, after))
            || ((p.Reading? || p.Doubted?) && p.pid == st.phase.pid && after <= {p.pid})
  {}

  lemma BlockCustody(ports: Ports, st: State, e: Event, p: Phase, before: set<int>, after: set<int>)
    requires IsReal(ports) && (st.phase.Doubted? || st.phase.Condemned?) && before <= {st.phase.pid}
    requires SpawnedAs(ports, st.phase.pid) && KFencedStop !in st.called
    requires st.phase.Condemned? ==> KOwnership in st.called && OwnedBy(Ownership(ports), st.phase.pid)
    requires KRestart in st.called
    requires StartStep(ports, st, e) == Some(p) && Confined(ports, e, before, after)
    ensures KindOf(e) == KOwnership || KindOf(e) == KFencedStop
    ensures || (p == Condemned(st.phase.pid) && KindOf(e) == KOwnership && OwnedBy(Ownership(ports), p.pid) && after <= {p.pid})
            || exists o :: p == AfterStart(st, o) && OutcomeCustody(ports, o, st.called + {KindOf(e)}, after)
  {}

  lemma DuringStart(ports: Ports, st: State, e: Event, n: State, before: set<int>, after: set<int>)
    requires IsReal(ports) && Starting(st.phase) && AtPhase(ports, st) && Ordered(st)
    requires Custody(ports, st, before) && Confined(ports, e, before, after) && Step(ports, st, e) == Some(n)
    ensures Custody(ports, n, after)
  {
    hide Step, StartStep, Confined, OutcomeCustody, LostTrack;
    StartAdvance(ports, st, e, n);
    NotYet(st);
    var k := KindOf(e);
    if st.phase.Verified? {
      LaunchCustody(ports, st, e, n.phase, before, after);
      if !n.phase.Restarted? { OutcomeEnds(ports, st, UnknownActive, k, after); }
    } else if st.phase.Doubted? || st.phase.Condemned? {
      BlockCustody(ports, st, e, n.phase, before, after);
      if !n.phase.Condemned? {
        var o :| n.phase == AfterStart(st, o) && OutcomeCustody(ports, o, st.called + {k}, after);
        OutcomeEnds(ports, st, o, k, after);
      }
    } else {
      ReadingCustody(ports, st, e, n.phase, before, after);
      if !n.phase.Reading? && !n.phase.Doubted? { OutcomeEnds(ports, st, Started, k, after); }
    }
  }

  // ----- Whole runs -----

  lemma {:induction false} CustodyHolds(ports: Ports, t: seq<Event>, w: seq<set<int>>)
    requires IsReal(ports) && Run(ports, t).Some? && World(ports, t, w)
    ensures Custody(ports, Run(ports, t).value, w[|t|])
  {
    hide Step, Confined, Custody, Inv;
    if t == [] {
      assert Custody(ports, INITIAL, w[0]) by { NoCustodyYet(ports, w[0]); }
    } else {
      var k := |t| - 1;
      var st, n := Run(ports, t[..k]).value, Run(ports, t).value;
      assert World(ports, t[..k], w[..k + 1]);
      CustodyHolds(ports, t[..k], w[..k + 1]);
      Reachable(ports, t[..k]);
      assert Confined(ports, t[k], w[k], w[k + 1]);
      if Starting(st.phase) {
        InvParts(ports, st);
        DuringStart(ports, st, t[k], n, w[k], w[k + 1]);
      } else if Closing(st.phase) {
        if st.phase.Restoring? { RestoringCustody(ports, st, t[k], n, w[k], w[k + 1]); }
        else { ClosingCustody(ports, st, t[k], n, w[k], w[k + 1]); }
      } else if Checking(st.phase) {
        InvParts(ports, st);
        if st.phase.Fenced? || st.phase.Captured? { WhileStopping(ports, st, t[k], n, w[k], w[k + 1]); }
        else { WhilePreparing(ports, st, t[k], n, w[k], w[k + 1]); }
      } else {
        BeforeStart(ports, st, t[k], n, w[k], w[k + 1]);
      }
    }
  }

  lemma NoCustodyYet(ports: Ports, live: set<int>)
    requires IsReal(ports)
    ensures Custody(ports, INITIAL, live)
  {}

  lemma InvParts(ports: Ports, st: State)
    requires Inv(ports, st)
    ensures AtPhase(ports, st) && Ordered(st)
  {}

  lemma RestoringIsEmpty(ports: Ports, st: State, live: set<int>)
    requires IsReal(ports) && Custody(ports, st, live) && st.phase.Restoring?
    ensures live == {}
  {}

  /** When the old Controller is restored, nothing this update has in custody is alive; at most one is afterwards. */
  lemma RestoreFindsNothingAlive(ports: Ports, t: seq<Event>, w: seq<set<int>>, i: nat)
    requires IsReal(ports) && Run(ports, t).Some? && World(ports, t, w)
    requires i < |t| && t[i].Restore?
    ensures w[i] == {} && AtMostOne(w[i + 1])
  {
    hide Step, Run, Custody;
    var st := StateBefore(ports, t, i);
    assert World(ports, t[..i], w[..i + 1]);
    CustodyHolds(ports, t[..i], w[..i + 1]);
    CallerState(ports, st, t[i]);
    RestoringIsEmpty(ports, st, w[i]);
    assert Confined(ports, t[i], w[i], w[i + 1]);
  }

  lemma Verdict(ports: Ports, st: State, live: set<int>)
    requires IsReal(ports) && Custody(ports, st, live) && Ordered(st)
    ensures KActivate in st.called ==> AtMostOne(live) || LostTrack(ports, st.called)
    ensures KRestore in st.called ==> !LostTrack(ports, st.called)
    ensures st.phase.Ended? && st.phase.outcome.Finished? ==>
              ResultTellsTruth(ports, st.phase.outcome.result, st.called, live)
  {
    hide LostTrack, ResultTellsTruth;
    assert Rank(KActivate) == 5 && Rank(KRestore) == 13;
  }

  /** From activation on, at most one Controller is ever alive unless the start lost track; then none is restored. */
  lemma OneControllerAtATime(ports: Ports, t: seq<Event>, w: seq<set<int>>)
    requires IsReal(ports) && Run(ports, t).Some? && World(ports, t, w) && Calls(t, KActivate)
    ensures AtMostOne(w[|t|]) || (LostTrack(ports, Run(ports, t).value.called) && !Calls(t, KRestore))
  {
    hide Step, Run, Custody, Inv;
    Reachable(ports, t);
    CustodyHolds(ports, t, w);
    InvParts(ports, Run(ports, t).value);
    Verdict(ports, Run(ports, t).value, w[|t|]);
  }

  /**
   * The final verdict is the truth about custody: an aborted update reports unknown ownership exactly when its start
   * lost track, and an updated one leaves at most the replacement it authenticated.
   */
  lemma OutcomeTellsOwnership(ports: Ports, t: seq<Event>, w: seq<set<int>>, r: Result, warned: bool)
    requires IsReal(ports) && Accepts(ports, t, Finished(r, warned)) && World(ports, t, w)
    ensures r.Aborted? ==> (r.ownershipUnknown <==> LostTrack(ports, Run(ports, t).value.called))
    ensures r.Updated? ==> RestartPid(Script(ports).restart).Some?
                           && w[|t|] <= {RestartPid(Script(ports).restart).value}
  {
    hide Step, Run, Custody, Inv, Honest, Complete;
    Reachable(ports, t);
    CustodyHolds(ports, t, w);
    InvParts(ports, Run(ports, t).value);
    Verdict(ports, Run(ports, t).value, w[|t|]);
  }
}
