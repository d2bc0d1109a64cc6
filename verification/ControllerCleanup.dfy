// Interactive cleanup: scan, confirm, scan again, act. Only what the user
// confirmed and what is still the same and still cleanable is touched.

module ControllerCleanup {
  import opened Options

  datatype Disposition = Safe | Review | Protected | ReportOnly

  datatype Resource = Resource(id: string, fingerprint: string, disposition: Disposition, processes: nat, rssBytes: nat)

  /** reviewed[i] is the answer for the i-th resource under review; a missing answer is no. */
  datatype Answers = Answers(safe: bool, review: bool, reviewed: seq<bool>, typedCleanup: bool)

  datatype Cleaned = Cleaned(id: string, rssBytes: nat)

  datatype Ending = NothingSelected | Cancelled | Acted

  datatype Report = Report(
    ending: Ending, selected: seq<string>, cleaned: seq<Cleaned>, skipped: seq<string>, failed: seq<string>,
    reclaimed: nat, remaining: nat)

  function OfDisposition(rs: seq<Resource>, d: Disposition): (f: seq<Resource>)
    ensures forall r :: r in f <==> r in rs && r.disposition == d
  {
    if rs == [] then [] else (if rs[0].disposition == d then [rs[0]] else []) + OfDisposition(rs[1..], d)
  }

  function Ids(rs: seq<Resource>): (ids: seq<string>)
    ensures |ids| == |rs| && forall i :: 0 <= i < |ids| ==> ids[i] == rs[i].id
  {
    if rs == [] then [] else Ids(rs[..|rs| - 1]) + [rs[|rs| - 1].id]
  }

  /** How often each id occurs. */
  function IdBag(rs: seq<Resource>): multiset<string> {
    if rs == [] then multiset{} else IdBag(rs[..|rs| - 1]) + multiset{rs[|rs| - 1].id}
  }

  function CleanedBag(cs: seq<Cleaned>): multiset<string> {
    if cs == [] then multiset{} else CleanedBag(cs[..|cs| - 1]) + multiset{cs[|cs| - 1].id}
  }

  lemma IdBagExtends(rs: seq<Resource>, r: Resource)
    ensures IdBag(rs + [r]) == IdBag(rs) + multiset{r.id}
  {
    assert (rs + [r])[..|rs|] == rs;
  }

  lemma CleanedBagExtends(cs: seq<Cleaned>, c: Cleaned)
    ensures CleanedBag(cs + [c]) == CleanedBag(cs) + multiset{c.id}
  {
    assert (cs + [c])[..|cs|] == cs;
  }

  lemma {:induction false} IdsBag(rs: seq<Resource>)
    ensures multiset(Ids(rs)) == IdBag(rs)
  {
    if rs != [] { IdsBag(rs[..|rs| - 1]); }
  }

  function TotalRss(cs: seq<Cleaned>): nat {
    if cs == [] then 0 else TotalRss(cs[..|cs| - 1]) + cs[|cs| - 1].rssBytes
  }

  /** The reclaimed memory is the sum over what was cleaned, and remaining counts what is not protected. */
  lemma {:induction false} TotalsAddUp(a: seq<Cleaned>, b: seq<Cleaned>, c: Cleaned, rs: seq<Resource>, ts: seq<Resource>, r: Resource)
    ensures TotalRss(a + b) == TotalRss(a) + TotalRss(b) && TotalRss([c]) == c.rssBytes
    ensures Unprotected(rs + ts) == Unprotected(rs) + Unprotected(ts)
    ensures Unprotected([r]) == if r.disposition.Protected? then 0 else 1
    decreases |b|, |rs|
  {
    assert [c][..0] == [] && [r][1..] == [];
    if b != [] {
      assert (a + b)[..|a + b| - 1] == a + b[..|b| - 1];
      TotalsAddUp(a, b[..|b| - 1], c, rs, ts, r);
    } else {
      assert a + b == a;
      if rs == [] {
        assert rs + ts == ts;
      } else {
        assert (rs + ts)[0] == rs[0] && (rs + ts)[1..] == rs[1..] + ts;
        TotalsAddUp(a, b, c, rs[1..], ts, r);
      }
    }
  }

  /** The resources of one disposition are reviewed in the order of the scan. */
  lemma {:induction false} ReviewFollowsTheScan(a: seq<Resource>, b: seq<Resource>, r: Resource, d: Disposition)
    ensures OfDisposition(a + b, d) == OfDisposition(a, d) + OfDisposition(b, d)
    ensures OfDisposition([r], d) == if r.disposition == d then [r] else []
    decreases |a|
  {
    assert [r][1..] == [];
    if a == [] {
      assert a + b == b;
    } else {
      assert (a + b)[0] == a[0] && (a + b)[1..] == a[1..] + b;
      ReviewFollowsTheScan(a[1..], b, r, d);
    }
  }

  function Unprotected(rs: seq<Resource>): nat {
    if rs == [] then 0 else (if rs[0].disposition.Protected? then 0 else 1) + Unprotected(rs[1..])
  }

  /** The last resource of that id, as a Map built from the scan holds it. */
  function CurrentById(rs: seq<Resource>, id: string): (r: Option<Resource>)
    ensures r.Some? ==> r.value in rs && r.value.id == id
    ensures r.None? ==> forall x :: x in rs ==> x.id != id
  {
    if rs == [] then None
    else if rs[|rs| - 1].id == id then Some(rs[|rs| - 1])
    else CurrentById(rs[..|rs| - 1], id)
  }

  predicate LastOfItsId(rs: seq<Resource>, c: Resource, i: nat) {
    i < |rs| && rs[i] == c && forall j :: i < j < |rs| ==> rs[j].id != c.id
  }

  /** c is the last resource of its id. */
  ghost predicate IsCurrent(rs: seq<Resource>, c: Resource) {
    exists i :: LastOfItsId(rs, c, i)
  }

  lemma CurrentExtends(rs: seq<Resource>, last: Resource, c: Resource)
    ensures IsCurrent(rs + [last], c) <==> if last.id == c.id then last == c else IsCurrent(rs, c)
  {
    var all := rs + [last];
    if last == c { assert LastOfItsId(all, c, |rs|); }
    if IsCurrent(all, c) {
      var i: nat :| LastOfItsId(all, c, i);
      assert all[|rs|] == last && forall j :: i < j < |rs| ==> rs[j] == all[j];
      assert i < |rs| ==> LastOfItsId(rs, c, i);
    }
    if IsCurrent(rs, c) && last.id != c.id {
      var i: nat :| LastOfItsId(rs, c, i);
      assert LastOfItsId(all, c, i);
    }
  }

  lemma {:induction false} CurrentIsLast(rs: seq<Resource>, id: string, c: Resource)
    ensures CurrentById(rs, id) == Some(c) <==> IsCurrent(rs, c) && c.id == id
  {
    if rs != [] {
      var n := |rs| - 1;
      CurrentIsLast(rs[..n], id, c);
      CurrentExtends(rs[..n], rs[n], c);
      assert rs[..n] + [rs[n]] == rs;
      hide IsCurrent;
    }
  }

  predicate Confirmed(scan: seq<Resource>, a: Answers, r: Resource) {
    || (r.disposition.Safe? && r in scan && a.safe)
    || (r.disposition.Review? && a.review
        && exists i :: 0 <= i < |OfDisposition(scan, Review)| && i < |a.reviewed|
                       && a.reviewed[i] && OfDisposition(scan, Review)[i] == r)
  }

  /** current is the same resource as the confirmed one and may still be cleaned. */
  predicate StillCleanable(confirmed: Resource, current: Resource) {
    && current.id == confirmed.id && current.fingerprint == confirmed.fingerprint
    && (current.disposition.Safe? || (current.disposition.Review? && !confirmed.disposition.Safe?))
  }

  /** What the second scan says about a confirmed resource: Some if it is to be cleaned. */
  function Recheck(second: seq<Resource>, r: Resource): (c: Option<Resource>)
    ensures forall x :: c == Some(x) <==> IsCurrent(second, x) && StillCleanable(r, x)
  {
    assert forall x :: CurrentById(second, r.id) == Some(x) <==> IsCurrent(second, x) && x.id == r.id by {
      forall x ensures CurrentById(second, r.id) == Some(x) <==> IsCurrent(second, x) && x.id == r.id {
        CurrentIsLast(second, r.id, x);
      }
    }
    var current := CurrentById(second, r.id);
    if current.None? || current.value.fingerprint != r.fingerprint
       || (!current.value.disposition.Safe? && !current.value.disposition.Review?)
       || (r.disposition.Safe? && !current.value.disposition.Safe?) then None
    else current
  }

  method Select(scan: seq<Resource>, a: Answers) returns (selected: seq<Resource>)
    ensures forall r :: r in selected <==> Confirmed(scan, a, r)
  {
    var safe, review := OfDisposition(scan, Safe), OfDisposition(scan, Review);
    selected := [];
    if safe != [] && a.safe { selected := safe; }
    if review != [] && a.review {
      for i := 0 to |review|
        invariant forall r :: r in selected <==>
          || (r in safe && a.safe)
          || (exists j :: 0 <= j < i && j < |a.reviewed| && a.reviewed[j] && review[j] == r)
      {
        if i < |a.reviewed| && a.reviewed[i] { selected := selected + [review[i]]; }
      }
    }
  }

  method AnyLive(rs: seq<Resource>) returns (live: bool)
    ensures live <==> exists r :: r in rs && r.processes > 0
  {
    for i := 0 to |rs|
      invariant forall j :: 0 <= j < i ==> rs[j].processes == 0
    {
      if rs[i].processes > 0 {
        assert rs[i] in rs;
        return true;
      }
    }
    live := false;
  }

  /** c is what the second scan holds for a selected resource that may still be cleaned. */
  ghost predicate Allowed(selected: seq<Resource>, second: seq<Resource>, c: Resource) {
    IsCurrent(second, c) && exists r :: r in selected && StillCleanable(r, c)
  }

  /** Splits the confirmed resources into those the second scan allows and those it does not. */
  method Revalidate(selected: seq<Resource>, second: seq<Resource>) returns (ready: seq<Resource>, skipped: seq<string>)
    ensures forall c :: c in ready <==> Allowed(selected, second, c)
    ensures IdBag(selected) == IdBag(ready) + multiset(skipped)
  {
    hide IdBag, Allowed, Recheck;
    ready, skipped := [], [];
    NothingYet();
    for i := 0 to |selected|
      invariant forall c :: c in ready <==> Allowed(selected[..i], second, c)
      invariant IdBag(selected[..i]) == IdBag(ready) + multiset(skipped)
    {
      assert selected[..i + 1] == selected[..i] + [selected[i]];
      IdBagExtends(selected[..i], selected[i]);
      var current := Recheck(second, selected[i]);
      AllowsOneMore(selected[..i], second, selected[i]);
      if current.None? {
        skipped := skipped + [selected[i].id];
      } else {
        IdBagExtends(ready, current.value);
        ready := ready + [current.value];
      }
    }
    assert selected[..|selected|] == selected;
  }

  lemma NothingYet()
    ensures IdBag([]) == multiset{} && CleanedBag([]) == multiset{}
    ensures forall second, c :: !Allowed([], second, c)
  {}

  lemma AllowsOneMore(selected: seq<Resource>, second: seq<Resource>, r: Resource)
    ensures forall c :: Allowed(selected + [r], second, c) <==> Allowed(selected, second, c) || Recheck(second, r) == Some(c)
    ensures Recheck(second, r).Some? ==> Recheck(second, r).value.id == r.id
  {
    hide IsCurrent, Recheck;
    forall c ensures Allowed(selected + [r], second, c) <==> Allowed(selected, second, c) || Recheck(second, r) == Some(c) {
      if Recheck(second, r) == Some(c) { assert r in selected + [r]; }
      if Allowed(selected, second, c) {
        var x :| x in selected && StillCleanable(x, c);
        assert x in selected + [r];
      }
    }
  }

  /** The entry reported for a resource that was cleaned. */
  ghost predicate Reports(ready: seq<Resource>, c: Cleaned) {
    exists r :: r in ready && c == Cleaned(r.id, r.rssBytes)
  }

  /** Cleans each ready resource in turn; works[i] tells whether the i-th clean returns. touched lists what was cleaned. */
  method CleanAll(ready: seq<Resource>, works: seq<bool>)
    returns (cleaned: seq<Cleaned>, failed: seq<string>, ghost touched: seq<Resource>)
    ensures touched == ready
    ensures IdBag(ready) == CleanedBag(cleaned) + multiset(failed)
    ensures forall c :: c in cleaned ==> Reports(ready, c)
    ensures forall i :: 0 <= i < |ready| ==>
      if i < |works| && works[i] then Cleaned(ready[i].id, ready[i].rssBytes) in cleaned else ready[i].id in failed
  {
    hide IdBag, CleanedBag;
    cleaned, failed, touched := [], [], [];
    NothingYet();
    for i := 0 to |ready|
      invariant touched == ready[..i]
      invariant IdBag(ready[..i]) == CleanedBag(cleaned) + multiset(failed)
      invariant forall c :: c in cleaned ==> Reports(ready, c)
      invariant forall j :: 0 <= j < i ==>
        if j < |works| && works[j] then Cleaned(ready[j].id, ready[j].rssBytes) in cleaned else ready[j].id in failed
    {
      assert ready[..i + 1] == ready[..i] + [ready[i]];
      IdBagExtends(ready[..i], ready[i]);
      touched := touched + [ready[i]];
      if i < |works| && works[i] {
        var entry := Cleaned(ready[i].id, ready[i].rssBytes);
        assert ready[i] in ready;
        CleanedBagExtends(cleaned, entry);
        cleaned := cleaned + [entry];
      } else {
        failed := failed + [ready[i].id];
      }
    }
    assert ready[..|ready|] == ready;
  }

  lemma ConfirmedIsCandidate(scan: seq<Resource>, a: Answers, r: Resource)
    requires Confirmed(scan, a, r)
    ensures r in scan && (r.disposition.Safe? || r.disposition.Review?)
  {
    if r.disposition.Review? {
      var i :| 0 <= i < |OfDisposition(scan, Review)| && OfDisposition(scan, Review)[i] == r;
      assert r in OfDisposition(scan, Review);
    }
  }

  /** A resource the cleanup may touch. */
  ghost predicate MayTouch(first: seq<Resource>, second: seq<Resource>, a: Answers, c: Resource) {
    IsCurrent(second, c) && exists r :: r in first && Confirmed(first, a, r) && StillCleanable(r, c)
  }

  lemma AllowedIsConfirmed(
    first: seq<Resource>, second: seq<Resource>, a: Answers, selected: seq<Resource>, c: Resource)
    requires forall r :: r in selected <==> Confirmed(first, a, r)
    ensures Allowed(selected, second, c) <==> MayTouch(first, second, a, c)
  {
    hide Confirmed, IsCurrent;
    if Allowed(selected, second, c) {
      var r :| r in selected && StillCleanable(r, c);
      ConfirmedIsCandidate(first, a, r);
    }
  }

  /**
   * runInteractiveControllerCleanup. Whatever the scans, the answers and the failures: what is touched is exactly what was
   * confirmed, is unchanged in the second scan and may still be cleaned; a live resource is touched only after the typed
   * word; and when the cleanup acts, the selection is accounted for completely.
   */
  method RunCleanup(first: seq<Resource>, second: seq<Resource>, third: seq<Resource>, a: Answers, works: seq<bool>)
    returns (report: Report, ghost touched: seq<Resource>)
    ensures forall c :: c in touched <==> report.ending.Acted? && MayTouch(first, second, a, c)
    ensures touched != [] ==> a.typedCleanup || forall r :: Confirmed(first, a, r) ==> r.processes == 0
    ensures !report.ending.Acted? ==> touched == [] && report.cleaned == [] && report.skipped == [] && report.failed == []
    ensures report.ending.NothingSelected? <==> forall r :: !Confirmed(first, a, r)
    ensures report.ending.Cancelled? <==> !a.typedCleanup && exists r :: Confirmed(first, a, r) && r.processes > 0
    ensures report.ending.Acted? ==>
      multiset(report.selected) == CleanedBag(report.cleaned) + multiset(report.skipped) + multiset(report.failed)
    ensures forall c :: c in report.cleaned ==> Reports(touched, c)
    ensures forall i :: 0 <= i < |touched| ==>
      if i < |works| && works[i] then Cleaned(touched[i].id, touched[i].rssBytes) in report.cleaned
      else touched[i].id in report.failed
    ensures report.reclaimed == TotalRss(report.cleaned)
    ensures report.remaining == Unprotected(if report.ending.Acted? then third else first)
  {
    hide Allowed, MayTouch, Confirmed, StillCleanable, IdBag, CleanedBag, Reports;
    touched := [];
    var selected := Select(first, a);
    if selected == [] {
      return Report(NothingSelected, [], [], [], [], 0, Unprotected(first)), touched;
    }
    assert selected[0] in selected;
    var live := AnyLive(selected);
    if live && !a.typedCleanup {
      return Report(Cancelled, Ids(selected), [], [], [], 0, Unprotected(first)), touched;
    }
    var ready, skipped := Revalidate(selected, second);
    var cleaned, failed;
    cleaned, failed, touched := CleanAll(ready, works);
    report := Report(Acted, Ids(selected), cleaned, skipped, failed, TotalRss(cleaned), Unprotected(third));
    IdsBag(selected);
    forall c ensures c in touched <==> MayTouch(first, second, a, c) { AllowedIsConfirmed(first, second, a, selected, c); }
  }
}
