// Project Knowledge: Operators add, retire and accept; Sessions only propose.
// No version of a conclusion is ever lost, and no candidate is accepted twice.

module Numerals {
  import opened Options

  function Digit(n: nat): char
    requires n < 10
  {
    ('0' as int + n) as char
  }

  /** Decimal notation, as a template literal prints a positive integer. */
  function Decimal(n: nat): (s: string)
    ensures s != [] && (n < 10 <==> |s| == 1)
  {
    if n < 10 then [Digit(n)] else Decimal(n / 10) + [Digit(n % 10)]
  }

  /** The number a decimal notation stands for; None if it is none. */
  function ValueOf(s: string): Option<nat> {
    if s == [] then Some(0)
    else
      var last := s[|s| - 1];
      var rest := ValueOf(s[..|s| - 1]);
      if '0' <= last <= '9' && rest.Some? then Some(10 * rest.value + (last as int - '0' as int)) else None
  }

  /** A number's notation stands for it and has no needless zero in front. */
  lemma {:induction false} DecimalReadsBack(n: nat)
    ensures ValueOf(Decimal(n)) == Some(n) && (Decimal(n)[0] == '0' ==> n == 0)
  {
    var s := Decimal(n);
    if n < 10 {
      assert s[..0] == [];
    } else {
      DecimalReadsBack(n / 10);
      assert s[..|s| - 1] == Decimal(n / 10);
    }
  }

  lemma DecimalIsInjective(a: nat, b: nat)
    requires Decimal(a) == Decimal(b)
    ensures a == b
  {
    DecimalReadsBack(a);
    DecimalReadsBack(b);
  }
}

module FreshIds {
  import opened Options
  import opened Numerals

  function Id(prefix: string, n: nat): string { prefix + Decimal(n) }

  lemma IdIsInjective(prefix: string, a: nat, b: nat)
    requires Id(prefix, a) == Id(prefix, b)
    ensures a == b
  {
    assert Id(prefix, a)[|prefix|..] == Decimal(a) && Id(prefix, b)[|prefix|..] == Decimal(b);
    DecimalIsInjective(a, b);
  }

  /** An id is its prefix and then its number. */
  lemma IdReadsBack(prefix: string, n: nat)
    ensures prefix <= Id(prefix, n) && ValueOf(Id(prefix, n)[|prefix|..]) == Some(n)
  {
    DecimalReadsBack(n);
    assert Id(prefix, n)[|prefix|..] == Decimal(n);
  }

  ghost predicate AllUsed(prefix: string, used: set<string>, count: nat) {
    forall n :: 1 <= n <= count ==> Id(prefix, n) in used
  }

  /** Pigeonhole: as many consecutive ids as are taken need as many different used names. */
  lemma {:induction false} TakenIdsAreCounted(prefix: string, used: set<string>, count: nat)
    requires AllUsed(prefix, used, count)
    ensures count <= |used|
  {
    if count > 0 {
      var last := Id(prefix, count);
      forall n | 1 <= n < count ensures Id(prefix, n) in used - {last} {
        if Id(prefix, n) == last { IdIsInjective(prefix, n, count); }
      }
      TakenIdsAreCounted(prefix, used - {last}, count - 1);
    }
  }

  /** id is the first of prefix1, prefix2, ... that is not used. */
  ghost predicate IsFirstFree(prefix: string, used: set<string>, id: string) {
    exists n: nat :: n >= 1 && id == Id(prefix, n) && id !in used && AllUsed(prefix, used, n - 1)
  }

  /** The unbounded search loop: it ends within one more step than there are used ids. */
  method NextId(prefix: string, used: set<string>) returns (id: string, ghost steps: nat)
    ensures IsFirstFree(prefix, used, id)
    ensures id == Id(prefix, steps) && 1 <= steps <= |used| + 1
  {
    var index := 1;
    while true
      invariant index >= 1 && AllUsed(prefix, used, index - 1)
      decreases |used| + 1 - index
    {
      TakenIdsAreCounted(prefix, used, index - 1);
      id := Id(prefix, index);
      if id !in used { return id, index; }
      assert AllUsed(prefix, used, index);
      TakenIdsAreCounted(prefix, used, index);
      index := index + 1;
    }
  }
}

module Knowledge {
  import opened Options
  import opened Text
  import opened FreshIds

  datatype EntryStatus = Active | Retired

  datatype Source = Source(task: string, decision: Option<string>, milestone: Option<string>, commit: Option<string>)

  datatype Provenance = Provenance(source: Source, fingerprint: string, proposalId: string)

  datatype Entry = Entry(id: string, title: string, body: string, status: EntryStatus, provenance: Option<Provenance>)

  datatype Decision = Pending | Accepted(knowledgeId: string) | Rejected(reason: string)

  datatype Proposal = Proposal(
    id: string, title: string, body: string, source: Source, supersedes: Option<string>, fingerprint: string,
    decision: Decision)

  datatype Project = Project(knowledge: seq<Entry>, proposals: seq<Proposal>)

  /** A managed Session is an agent; anyone else may decide. */
  datatype Actor = User | Operator | Agent(task: string, role: string)

  /** The fingerprint of a proposal is whatever digest its source, title and body have. */
  datatype Command =
    | Add(title: string, body: string)
    | Retire(entry: string)
    | Propose(title: string, body: string, source: Source, supersedes: Option<string>, fingerprint: string)
    | Accept(proposal: string, update: Option<string>)
    | Reject(proposal: string, reason: string)

  function FindEntry(entries: seq<Entry>, id: string): (r: Option<Entry>)
    ensures match r
      case Some(e) => e in entries && e.id == id
      case None => forall e :: e in entries ==> e.id != id
  {
    if entries == [] then None
    else if entries[0].id == id then Some(entries[0])
    else FindEntry(entries[1..], id)
  }

  function FindProposal(proposals: seq<Proposal>, id: string): (r: Option<Proposal>)
    ensures match r
      case Some(q) => q in proposals && q.id == id
      case None => forall q :: q in proposals ==> q.id != id
  {
    if proposals == [] then None
    else if proposals[0].id == id then Some(proposals[0])
    else FindProposal(proposals[1..], id)
  }

  function EntryIds(p: Project): set<string> { set e | e in p.knowledge :: e.id }

  function ProposalIds(p: Project): set<string> { set q | q in p.proposals :: q.id }

  /** The entries after every one with e's id is replaced by e. */
  function PutEntry(entries: seq<Entry>, e: Entry): (r: seq<Entry>)
    ensures |r| == |entries| && forall i :: 0 <= i < |r| ==> r[i] == if entries[i].id == e.id then e else entries[i]
  {
    if entries == [] then [] else [if entries[0].id == e.id then e else entries[0]] + PutEntry(entries[1..], e)
  }

  function PutProposal(proposals: seq<Proposal>, q: Proposal): (r: seq<Proposal>)
    ensures |r| == |proposals| && forall i :: 0 <= i < |r| ==> r[i] == if proposals[i].id == q.id then q else proposals[i]
  {
    if proposals == [] then [] else [if proposals[0].id == q.id then q else proposals[0]] + PutProposal(proposals[1..], q)
  }

  // ----- Transitions of one Project -----

  function AddEntry(p: Project, id: string, title: string, body: string, provenance: Option<Provenance>): Option<Project> {
    match (RequireIdentity(id), RequireText(title), RequireText(body))
    case (Some(i), Some(t), Some(b)) =>
      if FindEntry(p.knowledge, i).Some? then None
      else Some(p.(knowledge := p.knowledge + [Entry(i, t, b, Active, provenance)]))
    case _ => None
  }

  function RetireEntry(p: Project, id: string): Option<Project> {
    match RequireIdentity(id)
    case None => None
    case Some(i) =>
      match FindEntry(p.knowledge, i)
      case None => None
      case Some(e) => Some(p.(knowledge := PutEntry(p.knowledge, e.(status := EntryStatus.Retired))))
  }

  predicate IsOpen(q: Proposal) { !q.decision.Rejected? }

  /** An open proposal of this candidate exists. */
  predicate HasOpen(p: Project, fingerprint: string) {
    exists q :: q in p.proposals && q.fingerprint == fingerprint && IsOpen(q)
  }

  /** An optional text as the command line takes it; None for an error. */
  function ReadOptional(o: Option<string>): Option<Option<string>> {
    if o.None? then Some(None) else if RequireText(o.value).None? then None else Some(RequireText(o.value))
  }

  predicate IsSource(s: Source) {
    && RequireIdentity(s.task).Some? && (s.decision.Some? ==> RequireIdentity(s.decision.value).Some?)
    && (s.milestone.Some? ==> RequireIdentity(s.milestone.value).Some?) && (s.commit.Some? ==> RequireText(s.commit.value).Some?)
  }

  /** An open candidate is answered before anything but its texts is looked at. */
  function AddProposal(p: Project, id: string, c: Command): Option<Project>
    requires c.Propose?
  {
    match (RequireText(c.title), RequireText(c.body), ReadOptional(c.supersedes))
    case (Some(t), Some(b), Some(target)) =>
      if HasOpen(p, c.fingerprint) then Some(p)
      else if RequireIdentity(id).None? || !IsSource(c.source) || (target.Some? && RequireIdentity(target.value).None?) then None
      else
        var i := RequireIdentity(id).value;
        if FindProposal(p.proposals, i).Some? then None
        else Some(p.(proposals := p.proposals + [Proposal(i, t, b, c.source, target, c.fingerprint, Pending)]))
    case _ => None
  }

  function Decide(p: Project, q: Proposal, decision: Decision): Project {
    p.(proposals := PutProposal(p.proposals, q.(decision := decision)))
  }

  predicate Same(q: Proposal, e: Entry) {
    q.decision == Accepted(e.id) && q.title == e.title && q.body == e.body
  }

  /** The version e holds is kept by the accepted proposal its provenance names. */
  predicate HasVersionHistory(p: Project, e: Entry) {
    && e.provenance.Some?
    && var q := FindProposal(p.proposals, e.provenance.value.proposalId);
       q.Some? && Same(q.value, e)
  }

  function ProvenanceOf(q: Proposal): Provenance { Provenance(q.source, q.fingerprint, q.id) }

  /** accept --update: the target takes the text of the proposal. */
  function AcceptUpdate(p: Project, q: Proposal, target: string): Option<Project> {
    match FindEntry(p.knowledge, target)
    case None => None
    case Some(e) =>
      if !e.status.Active? || !HasVersionHistory(p, e) then None
      else match (RequireText(q.title), RequireText(q.body))
        case (Some(t), Some(b)) =>
          var next := Entry(e.id, t, b, Active, Some(ProvenanceOf(q)));
          Some(Decide(p.(knowledge := PutEntry(p.knowledge, next)), q, Accepted(e.id)))
        case _ => None
  }

  predicate Carries(e: Entry, fingerprint: string) {
    e.status.Active? && e.provenance.Some? && e.provenance.value.fingerprint == fingerprint
  }

  /** The first active entry that already carries the fingerprint. */
  function FindDuplicate(entries: seq<Entry>, fingerprint: string): (r: Option<Entry>)
    ensures match r
      case Some(e) => e in entries && Carries(e, fingerprint)
      case None => forall e :: e in entries ==> !Carries(e, fingerprint)
  {
    if entries == [] then None
    else if Carries(entries[0], fingerprint) then Some(entries[0])
    else FindDuplicate(entries[1..], fingerprint)
  }

  /** Plain accept: a duplicate, a refusal, or a new entry that may supersede another. */
  function AcceptPlanned(p: Project, q: Proposal, unused: string): Option<Project> {
    match FindDuplicate(p.knowledge, q.fingerprint)
    case Some(e) => Some(Decide(p, q, Accepted(e.id)))
    case None =>
      if exists e :: e in p.knowledge && e.status.Active? && e.title == q.title then None
      else
        var retired := if q.supersedes.None? then Some(p) else Supersede(p, q.supersedes.value);
        if retired.None? then None
        else
          var added := AddEntry(retired.value, unused, q.title, q.body, Some(ProvenanceOf(q)));
          if added.None? then None else Some(Decide(added.value, q, Accepted(RequireIdentity(unused).value)))
  }

  function Supersede(p: Project, id: string): Option<Project> {
    match FindEntry(p.knowledge, id)
    case None => None
    case Some(e) => if e.status.Active? then RetireEntry(p, id) else None
  }

  predicate MayPropose(actor: Actor, task: string) {
    actor.Agent? ==> actor.task == task && (actor.role == "leader" || actor.role == "reviewer")
  }

  /** One command on an active Project; unused is the id its search found. None: it throws and saves nothing. */
  function Step(p: Project, actor: Actor, c: Command, unused: string): Option<Project> {
    match c
    case Propose(_, _, source, _, _) => if MayPropose(actor, source.task) then AddProposal(p, unused, c) else None
    case Add(title, body) => if actor.Agent? then None else AddEntry(p, unused, title, body, None)
    case Retire(entry) => if actor.Agent? then None else RetireEntry(p, entry)
    case Accept(proposal, update) =>
      if actor.Agent? then None
      else (match FindProposal(p.proposals, proposal)
        case None => None
        case Some(q) =>
          if !q.decision.Pending? then None
          else if update.Some? then AcceptUpdate(p, q, update.value)
          else AcceptPlanned(p, q, unused))
    case Reject(proposal, reason) =>
      if actor.Agent? then None
      else (match (FindProposal(p.proposals, proposal), RequireText(reason))
        case (Some(q), Some(text)) => if q.decision.Pending? then Some(Decide(p, q, Rejected(text))) else None
        case _ => None)
  }

  // ----- What every Project keeps -----

  predicate UniqueEntries(entries: seq<Entry>) {
    forall i, j :: 0 <= i < |entries| && 0 <= j < |entries| && entries[i].id == entries[j].id ==> i == j
  }

  predicate UniqueProposals(proposals: seq<Proposal>) {
    forall i, j :: 0 <= i < |proposals| && 0 <= j < |proposals| && proposals[i].id == proposals[j].id ==> i == j
  }

  predicate IsText(s: string) { RequireText(s) == Some(s) }

  /** At most one pending or accepted proposal for each fingerprint. */
  predicate OneOpenEach(proposals: seq<Proposal>) {
    forall i, j ::
      && 0 <= i < |proposals| && 0 <= j < |proposals| && IsOpen(proposals[i]) && IsOpen(proposals[j])
      && proposals[i].fingerprint == proposals[j].fingerprint
      ==> i == j
  }

  predicate Backs(q: Proposal, e: Entry) {
    e.provenance.Some? && e.provenance.value == ProvenanceOf(q) && Same(q, e)
  }

  /** Each entry with a provenance holds the text of the accepted proposal it names. */
  ghost predicate Backed(entries: seq<Entry>, proposals: seq<Proposal>) {
    forall e :: e in entries && e.provenance.Some? ==> exists q :: q in proposals && Backs(q, e)
  }

  predicate Sound(proposals: seq<Proposal>) {
    && UniqueProposals(proposals) && OneOpenEach(proposals)
    && forall q :: q in proposals ==> RequireIdentity(q.id) == Some(q.id) && IsText(q.title) && IsText(q.body)
  }

  ghost predicate Valid(p: Project) {
    && UniqueEntries(p.knowledge) && Sound(p.proposals) && Backed(p.knowledge, p.proposals)
    && forall e :: e in p.knowledge ==> RequireIdentity(e.id) == Some(e.id)
  }

  /** This version of the entry is still on record: in the entry, or in an accepted proposal naming it. */
  ghost predicate OnRecord(p: Project, id: string, title: string, body: string) {
    || (exists e :: e in p.knowledge && e.id == id && e.title == title && e.body == body)
    || (exists q :: q in p.proposals && q.decision == Accepted(id) && q.title == title && q.body == body)
  }

  /** Nothing on record in p is lost in q: versions, entries, and decisions. */
  ghost predicate Keeps(p: Project, q: Project) {
    && (forall id, title, body :: OnRecord(p, id, title, body) ==> OnRecord(q, id, title, body))
    && EntryIds(p) <= EntryIds(q)
    && (forall r :: r in p.proposals && !r.decision.Pending? ==> r in q.proposals)
  }

  lemma KeepsIsTransitive(p: Project, q: Project, r: Project)
    requires Keeps(p, q) && Keeps(q, r)
    ensures Keeps(p, r)
  {}

  lemma PutProposalIsUpdate(proposals: seq<Proposal>, i: nat, next: Proposal)
    requires UniqueProposals(proposals) && i < |proposals| && next.id == proposals[i].id
    ensures PutProposal(proposals, next) == proposals[i := next]
    ensures forall j :: 0 <= j < |proposals| && j != i ==> proposals[j].id != proposals[i].id
  {
    forall j | 0 <= j < |proposals| ensures PutProposal(proposals, next)[j] == proposals[i := next][j] {
      if j != i { assert proposals[j].id != proposals[i].id; }
    }
  }

  lemma DecidedIn(p: Project, q: Proposal, decision: Decision)
    requires Sound(p.proposals) && q in p.proposals
    ensures var d := q.(decision := decision); var ps := PutProposal(p.proposals, d);
            && d in ps
            && (forall r :: r in p.proposals && r != q ==> r in ps)
            && (forall r :: r in ps ==> r == d || (r in p.proposals && r.id != q.id))
  {
    hide PutProposal, UniqueProposals, OneOpenEach, RequireText, RequireIdentity;
    var d := q.(decision := decision);
    var i :| 0 <= i < |p.proposals| && p.proposals[i] == q;
    PutProposalIsUpdate(p.proposals, i, d);
    var ps := p.proposals[i := d];
    assert ps[i] == d;
    forall r | r in p.proposals && r != q ensures r in ps {
      var j :| 0 <= j < |ps| && p.proposals[j] == r;
      assert ps[j] == r;
    }
    forall r | r in ps ensures r == d || (r in p.proposals && r.id != q.id) {
      var j :| 0 <= j < |ps| && ps[j] == r;
      if j != i { assert p.proposals[j] == r; }
    }
  }

  /** Deciding a pending proposal loses nothing and leaves the proposals sound. */
  lemma DecideKeeps(p: Project, q: Proposal, decision: Decision)
    requires Sound(p.proposals) && q in p.proposals && q.decision.Pending?
    ensures Keeps(p, Decide(p, q, decision)) && Sound(Decide(p, q, decision).proposals)
  {
    DecidedIn(p, q, decision);
    DecideIsSound(p.proposals, q, decision);
    hide Sound, PutProposal;
    var d := Decide(p, q, decision);
    forall id, title, body | OnRecord(p, id, title, body) ensures OnRecord(d, id, title, body) {
      if r :| r in p.proposals && r.decision == Accepted(id) && r.title == title && r.body == body {
        assert r in d.proposals;
      } else {
        assert d.knowledge == p.knowledge;
      }
    }
  }

  lemma DecideIsSound(proposals: seq<Proposal>, q: Proposal, decision: Decision)
    requires Sound(proposals) && q in proposals && q.decision.Pending?
    ensures Sound(PutProposal(proposals, q.(decision := decision)))
  {
    hide RequireText, RequireIdentity, PutProposal, OneOpenEach;
    var ps := PutProposal(proposals, q.(decision := decision));
    var k :| 0 <= k < |proposals| && proposals[k] == q;
    assert forall i :: 0 <= i < |ps| ==> ps[i] == if i == k then q.(decision := decision) else proposals[i];
    DecideKeepsOpen(proposals, ps, k, decision);
    forall r | r in ps ensures RequireIdentity(r.id) == Some(r.id) && IsText(r.title) && IsText(r.body) {
      var j :| 0 <= j < |ps| && ps[j] == r;
      assert proposals[j] in proposals;
    }
  }

  lemma DecideKeepsOpen(proposals: seq<Proposal>, ps: seq<Proposal>, k: nat, decision: Decision)
    requires OneOpenEach(proposals) && k < |proposals| == |ps| && proposals[k].decision.Pending?
    requires forall i :: 0 <= i < |ps| ==> ps[i] == if i == k then proposals[k].(decision := decision) else proposals[i]
    ensures OneOpenEach(ps)
  {}

  /** Only one proposal answers to an id. */
  lemma ProposalFound(p: Project, q: Proposal)
    requires Valid(p) && q in p.proposals
    ensures FindProposal(p.proposals, q.id) == Some(q)
  {
    var found := FindProposal(p.proposals, q.id);
    var i :| 0 <= i < |p.proposals| && p.proposals[i] == q;
    var j :| 0 <= j < |p.proposals| && p.proposals[j] == found.value;
  }

  lemma EntryFound(p: Project, e: Entry)
    requires Valid(p) && e in p.knowledge
    ensures FindEntry(p.knowledge, e.id) == Some(e)
  {
    var found := FindEntry(p.knowledge, e.id);
    var i :| 0 <= i < |p.knowledge| && p.knowledge[i] == e;
    var j :| 0 <= j < |p.knowledge| && p.knowledge[j] == found.value;
  }

  lemma OpenIsUnique(p: Project, q: Proposal, r: Proposal)
    requires Valid(p) && q in p.proposals && r in p.proposals
    requires IsOpen(q) && IsOpen(r) && q.fingerprint == r.fingerprint
    ensures q == r
  {
    var i :| 0 <= i < |p.proposals| && p.proposals[i] == q;
    var j :| 0 <= j < |p.proposals| && p.proposals[j] == r;
  }

  lemma PutKeepsUnique(entries: seq<Entry>, e: Entry)
    requires UniqueEntries(entries)
    ensures UniqueEntries(PutEntry(entries, e))
  {}

  lemma PutIsUpdate(entries: seq<Entry>, i: nat, next: Entry)
    requires UniqueEntries(entries) && i < |entries| && next.id == entries[i].id
    ensures PutEntry(entries, next) == entries[i := next]
    ensures forall j :: 0 <= j < |entries| && j != i ==> entries[j].id != entries[i].id
  {
    forall j | 0 <= j < |entries| ensures PutEntry(entries, next)[j] == entries[i := next][j] {
      if j != i { assert entries[j].id != entries[i].id; }
    }
  }

  lemma PutIn(p: Project, e: Entry, next: Entry)
    requires UniqueEntries(p.knowledge) && e in p.knowledge && next.id == e.id
    ensures var es := PutEntry(p.knowledge, next);
            && next in es && UniqueEntries(es)
            && (forall x :: x in p.knowledge && x != e ==> x in es)
            && (forall x :: x in es ==> x == next || (x in p.knowledge && x.id != e.id))
  {
    hide PutEntry, UniqueEntries;
    var i :| 0 <= i < |p.knowledge| && p.knowledge[i] == e;
    PutKeepsUnique(p.knowledge, next);
    PutIsUpdate(p.knowledge, i, next);
    var es := p.knowledge[i := next];
    assert es[i] == next;
    forall x | x in p.knowledge && x != e ensures x in es {
      var j :| 0 <= j < |es| && p.knowledge[j] == x;
      assert es[j] == x;
    }
    forall x | x in es ensures x == next || (x in p.knowledge && x.id != e.id) {
      var j :| 0 <= j < |es| && es[j] == x;
      if j != i { assert p.knowledge[j] == x; }
    }
  }

  /** Putting a new version of an entry keeps the record if the old version has a history or its text stays. */
  lemma PutKeeps(p: Project, e: Entry, next: Entry)
    requires UniqueEntries(p.knowledge) && e in p.knowledge && next.id == e.id
    requires (next.title == e.title && next.body == e.body) || HasVersionHistory(p, e)
    ensures Keeps(p, p.(knowledge := PutEntry(p.knowledge, next)))
  {
    PutIn(p, e, next);
    var q := p.(knowledge := PutEntry(p.knowledge, next));
    forall id, title, body | OnRecord(p, id, title, body) ensures OnRecord(q, id, title, body) {
      if x :| x in p.knowledge && x.id == id && x.title == title && x.body == body && x == e {
        if next.title == e.title && next.body == e.body {
          assert next in q.knowledge;
        } else {
          assert FindProposal(q.proposals, e.provenance.value.proposalId).value in q.proposals;
        }
      }
    }
    forall id | id in EntryIds(p) ensures id in EntryIds(q) {
      var x :| x in p.knowledge && x.id == id;
      if x == e { assert next in q.knowledge; } else { assert x in q.knowledge; }
    }
  }

  lemma RetireKeeps(p: Project, id: string)
    requires Valid(p) && RetireEntry(p, id).Some?
    ensures Valid(RetireEntry(p, id).value) && Keeps(p, RetireEntry(p, id).value)
    ensures RetireEntry(p, id).value.proposals == p.proposals && EntryIds(RetireEntry(p, id).value) == EntryIds(p)
  {
    var e := FindEntry(p.knowledge, RequireIdentity(id).value).value;
    var next := e.(status := EntryStatus.Retired);
    PutKeeps(p, e, next);
    PutIn(p, e, next);
  }

  lemma AddKeeps(p: Project, id: string, title: string, body: string, provenance: Option<Provenance>)
    requires UniqueEntries(p.knowledge) && AddEntry(p, id, title, body, provenance).Some?
    ensures var q := AddEntry(p, id, title, body, provenance).value; Keeps(p, q) && UniqueEntries(q.knowledge)
  {
    var q := AddEntry(p, id, title, body, provenance).value;
    forall x | x in p.knowledge ensures x in q.knowledge {}
  }

  lemma ProposeKeeps(p: Project, id: string, c: Command)
    requires Valid(p) && c.Propose? && AddProposal(p, id, c).Some?
    ensures var q := AddProposal(p, id, c).value; Valid(q) && Keeps(p, q) && q.knowledge == p.knowledge
  {
    var q := AddProposal(p, id, c).value;
    forall r | r in p.proposals ensures r in q.proposals {}
    if q != p {
      IdentityIsNormal(id);
      AppendIsSound(p.proposals, q.proposals[|p.proposals|]);
    }
    hide RequireText, RequireIdentity, UniqueProposals, OneOpenEach, UniqueEntries;
  }

  lemma AppendIsSound(proposals: seq<Proposal>, q: Proposal)
    requires Sound(proposals) && RequireIdentity(q.id) == Some(q.id) && IsText(q.title) && IsText(q.body)
    requires forall r :: r in proposals ==> r.id != q.id && !(r.fingerprint == q.fingerprint && IsOpen(r))
    ensures Sound(proposals + [q])
  {
    hide RequireText, RequireIdentity;
  }

  /** The entries' backing survives a decision that also backs the one new version. */
  lemma AcceptBacks(p: Project, entries: seq<Entry>, q: Proposal, next: Entry)
    requires Valid(p) && q in p.proposals && q.decision.Pending?
    requires forall x :: x in entries ==> x == next || (x.provenance.Some? ==> exists y :: y in p.knowledge && y.provenance == x.provenance && y.id == x.id && y.title == x.title && y.body == x.body)
    requires Backs(q.(decision := Accepted(next.id)), next)
    ensures Backed(entries, PutProposal(p.proposals, q.(decision := Accepted(next.id))))
  {
    DecidedIn(p, q, Accepted(next.id));
    var ps := PutProposal(p.proposals, q.(decision := Accepted(next.id)));
    forall x | x in entries && x.provenance.Some? ensures exists r :: r in ps && Backs(r, x) {
      if x == next {
        assert q.(decision := Accepted(next.id)) in ps;
      } else {
        var y :| y in p.knowledge && y.provenance == x.provenance && y.id == x.id && y.title == x.title && y.body == x.body;
        var r :| r in p.proposals && Backs(r, y);
        assert r in ps && Backs(r, x);
      }
    }
  }

  lemma AcceptUpdateKeeps(p: Project, q: Proposal, target: string)
    requires Valid(p) && q in p.proposals && q.decision.Pending? && AcceptUpdate(p, q, target).Some?
    ensures Valid(AcceptUpdate(p, q, target).value) && Keeps(p, AcceptUpdate(p, q, target).value)
  {
    hide RequireIdentity, OneOpenEach, UniqueProposals, UniqueEntries, OnRecord, Keeps, PutProposal, PutEntry;
    var e := FindEntry(p.knowledge, target).value;
    var next := Entry(e.id, q.title, q.body, Active, Some(ProvenanceOf(q)));
    var mid := p.(knowledge := PutEntry(p.knowledge, next));
    PutKeeps(p, e, next);
    PutIn(p, e, next);
    DecideKeeps(mid, q, Accepted(e.id));
    KeepsIsTransitive(p, mid, Decide(mid, q, Accepted(e.id)));
    AcceptBacks(p, mid.knowledge, q, next);
  }

  lemma SupersedeKeeps(p: Project, q: Proposal)
    requires Valid(p)
    ensures var retired := if q.supersedes.None? then Some(p) else Supersede(p, q.supersedes.value);
            retired.Some? ==> Valid(retired.value) && Keeps(p, retired.value) && retired.value.proposals == p.proposals
  {
    if q.supersedes.Some? && Supersede(p, q.supersedes.value).Some? { RetireKeeps(p, q.supersedes.value); }
  }

  lemma AcceptPlannedKeeps(p: Project, q: Proposal, unused: string)
    requires Valid(p) && q in p.proposals && q.decision.Pending? && AcceptPlanned(p, q, unused).Some?
    ensures Valid(AcceptPlanned(p, q, unused).value) && Keeps(p, AcceptPlanned(p, q, unused).value)
  {
    hide OneOpenEach, UniqueProposals, OnRecord, Keeps, PutProposal, PutEntry, RequireText;
    var found := FindDuplicate(p.knowledge, q.fingerprint);
    if found.Some? {
      NoDuplicate(p, q);
    } else {
      SupersedeKeeps(p, q);
      var retired := (if q.supersedes.None? then Some(p) else Supersede(p, q.supersedes.value)).value;
      PromoteKeeps(retired, q, unused);
      KeepsIsTransitive(p, retired, AcceptPlanned(p, q, unused).value);
    }
  }

  lemma IdentityIsNormal(s: string)
    ensures RequireIdentity(s).Some? ==> RequireIdentity(RequireIdentity(s).value) == RequireIdentity(s)
  {}

  lemma PromoteKeeps(p: Project, q: Proposal, unused: string)
    requires Valid(p) && q in p.proposals && q.decision.Pending?
    requires AddEntry(p, unused, q.title, q.body, Some(ProvenanceOf(q))).Some?
    ensures var added := AddEntry(p, unused, q.title, q.body, Some(ProvenanceOf(q))).value;
            var r := Decide(added, q, Accepted(RequireIdentity(unused).value)); Valid(r) && Keeps(p, r)
  {
    hide OneOpenEach, UniqueProposals, OnRecord, Keeps, UniqueEntries, RequireText, PutProposal;
    var provenance := Some(ProvenanceOf(q));
    var added := AddEntry(p, unused, q.title, q.body, provenance).value;
    var id := RequireIdentity(unused).value;
    AddKeeps(p, unused, q.title, q.body, provenance);
    IdentityIsNormal(unused);
    DecideKeeps(added, q, Accepted(id));
    KeepsIsTransitive(p, added, Decide(added, q, Accepted(id)));
    AcceptBacks(p, added.knowledge, q, Entry(id, q.title, q.body, Active, provenance));
  }

  /** The duplicate branch of the acceptance plan is never taken on a Project that these commands built. */
  lemma NoDuplicate(p: Project, q: Proposal)
    requires Valid(p) && q in p.proposals && q.decision.Pending?
    ensures FindDuplicate(p.knowledge, q.fingerprint).None?
  {
    hide OneOpenEach;
    forall e | e in p.knowledge ensures !Carries(e, q.fingerprint) {
      if e.provenance.Some? {
        var r :| r in p.proposals && Backs(r, e);
        if r.fingerprint == q.fingerprint { OpenIsUnique(p, q, r); }
      }
    }
  }

  /** Every command keeps the Project valid and everything on record. */
  lemma StepKeeps(p: Project, actor: Actor, c: Command, unused: string)
    requires Valid(p) && Step(p, actor, c, unused).Some?
    ensures Valid(Step(p, actor, c, unused).value) && Keeps(p, Step(p, actor, c, unused).value)
  {
    hide Keeps, AcceptPlanned, AcceptUpdate, AddProposal, RetireEntry, OneOpenEach, UniqueProposals, OnRecord, PutProposal;
    match c
    case Propose(_, _, _, _, _) => ProposeKeeps(p, unused, c);
    case Add(title, body) => AddKeeps(p, unused, title, body, None);
    case Retire(entry) => RetireKeeps(p, entry);
    case Accept(proposal, update) =>
      var q := FindProposal(p.proposals, proposal).value;
      if update.Some? { AcceptUpdateKeeps(p, q, update.value); } else { AcceptPlannedKeeps(p, q, unused); }
    case Reject(proposal, reason) =>
      var q := FindProposal(p.proposals, proposal).value;
      DecideKeeps(p, q, Rejected(RequireText(reason).value));
      RejectBacks(p, q, Rejected(RequireText(reason).value));
  }

  lemma RejectBacks(p: Project, q: Proposal, decision: Decision)
    requires Valid(p) && q in p.proposals && q.decision.Pending?
    ensures Backed(p.knowledge, Decide(p, q, decision).proposals)
  {
    DecidedIn(p, q, decision);
    var ps := PutProposal(p.proposals, q.(decision := decision));
    forall e | e in p.knowledge && e.provenance.Some? ensures exists r :: r in ps && Backs(r, e) {
      var r :| r in p.proposals && Backs(r, e);
      assert r in ps;
    }
  }

  // ----- Whole histories -----

  datatype Try = Try(actor: Actor, command: Command, unused: string)

  const NEW_PROJECT := Project([], [])

  /** The Project after any sequence of commands; a refused one changes nothing. */
  function After(p: Project, tries: seq<Try>): Project {
    if tries == [] then p
    else
      var before, t := After(p, tries[..|tries| - 1]), tries[|tries| - 1];
      var r := Step(before, t.actor, t.command, t.unused);
      if r.None? then before else r.value
  }

  /** Tries run one after another; a refused one leaves the Project as it is. */
  lemma {:induction false} TriesRunInOrder(p: Project, a: seq<Try>, b: seq<Try>, t: Try)
    ensures After(p, a + b) == After(After(p, a), b)
    ensures var r := Step(p, t.actor, t.command, t.unused); After(p, [t]) == if r.Some? then r.value else p
    decreases |b|
  {
    hide Step;
    assert [t][..0] == [];
    if b == [] {
      assert a + b == a;
    } else {
      assert (a + b)[..|a + b| - 1] == a + b[..|b| - 1];
      TriesRunInOrder(p, a, b[..|b| - 1], t);
    }
  }

  lemma {:induction false} HistoryIsKept(p: Project, tries: seq<Try>, k: nat)
    requires Valid(p) && k <= |tries|
    ensures Valid(After(p, tries)) && Keeps(After(p, tries[..k]), After(p, tries))
  {
    hide Step, Keeps, Valid;
    if k == |tries| {
      assert tries[..k] == tries;
      if tries != [] { HistoryIsKept(p, tries, k - 1); }
      KeepsItself(After(p, tries));
    } else {
      var n := |tries| - 1;
      var t := tries[n];
      HistoryIsKept(p, tries[..n], k);
      assert tries[..n][..k] == tries[..k];
      var before := After(p, tries[..n]);
      if Step(before, t.actor, t.command, t.unused).Some? {
        StepKeeps(before, t.actor, t.command, t.unused);
        KeepsIsTransitive(After(p, tries[..k]), before, After(p, tries));
      }
    }
  }

  lemma KeepsItself(p: Project)
    ensures Keeps(p, p)
  {}

  /**
   * No version is ever lost: every text an entry held after any prefix of a history is, at its end, still held by that
   * entry or by an accepted proposal that names it.
   */
  lemma NoVersionIsLost(tries: seq<Try>, k: nat, e: Entry)
    requires k <= |tries| && e in After(NEW_PROJECT, tries[..k]).knowledge
    ensures OnRecord(After(NEW_PROJECT, tries), e.id, e.title, e.body)
    ensures e.id in EntryIds(After(NEW_PROJECT, tries))
  {
    hide Step, After;
    HistoryIsKept(NEW_PROJECT, tries, k);
  }

  lemma DecisionsAreFinal(tries: seq<Try>, k: nat, q: Proposal)
    requires k <= |tries| && q in After(NEW_PROJECT, tries[..k]).proposals && !q.decision.Pending?
    ensures q in After(NEW_PROJECT, tries).proposals
  {
    hide Step, After;
    HistoryIsKept(NEW_PROJECT, tries, k);
  }

  /** Two open proposals of one candidate never coexist, so each fingerprint is accepted at most once. */
  lemma AcceptedAtMostOnce(tries: seq<Try>, q: Proposal, r: Proposal)
    requires q in After(NEW_PROJECT, tries).proposals && r in After(NEW_PROJECT, tries).proposals
    requires IsOpen(q) && IsOpen(r) && q.fingerprint == r.fingerprint
    ensures q == r
  {
    hide Step, After;
    HistoryIsKept(NEW_PROJECT, tries, |tries|);
    OpenIsUnique(After(NEW_PROJECT, tries), q, r);
  }

  /** accept --update works exactly for a pending proposal and an active entry that came from a proposal. */
  lemma UpdateIsAllowedExactly(p: Project, actor: Actor, proposal: string, target: string, unused: string)
    requires Valid(p)
    ensures Step(p, actor, Accept(proposal, Some(target)), unused).Some? <==>
              && !actor.Agent?
              && (exists q :: q in p.proposals && q.id == proposal && q.decision.Pending?)
              && (exists e :: e in p.knowledge && e.id == target && e.status.Active? && e.provenance.Some?)
  {
    hide RequireIdentity, PutEntry, PutProposal, HasVersionHistory, UniqueProposals, UniqueEntries, OneOpenEach, Backed;
    forall q | q in p.proposals ensures FindProposal(p.proposals, q.id) == Some(q) { ProposalFound(p, q); }
    forall e | e in p.knowledge ensures FindEntry(p.knowledge, e.id) == Some(e) { EntryFound(p, e); }
    forall e | e in p.knowledge ensures HasVersionHistory(p, e) <==> e.provenance.Some? {
      if e.provenance.Some? { BackedHasHistory(p, e); } else { NoHistory(p, e); }
    }
  }

  lemma NoHistory(p: Project, e: Entry)
    requires e.provenance.None?
    ensures !HasVersionHistory(p, e)
  {}

  lemma BackedHasHistory(p: Project, e: Entry)
    requires Valid(p) && e in p.knowledge && e.provenance.Some?
    ensures HasVersionHistory(p, e)
  {
    var q :| q in p.proposals && Backs(q, e);
    ProposalFound(p, q);
  }

  /** The proposals after exactly q was decided. */
  predicate Decides(before: seq<Proposal>, after: seq<Proposal>, q: Proposal, decision: Decision) {
    && |after| == |before|
    && forall i :: 0 <= i < |before| ==> after[i] == if before[i] == q then q.(decision := decision) else before[i]
  }

  lemma DecideDecides(p: Project, q: Proposal, decision: Decision)
    requires Valid(p) && q in p.proposals
    ensures Decides(p.proposals, Decide(p, q, decision).proposals, q, decision)
  {
    var k :| 0 <= k < |p.proposals| && p.proposals[k] == q;
    hide RequireIdentity, RequireText;
    forall i | 0 <= i < |p.proposals| ensures p.proposals[i].id == q.id <==> p.proposals[i] == q {
      assert p.proposals[i].id == p.proposals[k].id ==> i == k;
    }
  }

  /**
   * Plain acceptance works exactly for a pending proposal whose title no active entry has and whose superseded entry, if
   * any, is active. It retires exactly the superseded entry, appends the proposal's own text as an active entry, and
   * accepts exactly this proposal for it.
   */
  lemma PromotionIsExact(p: Project, actor: Actor, q: Proposal, unused: string)
    requires Valid(p) && q in p.proposals
    requires RequireIdentity(unused) == Some(unused) && unused !in EntryIds(p)
    ensures var r := Step(p, actor, Accept(q.id, None), unused);
            && (r.Some? <==>
                 && !actor.Agent? && q.decision.Pending?
                 && (forall e :: e in p.knowledge && e.status.Active? ==> e.title != q.title)
                 && (q.supersedes.Some? ==>
                      exists e :: e in p.knowledge && e.id == q.supersedes.value && e.status.Active?))
            && (r.Some? ==>
                 && |r.value.knowledge| == |p.knowledge| + 1
                 && (forall i :: 0 <= i < |p.knowledge| ==>
                      r.value.knowledge[i] == if q.supersedes == Some(p.knowledge[i].id)
                                              then p.knowledge[i].(status := EntryStatus.Retired) else p.knowledge[i])
                 && r.value.knowledge[|p.knowledge|]
                    == Entry(unused, q.title, q.body, Active, Some(Provenance(q.source, q.fingerprint, q.id)))
                 && Decides(p.proposals, r.value.proposals, q, Accepted(unused)))
  {
    hide AcceptPlanned, Decides, Valid;
    ProposalFound(p, q);
    if q.decision.Pending? {
      PlanWorks(p, q, unused);
      if AcceptPlanned(p, q, unused).Some? { PlanTakesEffect(p, q, unused); }
    }
  }

  lemma PlanWorks(p: Project, q: Proposal, unused: string)
    requires Valid(p) && q in p.proposals && q.decision.Pending?
    requires RequireIdentity(unused) == Some(unused) && unused !in EntryIds(p)
    ensures AcceptPlanned(p, q, unused).Some? <==>
              && (forall e :: e in p.knowledge && e.status.Active? ==> e.title != q.title)
              && (q.supersedes.Some? ==> exists e :: e in p.knowledge && e.id == q.supersedes.value && e.status.Active?)
  {
    NoDuplicate(p, q);
    assert FindEntry(p.knowledge, unused).None?;
    assert IsText(q.title) && IsText(q.body);
    if q.supersedes.Some? {
      SupersededKeepsIds(p, q, unused);
      SupersedeMeans(p, q.supersedes.value);
    }
    hide Valid, RequireIdentity, RequireText, Supersede, Decide;
  }

  lemma PlanTakesEffect(p: Project, q: Proposal, unused: string)
    requires Valid(p) && q in p.proposals && q.decision.Pending? && AcceptPlanned(p, q, unused).Some?
    requires RequireIdentity(unused) == Some(unused)
    ensures var r := AcceptPlanned(p, q, unused).value;
            && |r.knowledge| == |p.knowledge| + 1
            && (forall i :: 0 <= i < |p.knowledge| ==>
                 r.knowledge[i] == if q.supersedes == Some(p.knowledge[i].id)
                                   then p.knowledge[i].(status := EntryStatus.Retired) else p.knowledge[i])
            && r.knowledge[|p.knowledge|] == Entry(unused, q.title, q.body, Active, Some(Provenance(q.source, q.fingerprint, q.id)))
            && Decides(p.proposals, r.proposals, q, Accepted(unused))
  {
    NoDuplicate(p, q);
    assert IsText(q.title) && IsText(q.body);
    if q.supersedes.Some? { SupersedeMeans(p, q.supersedes.value); }
    DecideDecides(p, q, Accepted(unused));
    forall k: seq<Entry> { SameDecision(p, k, q, Accepted(unused)); }
    hide Decide, Decides, Valid, RequireText, RequireIdentity, Supersede;
  }

  /** A decision on the proposals does not depend on the entries. */
  lemma SameDecision(p: Project, knowledge: seq<Entry>, q: Proposal, decision: Decision)
    ensures Decide(p.(knowledge := knowledge), q, decision) == Decide(p, q, decision).(knowledge := knowledge)
  {}

  lemma SupersedeMeans(p: Project, id: string)
    requires Valid(p)
    ensures var r := Supersede(p, id);
            && (r.Some? <==> exists e :: e in p.knowledge && e.id == id && e.status.Active?)
            && (r.Some? ==>
                 && r.value == p.(knowledge := r.value.knowledge) && |r.value.knowledge| == |p.knowledge|
                 && forall i :: 0 <= i < |p.knowledge| ==>
                      r.value.knowledge[i] == if p.knowledge[i].id == id then p.knowledge[i].(status := EntryStatus.Retired)
                                              else p.knowledge[i])
  {
    hide RequireText, Sound, Backed;
    forall e | e in p.knowledge ensures FindEntry(p.knowledge, e.id) == Some(e) { EntryFound(p, e); }
    if Supersede(p, id).Some? {
      var e := FindEntry(p.knowledge, id).value;
      assert RequireIdentity(e.id) == Some(e.id);
      forall i | 0 <= i < |p.knowledge| && p.knowledge[i].id == id ensures p.knowledge[i] == e {
        assert FindEntry(p.knowledge, p.knowledge[i].id) == Some(p.knowledge[i]);
      }
    }
  }

  lemma SupersededKeepsIds(p: Project, q: Proposal, unused: string)
    requires Valid(p) && q.supersedes.Some? && unused !in EntryIds(p)
    ensures var r := Supersede(p, q.supersedes.value);
            r.Some? ==> unused !in EntryIds(r.value) && FindEntry(r.value.knowledge, unused).None?
  {
    if Supersede(p, q.supersedes.value).Some? { RetireKeeps(p, q.supersedes.value); }
  }

  /** The candidate's texts are given. */
  predicate IsReadable(c: Command)
    requires c.Propose?
  {
    && RequireText(c.title).Some? && RequireText(c.body).Some?
    && (c.supersedes.Some? ==> RequireText(c.supersedes.value).Some?)
  }

  /** Its source and the entry it is to supersede, if any, are well named. */
  predicate IsWellNamed(c: Command)
    requires c.Propose?
  {
    IsSource(c.source) && (c.supersedes.Some? ==> RequireIdentity(c.supersedes.value).Some?)
  }

  lemma TrimmedOnce(s: string)
    ensures RequireText(s).Some? ==> RequireIdentity(RequireText(s).value) == RequireIdentity(s)
  {
    var t := RequireText(s);
    if t.Some? { assert Trim(t.value) == t.value; }
  }

  /**
   * Anyone may propose, a Session only for its own Task as leader or reviewer. A readable candidate that is open already
   * is answered and changes nothing; another one is appended as it was proposed exactly when it is well named.
   */
  lemma ProposalsAreDeduplicated(p: Project, actor: Actor, unused: string, c: Command)
    requires c.Propose? && RequireIdentity(unused) == Some(unused) && unused !in ProposalIds(p)
    ensures var r := Step(p, actor, c, unused);
            && (r.Some? <==>
                 && (actor.Agent? ==> actor.task == c.source.task && (actor.role == "leader" || actor.role == "reviewer"))
                 && IsReadable(c) && (HasOpen(p, c.fingerprint) || IsWellNamed(c)))
            && (r.Some? && HasOpen(p, c.fingerprint) ==> r.value == p)
            && (r.Some? && !HasOpen(p, c.fingerprint) ==>
                 r.value == p.(proposals := p.proposals + [Proposal(
                   unused, Trim(c.title), Trim(c.body), c.source,
                   if c.supersedes.Some? then Some(Trim(c.supersedes.value)) else None, c.fingerprint, Pending)]))
  {
    assert FindProposal(p.proposals, unused).None?;
    ReadMeans(c);
    hide RequireText, RequireIdentity, Trim;
  }

  lemma ReadMeans(c: Command)
    requires c.Propose?
    ensures RequireText(c.title).Some? ==> RequireText(c.title) == Some(Trim(c.title))
    ensures RequireText(c.body).Some? ==> RequireText(c.body) == Some(Trim(c.body))
    ensures c.supersedes.Some? && RequireText(c.supersedes.value).Some? ==>
      && RequireText(c.supersedes.value) == Some(Trim(c.supersedes.value))
      && RequireIdentity(Trim(c.supersedes.value)) == RequireIdentity(c.supersedes.value)
  {
    if c.supersedes.Some? { TrimmedOnce(c.supersedes.value); }
    hide Trim, RequireIdentity;
  }

  /** An Operator or user adds an active entry without provenance, with the trimmed texts; a Session adds none. */
  lemma AdditionIsExact(p: Project, actor: Actor, title: string, body: string, unused: string)
    requires RequireIdentity(unused) == Some(unused) && unused !in EntryIds(p)
    ensures var r := Step(p, actor, Add(title, body), unused);
            && (r.Some? <==> !actor.Agent? && RequireText(title).Some? && RequireText(body).Some?)
            && (r.Some? ==>
                 r.value == p.(knowledge := p.knowledge + [Entry(unused, Trim(title), Trim(body), Active, None)]))
  {
    assert FindEntry(p.knowledge, unused).None?;
    hide Trim, RequireIdentity;
  }

  /** The try is one that can reject a pending proposal of this id. */
  predicate Rejects(t: Try, id: string) {
    t.command.Reject? && t.command.proposal == id && !t.actor.Agent? && RequireText(t.command.reason).Some?
  }

  predicate OpenIn(p: Project, id: string, fingerprint: string) {
    exists q :: q in p.proposals && q.id == id && q.fingerprint == fingerprint && IsOpen(q)
  }

  lemma DecidedStaysOpen(p: Project, q: Proposal, x: Proposal, decision: Decision, next: Project)
    requires Valid(p) && q in p.proposals && IsOpen(q) && x in p.proposals
    requires decision.Rejected? ==> x.id != q.id
    requires next.proposals == Decide(p, x, decision).proposals
    ensures OpenIn(next, q.id, q.fingerprint)
  {
    hide PutProposal, UniqueProposals, OneOpenEach, UniqueEntries, RequireText, RequireIdentity, Backed;
    DecidedIn(p, x, decision);
    if x == q { assert q.(decision := decision) in next.proposals; } else { assert q in next.proposals; }
    ProposalFound(p, q);
    ProposalFound(p, x);
  }

  lemma AcceptedStaysOpen(p: Project, q: Proposal, x: Proposal, update: Option<string>, unused: string)
    requires Valid(p) && q in p.proposals && IsOpen(q) && x in p.proposals
    ensures var r := if update.Some? then AcceptUpdate(p, x, update.value) else AcceptPlanned(p, x, unused);
            r.Some? ==> OpenIn(r.value, q.id, q.fingerprint)
  {
    hide PutEntry, PutProposal, RequireText, RequireIdentity, OpenIn, HasVersionHistory, Valid;
    var r := if update.Some? then AcceptUpdate(p, x, update.value) else AcceptPlanned(p, x, unused);
    if r.Some? {
      var k :| r.value.proposals == Decide(p, x, Accepted(k)).proposals;
      DecidedStaysOpen(p, q, x, Accepted(k), r.value);
    }
  }

  lemma OpenStays(p: Project, t: Try, q: Proposal)
    requires Valid(p) && q in p.proposals && IsOpen(q) && !Rejects(t, q.id)
    ensures var r := Step(p, t.actor, t.command, t.unused); r.Some? ==> OpenIn(r.value, q.id, q.fingerprint)
  {
    hide PutEntry, PutProposal, RequireIdentity, AcceptPlanned, AcceptUpdate, Valid;
    var r := Step(p, t.actor, t.command, t.unused);
    if r.Some? {
      match t.command
      case Accept(id, update) =>
        AcceptedStaysOpen(p, q, FindProposal(p.proposals, id).value, update, t.unused);
      case Reject(id, reason) =>
        DecidedStaysOpen(p, q, FindProposal(p.proposals, id).value, Rejected(RequireText(reason).value), r.value);
      case _ => assert q in r.value.proposals;
    }
  }

  lemma {:induction false} OpenThroughout(p: Project, tries: seq<Try>, k: nat, q: Proposal)
    requires Valid(p) && k <= |tries| && q in After(p, tries[..k]).proposals && IsOpen(q)
    requires forall j :: k <= j < |tries| ==> !Rejects(tries[j], q.id)
    ensures OpenIn(After(p, tries), q.id, q.fingerprint)
  {
    hide Step, Valid, Keeps, Rejects, IsOpen;
    if k == |tries| {
      assert tries[..k] == tries;
    } else {
      var n := |tries| - 1;
      assert tries[..n][..k] == tries[..k];
      OpenThroughout(p, tries[..n], k, q);
      HistoryIsKept(p, tries[..n], 0);
      var now :| now in After(p, tries[..n]).proposals && now.id == q.id && now.fingerprint == q.fingerprint && IsOpen(now);
      OpenStays(After(p, tries[..n]), tries[n], now);
    }
  }

  /**
   * Once a candidate was open at any point of a history and its proposal was not rejected since, proposing the candidate
   * again changes nothing.
   */
  lemma ProposingAgainChangesNothing(p: Project, tries: seq<Try>, k: nat, q: Proposal, again: Try)
    requires Valid(p) && k <= |tries| && q in After(p, tries[..k]).proposals && IsOpen(q)
    requires forall j :: k <= j < |tries| ==> !Rejects(tries[j], q.id)
    requires again.command.Propose? && again.command.fingerprint == q.fingerprint
    ensures After(p, tries + [again]) == After(p, tries)
  {
    OpenThroughout(p, tries, k, q);
    assert (tries + [again])[..|tries|] == tries;
    assert HasOpen(After(p, tries), q.fingerprint);
  }

  /** Retiring changes the status of exactly the named entry; it is refused exactly for a Session or an unknown entry. */
  lemma RetirementIsExact(p: Project, actor: Actor, id: string, unused: string)
    requires Valid(p)
    ensures var r := Step(p, actor, Retire(id), unused);
            && (r.Some? <==> !actor.Agent? && RequireIdentity(id).Some? && RequireIdentity(id).value in EntryIds(p))
            && (r.Some? ==>
                 && r.value.proposals == p.proposals && |r.value.knowledge| == |p.knowledge|
                 && forall i :: 0 <= i < |p.knowledge| ==>
                      r.value.knowledge[i] == if p.knowledge[i].id == RequireIdentity(id).value
                                              then p.knowledge[i].(status := EntryStatus.Retired) else p.knowledge[i])
  {
    forall e | e in p.knowledge ensures FindEntry(p.knowledge, e.id) == Some(e) { EntryFound(p, e); }
    hide UniqueEntries, RequireIdentity, Sound, Backed;
  }

  /** Deciding touches exactly the named pending proposal. */
  lemma RejectionIsExact(p: Project, actor: Actor, q: Proposal, reason: string, unused: string)
    requires Valid(p) && q in p.proposals
    ensures var r := Step(p, actor, Reject(q.id, reason), unused);
            && (r.Some? <==> !actor.Agent? && q.decision.Pending? && RequireText(reason).Some?)
            && (r.Some? ==>
                 && r.value.knowledge == p.knowledge && |r.value.proposals| == |p.proposals|
                 && forall i :: 0 <= i < |p.proposals| ==>
                      r.value.proposals[i] == if p.proposals[i].id == q.id
                                              then q.(decision := Rejected(RequireText(reason).value)) else p.proposals[i])
  {
    ProposalFound(p, q);
  }

  /** accept --update gives exactly the target the proposal's text and provenance, and accepts exactly this proposal for it. */
  lemma UpdateTakesEffect(p: Project, actor: Actor, q: Proposal, target: string, unused: string)
    requires Valid(p) && q in p.proposals && Step(p, actor, Accept(q.id, Some(target)), unused).Some?
    ensures var r := Step(p, actor, Accept(q.id, Some(target)), unused).value;
            && |r.knowledge| == |p.knowledge|
            && (forall i :: 0 <= i < |p.knowledge| ==>
                 r.knowledge[i] == if p.knowledge[i].id == target
                                   then Entry(target, q.title, q.body, Active, Some(Provenance(q.source, q.fingerprint, q.id)))
                                   else p.knowledge[i])
            && Decides(p.proposals, r.proposals, q, Accepted(target))
  {
    ProposalFound(p, q);
    assert IsText(q.title) && IsText(q.body);
    DecideDecides(p, q, Accepted(target));
    forall k: seq<Entry> { SameDecision(p, k, q, Accepted(target)); }
    hide Decide, Decides, Valid, RequireText, RequireIdentity, HasVersionHistory;
  }

  /** A managed Session never writes Knowledge and decides nothing; it only adds pending proposals. */
  lemma AgentsOnlyPropose(p: Project, actor: Actor, c: Command, unused: string)
    requires actor.Agent? && Step(p, actor, c, unused).Some?
    ensures var q := Step(p, actor, c, unused).value;
            && q.knowledge == p.knowledge && p.proposals <= q.proposals && |q.proposals| <= |p.proposals| + 1
            && (forall i :: |p.proposals| <= i < |q.proposals| ==>
                 q.proposals[i].decision.Pending? && q.proposals[i].source.task == actor.task)
  {}

  /** The stored Project record and the commands that rewrite it. */
  class KnowledgeStore {
    var project: Project

    constructor ()
      ensures project == NEW_PROJECT
    {
      project := NEW_PROJECT;
    }

    ghost predicate Performs(before: Project, actor: Actor, c: Command, unused: string, ok: bool)
      reads this
    {
      var r := Step(before, actor, c, unused);
      (ok <==> r.Some?) && project == if r.Some? then r.value else before
    }

    method AddKnowledge(actor: Actor, title: string, body: string) returns (ok: bool, ghost unused: string)
      modifies this
      ensures IsFirstFree("knowledge-", EntryIds(old(project)), unused)
      ensures Performs(old(project), actor, Add(title, body), unused, ok)
    {
      var id, _ := NextId("knowledge-", EntryIds(project));
      unused := id;
      if actor.Agent? { return false, unused; }
      var next := AddEntry(project, id, title, body, None);
      if next.None? { return false, unused; }
      project := next.value;
      ok := true;
    }

    method ProposeKnowledge(actor: Actor, c: Command) returns (ok: bool, ghost unused: string)
      requires c.Propose?
      modifies this
      ensures IsFirstFree("proposal-", ProposalIds(old(project)), unused)
      ensures Performs(old(project), actor, c, unused, ok)
    {
      var id, _ := NextId("proposal-", ProposalIds(project));
      unused := id;
      if !MayPropose(actor, c.source.task) { return false, unused; }
      var next := AddProposal(project, id, c);
      if next.None? { return false, unused; }
      project := next.value;
      ok := true;
    }

    /** The --update half of an acceptance, up to the decision. */
    static method Replace(p: Project, q: Proposal, target: string) returns (r: Option<Project>)
      ensures r == AcceptUpdate(p, q, target)
    {
      hide RequireText, RequireIdentity, HasVersionHistory, PutEntry, PutProposal;
      var found := FindEntry(p.knowledge, target);
      if found.None? || !found.value.status.Active? { return None; }
      if !HasVersionHistory(p, found.value) { return None; }
      var title, body := RequireText(q.title), RequireText(q.body);
      if title.None? || body.None? { return None; }
      var entry := found.value.(title := title.value, body := body.value);
      entry := entry.(provenance := Some(ProvenanceOf(q)));
      r := Some(Decide(p.(knowledge := PutEntry(p.knowledge, entry)), q, Accepted(entry.id)));
    }

    /** The planned half: a duplicate, a refusal, or a new entry under the next free id. */
    static method Promote(p: Project, q: Proposal) returns (r: Option<Project>, ghost unused: string)
      requires Valid(p)
      ensures r == AcceptPlanned(p, q, unused)
      ensures r.Some? && |r.value.knowledge| > |p.knowledge| ==> IsFirstFree("knowledge-", EntryIds(p), unused)
    {
      hide RequireText, RequireIdentity, PutEntry, PutProposal, RetireEntry, Valid, Keeps;
      unused := "";
      var duplicate := FindDuplicate(p.knowledge, q.fingerprint);
      if duplicate.Some? { return Some(Decide(p, q, Accepted(duplicate.value.id))), unused; }
      if exists e :: e in p.knowledge && e.status.Active? && e.title == q.title { return None, unused; }
      var next := p;
      if q.supersedes.Some? {
        var retired := Supersede(p, q.supersedes.value);
        if retired.None? { return None, unused; }
        RetireKeeps(p, q.supersedes.value);
        next := retired.value;
      }
      var id, _ := NextId("knowledge-", EntryIds(next));
      unused := id;
      var added := AddEntry(next, id, q.title, q.body, Some(ProvenanceOf(q)));
      if added.None? { return None, unused; }
      r := Some(Decide(added.value, q, Accepted(RequireIdentity(id).value)));
    }

    method AcceptProposal(actor: Actor, proposal: string, update: Option<string>) returns (ok: bool, ghost unused: string)
      requires Valid(project)
      modifies this
      ensures |project.knowledge| > |old(project).knowledge| ==> IsFirstFree("knowledge-", EntryIds(old(project)), unused)
      ensures Performs(old(project), actor, Accept(proposal, update), unused, ok)
    {
      hide AcceptPlanned, AcceptUpdate, Valid;
      unused := "";
      if actor.Agent? { return false, unused; }
      var q := FindProposal(project.proposals, proposal);
      if q.None? || !q.value.decision.Pending? { return false, unused; }
      var next: Option<Project>;
      if update.Some? {
        next := Replace(project, q.value, update.value);
        UpdateAddsNone(project, q.value, update.value);
      } else {
        next, unused := Promote(project, q.value);
      }
      if next.None? { return false, unused; }
      project := next.value;
      ok := true;
    }

    static lemma UpdateAddsNone(p: Project, q: Proposal, target: string)
      ensures AcceptUpdate(p, q, target).Some? ==> |AcceptUpdate(p, q, target).value.knowledge| == |p.knowledge|
    {}
  }
}
