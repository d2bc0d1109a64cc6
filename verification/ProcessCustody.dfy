// The process owner: a subreaper that must outlive every descendant of the
// process it started, on a kernel where any descendant may fork, exit, collect
// its own children or be adopted at any moment.

module ProcessForest {
  type Pid = int

  datatype Status = Exited(code: int) | Signalled(number: int) | Unclassified

  datatype Life = Alive | Zombie(status: Status)

  /**
   * A process below the owner. Its generation counts forks from the owner; its serial tells two successive holders of
   * one PID apart.
   */
  datatype Proc = Proc(serial: nat, parent: Pid, generation: nat, life: Life, subreaper: bool)

  datatype World = World(owner: Pid, procs: map<Pid, Proc>, births: nat)

  /** One kernel step that the owner does not control. */
  datatype Move =
    | Fork(parent: Pid, child: Pid)
    | Exit(pid: Pid, status: Status)
    | Collect(child: Pid)
    | SetSubreaper(pid: Pid, on: bool)

  predicate IsAlive(w: World, p: Pid) { p in w.procs && w.procs[p].life.Alive? }

  predicate OwnChild(w: World, c: Pid) { c in w.procs && w.procs[c].parent == w.owner }

  predicate OwnZombie(w: World, c: Pid) { OwnChild(w, c) && w.procs[c].life.Zombie? }

  /** c hangs under the owner or under a live process of an earlier generation. */
  predicate Linked(w: World, c: Pid)
    requires c in w.procs
  {
    var parent := w.procs[c].parent;
    && c > 0 && w.procs[c].generation > 0 && w.procs[c].serial < w.births
    && (parent == w.owner || (IsAlive(w, parent) && w.procs[parent].generation < w.procs[c].generation))
  }

  ghost predicate Rooted(w: World) {
    && w.owner !in w.procs
    && (forall c {:trigger Linked(w, c)} :: c in w.procs ==> Linked(w, c))
    && (forall a, b :: a in w.procs && b in w.procs && w.procs[a].serial == w.procs[b].serial ==> a == b)
  }

  /** Who adopts the children of p: the nearest live subreaper above it, at the latest the owner. */
  function Heir(w: World, p: Pid): (h: Pid)
    requires Rooted(w) && p in w.procs
    ensures h == w.owner || (IsAlive(w, h) && w.procs[h].subreaper && w.procs[h].generation < w.procs[p].generation)
    decreases w.procs[p].generation
  {
    assert Linked(w, p);
    var parent := w.procs[p].parent;
    if parent == w.owner || w.procs[parent].subreaper then parent else Heir(w, parent)
  }

  /** The processes above p, from its parent up to the owner's child. */
  ghost function Above(w: World, p: Pid): (up: seq<Pid>)
    requires Rooted(w) && p in w.procs
    ensures forall a :: a in up ==> IsAlive(w, a)
    decreases w.procs[p].generation
  {
    assert Linked(w, p);
    var parent := w.procs[p].parent;
    if parent == w.owner then [] else [parent] + Above(w, parent)
  }

  predicate IsSubreaper(w: World, a: Pid) { a in w.procs && w.procs[a].subreaper }

  predicate IsFirstSubreaper(w: World, up: seq<Pid>, h: Pid, i: nat) {
    i < |up| && up[i] == h && IsSubreaper(w, h) && forall j :: 0 <= j < i ==> !IsSubreaper(w, up[j])
  }

  /** The heir is the first subreaper above p, or the owner when there is none. */
  lemma {:induction false} HeirIsNearest(w: World, p: Pid) returns (i: nat)
    requires Rooted(w) && p in w.procs
    ensures var up := Above(w, p);
            if i < |up| then IsFirstSubreaper(w, up, Heir(w, p), i)
            else Heir(w, p) == w.owner && forall a :: a in up ==> !IsSubreaper(w, a)
    decreases w.procs[p].generation
  {
    assert Linked(w, p);
    var parent := w.procs[p].parent;
    i := 0;
    if parent != w.owner && !w.procs[parent].subreaper {
      i := HeirIsNearest(w, parent);
      var up, rest := Above(w, p), Above(w, parent);
      assert up == [parent] + rest;
      assert forall j :: 0 < j < |up| ==> up[j] == rest[j - 1];
      i := i + 1;
    }
  }

  predicate Enabled(w: World, m: Move) {
    match m
    case Fork(p, c) => IsAlive(w, p) && c !in w.procs && c != w.owner && c > 0
    case Exit(p, _) => IsAlive(w, p)
    case Collect(c) => c in w.procs && w.procs[c].life.Zombie? && w.procs[c].parent != w.owner
    case SetSubreaper(p, _) => IsAlive(w, p)
  }

  /** The world after one kernel step; a step that is not enabled does nothing. */
  function Apply(w: World, m: Move): World
    requires Rooted(w)
  {
    if !Enabled(w, m) then w
    else match m
      case Fork(p, c) =>
        World(w.owner, w.procs[c := Proc(w.births, p, w.procs[p].generation + 1, Alive, false)], w.births + 1)
      case Exit(p, status) =>
        w.(procs := map q | q in w.procs ::
          if q == p then w.procs[q].(life := Zombie(status))
          else if w.procs[q].parent == p then w.procs[q].(parent := Heir(w, p))
          else w.procs[q])
      case Collect(c) => w.(procs := w.procs - {c})
      case SetSubreaper(p, on) => w.(procs := w.procs[p := w.procs[p].(subreaper := on)])
  }

  /** The owner's waitpid takes one of its own zombies away. */
  function Reap(w: World, c: Pid): World
    requires OwnZombie(w, c)
  {
    w.(procs := w.procs - {c})
  }

  lemma MoveKeepsRooted(w: World, m: Move)
    requires Rooted(w)
    ensures Rooted(Apply(w, m)) && Apply(w, m).owner == w.owner && Apply(w, m).births >= w.births
  {
    var v := Apply(w, m);
    forall c | c in v.procs ensures Linked(v, c) {
      if c in w.procs { assert Linked(w, c); }
      if m.Fork? && Enabled(w, m) { assert Linked(w, m.parent); }
    }
    if m.Fork? && Enabled(w, m) {
      forall c | c in w.procs ensures w.procs[c].serial < w.births { assert Linked(w, c); }
    }
  }

  lemma ReapKeepsRooted(w: World, c: Pid)
    requires Rooted(w) && OwnZombie(w, c)
    ensures Rooted(Reap(w, c))
  {
    forall q | q in Reap(w, c).procs ensures Linked(Reap(w, c), q) { assert Linked(w, q); }
  }

  /** The owner's child above p on its chain of parents. */
  ghost function TopAncestor(w: World, p: Pid): (c: Pid)
    requires Rooted(w) && p in w.procs
    ensures OwnChild(w, c)
    decreases w.procs[p].generation
  {
    assert Linked(w, p);
    if w.procs[p].parent == w.owner then p else TopAncestor(w, w.procs[p].parent)
  }

  /** ECHILD is proof: an owner without children has no descendant left, alive or zombie. */
  lemma NoChildNoDescendant(w: World)
    requires Rooted(w) && (forall c :: !OwnChild(w, c))
    ensures w.procs == map[]
  {
    forall p ensures p !in w.procs {
      if p in w.procs { var _ := TopAncestor(w, p); }
    }
  }

  /** Only the owner's own waitpid takes a child away from it: its PID cannot be reused before that. */
  ghost predicate Kept(w: World, v: World) {
    forall c :: OwnChild(w, c) ==>
      OwnChild(v, c) && v.procs[c].serial == w.procs[c].serial
      && (w.procs[c].life.Zombie? ==> v.procs[c].life == w.procs[c].life)
  }

  function Run(w: World, ms: seq<Move>): (v: World)
    requires Rooted(w)
    ensures Rooted(v) && v.owner == w.owner && v.births >= w.births
    decreases |ms|
  {
    if ms == [] then w else (MoveKeepsRooted(w, ms[0]); Run(Apply(w, ms[0]), ms[1..]))
  }

  lemma {:induction false} ChildrenStay(w: World, ms: seq<Move>)
    requires Rooted(w)
    ensures Kept(w, Run(w, ms))
    decreases |ms|
  {
    if ms != [] {
      MoveKeepsRooted(w, ms[0]);
      ChildrenStay(Apply(w, ms[0]), ms[1..]);
    }
  }

  lemma RunNothing(w: World)
    requires Rooted(w)
    ensures Run(w, []) == w
  {}

  lemma {:induction false} RunSplits(w: World, a: seq<Move>, b: seq<Move>)
    requires Rooted(w)
    ensures Run(w, a + b) == Run(Run(w, a), b)
    decreases |a|
  {
    if a == [] {
      assert a + b == b;
    } else {
      MoveKeepsRooted(w, a[0]);
      assert (a + b)[0] == a[0] && (a + b)[1..] == a[1..] + b;
      RunSplits(Apply(w, a[0]), a[1..], b);
    }
  }
}

/** The single-threaded owner loop of the process owner, and the kernel it talks to. */
module ProcessOwner {
  import opened Options
  import opened ProcessForest

  datatype Signal = Term | Kill

  /** listed is the serial read from the children file; hit is that of the own child holding the PID at the kill. */
  datatype Sent = Sent(pid: Pid, signal: Signal, at: int, listed: nat, hit: Option<nat>)

  datatype Reaped = Reaped(pid: Pid, serial: nat, status: Status)

  datatype WaitAnswer = Child(pid: Pid, status: Status) | NoneYet | Interrupted | NoChild | WaitFailed | StillBlocked

  /** The PIDs signalled from position n of the record on. */
  ghost function HitSince(sent: seq<Sent>, n: nat): set<Pid> {
    if |sent| <= n then {} else HitSince(sent[..|sent| - 1], n) + {sent[|sent| - 1].pid}
  }

  function Holder(w: World, p: Pid): Option<nat> {
    if OwnChild(w, p) then Some(w.procs[p].serial) else None
  }

  /** One signal round: the listing, None when it could not be read, and the PIDs that got the signal. */
  datatype Shot = Shot(signal: Signal, listed: Option<set<Pid>>, hit: set<Pid>)

  /**
   * One loop turn: kernel steps up to the listing, the signal round when draining, kernel steps up to the waitpid, the
   * child it took, and the steps until the next turn.
   */
  datatype Turn = Turn(before: seq<Move>, shot: Option<Shot>, early: seq<Move>, taken: Option<Pid>, late: seq<Move>)

  function AtListing(w: World, t: Turn): World
    requires Rooted(w)
  {
    Run(w, t.before)
  }

  function AtWait(w: World, t: Turn): (v: World)
    requires Rooted(w)
    ensures Rooted(v)
  {
    Run(AtListing(w, t), t.early)
  }

  function AfterWait(w: World, taken: Option<Pid>): (v: World)
    requires Rooted(w)
    ensures Rooted(v)
  {
    if taken.Some? && OwnZombie(w, taken.value) then (ReapKeepsRooted(w, taken.value); Reap(w, taken.value)) else w
  }

  function AfterTurn(w: World, t: Turn): (v: World)
    requires Rooted(w)
    ensures Rooted(v)
  {
    Run(AfterWait(AtWait(w, t), t.taken), t.late)
  }

  function Replay(w: World, ts: seq<Turn>): (v: World)
    requires Rooted(w)
    ensures Rooted(v)
  {
    if ts == [] then w else AfterTurn(Replay(w, ts[..|ts| - 1]), ts[|ts| - 1])
  }

  /** The reaps that bore this PID, in order. */
  function Under(reaped: seq<Reaped>, pid: Pid): seq<Reaped> {
    if reaped == [] then []
    else
      var r := reaped[|reaped| - 1];
      Under(reaped[..|reaped| - 1], pid) + if r.pid == pid then [r] else []
  }

  function ExitCode(status: Status): int {
    match status
    case Exited(code) => code
    case Signalled(number) => 128 + number
    case Unclassified => 125
  }

  /** Position i holds the last reap that bore this PID. */
  predicate LastReap(reaped: seq<Reaped>, pid: Pid, i: int) {
    0 <= i < |reaped| && reaped[i].pid == pid && forall j :: i < j < |reaped| ==> reaped[j].pid != pid
  }

  lemma {:induction false} UnderEndsWithLast(reaped: seq<Reaped>, pid: Pid) returns (i: nat)
    requires Under(reaped, pid) != []
    ensures LastReap(reaped, pid, i) && Under(reaped, pid)[|Under(reaped, pid)| - 1] == reaped[i]
    decreases |reaped|
  {
    var n := |reaped| - 1;
    if reaped[n].pid == pid { i := n; } else { i := UnderEndsWithLast(reaped[..n], pid); }
  }

  /** The reaps under a PID are all of them, in order. */
  lemma {:induction false} UnderInOrder(a: seq<Reaped>, b: seq<Reaped>, r: Reaped, pid: Pid)
    ensures Under(a + b, pid) == Under(a, pid) + Under(b, pid)
    ensures Under([r], pid) == if r.pid == pid then [r] else []
    decreases |b|
  {
    assert [r][..0] == [];
    if b == [] {
      assert a + b == a;
    } else {
      assert (a + b)[..|a + b| - 1] == a + b[..|b| - 1];
      UnderInOrder(a, b[..|b| - 1], r, pid);
    }
  }

  /** The exit code a shell reports for a status: the code itself, or 128 and the signal's number. */
  predicate Reports(code: int, status: Status) {
    || status == Exited(code) || (status.Signalled? && code == 128 + status.number) || (status.Unclassified? && code == 125)
  }

  lemma CodeMeans(status: Status)
    ensures Reports(ExitCode(status), status)
  {}

  datatype Fault = ClockFailed | WaitingFailed | RootLost

  datatype Outcome = Running | Faulted(fault: Fault) | Drained(code: int)

  predicate IsKill(t: Turn) { t.shot.Some? && t.shot.value.signal.Kill? }

  /** The listed PIDs were own children and all of them got the signal. */
  ghost predicate Aimed(w: World, t: Turn)
    requires Rooted(w)
  {
    t.shot.Some? && t.shot.value.listed.Some? ==>
      && (forall c :: c in t.shot.value.listed.value ==> OwnChild(AtListing(w, t), c))
      && t.shot.value.listed.value <= t.shot.value.hit
  }

  /** The wait of a draining turn takes an own zombie when there is one, and found a child when it takes none. */
  predicate Waited(v: World, t: Turn) {
    && (t.taken.Some? ==> OwnZombie(v, t.taken.value))
    && (t.shot.Some? && t.taken.None? ==> v.procs != map[] && forall c :: c in v.procs ==> !OwnZombie(v, c))
  }

  /** What the loop does in a turn after which it goes on. */
  ghost predicate Went(w: World, t: Turn)
    requires Rooted(w)
  {
    Aimed(w, t) && Waited(AtWait(w, t), t)
  }

  ghost predicate AllWent(w: World, log: seq<Turn>)
    requires Rooted(w)
  {
    forall i :: 0 <= i < |log| ==> Went(Replay(w, log[..i]), log[i])
  }

  /** After the first SIGKILL round every later turn is one. */
  predicate KillsForGood(log: seq<Turn>) {
    forall i, j :: 0 <= i < j < |log| && IsKill(log[i]) ==> IsKill(log[j])
  }

  lemma AllWentExtends(w: World, log: seq<Turn>, t: Turn)
    requires Rooted(w) && AllWent(w, log) && Went(Replay(w, log), t)
    ensures AllWent(w, log + [t])
  {
    hide Went, Replay;
    var next := log + [t];
    forall i | 0 <= i < |next| ensures Went(Replay(w, next[..i]), next[i]) {
      assert next[..i] == if i < |log| then log[..i] else log;
    }
  }

  /** The process started by the owner has serial 0 and stays its child until it is reaped, before any reuse of its PID. */
  ghost predicate RootStory(w: World, reaped: seq<Reaped>, root: Pid, ended: bool, status: Status) {
    var mine := Under(reaped, root);
    if ended then
      && mine != [] && mine[0].serial == 0 && mine[|mine| - 1].status == status && w.births > 0
      && (forall i :: 0 < i < |mine| ==> mine[i].serial != 0)
      && (forall p :: p in w.procs ==> w.procs[p].serial != 0)
    else
      mine == [] && OwnChild(w, root) && w.procs[root].serial == 0
  }

  /** Signals hit exactly the listed own children, SIGTERM for the first second of draining and SIGKILL for good after it. */
  predicate WellAimed(sent: seq<Sent>, stopStarted: int) {
    && (forall i :: 0 <= i < |sent| ==>
         && sent[i].hit == Some(sent[i].listed)
         && 0 < stopStarted <= sent[i].at
         && (sent[i].signal == Kill ==> sent[i].at >= stopStarted + 1000))
    && (forall i, j :: 0 <= i < j < |sent| && sent[i].signal == Kill ==> sent[j].signal == Kill)
  }

  lemma RootStoryMoves(w: World, ms: seq<Move>, reaped: seq<Reaped>, root: Pid, ended: bool, status: Status)
    requires Rooted(w) && RootStory(w, reaped, root, ended, status)
    ensures RootStory(Run(w, ms), reaped, root, ended, status)
  {
    ChildrenStay(w, ms);
    if ended { SerialsAreFresh(w, ms); }
  }

  lemma RootStoryReaps(w: World, reaped: seq<Reaped>, root: Pid, ended: bool, status: Status, c: Pid)
    requires Rooted(w) && OwnZombie(w, c) && RootStory(w, reaped, root, ended, status)
    ensures var s := w.procs[c].life.status;
            RootStory(Reap(w, c), reaped + [Reaped(c, w.procs[c].serial, s)], root, ended || c == root, if c == root then s else status)
  {
    var r := Reaped(c, w.procs[c].serial, w.procs[c].life.status);
    assert (reaped + [r])[..|reaped|] == reaped;
    assert Under(reaped + [r], root) == Under(reaped, root) + if c == root then [r] else [];
    assert Linked(w, c);
  }

  lemma ReplayExtends(w: World, log: seq<Turn>, t: Turn)
    requires Rooted(w)
    ensures Replay(w, log + [t]) == AfterTurn(Replay(w, log), t)
  {
    assert (log + [t])[..|log|] == log;
  }

  /** A serial is never handed out twice. */
  lemma {:induction false} SerialsAreFresh(w: World, ms: seq<Move>)
    requires Rooted(w)
    ensures var v := Run(w, ms); forall p :: p in v.procs ==>
      v.procs[p].serial >= w.births || (p in w.procs && w.procs[p].serial == v.procs[p].serial)
    decreases |ms|
  {
    if ms != [] {
      MoveKeepsRooted(w, ms[0]);
      SerialsAreFresh(Apply(w, ms[0]), ms[1..]);
    }
  }

  class Kernel {
    var world: World
    var stopping: bool
    var now: int
    ghost var sent: seq<Sent>
    ghost var reaped: seq<Reaped>
    /** How many kills failed for another reason than ESRCH. */
    ghost var refusals: nat
    /** How often the children file was read. */
    ghost var listings: nat

    ghost predicate Valid()
      reads this
    {
      Rooted(world) && now > 0
    }

    constructor (owner: Pid, root: Pid)
      requires owner != root && root > 0
      ensures Valid() && sent == [] && reaped == []
      ensures world == World(owner, map[root := Proc(0, owner, 1, Alive, false)], 1)
    {
      world := World(owner, map[root := Proc(0, owner, 1, Alive, false)], 1);
      stopping := *;
      now := 1;
      sent, reaped, listings, refusals := [], [], 0, 0;
      new;
      assert Linked(world, root);
    }

    /** Whatever happens while the owner is not looking: kernel steps, time, and stop signals. */
    method Interleave() returns (ghost moves: seq<Move>)
      requires Valid()
      modifies this`world, this`stopping, this`now
      ensures Valid() && world == Run(old(world), moves) && now >= old(now)
      ensures old(stopping) ==> stopping
    {
      var steps: seq<Move> := *;
      var later: int := *;
      var signalled: bool := *;
      moves := steps;
      world := Run(world, steps);
      if later > now { now := later; }
      stopping := stopping || signalled;
    }

    /** monotonic_ms; None is a failing clock. */
    method Clock() returns (t: Option<int>)
      requires Valid()
      modifies this`now
      ensures Valid() && now >= old(now) && (t.Some? ==> t.value == now)
    {
      var later: int := *;
      var works: bool := *;
      if later > now { now := later; }
      t := if works then Some(now) else None;
    }

    /** One read of the children file: any list of unreaped direct children, possibly incomplete; None if it fails. */
    method ListChildren() returns (pids: Option<seq<Pid>>)
      requires Valid()
      modifies this`listings
      ensures listings == old(listings) + 1
      ensures pids.Some? ==> forall p :: p in pids.value ==> OwnChild(world, p)
    {
      listings := listings + 1;
      var readable: bool, count: int := *, *;
      if !readable { return None; }
      var found: seq<Pid> := [];
      while count > 0
        invariant forall p :: p in found ==> OwnChild(world, p)
      {
        var next: Pid := *;
        if OwnChild(world, next) { found := found + [next]; }
        count := count - 1;
      }
      pids := Some(found);
    }

    /** kill(2); false is a failure other than ESRCH. */
    method SendSignal(pid: Pid, signal: Signal, ghost listed: nat) returns (ok: bool)
      requires Valid()
      modifies this`sent, this`refusals
      ensures refusals == old(refusals) + if ok then 0 else 1
      ensures sent == old(sent) + [Sent(pid, signal, now, listed, Holder(world, pid))]
    {
      sent := sent + [Sent(pid, signal, now, listed, Holder(world, pid))];
      ok := *;
      if !ok { refusals := refusals + 1; }
    }

    /** waitpid(-1): takes one own zombie if there is one; reports no child only when there is none. */
    method WaitAny(nohang: bool) returns (r: WaitAnswer)
      requires Valid()
      modifies this`world, this`reaped
      ensures Valid()
      ensures match r
        case Child(pid, status) =>
          && OwnZombie(old(world), pid) && old(world).procs[pid].life == Zombie(status)
          && world == Reap(old(world), pid)
          && reaped == old(reaped) + [Reaped(pid, old(world).procs[pid].serial, status)]
        case NoChild => world == old(world) && reaped == old(reaped) && forall c :: !OwnChild(world, c)
        case NoneYet =>
          && nohang && world == old(world) && reaped == old(reaped)
          && world.procs != map[] && forall c :: !OwnZombie(world, c)
        case StillBlocked => !nohang && world == old(world) && reaped == old(reaped)
        case Interrupted => !nohang && world == old(world) && reaped == old(reaped)
        case WaitFailed => world == old(world) && reaped == old(reaped)
    {
      var failed: bool, interrupted: bool := *, *;
      if failed {
        r := WaitFailed;
      } else if child :| child in world.procs && OwnZombie(world, child) {
        r := Child(child, world.procs[child].life.status);
        reaped := reaped + [Reaped(child, world.procs[child].serial, r.status)];
        ReapKeepsRooted(world, child);
        world := Reap(world, child);
      } else if forall c :: c in world.procs ==> !OwnChild(world, c) {
        r := NoChild;
      } else if nohang {
        r := NoneYet;
      } else {
        r := if interrupted then Interrupted else StillBlocked;
      }
    }
  }

  /** The owner's loop; the fields are its local variables. */
  class Supervisor {
    const kernel: Kernel
    const root: Pid
    var rootEnded: bool
    var rootStatus: Status
    var warned: bool
    var stopStarted: int

    ghost predicate Valid()
      reads this, kernel
    {
      && kernel.Valid()
      && RootStory(kernel.world, kernel.reaped, root, rootEnded, rootStatus)
      && WellAimed(kernel.sent, stopStarted)
      && (stopStarted == 0 || 0 < stopStarted <= kernel.now)
      && (stopStarted != 0 ==> kernel.stopping || rootEnded)
      && (forall s :: s in kernel.sent && s.signal == Kill ==> kernel.now >= stopStarted + 1000)
    }

    /** After fork: the kernel holds the owner and its one child. */
    constructor (kernel: Kernel, root: Pid)
      requires kernel.Valid() && kernel.sent == [] && kernel.reaped == []
      requires OwnChild(kernel.world, root) && kernel.world.procs[root].serial == 0
      ensures Valid() && this.kernel == kernel && this.root == root && !rootEnded
    {
      this.kernel := kernel;
      this.root := root;
      rootEnded, rootStatus, warned, stopStarted := false, Exited(0), false, 0;
    }

    /** Time in which the rest of the system runs. */
    method Pause() returns (ghost moves: seq<Move>)
      requires Valid()
      modifies kernel`world, kernel`stopping, kernel`now
      ensures Valid() && kernel.world == Run(old(kernel.world), moves) && kernel.now >= old(kernel.now)
      ensures old(kernel.stopping) ==> kernel.stopping
    {
      moves := kernel.Interleave();
      RootStoryMoves(old(kernel.world), moves, kernel.reaped, root, rootEnded, rootStatus);
    }

    /** kill() on a listed child: no waitpid ran since the listing, so the PID is still that child's. */
    method Hit(pid: Pid, signal: Signal, ghost listed: nat) returns (ok: bool)
      requires Valid() && 0 < stopStarted && Holder(kernel.world, pid) == Some(listed)
      requires signal == Kill ==> kernel.now >= stopStarted + 1000
      requires signal == Term ==> forall s :: s in kernel.sent ==> s.signal == Term
      modifies kernel`sent, kernel`refusals
      ensures Valid() && kernel.refusals == old(kernel.refusals) + if ok then 0 else 1
      ensures exists s :: kernel.sent == old(kernel.sent) + [s] && s.signal == signal && s.pid == pid
    {
      ok := kernel.SendSignal(pid, signal, listed);
    }

    /**
     * signal_children: one read, then the signal to every listed child, all of them own children at that moment; false
     * when the read or a kill failed. hit collects the PIDs that got the signal.
     */
    method SignalChildren(signal: Signal) returns (confirmed: bool, ghost shot: Shot, ghost moves: seq<Move>)
      requires Valid() && 0 < stopStarted
      requires signal == Kill ==> kernel.now >= stopStarted + 1000
      requires signal == Term ==> forall s :: s in kernel.sent ==> s.signal == Term
      modifies kernel`world, kernel`stopping, kernel`now, kernel`sent, kernel`refusals, kernel`listings
      ensures Valid() && kernel.world == Run(old(kernel.world), moves) && kernel.now >= old(kernel.now)
      ensures kernel.listings == old(kernel.listings) + 1 && shot.signal == signal
      ensures old(kernel.sent) <= kernel.sent
      ensures forall i :: |old(kernel.sent)| <= i < |kernel.sent| ==> kernel.sent[i].signal == signal
      ensures shot.hit == HitSince(kernel.sent, |old(kernel.sent)|)
      ensures shot.listed.Some? ==>
        shot.listed.value <= shot.hit && forall c :: c in shot.listed.value ==> OwnChild(old(kernel.world), c)
      ensures confirmed ==> shot.listed.Some? && kernel.refusals == old(kernel.refusals)
    {
      hide Rooted, RootStory, WellAimed, Run;
      moves := [];
      RunNothing(kernel.world);
      var pids := kernel.ListChildren();
      if pids.None? { return false, Shot(signal, None, HitSince(kernel.sent, |kernel.sent|)), moves; }
      ghost var listing, first := kernel.world, |kernel.sent|;
      ghost var hit: set<Pid> := {};
      var readFailed: bool := *;
      confirmed := !readFailed;
      for i := 0 to |pids.value|
        invariant Valid() && kernel.world == Run(listing, moves) && kernel.now >= old(kernel.now)
        invariant kernel.listings == old(kernel.listings) + 1
        invariant old(kernel.sent) <= kernel.sent && first == |old(kernel.sent)|
        invariant forall i :: first <= i < |kernel.sent| ==> kernel.sent[i].signal == signal
        invariant hit == HitSince(kernel.sent, first)
        invariant confirmed ==> kernel.refusals == old(kernel.refusals)
        invariant forall j :: 0 <= j < i ==> pids.value[j] in hit
        invariant signal == Kill ==> kernel.now >= stopStarted + 1000
        invariant signal == Term ==> forall s :: s in kernel.sent ==> s.signal == Term
      {
        ghost var more := Pause();
        RunSplits(listing, moves, more);
        moves := moves + more;
        var pid := pids.value[i];
        assert pid in pids.value && OwnChild(listing, pid);
        OwnPidIsPositive(listing, pid);
        if pid > 0 {
          ChildrenStay(listing, moves);
          ghost var was := kernel.sent;
          var ok := Hit(pid, signal, listing.procs[pid].serial);
          confirmed := confirmed && ok;
          hit := hit + {pid};
          assert kernel.sent[..|was|] == was;
        }
      }
      shot := Shot(signal, Some(set p | p in pids.value), hit);
    }

    /** The draining half of a turn; None when the clock fails. */
    method Escalate() returns (ghost shot: Option<Shot>, clockWorks: bool, ghost moves: seq<Move>)
      requires Valid() && (kernel.stopping || rootEnded)
      modifies this`stopStarted, this`warned
      modifies kernel`world, kernel`stopping, kernel`now, kernel`sent, kernel`refusals, kernel`listings
      ensures Valid() && kernel.world == Run(old(kernel.world), moves)
      ensures clockWorks ==> shot.Some? && stopStarted > 0 && kernel.listings == old(kernel.listings) + 1
      ensures old(stopStarted) != 0 ==> stopStarted == old(stopStarted)
      ensures shot.Some? && (shot.value.listed.None? || kernel.refusals > old(kernel.refusals)) ==> warned
      ensures old(kernel.sent) <= kernel.sent && kernel.now >= old(kernel.now)
      ensures shot.Some? ==>
        && shot.value.hit == HitSince(kernel.sent, |old(kernel.sent)|)
        && (forall i :: |old(kernel.sent)| <= i < |kernel.sent| ==> kernel.sent[i].signal == shot.value.signal)
        && (shot.value.listed.Some? ==>
             && shot.value.listed.value <= shot.value.hit
             && forall c :: c in shot.value.listed.value ==> OwnChild(old(kernel.world), c))
        && (shot.value.signal.Kill? ==> kernel.now >= stopStarted + 1000)
        && (old(stopStarted) != 0 && old(kernel.now) >= old(stopStarted) + 1000 ==> shot.value.signal.Kill?)
    {
      hide Run, RootStory, Rooted;
      moves := [];
      shot := None;
      RunNothing(kernel.world);
      if stopStarted == 0 {
        var started := kernel.Clock();
        if started.None? { return None, false, moves; }
        stopStarted := started.value;
      }
      var t := kernel.Clock();
      if t.None? { return None, false, moves; }
      var signal := if t.value - stopStarted < 1000 then Term else Kill;
      var confirmed: bool;
      ghost var fired: Shot;
      confirmed, fired, moves := SignalChildren(signal);
      if !confirmed && !warned { warned := true; }
      clockWorks, shot := true, Some(fired);
    }

    /** A turn up to its waitpid; None when the clock fails. */
    method Approach() returns (draining: Option<bool>, ghost begun: Turn)
      requires Valid()
      modifies this`stopStarted, this`warned
      modifies kernel`world, kernel`stopping, kernel`now, kernel`sent, kernel`refusals, kernel`listings
      ensures Valid() && kernel.world == AtWait(old(kernel.world), begun) && begun.taken.None? && begun.late == []
      ensures kernel.now >= old(kernel.now)
      ensures draining.Some? ==> draining.value == begun.shot.Some?
      ensures draining == Some(false) ==> !rootEnded && !old(kernel.stopping) && kernel.sent == old(kernel.sent)
      ensures draining.Some? ==> Aimed(old(kernel.world), begun)
      ensures draining == Some(true) ==> stopStarted > 0 && kernel.listings == old(kernel.listings) + 1
      ensures draining == Some(true) && IsKill(begun) ==> kernel.now >= stopStarted + 1000
      ensures old(stopStarted) != 0 && old(kernel.now) >= old(stopStarted) + 1000 && draining.Some? ==> IsKill(begun)
    {
      hide Run, RootStory, WellAimed, Rooted;
      ghost var before := Pause();
      ghost var listing := kernel.world;
      ghost var early, shot := [], None;
      RunNothing(listing);
      var stop := kernel.stopping || rootEnded;
      draining := Some(stop);
      if stop {
        ghost var fired: Option<Shot>, signalling: seq<Move>;
        var clockWorks: bool;
        fired, clockWorks, signalling := Escalate();
        early, shot := signalling, fired;
        if !clockWorks { return None, Turn(before, None, early, None, []); }
      }
      ghost var waiting := Pause();
      RunSplits(listing, early, waiting);
      begun := Turn(before, shot, early + waiting, None, []);
    }

    /** The waitpid of a turn and what it changes. */
    method Wait(draining: bool) returns (answer: WaitAnswer)
      requires Valid()
      modifies this`rootEnded, this`rootStatus, kernel`world, kernel`reaped
      ensures Valid()
      ensures kernel.world == AfterWait(old(kernel.world), if answer.Child? then Some(answer.pid) else None)
      ensures answer.NoChild? ==> rootEnded && kernel.world.procs == map[]
      ensures (answer.StillBlocked? || answer.Interrupted? ==> !draining) && (!answer.Child? ==> rootEnded == old(rootEnded))
      ensures old(rootEnded) ==> rootEnded
      ensures answer.Child? ==> OwnZombie(old(kernel.world), answer.pid)
      ensures answer.NoneYet? ==> kernel.world.procs != map[] && forall c :: !OwnZombie(kernel.world, c)
    {
      ghost var held, reaped := kernel.world, kernel.reaped;
      answer := kernel.WaitAny(draining);
      match answer {
        case Child(pid, status) =>
          RootStoryReaps(held, reaped, root, rootEnded, rootStatus, pid);
          if pid == root {
            rootEnded := true;
            rootStatus := status;
          }
        case NoChild => NoChildNoDescendant(kernel.world);
        case NoneYet =>
        case Interrupted =>
        case WaitFailed =>
        case StillBlocked =>
      }
    }

    /** One whole turn; None when the clock fails. */
    method TakeTurn() returns (answer: Option<WaitAnswer>, ghost turn: Turn)
      requires Valid()
      modifies this`rootEnded, this`rootStatus, this`warned, this`stopStarted, kernel
      ensures Valid() && kernel.world == AfterTurn(old(kernel.world), turn) && kernel.now >= old(kernel.now)
      ensures answer.Some? && answer.value.NoChild? ==> rootEnded && kernel.world.procs == map[]
      ensures answer.Some? && answer.value.StillBlocked? ==> !rootEnded && turn.shot.None?
      ensures answer.Some? && !answer.value.NoChild? && !answer.value.WaitFailed? ==> Went(old(kernel.world), turn)
      ensures answer.Some? && IsKill(turn) ==> stopStarted > 0 && kernel.now >= stopStarted + 1000
      ensures answer.Some? && old(stopStarted) > 0 && old(kernel.now) >= old(stopStarted) + 1000 ==> IsKill(turn)
    {
      hide Run, RootStory, WellAimed, Rooted, Aimed, OwnZombie;
      ghost var start := kernel.world;
      var draining: Option<bool>;
      draining, turn := Approach();
      if draining.None? {
        TurnEnds(start, turn);
        return None, turn;
      }
      ghost var begun := turn;
      var r := Wait(draining.value);
      turn := turn.(taken := if r.Child? then Some(r.pid) else None);
      SameApproach(start, begun, turn);
      TurnEnds(start, turn);
      if r.NoneYet? {
        ghost var late := Pause();
        turn := turn.(late := late);
        SameApproach(start, begun, turn);
      }
      answer := Some(r);
    }

    /**
     * The loop, followed for any number of turns. Leaving it on ECHILD means that no descendant is left in any state,
     * that the started process has ended, and that the code is that of the last reap under its PID: the started
     * process's own code exactly when that PID was reaped once. Losing the started process never decides the code.
     */
    method Own(turns: nat) returns (o: Outcome, ghost log: seq<Turn>)
      requires Valid()
      modifies this`rootEnded, this`rootStatus, this`warned, this`stopStarted, kernel
      ensures Valid() && kernel.world == Replay(old(kernel.world), log)
      ensures o != Faulted(RootLost)
      ensures |log| <= turns && (o.Running? && |log| < turns ==> !rootEnded)
      ensures o.Running? ==> AllWent(old(kernel.world), log) && KillsForGood(log)
      ensures o.Running? && |log| < turns ==> log != [] && log[|log| - 1].shot.None?
      ensures o.Drained? ==>
        && kernel.world.procs == map[] && rootEnded
        && var mine := Under(kernel.reaped, root);
           && mine != [] && mine[0].serial == 0 && o.code == ExitCode(mine[|mine| - 1].status)
           && (mine[|mine| - 1].serial == 0 <==> |mine| == 1)
      ensures o.Drained? ==> exists i :: LastReap(kernel.reaped, root, i) && Reports(o.code, kernel.reaped[i].status)
    {
      hide Run, RootStory, WellAimed, Rooted, Replay, AllWent, KillsForGood, Went, AfterTurn, Under, ExitCode;
      o, log := Running, [];
      NothingLogged(kernel.world);
      var i, blocked := 0, false;
      while i < turns && o == Running && !blocked
        invariant Valid() && kernel.world == Replay(old(kernel.world), log) && |log| == i <= turns
        invariant o.Running? ==> AllWent(old(kernel.world), log) && KillsForGood(log)
        invariant o.Running? && log != [] && IsKill(log[|log| - 1]) ==> stopStarted > 0 && kernel.now >= stopStarted + 1000
        invariant blocked ==> !rootEnded && log != [] && log[|log| - 1].shot.None?
        invariant o != Faulted(RootLost)
        invariant o.Drained? ==> kernel.world.procs == map[] && rootEnded && o.code == ExitCode(rootStatus)
        decreases turns - i
      {
        var answer, turn := TakeTurn();
        ReplayExtends(old(kernel.world), log, turn);
        if answer.None? {
          o := Faulted(ClockFailed);
        } else {
          match answer.value {
            case NoChild =>
              o := if rootEnded then Drained(ExitCode(rootStatus)) else Faulted(RootLost);
            case WaitFailed => o := Faulted(WaitingFailed);
            case StillBlocked => blocked := true;
            case NoneYet =>
            case Child(_, _) =>
            case Interrupted =>
          }
        }
        if o.Running? {
          AllWentExtends(old(kernel.world), log, turn);
          KillGoesOn(log, turn);
        }
        log := log + [turn];
        i := i + 1;
      }
      if rootEnded {
        RootStoryEnds(kernel.world, kernel.reaped, root, rootStatus);
        var last := UnderEndsWithLast(kernel.reaped, root);
        CodeMeans(rootStatus);
      }
    }
  }

  lemma NothingLogged(w: World)
    requires Rooted(w)
    ensures Replay(w, []) == w && AllWent(w, []) && KillsForGood([])
  {}

  lemma RootStoryEnds(w: World, reaped: seq<Reaped>, root: Pid, status: Status)
    requires RootStory(w, reaped, root, true, status)
    ensures var mine := Under(reaped, root);
            && mine != [] && mine[0].serial == 0 && mine[|mine| - 1].status == status
            && (mine[|mine| - 1].serial == 0 <==> |mine| == 1)
  {}

  lemma OwnPidIsPositive(w: World, c: Pid)
    requires Rooted(w) && OwnChild(w, c)
    ensures c > 0
  {
    assert Linked(w, c);
  }

  lemma SameApproach(w: World, t: Turn, u: Turn)
    requires Rooted(w) && u == t.(taken := u.taken, late := u.late)
    ensures AtWait(w, u) == AtWait(w, t) && (Aimed(w, t) ==> Aimed(w, u)) && IsKill(u) == IsKill(t)
  {}

  lemma TurnEnds(w: World, t: Turn)
    requires Rooted(w) && t.late == []
    ensures AfterTurn(w, t) == AfterWait(AtWait(w, t), t.taken)
  {}

  lemma KillGoesOn(log: seq<Turn>, t: Turn)
    requires KillsForGood(log) && (log != [] && IsKill(log[|log| - 1]) ==> IsKill(t))
    ensures KillsForGood(log + [t])
  {}
}

/** How long a drain lasts once nothing forks any more and SIGKILL kills sooner or later. */
module ProcessDrain {
  import opened Options
  import opened ProcessForest
  import opened ProcessOwner

  predicate Quiet(ms: seq<Move>) { forall m :: m in ms ==> !m.Fork? }

  function LivePids(w: World): set<Pid> {
    set p | p in w.procs && w.procs[p].life.Alive?
  }

  /** v holds only processes of w, and only live ones of w are live in it. */
  ghost predicate Shrunk(w: World, v: World) {
    && v.procs.Keys <= w.procs.Keys && LivePids(v) <= LivePids(w)
    && (forall p :: p in v.procs ==> v.procs[p].generation == w.procs[p].generation)
  }

  predicate QuietTurn(t: Turn) { Quiet(t.before) && Quiet(t.early) && Quiet(t.late) }

  function OwnChildren(w: World): set<Pid> {
    set c | c in w.procs && w.procs[c].parent == w.owner
  }

  /** The world at the start of turn i. */
  function Before(w: World, log: seq<Turn>, i: nat): (v: World)
    requires Rooted(w) && i <= |log|
    ensures Rooted(v)
  {
    Replay(w, log[..i])
  }

  predicate QuietFrom(log: seq<Turn>, e: nat) { forall i :: e <= i < |log| ==> QuietTurn(log[i]) }

  predicate IsComplete(u: World, t: Turn)
    requires Rooted(u)
  {
    t.shot.Some? ==> t.shot.value.listed == Some(OwnChildren(AtListing(u, t)))
  }

  /** What got SIGKILL in turn i has died by the end of turn dead(i). */
  ghost predicate KilledBy(w: World, log: seq<Turn>, i: nat, dead: nat -> nat)
    requires Rooted(w) && i < |log|
  {
    IsKill(log[i]) && dead(i) < |log| ==>
      forall p :: p in log[i].shot.value.hit ==> p !in LivePids(Before(w, log, dead(i) + 1))
  }

  /** A kill takes effect in its own turn or in a later one. */
  ghost predicate NoSooner(dead: nat -> nat) { forall i: nat :: i <= dead(i) }

  /** What a drain asks of the kernel from turn e on: no forks, complete listings, and every SIGKILL kills at some time. */
  ghost predicate Obliging(w: World, log: seq<Turn>, e: nat, dead: nat -> nat)
    requires Rooted(w)
  {
    && QuietFrom(log, e) && NoSooner(dead)
    && forall i: nat :: e <= i < |log| ==> IsComplete(Before(w, log, i), log[i]) && KilledBy(w, log, i, dead)
  }

  /** The loop kills from turn e on, on an obliging kernel. */
  ghost predicate Draining(w: World, log: seq<Turn>, e: nat, dead: nat -> nat)
    requires Rooted(w)
  {
    && e <= |log| && AllWent(w, log) && Obliging(w, log, e, dead)
    && forall i :: e <= i < |log| ==> IsKill(log[i])
  }

  lemma {:induction false} QuietRunShrinks(w: World, ms: seq<Move>)
    requires Rooted(w) && Quiet(ms)
    ensures Shrunk(w, Run(w, ms))
    decreases |ms|
  {
    if ms != [] {
      MoveKeepsRooted(w, ms[0]);
      assert Shrunk(w, Apply(w, ms[0]));
      QuietRunShrinks(Apply(w, ms[0]), ms[1..]);
    }
  }

  lemma WaitShrinks(w: World, t: Turn)
    requires Rooted(w) && QuietTurn(t)
    ensures Shrunk(w, AtWait(w, t))
  {
    QuietRunShrinks(w, t.before);
    QuietRunShrinks(AtListing(w, t), t.early);
  }

  lemma EmptyStaysEmpty(w: World, t: Turn)
    requires Rooted(w) && QuietTurn(t) && w.procs == map[]
    ensures AtWait(w, t).procs == map[]
  {
    WaitShrinks(w, t);
  }

  /** On a complete listing a SIGKILL round that goes on reaches every child of the owner, and takes a zombie if it had one. */
  lemma KillRoundReaches(u: World, t: Turn, c: Pid)
    requires Rooted(u) && Went(u, t) && QuietTurn(t) && IsComplete(u, t) && IsKill(t)
    ensures u.procs != map[]
    ensures OwnChild(u, c) ==> c in t.shot.value.hit && (u.procs[c].life.Zombie? ==> t.taken.Some?)
  {
    ChildrenStay(u, t.before);
    ChildrenStay(AtListing(u, t), t.early);
    if OwnChild(u, c) {
      assert OwnChild(AtListing(u, t), c) && c in t.shot.value.listed.value;
      assert u.procs[c].life.Zombie? ==> OwnZombie(AtListing(u, t), c) && OwnZombie(AtWait(u, t), c);
    }
    if u.procs == map[] { EmptyStaysEmpty(u, t); }
  }

  lemma TurnShrinks(u: World, t: Turn)
    requires Rooted(u) && QuietTurn(t) && Went(u, t)
    ensures var v := AfterTurn(u, t); Shrunk(u, v) && |v.procs.Keys| + (if t.taken.Some? then 1 else 0) <= |u.procs.Keys|
  {
    hide Run, Aimed;
    var a := AtWait(u, t);
    var b := AfterWait(a, t.taken);
    WaitShrinks(u, t);
    QuietRunShrinks(b, t.late);
    SubsetSize(a.procs.Keys, u.procs.Keys);
    SubsetSize(AfterTurn(u, t).procs.Keys, b.procs.Keys);
    if t.taken.Some? { SmallerSet(b.procs.Keys, a.procs.Keys, t.taken.value); }
  }

  lemma SubsetSize<T>(a: set<T>, b: set<T>)
    requires a <= b
    ensures |a| <= |b|
  {
    assert b == a + (b - a);
  }

  lemma SmallerSet<T>(a: set<T>, b: set<T>, x: T)
    requires a <= b && x in b && x !in a
    ensures |a| < |b|
  {
    SubsetSize(a, b - {x});
  }

  /** How many of the turns i to j - 1 reaped a process. */
  function Reaps(log: seq<Turn>, i: nat, j: nat): nat
    requires j <= |log|
  {
    if j <= i then 0 else Reaps(log, i, j - 1) + if log[j - 1].taken.Some? then 1 else 0
  }

  lemma NextTurn(w: World, log: seq<Turn>, i: nat)
    requires Rooted(w) && i < |log|
    ensures Before(w, log, i + 1) == AfterTurn(Before(w, log, i), log[i])
  {
    assert log[..i + 1][..i] == log[..i];
  }

  /** Once nothing forks, processes only go, and no more are reaped than there were, whatever the signals do. */
  lemma {:induction false} ReapsAreBounded(w: World, log: seq<Turn>, i: nat, j: nat)
    requires Rooted(w) && AllWent(w, log) && QuietFrom(log, i) && i <= j <= |log|
    ensures var u, v := Before(w, log, i), Before(w, log, j);
            Shrunk(u, v) && |v.procs.Keys| + Reaps(log, i, j) <= |u.procs.Keys|
    decreases j
  {
    hide Went, AfterTurn, Before, Rooted;
    if i < j {
      ReapsAreBounded(w, log, i, j - 1);
      NextTurn(w, log, j - 1);
      WentAt(w, log, j - 1);
      TurnShrinks(Before(w, log, j - 1), log[j - 1]);
    }
  }

  lemma WentAt(w: World, log: seq<Turn>, i: nat)
    requires Rooted(w) && AllWent(w, log) && i < |log|
    ensures Went(Before(w, log, i), log[i])
  {
    hide Went;
  }

  /** Processes, the live ones counted twice. */
  function Weight(w: World): nat { |w.procs.Keys| + |LivePids(w)| }

  lemma KillTurn(w: World, log: seq<Turn>, e: nat, dead: nat -> nat, i: nat, c: Pid)
    requires Rooted(w) && Draining(w, log, e, dead) && e <= i < |log|
    ensures var u := Before(w, log, i);
            && u.procs != map[]
            && (OwnChild(u, c) ==> c in log[i].shot.value.hit && (u.procs[c].life.Zombie? ==> log[i].taken.Some?))
  {
    hide Went, Before, Rooted, KilledBy, AllWent;
    WentAt(w, log, i);
    KillRoundReaches(Before(w, log, i), log[i], c);
  }

  /** By the time the kills of turn i have taken effect, a process has been reaped or fewer are alive. */
  lemma WeightFallsOnce(w: World, log: seq<Turn>, e: nat, dead: nat -> nat, i: nat)
    requires Rooted(w) && Draining(w, log, e, dead) && e <= i && i <= dead(i) < |log|
    ensures Weight(Before(w, log, dead(i) + 1)) < Weight(Before(w, log, i))
  {
    hide Rooted, Before, AllWent, IsComplete;
    var j := dead(i) + 1;
    var u, v := Before(w, log, i), Before(w, log, j);
    ReapsAreBounded(w, log, i, j);
    SubsetSize(LivePids(v), LivePids(u));
    KillTurn(w, log, e, dead, i, 0);
    var c :| OwnChild(u, c) by {
      if forall c :: !OwnChild(u, c) { NoChildNoDescendant(u); }
    }
    KillTurn(w, log, e, dead, i, c);
    if u.procs[c].life.Alive? {
      SmallerSet(LivePids(v), LivePids(u), c);
    } else {
      ReapIsCounted(log, i, j);
    }
  }

  lemma {:induction false} ReapIsCounted(log: seq<Turn>, i: nat, j: nat)
    requires i < j <= |log| && log[i].taken.Some?
    ensures Reaps(log, i, j) > 0
    decreases j
  {
    if i < j - 1 { ReapIsCounted(log, i, j - 1); }
  }

  /** The turn by which n kill rounds, begun at turn e and each awaited, have taken effect. */
  ghost function Deadline(dead: nat -> nat, e: nat, n: nat): (d: nat)
    ensures NoSooner(dead) ==> e + n <= d
  {
    if n == 0 then e else dead(Deadline(dead, e, n - 1)) + 1
  }

  /** If every SIGKILL takes effect within d turns, n rounds take n * (d + 1) turns. */
  lemma {:induction false} DelayedDeadline(d: nat, e: nat, n: nat)
    ensures Deadline(i => i + d, e, n) == e + n * (d + 1)
  {
    if n > 0 { DelayedDeadline(d, e, n - 1); }
  }

  lemma {:induction false} WeightFalls(w: World, log: seq<Turn>, e: nat, dead: nat -> nat, n: nat)
    requires Rooted(w) && Draining(w, log, e, dead) && Deadline(dead, e, n) <= |log|
    ensures Weight(Before(w, log, Deadline(dead, e, n))) + n <= Weight(Before(w, log, e))
  {
    hide Rooted, Before, Weight, AllWent, IsComplete, KilledBy;
    if n > 0 {
      WeightFalls(w, log, e, dead, n - 1);
      WeightFallsOnce(w, log, e, dead, Deadline(dead, e, n - 1));
    }
  }

  /** A drain is over once as many kill rounds have taken effect as there are processes plus live processes. */
  lemma DrainEnds(w: World, log: seq<Turn>, e: nat, dead: nat -> nat)
    requires Rooted(w) && Draining(w, log, e, dead)
    ensures |log| <= Deadline(dead, e, Weight(Before(w, log, e)))
  {
    hide Rooted, Before, AllWent, IsComplete, KilledBy;
    var n := Weight(Before(w, log, e));
    var d := Deadline(dead, e, n);
    if d < |log| {
      WeightFalls(w, log, e, dead, n);
      KillTurn(w, log, e, dead, d, 0);
    }
  }

  /** One round kills one generation: once n rounds took effect every live process is more than n forks from the owner. */
  lemma {:induction false} GenerationsDie(w: World, log: seq<Turn>, e: nat, dead: nat -> nat, n: nat)
    requires Rooted(w) && Draining(w, log, e, dead) && Deadline(dead, e, n) <= |log|
    ensures var v := Before(w, log, Deadline(dead, e, n)); forall p :: p in LivePids(v) ==> v.procs[p].generation > n
  {
    hide Before, AllWent, IsComplete;
    var j := Deadline(dead, e, n);
    var v := Before(w, log, j);
    if n == 0 {
      forall p | p in LivePids(v) ensures v.procs[p].generation > 0 { assert Linked(v, p); }
    } else {
      var i := Deadline(dead, e, n - 1);
      var u := Before(w, log, i);
      GenerationsDie(w, log, e, dead, n - 1);
      ReapsAreBounded(w, log, i, j);
      forall p | p in LivePids(v) ensures v.procs[p].generation > n {
        assert Linked(u, p);
        if u.procs[p].generation == n {
          assert OwnChild(u, p);
          KillTurn(w, log, e, dead, i, p);
        }
      }
    }
  }

  ghost predicate Within(w: World, height: nat) {
    forall p :: p in w.procs ==> w.procs[p].generation <= height
  }

  lemma NoneLivesBeyondHeight(w: World, log: seq<Turn>, e: nat, dead: nat -> nat, height: nat, i: nat)
    requires Rooted(w) && Draining(w, log, e, dead) && Within(Before(w, log, e), height)
    requires Deadline(dead, e, height) <= i <= |log|
    ensures LivePids(Before(w, log, i)) == {}
  {
    hide Rooted, Before, AllWent, IsComplete, KilledBy;
    var d := Deadline(dead, e, height);
    GenerationsDie(w, log, e, dead, height);
    ReapsAreBounded(w, log, e, d);
    ReapsAreBounded(w, log, d, i);
    forall p ensures p !in LivePids(Before(w, log, i)) {}
  }

  /** With only zombies left every turn reaps one. */
  lemma {:induction false} EveryTurnReaps(w: World, log: seq<Turn>, e: nat, dead: nat -> nat, i: nat, j: nat)
    requires Rooted(w) && Draining(w, log, e, dead) && e <= i <= j <= |log|
    requires forall k :: i <= k <= |log| ==> LivePids(Before(w, log, k)) == {}
    ensures Reaps(log, i, j) == j - i
    decreases j
  {
    hide Rooted, Before, AllWent, IsComplete, KilledBy, Obliging;
    if i < j {
      EveryTurnReaps(w, log, e, dead, i, j - 1);
      var u := Before(w, log, j - 1);
      KillTurn(w, log, e, dead, j - 1, 0);
      var c :| OwnChild(u, c) by {
        if forall c :: !OwnChild(u, c) { NoChildNoDescendant(u); }
      }
      KillTurn(w, log, e, dead, j - 1, c);
      assert c !in LivePids(u);
    }
  }

  /** The drain is over once one kill round per generation took effect, and one turn per process after that. */
  lemma DrainEndsByHeight(w: World, log: seq<Turn>, e: nat, dead: nat -> nat, height: nat)
    requires Rooted(w) && Draining(w, log, e, dead) && Within(Before(w, log, e), height)
    ensures |log| <= Deadline(dead, e, height) + |Before(w, log, e).procs.Keys|
  {
    hide Rooted, Before, AllWent, IsComplete, KilledBy, LivePids, Within;
    var d := Deadline(dead, e, height);
    if d < |log| {
      forall k | d <= k <= |log| ensures LivePids(Before(w, log, k)) == {} {
        NoneLivesBeyondHeight(w, log, e, dead, height, k);
      }
      EveryTurnReaps(w, log, e, dead, d, |log|);
      ReapsAreBounded(w, log, e, d);
      ReapsAreBounded(w, log, d, |log|);
    }
  }

  // ----- The loop drains -----

  /**
   * The owner's loop. Once nothing forks it reaps no more processes than there are. And if from some SIGKILL round e on
   * the kernel obliges, however late each kill takes effect, the loop is over once as many rounds took effect as there
   * are processes plus live ones, and also once one round per generation did and one turn per process went by.
   */
  method OwnDrains(s: Supervisor, turns: nat, ghost dead: nat -> nat) returns (o: Outcome, ghost log: seq<Turn>)
    requires s.Valid()
    modifies s`rootEnded, s`rootStatus, s`warned, s`stopStarted, s.kernel
    ensures s.Valid() && s.kernel.world == Replay(old(s.kernel.world), log)
    ensures forall e: nat :: e <= |log| && QuietFrom(log, e) && o.Running? ==>
      Reaps(log, e, |log|) <= |Before(old(s.kernel.world), log, e).procs.Keys|
    ensures forall e: nat ::
      e < |log| && IsKill(log[e]) && Obliging(old(s.kernel.world), log, e, dead) && o.Running? ==>
        var w := Before(old(s.kernel.world), log, e);
        && turns <= Deadline(dead, e, Weight(w))
        && forall height: nat :: Within(w, height) ==> turns <= Deadline(dead, e, height) + |w.procs.Keys|
  {
    hide Rooted, Before, AllWent, Obliging, Weight, Within;
    ghost var start := s.kernel.world;
    o, log := s.Own(turns);
    forall e: nat | e <= |log| && QuietFrom(log, e) && o.Running?
      ensures Reaps(log, e, |log|) <= |Before(start, log, e).procs.Keys|
    {
      ReapsAreBounded(start, log, e, |log|);
    }
    forall e: nat | e < |log| && IsKill(log[e]) && Obliging(start, log, e, dead) && o.Running?
      ensures var w := Before(start, log, e);
              && turns <= Deadline(dead, e, Weight(w))
              && forall height: nat :: Within(w, height) ==> turns <= Deadline(dead, e, height) + |w.procs.Keys|
    {
      assert |log| == turns;
      DrainEnds(start, log, e, dead);
      forall height: nat | Within(Before(start, log, e), height)
        ensures turns <= Deadline(dead, e, height) + |Before(start, log, e).procs.Keys|
      {
        DrainEndsByHeight(start, log, e, dead, height);
      }
    }
  }

  // ----- A reused PID -----

  /** Owner 1 starts process 2; process 2 forks 3 and exits with 0. */
  const START := World(1, map[2 := Proc(0, 1, 1, Alive, false)], 1)
  const ROOT_EXITS := [Fork(2, 3), Exit(2, Exited(0))]

  /** Process 3 forks a child under the freed PID 2; both exit, so the owner adopts the new process 2. */
  const PID_REUSED := [Fork(3, 2), Exit(2, Exited(7)), Exit(3, Exited(0))]

  const ROOT_ENDED := World(1, map[2 := Proc(0, 1, 1, Zombie(Exited(0)), false), 3 := Proc(1, 1, 2, Alive, false)], 2)

  const REUSED_REAPS := [Reaped(2, 0, Exited(0)), Reaped(2, 2, Exited(7))]

  lemma RootExits()
    ensures Rooted(START) && Run(START, ROOT_EXITS) == ROOT_ENDED
  {
    assert Linked(START, 2);
    var a := Apply(START, ROOT_EXITS[0]);
    MoveKeepsRooted(START, ROOT_EXITS[0]);
    MoveKeepsRooted(a, ROOT_EXITS[1]);
    assert ROOT_EXITS[1..] == [ROOT_EXITS[1]];
    assert Apply(a, ROOT_EXITS[1]).procs == ROOT_ENDED.procs;
  }

  const REUSED := World(1, map[3 := Proc(1, 1, 2, Alive, false), 2 := Proc(2, 3, 3, Alive, false)], 3)
  const REUSE_ENDED :=
    World(1, map[3 := Proc(1, 1, 2, Zombie(Exited(0)), false), 2 := Proc(2, 1, 3, Zombie(Exited(7)), false)], 3)

  lemma RootIsReaped()
    ensures Rooted(ROOT_ENDED) && Rooted(Reap(ROOT_ENDED, 2)) && Apply(Reap(ROOT_ENDED, 2), PID_REUSED[0]) == REUSED
    ensures Rooted(REUSED)
  {
    RootExits();
    var b := Reap(ROOT_ENDED, 2);
    ReapKeepsRooted(ROOT_ENDED, 2);
    MoveKeepsRooted(b, PID_REUSED[0]);
    assert Apply(b, PID_REUSED[0]).procs == REUSED.procs;
  }

  lemma ReuseEnds()
    requires Rooted(REUSED)
    ensures Run(REUSED, [PID_REUSED[1], PID_REUSED[2]]) == REUSE_ENDED
  {
    var d := Apply(REUSED, PID_REUSED[1]);
    MoveKeepsRooted(REUSED, PID_REUSED[1]);
    assert [PID_REUSED[1], PID_REUSED[2]][1..] == [PID_REUSED[2]];
    assert Run(d, [PID_REUSED[2]]) == Apply(d, PID_REUSED[2]);
    assert Apply(d, PID_REUSED[2]).procs == REUSE_ENDED.procs;
  }

  lemma BothReapsCount()
    ensures Under(REUSED_REAPS, 2) == REUSED_REAPS
  {
    var first := [Reaped(2, 0, Exited(0))];
    assert REUSED_REAPS[..1] == first && first[..0] == [];
    assert Under(first, 2) == first;
  }

  /**
   * The reported code can be another process's: a descendant that reuses the root's PID is adopted and reaped under it,
   * so the owner would report 7 for a root that exited with 0.
   */
  lemma ReusedPidReportsAnotherStatus()
    ensures Rooted(START) && Run(START, ROOT_EXITS) == ROOT_ENDED && OwnZombie(ROOT_ENDED, 2)
    ensures Rooted(Reap(ROOT_ENDED, 2)) && Run(Reap(ROOT_ENDED, 2), PID_REUSED) == REUSE_ENDED && OwnZombie(REUSE_ENDED, 2)
    ensures RootStory(Reap(REUSE_ENDED, 2), REUSED_REAPS, 2, true, Exited(7)) && Under(REUSED_REAPS, 2) == REUSED_REAPS
    ensures ExitCode(REUSED_REAPS[0].status) == 0 && ExitCode(REUSED_REAPS[1].status) == 7
  {
    hide Run, Apply, RootStory, Under, Rooted;
    RootExits();
    RootIsReaped();
    RunFirst(Reap(ROOT_ENDED, 2), PID_REUSED);
    assert PID_REUSED[1..] == [PID_REUSED[1], PID_REUSED[2]];
    ReuseEnds();
    BothReapsCount();
    ReusedStory();
  }

  lemma RunFirst(w: World, ms: seq<Move>)
    requires Rooted(w) && ms != []
    ensures Rooted(Apply(w, ms[0])) && Run(w, ms) == Run(Apply(w, ms[0]), ms[1..])
  {
    MoveKeepsRooted(w, ms[0]);
  }

  lemma ReusedStory()
    ensures OwnZombie(REUSE_ENDED, 2) && RootStory(Reap(REUSE_ENDED, 2), REUSED_REAPS, 2, true, Exited(7))
  {
    BothReapsCount();
    hide Under;
  }
}
