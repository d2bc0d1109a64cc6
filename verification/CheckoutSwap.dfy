// Replacing and deleting a managed checkout: directory renames around a catalog
// transaction, where every call may fail and the process may die at any point.

module CheckoutSwap {
  import opened Options

  /** What a path holds; Partial is what an interrupted recursive removal or clone leaves. */
  datatype Slot = Absent | Partial | Complete(id: nat)

  /** The registered path, the replace backup, the delete tombstone and the staging clone of one Project. */
  datatype Path = Live | Backup | Tomb | Staging

  datatype Disk = Disk(live: Slot, backup: Slot, tomb: Slot, staging: Slot) {
    function At(p: Path): Slot {
      match p
      case Live => live
      case Backup => backup
      case Tomb => tomb
      case Staging => staging
    }

    function Put(p: Path, s: Slot): Disk {
      match p
      case Live => this.(live := s)
      case Backup => this.(backup := s)
      case Tomb => this.(tomb := s)
      case Staging => this.(staging := s)
    }
  }

  datatype Status = Active | Retired

  /** How a step ends: it returns, it throws, or the process dies during it. */
  datatype Flow = Done | Failed | Crashed

  /** refused tells whether a precheck outside this model, such as a bound Task, turns the command down. */
  datatype Command = Replace(refused: bool) | Retire | Delete(checkout: bool, refused: bool)

  /** rename(2) of a directory: atomic, and never onto a directory that is not empty. */
  predicate Renamed(before: Disk, after: Disk, source: Path, target: Path, r: Flow) {
    var moved := before.Put(target, before.At(source)).Put(source, Absent);
    && (after == before || (after == moved && before.At(source) != Absent && !before.At(target).Complete?))
    && (r == Done ==> after == moved && before.At(source) != Absent && !before.At(target).Complete?)
    && (r == Failed ==> after == before)
  }

  /** A recursive removal that does not finish may have removed nothing, a part or all. */
  predicate Removed(before: Disk, after: Disk, p: Path, r: Flow) {
    || after == before.Put(p, Absent)
    || (r != Done && (after == before || (before.At(p) != Absent && after == before.Put(p, Partial))))
  }

  /** While the record exists, a complete checkout is registered, or parked where the next run puts it back. */
  predicate Secure(d: Disk, record: Option<Status>) {
    record.Some? ==>
      && (record == Some(Active) ==> d.tomb.Absent?)
      && (|| d.live.Complete?
          || (d.live.Absent? && (d.tomb.Complete? || (d.tomb.Absent? && d.backup.Complete?))))
  }

  /** Some checkout is complete, registered or parked. */
  predicate Any(d: Disk) { d.live.Complete? || d.backup.Complete? || d.tomb.Complete? }

  /** The checkout a run starts from: the registered one, or the parked one when nothing is registered. */
  function Kept(d: Disk, parked: Path): Slot {
    if d.live.Absent? then d.At(parked) else d.live
  }

  /** All that a replace can do beside a partial registered checkout: lose the backup. */
  predicate Stuck(before: Disk, after: Disk) {
    after == before.(backup := after.backup) && (after.backup.Complete? ==> after.backup == before.backup)
  }

  /** The complete checkout parked beside a partial registered one has gone. */
  predicate Destroys(before: Disk, after: Disk, parked: Path) {
    before.live.Partial? && before.At(parked).Complete? && after.At(parked) != before.At(parked)
  }

  predicate Holds(d: Disk, s: Slot, parked: Path) {
    d.live == s || d.At(parked) == s
  }

  /**
   * How both checkouts can be lost: the discard of a promoted clone breaks off partway, and the next heal, finding
   * something at both paths, removes the complete parked one.
   */
  lemma BrokenDiscardThenHealLosesBoth(d: Disk)
    requires d.live.Complete? && d.backup.Complete? && d.tomb.Absent? && !d.staging.Complete?
    ensures Secure(d, Some(Active))
    ensures var broken := d.Put(Live, Partial);
            var healed := broken.Put(Backup, Absent);
            && Removed(d, broken, Live, Failed) && !Secure(broken, Some(Active))
            && Any(broken) && Removed(broken, healed, Backup, Done)
            && forall p: Path :: !healed.At(p).Complete?
  {}

  /** The checkout with this id is registered or parked. */
  predicate Present(d: Disk, k: nat) {
    d.live == Complete(k) || d.backup == Complete(k) || d.tomb == Complete(k)
  }

  predicate Differ(a: Slot, b: Slot) { a.Complete? ==> a != b }

  predicate Distinct(d: Disk) {
    && Differ(d.live, d.backup) && Differ(d.live, d.tomb) && Differ(d.live, d.staging)
    && Differ(d.backup, d.tomb) && Differ(d.backup, d.staging) && Differ(d.tomb, d.staging)
  }

  /** Whatever is registered or parked before still is, but for the checkouts in lost. */
  ghost predicate Keeps(before: Disk, after: Disk, lost: set<nat>) {
    forall k :: Present(before, k) ==> Present(after, k) || k in lost
  }

  /** A promoted clone that was not there before may go again. */
  lemma KeepsOn(before: Disk, mid: Disk, after: Disk, lost: set<nat>)
    requires Keeps(before, mid, lost) && forall k :: Present(mid, k) && mid.live != Complete(k) ==> Present(after, k)
    requires mid.live.Complete? ==> !Present(before, mid.live.id)
    ensures Keeps(before, after, lost)
  {}

  lemma KeepsSame(before: Disk, mid: Disk, after: Disk, lost: set<nat>)
    requires after == mid.(staging := after.staging)
    ensures Keeps(before, after, lost) <==> Keeps(before, mid, lost)
  {}

  lemma KeepsThenAll(before: Disk, mid: Disk, after: Disk, lost: set<nat>)
    requires Keeps(before, mid, lost) && Keeps(mid, after, {})
    ensures Keeps(before, after, lost)
  {}

  lemma KeepsItself(d: Disk, lost: set<nat>)
    ensures Keeps(d, d, lost)
  {}

  /**
   * How a checkout is lost without a commit: the process dies after the swap and before the transaction, and the next
   * heal finds the promoted clone at the registered path.
   */
  lemma CrashAfterSwapThenHealLosesUncommitted(k: nat, clone: nat)
    requires k != clone
    ensures var start := Disk(Complete(k), Absent, Absent, Complete(clone));
            var parked := Disk(Absent, Complete(k), Absent, Complete(clone));
            var swapped := Disk(Complete(clone), Complete(k), Absent, Absent);
            var healed := Disk(Complete(clone), Absent, Absent, Absent);
            && Renamed(start, parked, Live, Backup, Done) && Renamed(parked, swapped, Staging, Live, Crashed)
            && Removed(swapped, healed, Backup, Done)
            && Present(start, k) && Present(swapped, k) && !Present(healed, k)
  {}

  class Home {
    var disk: Disk
    var record: Option<Status>
    var clones: nat
    /** Counts committed replace transactions. */
    ghost var commits: nat
    /** The removal of a promoted clone was once left partway. */
    ghost var partway: bool
    /** Counts the calls that failed or died although nothing modelled here stood in their way. */
    ghost var troubles: nat
    /** The checkouts that a heal removed because it found something at the registered path. */
    ghost var overrun: set<nat>
    /** The process has not died since the running command started. */
    ghost var alive: bool
    /** The git checks that passed, in order. */
    ghost var passed: seq<Path>
    /** A heal removed a complete parked checkout although the registered path held a partial one. */
    ghost var destroyed: bool

    /** Checkouts are told apart by their ids, and an overrun one is gone for good. */
    ghost predicate Valid()
      reads this`disk, this`overrun, this`clones
    {
      && Distinct(disk) && (forall k :: k in overrun ==> k < clones)
      && IsKnown(disk.live) && IsKnown(disk.backup) && IsKnown(disk.tomb) && IsKnown(disk.staging)
    }

    ghost predicate IsKnown(slot: Slot)
      reads this`overrun, this`clones
    {
      slot.Complete? ==> slot.id < clones && slot.id !in overrun
    }

    /** A registered Project with its checkout. */
    constructor ()
      ensures Valid() && disk == Disk(Complete(0), Absent, Absent, Absent) && record == Some(Active) && !partway
      ensures clones == 1 && overrun == {} && !destroyed
    {
      disk, record, clones := Disk(Complete(0), Absent, Absent, Absent), Some(Active), 1;
      commits, partway, troubles, overrun, destroyed, passed, alive := 0, false, 0, {}, false, [], true;
    }

    method Rename(source: Path, target: Path) returns (r: Flow)
      requires source != target
      requires Valid()
      requires alive
      modifies this`alive, this`troubles, this`disk
      ensures alive == (r != Crashed)
      ensures Renamed(old(disk), disk, source, target, r)
      ensures r == Done <==> troubles == old(troubles) && old(disk).At(source) != Absent && !old(disk).At(target).Complete?
      ensures troubles >= old(troubles)
      ensures Valid()
    {
      var dies: bool, works: bool := *, *;
      var possible := disk.At(source) != Absent && !disk.At(target).Complete?;
      if works && possible { disk := disk.Put(target, disk.At(source)).Put(source, Absent); }
      r := if dies then Crashed else if works && possible then Done else Failed;
      if dies || !works { troubles := troubles + 1; }
      alive := !dies;
    }

    method Remove(p: Path) returns (r: Flow)
      requires Valid()
      requires alive
      modifies this`alive, this`troubles, this`disk, this`partway
      ensures alive == (r != Crashed)
      ensures Removed(old(disk), disk, p, r)
      ensures partway == (old(partway) || (p == Live && disk.live.Partial?))
      ensures r == Done <==> troubles == old(troubles)
      ensures troubles >= old(troubles)
      ensures Valid()
    {
      var dies: bool, works: bool, some: bool := *, *, *;
      if works {
        disk := disk.Put(p, Absent);
      } else if some && disk.At(p) != Absent {
        disk := disk.Put(p, Partial);
      }
      partway := partway || (p == Live && disk.live.Partial?);
      r := if dies then Crashed else if works then Done else Failed;
      if r != Done { troubles := troubles + 1; }
      alive := !dies;
    }

    method Clone() returns (r: Flow)
      requires disk.staging.Absent?
      requires Valid()
      requires alive
      modifies this`alive, this`troubles, this`disk, this`clones
      ensures alive == (r != Crashed)
      ensures disk == old(disk).Put(Staging, disk.staging) && clones > old(clones)
      ensures r == Done ==> disk.staging == Complete(old(clones))
      ensures r == Failed ==> !disk.staging.Complete?
      ensures r == Done <==> troubles == old(troubles)
      ensures troubles >= old(troubles)
      ensures Valid()
    {
      var dies: bool, works: bool, some: bool := *, *, *;
      if works {
        disk := disk.(staging := Complete(clones));
      } else if some {
        disk := disk.(staging := Partial);
      }
      clones := clones + 1;
      r := if dies then Crashed else if works then Done else Failed;
      if r != Done { troubles := troubles + 1; }
      alive := !dies;
    }

    /** A git check of a path passes only on a complete checkout. */
    method Inspect(p: Path) returns (r: Flow)
      requires alive
      modifies this`alive, this`troubles, this`passed
      ensures alive == (r != Crashed)
      ensures r == Done ==> disk.At(p).Complete?
      ensures passed == if r == Done then old(passed) + [p] else old(passed)
      ensures r == Done <==> troubles == old(troubles) && disk.At(p).Complete?
      ensures troubles >= old(troubles)
    {
      var dies: bool, works: bool := *, *;
      r := if dies then Crashed else if works && disk.At(p).Complete? then Done else Failed;
      if r == Done { passed := passed + [p]; }
      if dies || !works { troubles := troubles + 1; }
      alive := !dies;
    }

    /** The replace transaction: re-checks the record and saves it again. */
    method CommitReplace() returns (r: Flow)
      requires alive
      modifies this`alive, this`troubles, this`commits
      ensures alive == (r != Crashed)
      ensures r == Done ==> commits == old(commits) + 1
      ensures r == Failed ==> commits == old(commits)
      ensures commits == old(commits) || (commits == old(commits) + 1 && record.Some?)
      ensures r == Done <==> troubles == old(troubles) && record.Some?
      ensures troubles >= old(troubles)
    {
      var dies: bool, works: bool := *, *;
      var possible := record.Some?;
      if works && possible { commits := commits + 1; }
      r := if dies then Crashed else if works && possible then Done else Failed;
      if dies || !works { troubles := troubles + 1; }
      alive := !dies;
    }

    /** removeRetiredProjectRecord; bound Tasks and other refusals are the environment's choice. */
    method RemoveRecord() returns (r: Flow)
      requires alive
      modifies this`alive, this`troubles, this`record
      ensures alive == (r != Crashed)
      ensures record == old(record) || (record == None && old(record) == Some(Retired))
      ensures r == Done ==> record == None && old(record) == Some(Retired)
      ensures r == Failed ==> record == old(record)
      ensures r == Done <==> troubles == old(troubles) && old(record) == Some(Retired)
      ensures troubles >= old(troubles)
    {
      var dies: bool, works: bool := *, *;
      var possible := record == Some(Retired);
      if works && possible { record := None; }
      r := if dies then Crashed else if works && possible then Done else Failed;
      if dies || !works { troubles := troubles + 1; }
      alive := !dies;
    }

    /**
     * healCheckoutSwap. A heal that returns leaves nothing parked. It keeps a complete checkout exactly when the
     * registered path does not hold a partial directory beside a complete parked one: then it removes the parked one.
     */
    method Heal(parked: Path) returns (r: Flow)
      requires parked == Backup || parked == Tomb
      requires Valid()
      requires alive
      modifies this`alive, this`troubles, this`overrun, this`destroyed, this`disk, this`partway
      ensures alive == (r != Crashed)
      ensures partway == old(partway) && disk == old(disk).Put(Live, disk.live).Put(parked, disk.At(parked))
      ensures r == Done ==> disk.At(parked).Absent? && disk.live == Kept(old(disk), parked)
      ensures disk.live == old(disk).live || (disk.live == Kept(old(disk), parked) && disk.At(parked).Absent?)
      ensures disk.live.Absent? ==> disk == old(disk)
      ensures Kept(old(disk), parked).Complete? ==> Holds(disk, Kept(old(disk), parked), parked)
      ensures r == Done && old(disk).At(parked).Complete? ==>
        ((disk.live.Complete? || disk.At(parked).Complete?) <==> !old(disk).live.Partial?)
      ensures r != Done ==> troubles > old(troubles)
      ensures troubles >= old(troubles)
      ensures Valid() && old(overrun) <= overrun && Keeps(old(disk), disk, overrun)
      ensures old(disk).live.Absent? || !old(disk).At(parked).Complete? ==> overrun == old(overrun)
      ensures r == Done && !old(disk).live.Absent? && old(disk).At(parked).Complete? ==>
        overrun == old(overrun) + {old(disk).At(parked).id}
      ensures old(disk).At(parked).Absent? ==> r == Done
      ensures r == Done && old(disk).At(parked).Complete? ==>
        (disk.live == old(disk).At(parked) <==> old(disk).live.Absent?)
      ensures old(disk).live.Partial? ==> disk.live == old(disk).live
      ensures disk.At(parked).Complete? ==> disk.At(parked) == old(disk).At(parked)
      ensures destroyed == (old(destroyed) || Destroys(old(disk), disk, parked))
    {
      if disk.At(parked).Absent? { return Done; }
      if !disk.live.Absent? {
        ghost var removed := disk.At(parked);
        r := Remove(parked);
        if removed.Complete? && disk.At(parked) != removed {
          overrun := overrun + {removed.id};
          destroyed := destroyed || disk.live.Partial?;
        }
        return;
      }
      r := Rename(parked, Live);
    }

    /** swapManagedCheckout with the staging clone. */
    method Swap() returns (r: Flow)
      requires disk.staging.Complete? && disk.live.Complete? && disk.backup.Absent?
      requires Valid()
      requires alive
      modifies this`alive, this`troubles, this`overrun, this`destroyed, this`disk, this`partway
      ensures alive == (r != Crashed)
      ensures partway == old(partway) && disk.tomb == old(disk).tomb
      ensures Holds(disk, old(disk).live, Backup)
      ensures disk.live == old(disk).live || disk.live == old(disk).staging || disk.live.Absent?
      ensures r == Done ==> disk == Disk(old(disk).staging, old(disk).live, old(disk).tomb, Absent)
      ensures r == Failed ==> disk.live == old(disk).live || disk.live.Absent?
      ensures r != Done ==> troubles > old(troubles)
      ensures troubles >= old(troubles)
      ensures r == Failed && disk.live != old(disk).live ==> troubles >= old(troubles) + 2
      ensures r == Failed && disk.live.Absent? ==> disk.staging == old(disk).staging
      ensures Valid() && overrun == old(overrun) && destroyed == old(destroyed) && Keeps(old(disk), disk, {})
    {
      r := Heal(Backup);
      if r != Done { return; }
      r := Rename(Live, Backup);
      if r != Done { return; }
      r := Rename(Staging, Live);
      if r == Failed {
        var back := Rename(Backup, Live);
        if back == Crashed { return Crashed; }
        if back == Failed { return Failed; }
        var discarded := Remove(Staging);
        return if discarded == Crashed then Crashed else Failed;
      }
    }

    /** restoreCheckoutSwap after the transaction refused the promoted clone. */
    method Restore() returns (r: Flow)
      requires disk.backup.Complete?
      requires Valid()
      requires alive
      modifies this`alive, this`troubles, this`disk, this`partway
      ensures alive == (r != Crashed)
      ensures disk.tomb == old(disk).tomb && disk.staging == old(disk).staging && Holds(disk, old(disk).backup, Backup)
      ensures r == Done ==> disk.live == old(disk).backup && disk.backup.Absent?
      ensures partway == (old(partway) || disk.live.Partial?)
      ensures partway || disk.live == old(disk).live || disk.live.Absent? || disk.live == old(disk).backup
      ensures r != Done ==> troubles > old(troubles)
      ensures troubles >= old(troubles)
      ensures r == Failed && disk.live.Absent? ==> troubles > old(troubles)
      ensures Valid() && overrun == old(overrun)
      ensures forall k :: Present(old(disk), k) && old(disk).live != Complete(k) ==> Present(disk, k)
    {
      r := Remove(Live);
      if r != Done { return; }
      r := Rename(Backup, Live);
    }

    /** replaceProject up to and including the swap: heal, prechecks, clone, verification, swap. */
    method Prepare() returns (r: Flow, prepared: bool, cloning: bool)
      requires record == Some(Active)
      requires Valid()
      requires alive
      modifies this`alive, this`troubles, this`overrun, this`destroyed, this`disk, this`partway, this`clones, this`passed
      ensures alive == (r != Crashed)
      ensures partway == old(partway) && clones >= old(clones) && disk.tomb == old(disk).tomb
      ensures Kept(old(disk), Backup).Complete? ==> Holds(disk, Kept(old(disk), Backup), Backup)
      ensures disk.live.Partial? ==> old(disk).live.Partial? || old(disk).backup.Partial?
      ensures r == Done ==> disk.backup.Complete? && disk.live.Complete? && disk.live.id >= old(clones)
                            && disk.backup == Kept(old(disk), Backup)
      ensures Secure(old(disk), record) ==> Secure(disk, record)
      ensures r != Done ==> troubles > old(troubles) || !Kept(old(disk), Backup).Complete?
      ensures troubles >= old(troubles)
      ensures r == Failed && troubles <= old(troubles) + 1 ==>
        disk.live == old(disk).live || disk.live == Kept(old(disk), Backup)
      ensures (prepared ==> cloning) && (cloning ==> Kept(old(disk), Backup).Complete?) && (r == Done ==> disk.staging.Absent?)
      ensures r == Done ==> passed == old(passed) + [Live, Staging, Live]
      ensures r == Failed && !prepared && disk.staging.Complete? ==> disk.staging == old(disk).staging
      ensures Valid() && old(overrun) <= overrun && Keeps(old(disk), disk, overrun)
      ensures old(disk).live.Partial? ==> r != Done && !cloning && Stuck(old(disk), disk)
      ensures destroyed == (old(destroyed) || Destroys(old(disk), disk, Backup))
    {
      hide Valid, Keeps;
      ghost var start := disk;
      prepared, cloning := false, false;
      r := Heal(Backup);
      if r != Done { return; }
      r := Inspect(Live);
      if r != Done { return; }
      if !disk.staging.Absent? {
        ghost var healed := disk;
        r := Discard();
        KeepsSame(start, healed, disk, overrun);
        if r != Done { return; }
      }
      cloning := true;
      ghost var inspected := disk;
      r, prepared := CloneAndSwap();
      KeepsThenAll(start, inspected, disk, overrun);
    }

    /** Removes what the staging path holds. */
    method Discard() returns (r: Flow)
      requires Valid()
      requires alive
      modifies this`alive, this`troubles, this`disk, this`partway
      ensures alive == (r != Crashed)
      ensures Valid() && partway == old(partway) && disk == old(disk).(staging := disk.staging)
      ensures r == Done ==> disk.staging.Absent?
      ensures (r == Done <==> troubles == old(troubles)) && troubles >= old(troubles)
      ensures disk.staging.Complete? ==> disk.staging == old(disk).staging
    {
      r := Remove(Staging);
    }

    /** The part of replaceProject whose failure discards the clone: clone, verification, swap. */
    method CloneAndSwap() returns (r: Flow, prepared: bool)
      requires Valid() && disk.live.Complete? && disk.backup.Absent? && disk.staging.Absent?
      requires alive
      modifies this`alive, this`troubles, this`overrun, this`destroyed, this`disk, this`partway, this`clones, this`passed
      ensures alive == (r != Crashed)
      ensures Valid() && overrun == old(overrun) && destroyed == old(destroyed) && Keeps(old(disk), disk, {})
      ensures partway == old(partway) && clones >= old(clones) && disk.tomb == old(disk).tomb
      ensures Holds(disk, old(disk).live, Backup) && !disk.live.Partial?
      ensures r == Done ==>
        && disk.backup == old(disk).live && disk.live.Complete? && disk.live.id >= old(clones) && disk.staging.Absent?
      ensures r == Failed && troubles == old(troubles) + 1 ==> disk.live == old(disk).live
      ensures (r != Done ==> troubles > old(troubles)) && troubles >= old(troubles)
      ensures r == Failed && !prepared ==> !disk.staging.Complete?
      ensures r == Done ==> passed == old(passed) + [Staging, Live]
    {
      prepared := false;
      r := Clone();
      if r != Done { return; }
      prepared := true;
      r := Inspect(Staging);
      if r != Done { return; }
      r := Inspect(Live);
      if r != Done { return; }
      r := Swap();
    }

    /**
     * replaceProject. Until its transaction commits, the checkout it started from is never destroyed, whatever fails;
     * if it was registered, a single failure leaves it registered. A replace that returns has committed and registered a
     * fresh clone.
     */
    method ReplaceCheckout(refused: bool) returns (r: Flow)
      requires Valid()
      modifies this`alive, this`troubles, this`overrun, this`destroyed, this`disk, this`partway, this`clones, this`commits, this`passed
      ensures alive == (r != Crashed)
      ensures commits == old(commits) && Kept(old(disk), Backup).Complete? ==> Holds(disk, Kept(old(disk), Backup), Backup)
      ensures r == Done ==> commits == old(commits) + 1 && disk.live.Complete? && disk.live.id >= old(clones)
      ensures r == Done ==> Kept(old(disk), Backup).Complete?
      ensures old(partway) ==> partway
      ensures partway ==> old(partway) || disk.live.Partial?
      ensures Secure(old(disk), record) ==> partway || Secure(disk, record)
      ensures r != Done ==> troubles > old(troubles) || record != Some(Active) || refused || !Kept(old(disk), Backup).Complete?
      ensures refused || record != Some(Active) ==> r == Failed && disk == old(disk) && commits == old(commits)
      ensures r == Failed && commits == old(commits) && troubles <= old(troubles) + 1 ==>
        disk.live == old(disk).live || disk.live == Kept(old(disk), Backup)
      ensures r == Done && troubles == old(troubles) ==> disk.backup.Absent? && disk.staging.Absent?
      ensures Valid() && old(overrun) <= overrun && commits >= old(commits)
      ensures commits == old(commits) ==> Keeps(old(disk), disk, overrun)
      ensures old(disk).live.Partial? ==> commits == old(commits) && Stuck(old(disk), disk)
      ensures disk.tomb == old(disk).tomb
      ensures partway && !old(partway) ==> commits == old(commits) && disk.backup.Complete?
      ensures record.Some? && Secure(old(disk), record) ==> Any(disk)
      ensures destroyed == (old(destroyed) || Destroys(old(disk), disk, Backup))
      ensures r == Failed && troubles <= old(troubles) + 1 && disk.staging.Complete? ==> disk.staging == old(disk).staging
      ensures r == Done ==> passed == old(passed) + [Live, Staging, Live, Live]
    {
      assert forall k: nat :: Present(disk, k) ==> k < clones;
      hide Valid, Keeps, Stuck;
      alive := true;
      KeepsItself(disk, overrun);
      if record != Some(Active) || refused { return Failed; }
      var prepared: bool, cloning: bool;
      r, prepared, cloning := Prepare();
      if r == Crashed || (r == Failed && !cloning) { return; }
      if r == Done {
        ghost var swapped := disk;
        r := Finish();
        if commits == old(commits) { KeepsOn(old(disk), swapped, disk, overrun); }
        if r == Crashed { return; }
      }
      if r == Failed && prepared && !disk.staging.Absent? {
        ghost var failed := disk;
        var discarded := Discard();
        KeepsSame(old(disk), failed, disk, overrun);
        if discarded == Crashed { return Crashed; }
      }
    }

    /** replaceProject from the transaction on. */
    method Finish() returns (r: Flow)
      requires record.Some? && disk.backup.Complete? && disk.live.Complete?
      requires Valid()
      requires alive
      modifies this`alive, this`troubles, this`disk, this`partway, this`commits, this`passed
      ensures alive == (r != Crashed)
      ensures disk.tomb == old(disk).tomb && disk.staging == old(disk).staging
      ensures commits == old(commits) ==> Holds(disk, old(disk).backup, Backup)
      ensures r == Done ==> commits == old(commits) + 1 && disk.live == old(disk).live
      ensures partway == (old(partway) || disk.live.Partial?)
      ensures partway || disk.live.Complete? || (disk.live.Absent? && disk.backup.Complete?)
      ensures r != Done ==> troubles > old(troubles)
      ensures troubles >= old(troubles)
      ensures r == Failed && commits == old(commits) && troubles <= old(troubles) + 1 ==> disk.live == old(disk).backup
      ensures r == Done && troubles == old(troubles) ==> disk == old(disk).(backup := Absent)
      ensures Valid() && overrun == old(overrun) && commits >= old(commits)
      ensures commits == old(commits) ==>
        forall k :: Present(old(disk), k) && old(disk).live != Complete(k) ==> Present(disk, k)
      ensures disk.live.Complete? || disk.backup.Complete?
      ensures r == Done ==> passed == old(passed) + [Live]
      ensures partway && !old(partway) ==> commits == old(commits) && disk.backup.Complete?
    {
      r := CommitReplace();
      if r == Crashed { return; }
      if r == Failed {
        var restored := Restore();
        return if restored == Crashed then Crashed else Failed;
      }
      var cleaned := Remove(Backup);
      if cleaned == Crashed { return Crashed; }
      r := Inspect(Live);
    }

    /** The checkout half of a delete: heal, prechecks, park under the tombstone. */
    method ParkForDelete() returns (r: Flow)
      requires record == Some(Retired)
      requires Valid()
      requires alive
      modifies this`alive, this`troubles, this`overrun, this`destroyed, this`disk, this`partway, this`passed
      ensures alive == (r != Crashed)
      ensures partway == old(partway) && disk.backup == old(disk).backup
      ensures Kept(old(disk), Tomb).Complete? ==> Holds(disk, Kept(old(disk), Tomb), Tomb)
      ensures Secure(old(disk), record) ==> Secure(disk, record)
      ensures r == Done ==> disk.live.Absent? && disk.tomb == Kept(old(disk), Tomb)
      ensures r != Done ==> troubles > old(troubles) || Kept(old(disk), Tomb).Partial?
      ensures troubles >= old(troubles)
      ensures r == Failed && troubles <= old(troubles) + 1 ==>
        disk.live == old(disk).live || disk.live == Kept(old(disk), Tomb)
      ensures Valid() && old(overrun) <= overrun && Keeps(old(disk), disk, overrun)
      ensures old(disk).live.Partial? ==> disk.live == old(disk).live
      ensures old(disk).live.Partial? && old(disk).tomb.Absent? ==> disk == old(disk)
      ensures destroyed == (old(destroyed) || Destroys(old(disk), disk, Tomb))
      ensures r == Done ==> passed == old(passed) + if Kept(old(disk), Tomb).Absent? then [] else [Live]
    {
      r := Heal(Tomb);
      if r != Done { return; }
      if !disk.live.Absent? {
        r := Inspect(Live);
        if r != Done { return; }
        r := Rename(Live, Tomb);
      }
    }

    /**
     * deleteProjectCommand. While the record stands, the checkout it started from is registered or parked under the
     * tombstone; if it was registered, a single failure leaves it registered.
     */
    method DeleteProject(checkout: bool, refused: bool) returns (r: Flow)
      requires Valid()
      modifies this`alive, this`troubles, this`overrun, this`destroyed, this`disk, this`partway, this`record, this`passed
      ensures alive == (r != Crashed)
      ensures partway == old(partway)
      ensures record == old(record) || (record == None && old(record) == Some(Retired))
      ensures r == Done ==> record == None && old(record) == Some(Retired)
      ensures !checkout || old(record) != Some(Retired) ==> disk == old(disk)
      ensures record.Some? && Kept(old(disk), Tomb).Complete? ==> Holds(disk, Kept(old(disk), Tomb), Tomb)
      ensures r == Done && checkout ==> disk.live.Absent?
      ensures Secure(old(disk), old(record)) ==> Secure(disk, record)
      ensures r != Done ==>
        troubles > old(troubles) || old(record) != Some(Retired) || refused || (checkout && Kept(old(disk), Tomb).Partial?)
      ensures refused || old(record) != Some(Retired) ==> r == Failed && disk == old(disk) && record == old(record)
      ensures r == Failed && troubles <= old(troubles) + 1 ==>
        record == old(record) && (disk.live == old(disk).live || disk.live == Kept(old(disk), Tomb))
      ensures r == Done && checkout && troubles == old(troubles) ==> disk.tomb.Absent?
      ensures Valid() && old(overrun) <= overrun && (record.Some? ==> Keeps(old(disk), disk, overrun))
      ensures old(disk).live.Partial? ==> disk.live == old(disk).live
      ensures old(disk).live.Partial? && old(disk).tomb.Absent? ==> disk == old(disk)
      ensures !old(disk).live.Partial? || old(disk).tomb.Absent? || old(record) != Some(Retired) ==>
        destroyed == old(destroyed)
      ensures r == Done && checkout ==> passed == old(passed) + if Kept(old(disk), Tomb).Absent? then [] else [Live]
    {
      alive := true;
      if record != Some(Retired) || refused { return Failed; }
      if !checkout {
        r := RemoveRecord();
        return;
      }
      r := ParkForDelete();
      if r != Done { return; }
      r := RemoveRecord();
      if r == Crashed { return; }
      if r == Failed {
        if !disk.tomb.Absent? && disk.live.Absent? {
          var back := Rename(Tomb, Live);
          if back == Crashed { return Crashed; }
        }
        return Failed;
      }
      if !disk.tomb.Absent? {
        var cleaned := Remove(Tomb);
        if cleaned == Crashed { return Crashed; }
      }
    }

    /** retireProjectCommand: one transaction on the record. */
    method RetireProject() returns (r: Flow)
      modifies this`alive, this`troubles, this`record
      ensures alive == (r != Crashed)
      ensures record == old(record) || (record == Some(Retired) && old(record) == Some(Active))
      ensures r == Done ==> record == Some(Retired) && old(record) == Some(Active)
      ensures r == Failed ==> record == old(record)
      ensures r == Done <==> troubles == old(troubles) && old(record) == Some(Active)
      ensures troubles >= old(troubles)
    {
      var dies: bool, works: bool := *, *;
      var possible := record == Some(Active);
      if works && possible { record := Some(Retired); }
      r := if dies then Crashed else if works && possible then Done else Failed;
      if dies || !works { troubles := troubles + 1; }
      alive := !dies;
    }

    /**
     * Any sequence of commands, each of which may fail or die anywhere. While the record exists, some complete checkout is
     * registered or parked exactly when no heal removed a parked one beside a partial one, and it is there for the next
     * run to put back exactly when no removal of a promoted clone was left partway. And while no replace commits, a
     * checkout from the start is gone exactly when a heal removed it beside something at the registered path.
     */
    method History(commands: seq<Command>)
      requires Valid() && Secure(disk, record) && !partway && !destroyed
      modifies this
      ensures Valid()
      ensures record.Some? ==> (Any(disk) <==> !destroyed)
      ensures record.Some? ==> (Secure(disk, record) <==> !partway)
      ensures destroyed ==> partway
      ensures record.Some? && commits == old(commits) ==>
        forall k :: Present(old(disk), k) ==> (Present(disk, k) <==> k !in overrun)
    {
      for i := 0 to |commands|
        invariant Valid() && commits >= old(commits)
        invariant (partway || Secure(disk, record)) && (destroyed ==> partway)
        invariant partway && record.Some? ==>
          disk.live.Partial? && disk.tomb.Absent? && (disk.backup.Complete? <==> !destroyed)
        invariant record.Some? && commits == old(commits) ==> Keeps(old(disk), disk, overrun)
      {
        var outcome: Flow;
        match commands[i] {
          case Replace(refused) => outcome := ReplaceCheckout(refused);
          case Retire => outcome := RetireProject();
          case Delete(checkout, refused) => outcome := DeleteProject(checkout, refused);
        }
      }
    }
  }
}
