/** Moving one staged entry into place, and taking installed entries back, under a pending record. */
module Installation {
  import opened Disks
  import opened Custody
  import opened Directories
  import opened Recovery

  /** _same_artifact_identity: inode, size and modification time (the device is the directory's). */
  predicate SameIdentity(a: Binding, b: Binding) {
    a.ino == b.ino && |a.file.data| == |b.file.data| && a.file.mtime == b.file.mtime
  }

  /** A staged entry nobody has touched: the target is as recorded and no name is displaced. */
  predicate Untouched(d: Disk, e: Entry) {
    && At(d, e.temporary) == Some(e.candidate.ino) && At(d, e.displaced) == None && At(d, e.failed) == None
    && match e.preimage
       case None => At(d, e.target) == None
       case Some(p) => At(d, e.target) == Some(p.original.ino) && At(d, p.rollback) == Some(p.copy.ino)
  }

  lemma Moving(base: map<Name, Content>, d: Disk, i: nat)
    requires Good(base, d) && d.journal.Some? && d.journal.value.phase.Pending? && i < |d.journal.value.entries|
    requires d.journal.value.entries[i].preimage.Some? && Untouched(d, d.journal.value.entries[i])
    ensures
      var e := d.journal.value.entries[i];
      var b := Renamed(d, e.target, e.displaced);
      && Good(base, b) && At(b, e.target) == None
      && At(b, e.displaced) == Some(e.preimage.value.original.ino)
      && At(b, e.temporary) == Some(e.candidate.ino)
  {
    var e := d.journal.value.entries[i];
    assert WellFormedEntry(e) && Safe(d, e);
    EntryStep(base, d, Renamed(d, e.target, e.displaced), i);
  }

  lemma MovingBack(base: map<Name, Content>, d: Disk, i: nat)
    requires Good(base, d) && d.journal.Some? && d.journal.value.phase.Pending? && i < |d.journal.value.entries|
    requires
      var e := d.journal.value.entries[i];
      && e.preimage.Some? && At(d, e.target) == None
      && At(d, e.displaced) == Some(e.preimage.value.original.ino)
    ensures
      var e := d.journal.value.entries[i];
      && Good(base, Linked(d, e.displaced, e.target))
      && Good(base, Unlinked(Linked(d, e.displaced, e.target), e.displaced))
  {
    var e := d.journal.value.entries[i];
    assert WellFormedEntry(e) && Safe(d, e);
    EntryStep(base, d, Linked(d, e.displaced, e.target), i);
    EntryStep(base, d, Unlinked(Linked(d, e.displaced, e.target), e.displaced), i);
  }

  lemma LinkingCandidate(base: map<Name, Content>, d: Disk, i: nat)
    requires Good(base, d) && d.journal.Some? && d.journal.value.phase.Pending? && i < |d.journal.value.entries|
    requires
      var e := d.journal.value.entries[i];
      && At(d, e.target) == None && At(d, e.temporary) == Some(e.candidate.ino)
      && (e.preimage.Some? ==> At(d, e.displaced) == Some(e.preimage.value.original.ino))
      && (e.preimage.Some? ==> At(d, e.preimage.value.rollback) == Some(e.preimage.value.copy.ino))
    ensures
      var e := d.journal.value.entries[i];
      Good(base, Linked(d, e.temporary, e.target))
  {
    var e := d.journal.value.entries[i];
    assert WellFormedEntry(e) && Safe(d, e);
    EntryStep(base, d, Linked(d, e.temporary, e.target), i);
  }

  /** While the candidate is public, its other aliases may go. */
  lemma DroppingSpent(base: map<Name, Content>, d: Disk, i: nat, n: Name)
    requires Good(base, d) && d.journal.Some? && d.journal.value.phase.Pending? && i < |d.journal.value.entries|
    requires
      var e := d.journal.value.entries[i];
      && (n == e.temporary || (At(d, e.target) == Some(e.candidate.ino) && n == e.displaced))
    ensures Good(base, Unlinked(d, n))
  {
    var e := d.journal.value.entries[i];
    assert WellFormedEntry(e) && Safe(d, e);
    InEntry(e);
    EntryStep(base, d, Unlinked(d, n), i);
  }

  /** Take the original off the public name and make sure it is the one staged; if anything goes wrong,
      whatever was moved is given back. `broken` reports that giving back failed. */
  method Displace(dir: Directory, i: nat) returns (r: Outcome, broken: bool)
    requires dir.Valid() && InForce(dir, i)
    requires var e := dir.disk.journal.value.entries[i];
      e.preimage.Some? && At(dir.disk, e.displaced) == None && (!dir.noisy ==> Untouched(dir.disk, e))
    modifies dir`disk, dir`recent, dir`seen, dir`next, dir`log, dir`ops, dir`lost, dir`returned
    ensures dir.Valid()
    ensures r == Done || r == Raised || r == Died
    ensures broken ==> r.Raised?
    ensures var e := old(dir.disk).journal.value.entries[i];
      && Ran(dir.noisy, {e.target, e.displaced}, old(dir.Here()), dir.Here())
      && (r.Done? ==> At(dir.disk, e.displaced) == Some(e.preimage.value.original.ino))
      && (!dir.noisy && r.Done? ==> At(dir.disk, e.target) == None)
      && (!dir.noisy && r.Raised? && !broken ==> Restored(dir.disk, e))
    ensures !dir.noisy && r.Raised? ==> dir.Faulted(old(dir.log))
    ensures !dir.noisy && r.Raised? && dir.log.raises == old(dir.log).raises + 1 ==>
      var e := old(dir.disk).journal.value.entries[i];
      (broken <==> dir.log.last.Renaming?) && Restored(dir.disk, e) && At(dir.disk, e.displaced) == None
  {
    hide Good;
    hide WellFormed;
    hide dir.Valid;
    hide dir.Trail;
    hide Ran;
    var e := dir.disk.journal.value.entries[i];
    ghost var a, S := dir.Here(), {e.target, e.displaced};
    Known(dir, i);
    if !dir.noisy { Moving(dir.base, a.disk, i); }
    broken := false;
    r := dir.Rename(e.target, e.displaced);
    RenameRan(dir, e.target, e.displaced, a);
    if r.Died? { return; }
    if r.Done? {
      ghost var b := dir.Here();
      var same;
      same := MovedIsStaged(dir, e);
      RanTrans(dir.noisy, S, {}, S, a, b, dir.Here());
      RanAt(dir.noisy, {}, b, dir.Here(), e.displaced);
      if same { return; }
      if !dir.noisy { MovingBack(dir.base, dir.disk, i); }
    }
    ghost var c := dir.Here();
    r := Restore(dir, e.displaced, e.target);
    RanTrans(dir.noisy, S, {e.displaced, e.target}, S, a, c, dir.Here());
    broken := r.Raised?;
    if r.Done? { r := Raised; }
  }

  /** The checks on the moved file: identity as staged, contents as copied. */
  method MovedIsStaged(dir: Directory, e: Entry) returns (same: bool)
    requires dir.Valid() && e.preimage.Some? && WellFormedEntry(e)
    modifies dir`disk, dir`recent, dir`seen, dir`next, dir`log
    ensures dir.Valid() && Ran(dir.noisy, {}, old(dir.Here()), dir.Here())
    ensures !dir.noisy ==> dir.disk == old(dir.disk)
    ensures same ==> At(dir.disk, e.displaced) == Some(e.preimage.value.original.ino)
    ensures NoRename(old(dir.log), dir.log)
    ensures !dir.noisy && WellBound(e) && Holds(dir.disk, e.displaced, e.preimage.value.original) && !same ==>
      !Holds(dir.disk, e.preimage.value.rollback, e.preimage.value.copy) || dir.Faulted(old(dir.log))
  {
    hide Good;
    hide WellFormed;
    hide dir.Valid;
    hide dir.Trail;
    hide Ran;
    ghost var a := dir.Here();
    var r, moved := dir.Bind(e.displaced);
    LookRan(dir, a);
    if !r.Done? || !SameIdentity(e.preimage.value.original, moved) { return false; }
    ghost var b := dir.Here();
    var copy;
    r, copy := dir.Bind(e.preimage.value.rollback);
    LookRan(dir, b);
    RanTrans(dir.noisy, {}, {}, {}, a, b, dir.Here());
    RanAt(dir.noisy, {}, b, dir.Here(), e.displaced);
    same := r.Done? && moved.file.data == copy.file.data;
  }

  /** Link the candidate to the freed public name, or else give the displaced original back. */
  method PlaceCandidate(dir: Directory, i: nat) returns (r: Outcome, broken: bool)
    requires dir.Valid() && InForce(dir, i)
    requires var e := dir.disk.journal.value.entries[i];
      && Only(dir.disk, e.temporary, e.candidate.ino)
      && (e.preimage.Some? ==> Only(dir.disk, e.displaced, e.preimage.value.original.ino))
      && (!dir.noisy ==> ReadyToPlace(dir.disk, e))
    modifies dir`disk, dir`recent, dir`seen, dir`next, dir`log, dir`ops, dir`lost, dir`returned
    ensures dir.Valid()
    ensures r == Done || r == Raised || r == Died
    ensures broken ==> r.Raised?
    ensures var e := old(dir.disk).journal.value.entries[i];
      && Ran(dir.noisy, {e.target, e.displaced}, old(dir.Here()), dir.Here())
      && (r.Done? ==> At(dir.disk, e.displaced) == At(old(dir.disk), e.displaced))
      && (!dir.noisy && r.Done? ==> At(dir.disk, e.target) == Some(e.candidate.ino))
      && (!dir.noisy && r.Raised? && !broken ==> Restored(dir.disk, e))
    ensures !dir.noisy && r.Raised? ==> dir.Faulted(old(dir.log))
    ensures NoRename(old(dir.log), dir.log)
    ensures !dir.noisy && r.Raised? && dir.log.raises == old(dir.log).raises + 1 ==>
      var e := old(dir.disk).journal.value.entries[i];
      !broken && Restored(dir.disk, e) && At(dir.disk, e.displaced) == None
  {
    hide Good;
    hide WellFormed;
    hide dir.Valid;
    hide dir.Trail;
    hide Ran;
    var e := dir.disk.journal.value.entries[i];
    ghost var a, S := dir.Here(), {e.target, e.displaced};
    Known(dir, i);
    broken := false;
    if !dir.noisy { LinkingCandidate(dir.base, a.disk, i); }
    r := dir.Link(e.temporary, e.target);
    LinkRan(dir, e.temporary, e.target, a);
    ghost var b := dir.Here();
    RanAt(dir.noisy, {e.target}, a, b, e.displaced);
    RanWiden(dir.noisy, {e.target}, S, a, b);
    if r.Done? || r.Died? { return; }
    if e.preimage.None? { r := Failure(r); return; }
    if !dir.noisy { MovingBack(dir.base, b.disk, i); }
    r := Restore(dir, e.displaced, e.target);
    RanTrans(dir.noisy, S, {e.displaced, e.target}, S, a, b, dir.Here());
    broken := r.Raised?;
    if r.Done? { r := Raised; }
  }

  predicate ReadyToPlace(d: Disk, e: Entry) {
    && At(d, e.target) == None && At(d, e.temporary) == Some(e.candidate.ino)
    && match e.preimage
       case None => true
       case Some(p) => At(d, e.displaced) == Some(p.original.ino) && At(d, p.rollback) == Some(p.copy.ino)
  }

  /** After the link: check what is public, drop the temporary, and in any case the displaced original. */
  method FinishInstall(dir: Directory, i: nat, displaced: bool) returns (r: Outcome)
    requires dir.Valid() && InForce(dir, i)
    requires var e := dir.disk.journal.value.entries[i];
      && Only(dir.disk, e.temporary, e.candidate.ino)
      && (displaced ==> e.preimage.Some? && Only(dir.disk, e.displaced, e.preimage.value.original.ino))
      && (!dir.noisy ==> At(dir.disk, e.target) == Some(e.candidate.ino) && At(dir.disk, e.temporary) != None)
    modifies dir`disk, dir`recent, dir`seen, dir`next, dir`log, dir`ops, dir`lost
    ensures dir.Valid()
    ensures r == Done || r == Raised || r == Died
    ensures var e := old(dir.disk).journal.value.entries[i];
      && Ran(dir.noisy, {e.temporary, e.displaced}, old(dir.Here()), dir.Here())
      && (At(dir.disk, e.temporary) == None || At(dir.disk, e.temporary) == At(old(dir.disk), e.temporary))
      && (r.Done? ==> At(dir.disk, e.temporary) == None)
      && (r.Done? && displaced ==> At(dir.disk, e.displaced) == None)
      && (!displaced ==> At(dir.disk, e.displaced) == At(old(dir.disk), e.displaced))
    ensures !dir.noisy && r.Raised? ==> dir.Faulted(old(dir.log))
    ensures NoRename(old(dir.log), dir.log)
    ensures r.Raised? && displaced && dir.log.raises == old(dir.log).raises + 1 && !dir.log.last.Unlinking? ==>
      At(dir.disk, old(dir.disk).journal.value.entries[i].displaced) == None
  {
    hide Good;
    hide WellFormed;
    hide dir.Valid;
    hide dir.Trail;
    hide Ran;
    var e := dir.disk.journal.value.entries[i];
    ghost var a, S := dir.Here(), {e.temporary, e.displaced};
    Known(dir, i);
    r := DropTemporary(dir, i);
    ghost var b := dir.Here();
    RanAt(dir.noisy, {e.temporary}, a, b, e.displaced);
    RanWiden(dir.noisy, {e.temporary}, S, a, b);
    if !dir.noisy { RanAt(dir.noisy, {e.temporary}, a, b, e.target); }
    if r.Died? || !displaced { return; }
    var v := DropDisplaced(dir, i);
    RanAt(dir.noisy, {e.displaced}, b, dir.Here(), e.temporary);
    RanTrans(dir.noisy, {e.temporary}, {e.displaced}, S, a, b, dir.Here());
    if !v.Done? { r := v; }
  }

  method DropTemporary(dir: Directory, i: nat) returns (r: Outcome)
    requires dir.Valid() && InForce(dir, i)
    requires var e := dir.disk.journal.value.entries[i];
      && Only(dir.disk, e.temporary, e.candidate.ino)
      && (!dir.noisy ==> At(dir.disk, e.target) == Some(e.candidate.ino) && At(dir.disk, e.temporary) != None)
    modifies dir`disk, dir`recent, dir`seen, dir`next, dir`log, dir`ops, dir`lost
    ensures dir.Valid()
    ensures r == Done || r == Raised || r == Died
    ensures var e := old(dir.disk).journal.value.entries[i];
      && Ran(dir.noisy, {e.temporary}, old(dir.Here()), dir.Here())
      && (At(dir.disk, e.temporary) == None || At(dir.disk, e.temporary) == At(old(dir.disk), e.temporary))
      && (r.Done? ==> At(dir.disk, e.temporary) == None)
    ensures !dir.noisy && r.Raised? ==> dir.Faulted(old(dir.log))
    ensures NoRename(old(dir.log), dir.log)
  {
    hide Good;
    hide WellFormed;
    hide dir.Valid;
    hide dir.Trail;
    hide Ran;
    var e := dir.disk.journal.value.entries[i];
    ghost var a, S := dir.Here(), {e.temporary};
    Known(dir, i);
    var v, installed := dir.Bind(e.target);
    LookRan(dir, a);
    ghost var b := dir.Here();
    RanAt(dir.noisy, {}, a, b, e.temporary);
    RanWiden(dir.noisy, {}, S, a, b);
    if !v.Done? || !SameIdentity(e.candidate, installed) { return Raised; }
    if !dir.noisy { DroppingSpent(dir.base, b.disk, i, e.temporary); }
    Known(dir, i);
    r := dir.Unlink(e.temporary);
    UnlinkRan(dir, e.temporary, b);
    RanTrans(dir.noisy, {}, S, S, a, b, dir.Here());
    if !r.Done? { r := Failure(r); }
  }

  /** The inner finally: a missing name is fine here. */
  method DropDisplaced(dir: Directory, i: nat) returns (r: Outcome)
    requires dir.Valid() && InForce(dir, i)
    requires var e := dir.disk.journal.value.entries[i];
      && e.preimage.Some? && Only(dir.disk, e.displaced, e.preimage.value.original.ino)
      && (!dir.noisy ==> At(dir.disk, e.target) == Some(e.candidate.ino))
    modifies dir`disk, dir`recent, dir`seen, dir`next, dir`log, dir`ops, dir`lost
    ensures dir.Valid()
    ensures r == Done || (r == Raised && dir.Raising(old(dir.log), Unlinking)) || r == Died
    ensures NoRename(old(dir.log), dir.log)
    ensures var e := old(dir.disk).journal.value.entries[i];
      && Ran(dir.noisy, {e.displaced}, old(dir.Here()), dir.Here())
      && (r.Done? ==> At(dir.disk, e.displaced) == None)
  {
    hide Good;
    hide WellFormed;
    hide dir.Valid;
    hide dir.Trail;
    hide Ran;
    var e := dir.disk.journal.value.entries[i];
    ghost var a := dir.Here();
    Known(dir, i);
    if !dir.noisy { DroppingSpent(dir.base, a.disk, i, e.displaced); }
    r := dir.Unlink(e.displaced);
    UnlinkRan(dir, e.displaced, a);
    if r.Missing? { r := Done; }
  }

  /** Neither the temporary nor the displaced name is left. */
  predicate Placed(d: Disk, e: Entry) {
    At(d, e.temporary) == None && At(d, e.displaced) == None
  }

  /** One target of a publication. `published` is what the caller must take back on a failure. */
  method InstallEntry(dir: Directory, i: nat) returns (r: Outcome, broken: bool, published: bool)
    requires dir.Valid() && InForce(dir, i)
    requires var e := dir.disk.journal.value.entries[i];
      && Only(dir.disk, e.temporary, e.candidate.ino) && At(dir.disk, e.displaced) == None
      && (!dir.noisy ==> Untouched(dir.disk, e))
    modifies dir`disk, dir`recent, dir`seen, dir`next, dir`log, dir`ops, dir`lost, dir`returned
    ensures dir.Valid()
    ensures r == Done || r == Raised || r == Died
    ensures broken ==> r.Raised?
    ensures r.Done? ==> published
    ensures var e := old(dir.disk).journal.value.entries[i];
      && Ran(dir.noisy, {e.target, e.temporary, e.displaced}, old(dir.Here()), dir.Here())
      && (At(dir.disk, e.temporary) == None || At(dir.disk, e.temporary) == At(old(dir.disk), e.temporary))
      && (r.Done? ==> Placed(dir.disk, e))
      && (!dir.noisy && published ==> At(dir.disk, e.target) == Some(e.candidate.ino))
      && (!dir.noisy && r.Raised? && !published && !broken ==> Restored(dir.disk, e))
    ensures !dir.noisy && r.Raised? ==> dir.Faulted(old(dir.log))
    ensures !dir.noisy && r.Raised? && dir.log.raises == old(dir.log).raises + 1 ==>
      var e := old(dir.disk).journal.value.entries[i];
      && (broken <==> dir.log.last.Renaming?) && (published || Restored(dir.disk, e))
      && (!dir.log.last.Unlinking? ==> At(dir.disk, e.displaced) == None)
  {
    hide Good;
    hide WellFormed;
    hide dir.Valid;
    hide dir.Trail;
    hide Ran;
    var e := dir.disk.journal.value.entries[i];
    ghost var a, S := dir.Here(), {e.target, e.temporary, e.displaced};
    Known(dir, i);
    broken, published := false, false;
    var status;
    r, status := dir.Bind(e.temporary);
    LookRan(dir, a);
    ghost var b := dir.Here();
    RanAt(dir.noisy, {}, a, b, e.displaced);
    RanAt(dir.noisy, {}, a, b, e.temporary);
    RanWiden(dir.noisy, {}, S, a, b);
    if !r.Done? { r := Raised; return; }
    r, broken := Prepare(dir, i);
    ghost var c := dir.Here();
    RanTrans(dir.noisy, {}, {e.target, e.displaced}, S, a, b, c);
    RanAt(dir.noisy, {e.target, e.displaced}, b, c, e.temporary);
    if !r.Done? { return; }
    r, broken := PlaceCandidate(dir, i);
    ghost var d := dir.Here();
    RanTrans(dir.noisy, S, {e.target, e.displaced}, S, a, c, d);
    RanAt(dir.noisy, {e.target, e.displaced}, c, d, e.temporary);
    if !r.Done? { return; }
    published := true;
    r := FinishInstall(dir, i, e.preimage.Some?);
    RanTrans(dir.noisy, S, {e.temporary, e.displaced}, S, a, d, dir.Here());
    if !dir.noisy { RanAt(dir.noisy, {e.temporary, e.displaced}, d, dir.Here(), e.target); }
  }

  /** An original is displaced; an absent one leaves nothing to do. */
  method Prepare(dir: Directory, i: nat) returns (r: Outcome, broken: bool)
    requires dir.Valid() && InForce(dir, i)
    requires var e := dir.disk.journal.value.entries[i];
      At(dir.disk, e.displaced) == None && (!dir.noisy ==> Untouched(dir.disk, e))
    modifies dir`disk, dir`recent, dir`seen, dir`next, dir`log, dir`ops, dir`lost, dir`returned
    ensures dir.Valid()
    ensures r == Done || r == Raised || r == Died
    ensures broken ==> r.Raised?
    ensures var e := old(dir.disk).journal.value.entries[i];
      && Ran(dir.noisy, {e.target, e.displaced}, old(dir.Here()), dir.Here())
      && (r.Done? ==> if e.preimage.None? then At(dir.disk, e.displaced) == None
                      else At(dir.disk, e.displaced) == Some(e.preimage.value.original.ino))
      && (!dir.noisy && r.Done? ==> ReadyToPlace(dir.disk, e))
      && (!dir.noisy && r.Raised? && !broken ==> Restored(dir.disk, e))
    ensures !dir.noisy && r.Raised? ==> dir.Faulted(old(dir.log))
    ensures !dir.noisy && r.Raised? && dir.log.raises == old(dir.log).raises + 1 ==>
      var e := old(dir.disk).journal.value.entries[i];
      (broken <==> dir.log.last.Renaming?) && Restored(dir.disk, e) && At(dir.disk, e.displaced) == None
  {
    hide Good;
    hide WellFormed;
    hide dir.Valid;
    hide dir.Trail;
    hide Ran;
    var e := dir.disk.journal.value.entries[i];
    ghost var a, S := dir.Here(), {e.target, e.displaced};
    Known(dir, i);
    RanNot(dir.noisy, S, a);
    if e.preimage.None? { return Done, false; }
    r, broken := Displace(dir, i);
    RanAt(dir.noisy, S, a, dir.Here(), e.temporary);
    RanAt(dir.noisy, S, a, dir.Here(), e.preimage.value.rollback);
  }

  // ---- _rollback_published_artifacts ----

  /** Where each entry stands when entries below m are published. */
  ghost predicate RolledBackFrom(d: Disk, entries: seq<Entry>, i: nat) {
    forall j :: i <= j < |entries| ==> Restored(d, entries[j])
  }

  ghost predicate PublishedUpTo(d: Disk, entries: seq<Entry>, m: nat) {
    forall j :: 0 <= j < m && j < |entries| ==> At(d, entries[j].target) == Some(entries[j].candidate.ino)
  }

  ghost predicate FailedUnused(d: Disk, entries: seq<Entry>, m: nat) {
    forall j :: 0 <= j < m && j < |entries| ==> At(d, entries[j].failed) == None
  }

  /** Once the original or its copy is public, or an absent original is absent again, the candidate
      set aside can go. */
  lemma DroppingFailed(base: map<Name, Content>, d: Disk, i: nat)
    requires Good(base, d) && d.journal.Some? && d.journal.value.phase.Pending? && i < |d.journal.value.entries|
    requires Restored(d, d.journal.value.entries[i]) || d.journal.value.entries[i].failed !in d.names
    ensures
      var e := d.journal.value.entries[i];
      Good(base, Unlinked(d, e.failed)) && (Restored(d, e) ==> Restored(Unlinked(d, e.failed), e))
  {
    var e := d.journal.value.entries[i];
    assert WellFormedEntry(e) && Safe(d, e);
    InEntry(e);
    EntryStep(base, d, Unlinked(d, e.failed), i);
  }

  /** What was moved is the candidate that was published. */
  method MovedIsCandidate(dir: Directory, e: Entry) returns (same: bool)
    requires dir.Valid() && WellFormedEntry(e)
    modifies dir`disk, dir`recent, dir`seen, dir`next, dir`log
    ensures dir.Valid() && Ran(dir.noisy, {}, old(dir.Here()), dir.Here())
    ensures !dir.noisy ==> dir.disk == old(dir.disk)
    ensures same ==> At(dir.disk, e.failed) == Some(e.candidate.ino)
    ensures !dir.noisy && Holds(dir.disk, e.failed, e.candidate) && !same ==> dir.Faulted(old(dir.log))
  {
    ghost var a := dir.Here();
    var r, moved := dir.Bind(e.failed);
    LookRan(dir, a);
    same := r.Done? && SameIdentity(e.candidate, moved) && moved.file.data == e.candidate.file.data;
  }

  /** Take one candidate back while it is still public. The candidate is dropped last, and only when
      nothing stands between; otherwise it is given back to the public name. */
  method RollbackEntry(dir: Directory, i: nat) returns (r: Outcome, errors: bool)
    requires dir.Valid() && InForce(dir, i)
    requires var e := dir.disk.journal.value.entries[i];
      At(dir.disk, e.failed) == None && (!dir.noisy ==> At(dir.disk, e.target) == Some(e.candidate.ino))
    modifies dir`disk, dir`recent, dir`seen, dir`next, dir`log, dir`ops, dir`lost, dir`returned
    ensures dir.Valid() && (!dir.noisy && r.Done? && errors ==> dir.Faulted(old(dir.log)))
    ensures r == Done || r == Died
    ensures var e := old(dir.disk).journal.value.entries[i];
      && Ran(dir.noisy, {e.target, e.failed}, old(dir.Here()), dir.Here())
      && (r.Done? && !errors ==> At(dir.disk, e.failed) == None)
      && (!dir.noisy && r.Done? && !errors ==> Restored(dir.disk, e))
  {
    hide Good;
    hide WellFormed;
    hide dir.Valid;
    hide dir.Trail;
    hide Ran;
    var e := dir.disk.journal.value.entries[i];
    ghost var a, S := dir.Here(), {e.target, e.failed};
    Known(dir, i);
    if !dir.noisy { PuttingAside(dir.base, a.disk, i); }
    errors := false;
    r := dir.Rename(e.target, e.failed);
    RenameRan(dir, e.target, e.failed, a);
    if r.Died? { return; }
    if r.Missing? { return Done, true; }
    ghost var b := dir.Here();
    var giveBack := true;
    if r.Done? {
      r, errors, giveBack := ReturnOriginal(dir, i);
      RanTrans(dir.noisy, S, {e.target}, S, a, b, dir.Here());
      if r.Died? { return; }
    }
    ghost var c := dir.Here();
    if giveBack {
      r := GiveBack(dir, i);
      errors := true;
    } else {
      r := DropFailed(dir, i);
    }
    RanTrans(dir.noisy, S, S, S, a, c, dir.Here());
  }

  /** The moved candidate makes room for the original, if it is what was moved. */
  method ReturnOriginal(dir: Directory, i: nat) returns (r: Outcome, errors: bool, giveBack: bool)
    requires dir.Valid() && InForce(dir, i)
    requires var e := dir.disk.journal.value.entries[i];
      && (!dir.noisy ==> At(dir.disk, e.failed) == Some(e.candidate.ino) && At(dir.disk, e.target) == None)
      && (!dir.noisy && e.preimage.Some? ==>
            At(dir.disk, e.preimage.value.rollback) == Some(e.preimage.value.copy.ino))
    modifies dir`disk, dir`recent, dir`seen, dir`next, dir`log, dir`ops, dir`returned
    ensures dir.Valid() && (!dir.noisy && r.Done? && (errors || giveBack) ==> dir.Faulted(old(dir.log)))
    ensures r == Done || r == Died
    ensures var e := old(dir.disk).journal.value.entries[i];
      && Ran(dir.noisy, {e.target}, old(dir.Here()), dir.Here())
      && (r.Done? && !giveBack ==> At(dir.disk, e.failed) == Some(e.candidate.ino))
      && (!dir.noisy && r.Done? ==> if giveBack then dir.disk == old(dir.disk) else Restored(dir.disk, e))
  {
    hide Good;
    hide WellFormed;
    hide dir.Valid;
    hide dir.Trail;
    hide Ran;
    var e := dir.disk.journal.value.entries[i];
    ghost var a := dir.Here();
    Known(dir, i);
    var same := MovedIsCandidate(dir, e);
    ghost var b := dir.Here();
    RanWiden(dir.noisy, {}, {e.target}, a, b);
    RanAt(dir.noisy, {}, a, b, e.failed);
    if !same { return Done, false, true; }
    r, errors, giveBack := LinkCopy(dir, i);
    RanTrans(dir.noisy, {}, {e.target}, {e.target}, a, b, dir.Here());
    RanAt(dir.noisy, {e.target}, b, dir.Here(), e.failed);
  }

  method GiveBack(dir: Directory, i: nat) returns (r: Outcome)
    requires dir.Valid() && InForce(dir, i)
    requires var e := dir.disk.journal.value.entries[i];
      !dir.noisy && e.failed in dir.disk.names && At(dir.disk, e.target) == None ==>
        && At(dir.disk, e.failed) == Some(e.candidate.ino)
        && (e.preimage.Some? ==> At(dir.disk, e.preimage.value.rollback) == Some(e.preimage.value.copy.ino))
    modifies dir`disk, dir`recent, dir`seen, dir`next, dir`log, dir`ops, dir`lost, dir`returned
    ensures dir.Valid() && (r == Done || r == Died)
    ensures var e := old(dir.disk).journal.value.entries[i];
      Ran(dir.noisy, {e.target, e.failed}, old(dir.Here()), dir.Here())
  {
    hide Good;
    hide WellFormed;
    hide dir.Valid;
    hide dir.Trail;
    hide Ran;
    var e := dir.disk.journal.value.entries[i];
    Known(dir, i);
    if !dir.noisy && e.failed in dir.disk.names && At(dir.disk, e.target) == None { GivingBack(dir.base, dir.disk, i); }
    r := Restore(dir, e.failed, e.target);
    assert {e.failed, e.target} == {e.target, e.failed};
    if !r.Died? { r := Done; }
  }

  /** The original is back, so the candidate set aside goes. */
  method DropFailed(dir: Directory, i: nat) returns (r: Outcome)
    requires dir.Valid() && InForce(dir, i)
    requires var e := dir.disk.journal.value.entries[i];
      At(dir.disk, e.failed) == Some(e.candidate.ino) && (!dir.noisy ==> Restored(dir.disk, e))
    modifies dir`disk, dir`recent, dir`seen, dir`next, dir`log, dir`ops, dir`lost
    ensures dir.Valid() && (r == Done || r == Died)
    ensures var e := old(dir.disk).journal.value.entries[i];
      && Ran(dir.noisy, {e.target, e.failed}, old(dir.Here()), dir.Here())
      && (r.Done? ==> At(dir.disk, e.failed) == None)
      && (!dir.noisy && r.Done? ==> Restored(dir.disk, e))
  {
    hide Good;
    hide WellFormed;
    hide dir.Valid;
    hide dir.Trail;
    hide Ran;
    var e := dir.disk.journal.value.entries[i];
    ghost var a := dir.Here();
    Known(dir, i);
    if !dir.noisy { DroppingFailed(dir.base, a.disk, i); }
    r := dir.UnlinkSurely(e.failed);
    UnlinkRan(dir, e.failed, a);
    RanWiden(dir.noisy, {e.failed}, {e.target, e.failed}, a, dir.Here());
    if r.Missing? { r := Done; }
  }

  /** Link the rollback copy to the freed name. An edit that got there first is reported but keeps the
      name; any other failure gives the candidate back. */
  method LinkCopy(dir: Directory, i: nat) returns (r: Outcome, errors: bool, giveBack: bool)
    requires dir.Valid() && InForce(dir, i)
    requires var e := dir.disk.journal.value.entries[i];
      && At(dir.disk, e.failed) == Some(e.candidate.ino) && (!dir.noisy ==> At(dir.disk, e.target) == None)
    requires var e := dir.disk.journal.value.entries[i];
      !dir.noisy && e.preimage.Some? ==> At(dir.disk, e.preimage.value.rollback) == Some(e.preimage.value.copy.ino)
    modifies dir`disk, dir`recent, dir`seen, dir`next, dir`log, dir`ops, dir`returned
    ensures dir.Valid() && (!dir.noisy && r.Done? && (errors || giveBack) ==> dir.Faulted(old(dir.log)))
    ensures r == Done || r == Died
    ensures var e := old(dir.disk).journal.value.entries[i];
      r.Done? && e.preimage.Some? && !errors ==>
        !giveBack && At(dir.disk, e.target) == At(dir.disk, e.preimage.value.rollback) != None
    ensures var e := old(dir.disk).journal.value.entries[i];
      && Ran(dir.noisy, {e.target}, old(dir.Here()), dir.Here())
      && (!dir.noisy && r.Done? ==> if giveBack then dir.disk == old(dir.disk) else Restored(dir.disk, e))
  {
    hide Good;
    hide WellFormed;
    hide dir.Valid;
    hide dir.Trail;
    hide Ran;
    var e := dir.disk.journal.value.entries[i];
    ghost var a := dir.Here();
    Known(dir, i);
    RanNot(dir.noisy, {e.target}, a);
    if e.preimage.None? { return Done, false, false; }
    if !dir.noisy { PuttingBack(dir.base, a.disk, i, e.preimage.value.rollback); }
    r := dir.Link(e.preimage.value.rollback, e.target);
    LinkRan(dir, e.preimage.value.rollback, e.target, a);
    errors, giveBack := !r.Done?, r.Missing? || r.Raised?;
    if !r.Died? { r := Done; }
  }

  lemma EntryFrames(noisy: bool, entries: seq<Entry>, i: nat, a: Disk, b: Disk)
    requires WellFormed(entries) && i < |entries|
    requires Frame(noisy, NamesOf(entries[i]), a, b)
    ensures forall j :: 0 <= j < |entries| && j != i ==>
      && At(a, entries[j].failed) == At(b, entries[j].failed)
      && At(a, entries[j].displaced) == At(b, entries[j].displaced)
      && At(a, entries[j].temporary) == At(b, entries[j].temporary)
      && (entries[j].preimage.Some? ==>
            At(a, entries[j].preimage.value.rollback) == At(b, entries[j].preimage.value.rollback))
      && (!noisy ==> At(a, entries[j].target) == At(b, entries[j].target))
  {
    forall j | 0 <= j < |entries| && j != i
      ensures forall n :: n in NamesOf(entries[j]) ==> n !in NamesOf(entries[i])
      ensures WellFormedEntry(entries[j])
    {
      if i < j { assert NamesOf(entries[i]) !! NamesOf(entries[j]); }
      else { assert NamesOf(entries[j]) !! NamesOf(entries[i]); }
    }
    forall j | 0 <= j < |entries| && j != i
      ensures entries[j].target in NamesOf(entries[j]) && entries[j].failed in NamesOf(entries[j])
      ensures entries[j].displaced in NamesOf(entries[j]) && entries[j].temporary in NamesOf(entries[j])
      ensures entries[j].preimage.Some? ==> entries[j].preimage.value.rollback in NamesOf(entries[j])
    {
      InEntry(entries[j]);
    }
  }

  /** The published entries, last first; one that cannot be taken back does not stop the others. */
  method Rollback(dir: Directory, m: nat) returns (r: Outcome, errors: bool)
    requires dir.Valid() && dir.disk.journal.Some? && dir.disk.journal.value.phase.Pending?
    requires var entries := dir.disk.journal.value.entries;
      && m <= |entries| && FailedUnused(dir.disk, entries, |entries|)
      && (!dir.noisy ==> PublishedUpTo(dir.disk, entries, m))
    modifies dir`disk, dir`recent, dir`seen, dir`next, dir`log, dir`ops, dir`lost, dir`returned
    ensures dir.Valid() && (!dir.noisy && r.Done? && errors ==> dir.Faulted(old(dir.log)))
    ensures r == Done || r == Died
    ensures Ran(dir.noisy, Everything(old(dir.disk).journal.value.entries), old(dir.Here()), dir.Here())
    ensures dir.disk.journal == old(dir.disk.journal)
    ensures SameStaged(old(dir.disk), dir.disk, old(dir.disk).journal.value.entries)
    ensures r.Done? && !errors ==>
      FailedUnused(dir.disk, old(dir.disk).journal.value.entries, |old(dir.disk).journal.value.entries|)
    ensures !dir.noisy && r.Done? ==>
      Unrestored(dir.disk, old(dir.disk).journal.value.entries, 0)
      <= Unrestored(old(dir.disk), old(dir.disk).journal.value.entries, m) + dir.log.raises - old(dir.log).raises
    ensures !dir.noisy && r.Done? && !errors
            && RolledBackFrom(old(dir.disk), old(dir.disk).journal.value.entries, m) ==>
      Settled(dir.disk)
  {
    hide Good;
    hide WellFormed;
    hide dir.Valid;
    hide dir.Trail;
    hide Ran;
    hide Everything;
    hide Unrestored;
    hide Restored;
    hide NamesOf;
    var entries := dir.disk.journal.value.entries;
    ghost var a, S := dir.Here(), Everything(entries);
    ghost var clean := RolledBackFrom(a.disk, entries, m);
    RanNot(dir.noisy, S, a);
    dir.Now();
    var i := m;
    errors, r := false, Done;
    while i > 0
      invariant 0 <= i <= m && dir.Valid() && r.Done?
      invariant Ran(dir.noisy, S, a, dir.Here()) && dir.disk.journal == a.disk.journal
      invariant FailedUnused(dir.disk, entries, i)
      invariant !errors ==> FailedUnused(dir.disk, entries, |entries|)
      invariant !dir.noisy ==> PublishedUpTo(dir.disk, entries, i)
      invariant !dir.noisy && errors ==> dir.Faulted(a.log)
      invariant a.log.raises <= dir.log.raises
      invariant !dir.noisy ==>
        Unrestored(dir.disk, entries, i) <= Unrestored(a.disk, entries, m) + dir.log.raises - a.log.raises
      invariant !dir.noisy && !errors && clean ==> RolledBackFrom(dir.disk, entries, i)
      invariant SameStaged(a.disk, dir.disk, entries)
    {
      i := i - 1;
      ghost var b, T := dir.Here(), {entries[i].target, entries[i].failed};
      var wrong;
      r, wrong := RollbackEntry(dir, i);
      ghost var c := dir.Here();
      TargetAndFailed(entries, i);
      RanTrans(dir.noisy, S, T, S, a, b, c);
      RanFrame(dir.noisy, T, b, c);
      StagedFrames(dir.noisy, entries, i, a.disk, b.disk, c.disk);
      if r.Died? { return; }
      errors := errors || wrong;
      FrameWiden(dir.noisy, T, NamesOf(entries[i]), b.disk, c.disk);
      EntryFrames(dir.noisy, entries, i, b.disk, c.disk);
      if !dir.noisy {
        forall j | i < j < |entries| ensures Restored(b.disk, entries[j]) <==> Restored(dir.disk, entries[j]) {
          RestoredFramed(b.disk, c.disk, entries, i, j);
        }
        UnrestoredStep(b.disk, c.disk, entries, i);
      }
    }
  }

  lemma TargetAndFailed(entries: seq<Entry>, i: nat)
    requires i < |entries|
    ensures {entries[i].target, entries[i].failed} <= NamesOf(entries[i]) <= Everything(entries)
    ensures {entries[i].target, entries[i].temporary, entries[i].displaced} <= NamesOf(entries[i])
  {
    EverythingHas(entries, i);
    InEntry(entries[i]);
  }

  /** The staged temporaries, displaced originals and rollback copies are where they were. */
  ghost predicate SameStaged(a: Disk, b: Disk, entries: seq<Entry>) {
    forall j :: 0 <= j < |entries| ==>
      && At(a, entries[j].temporary) == At(b, entries[j].temporary)
      && At(a, entries[j].displaced) == At(b, entries[j].displaced)
      && (entries[j].preimage.Some? ==>
            At(a, entries[j].preimage.value.rollback) == At(b, entries[j].preimage.value.rollback))
  }

  lemma StagedFrames(noisy: bool, entries: seq<Entry>, i: nat, a: Disk, b: Disk, c: Disk)
    requires WellFormed(entries) && i < |entries| && SameStaged(a, b, entries)
    requires Frame(noisy, {entries[i].target, entries[i].failed}, b, c)
    ensures SameStaged(a, c, entries)
  {
    FrameWiden(noisy, {entries[i].target, entries[i].failed}, NamesOf(entries[i]), b, c);
    EntryFrames(noisy, entries, i, b, c);
    assert WellFormedEntry(entries[i]);
    assert At(b, entries[i].temporary) == At(c, entries[i].temporary);
    assert At(b, entries[i].displaced) == At(c, entries[i].displaced);
    if entries[i].preimage.Some? {
      assert At(b, entries[i].preimage.value.rollback) == At(c, entries[i].preimage.value.rollback);
    }
  }

  // ---- All entries ----

  predicate StagedEntry(noisy: bool, d: Disk, e: Entry) {
    && Only(d, e.temporary, e.candidate.ino)
    && At(d, e.displaced) == None && At(d, e.failed) == None
    && (!noisy ==> Untouched(d, e))
  }

  /** Everything staged and nothing begun: what the pending record is written over. */
  ghost predicate Staged(noisy: bool, d: Disk, entries: seq<Entry>) {
    forall j :: 0 <= j < |entries| ==> StagedEntry(noisy, d, entries[j])
  }

  /** Temporaries only went away, rollback copies stayed. */
  ghost predicate KeptStaged(a: Disk, b: Disk, entries: seq<Entry>) {
    forall j :: 0 <= j < |entries| ==>
      && (At(b, entries[j].temporary) == None || At(b, entries[j].temporary) == At(a, entries[j].temporary))
      && (entries[j].preimage.Some? ==>
            At(a, entries[j].preimage.value.rollback) == At(b, entries[j].preimage.value.rollback))
  }

  ghost predicate AllPlaced(d: Disk, entries: seq<Entry>, m: nat) {
    forall j :: 0 <= j < m && j < |entries| ==> Placed(d, entries[j])
  }

  lemma InstallFrames(noisy: bool, entries: seq<Entry>, i: nat, a: Disk, b: Disk, c: Disk)
    requires WellFormed(entries) && i < |entries| && KeptStaged(a, b, entries)
    requires At(c, entries[i].temporary) == None || At(c, entries[i].temporary) == At(b, entries[i].temporary)
    requires Frame(noisy, {entries[i].target, entries[i].temporary, entries[i].displaced}, b, c)
    ensures KeptStaged(a, c, entries)
    ensures forall j :: 0 <= j < |entries| && j != i && StagedEntry(noisy, b, entries[j]) ==>
      StagedEntry(noisy, c, entries[j])
    ensures forall j :: 0 <= j < |entries| && j != i && Placed(b, entries[j]) ==> Placed(c, entries[j])
    ensures forall j :: 0 <= j < |entries| && j != i && !noisy ==> At(b, entries[j].target) == At(c, entries[j].target)
    ensures forall j :: 0 <= j < |entries| ==> At(b, entries[j].failed) == At(c, entries[j].failed)
  {
    var S := {entries[i].target, entries[i].temporary, entries[i].displaced};
    assert WellFormedEntry(entries[i]);
    FrameWiden(noisy, S, NamesOf(entries[i]), b, c);
    EntryFrames(noisy, entries, i, b, c);
    assert At(b, entries[i].failed) == At(c, entries[i].failed);
    forall j | 0 <= j < |entries|
      ensures At(c, entries[j].temporary) == None || At(c, entries[j].temporary) == At(a, entries[j].temporary)
      ensures entries[j].preimage.Some? ==>
        At(a, entries[j].preimage.value.rollback) == At(c, entries[j].preimage.value.rollback)
    {
      if j == i && entries[i].preimage.Some? {
        assert At(b, entries[i].preimage.value.rollback) == At(c, entries[i].preimage.value.rollback);
      }
    }
  }

  /** No original lies under its displaced name. */
  predicate NoneDisplaced(d: Disk, entries: seq<Entry>) {
    forall j :: 0 <= j < |entries| ==> At(d, entries[j].displaced) == None
  }

  lemma OthersNotDisplaced(d: Disk, entries: seq<Entry>, k: nat)
    requires k < |entries| && forall j :: 0 <= j < k ==> Placed(d, entries[j])
    requires forall j :: k < j < |entries| ==> StagedEntry(false, d, entries[j])
    ensures At(d, entries[k].displaced) == None ==> NoneDisplaced(d, entries)
  {
    forall j | 0 <= j < |entries| && j != k ensures At(d, entries[j].displaced) == None {
      assert j < k ==> Placed(d, entries[j]);
      assert j > k ==> StagedEntry(false, d, entries[j]);
    }
  }

  /** Where the installation stopped only the entry it stopped at can be open. */
  lemma AtMostOneOpen(d: Disk, entries: seq<Entry>, k: nat, m: nat)
    requires k < |entries| && k <= m <= k + 1
    requires forall j :: k < j < |entries| ==> StagedEntry(false, d, entries[j])
    ensures Unrestored(d, entries, m) <= if m == k && !Restored(d, entries[k]) then 1 else 0
  {
    forall j | k < j < |entries| ensures Restored(d, entries[j]) { assert StagedEntry(false, d, entries[j]); }
    NoneUnrestored(d, entries, k + 1);
    UnrestoredStep(d, d, entries, k);
  }

  /** The targets in the order of the record, until one fails; `m` of them are published then. */
  method InstallAll(dir: Directory) returns (r: Outcome, m: nat, broken: bool)
    requires dir.Valid() && dir.disk.journal.Some? && dir.disk.journal.value.phase.Pending?
    requires Staged(dir.noisy, dir.disk, dir.disk.journal.value.entries)
    modifies dir`disk, dir`recent, dir`seen, dir`next, dir`log, dir`ops, dir`lost, dir`returned
    ensures dir.Valid()
    ensures r == Done || r == Raised || r == Died
    ensures broken ==> r.Raised?
    ensures Ran(dir.noisy, Everything(old(dir.disk).journal.value.entries), old(dir.Here()), dir.Here())
    ensures dir.disk.journal == old(dir.disk.journal)
    ensures var entries := old(dir.disk).journal.value.entries;
      && m <= |entries| && (r.Done? ==> m == |entries| && AllPlaced(dir.disk, entries, m))
      && FailedUnused(dir.disk, entries, |entries|)
      && KeptStaged(old(dir.disk), dir.disk, entries)
      && (!dir.noisy ==> PublishedUpTo(dir.disk, entries, m))
      && (!dir.noisy && r.Raised? && !broken ==> RolledBackFrom(dir.disk, entries, m))
    ensures !dir.noisy && r.Raised? ==> dir.Faulted(old(dir.log))
    ensures !dir.noisy && r.Raised? && dir.log.raises == old(dir.log).raises + 1 ==>
      && (broken <==> dir.log.last.Renaming?)
      && (!dir.log.last.Unlinking? ==> NoneDisplaced(dir.disk, old(dir.disk).journal.value.entries))
    ensures !dir.noisy && r.Raised? ==>
      Unrestored(dir.disk, old(dir.disk).journal.value.entries, m) < dir.log.raises - old(dir.log).raises
  {
    hide Good;
    hide WellFormed;
    hide dir.Valid;
    hide dir.Trail;
    hide Ran;
    hide Everything;
    hide Unrestored;
    hide NamesOf;
    var entries := dir.disk.journal.value.entries;
    ghost var a, S := dir.Here(), Everything(entries);
    RanNot(dir.noisy, S, a);
    dir.Now();
    m, r, broken := 0, Done, false;
    while m < |entries|
      invariant 0 <= m <= |entries| && dir.Valid() && r.Done? && !broken
      invariant Ran(dir.noisy, S, a, dir.Here()) && dir.disk.journal == a.disk.journal
      invariant FailedUnused(dir.disk, entries, |entries|) && KeptStaged(a.disk, dir.disk, entries)
      invariant forall j :: m <= j < |entries| ==> StagedEntry(dir.noisy, dir.disk, entries[j])
      invariant !dir.noisy ==> PublishedUpTo(dir.disk, entries, m)
      invariant AllPlaced(dir.disk, entries, m)
    {
      ghost var b, T := dir.Here(), {entries[m].target, entries[m].temporary, entries[m].displaced};
      assert StagedEntry(dir.noisy, b.disk, entries[m]);
      var published;
      r, broken, published := InstallEntry(dir, m);
      ghost var c := dir.Here();
      TargetAndFailed(entries, m);
      RanTrans(dir.noisy, S, T, S, a, b, c);
      RanFrame(dir.noisy, T, b, c);
      InstallFrames(dir.noisy, entries, m, a.disk, b.disk, c.disk);
      ghost var k := m;
      if published { m := m + 1; }
      if !dir.noisy && r.Raised? && !broken {
        forall j | m <= j < |entries| ensures Restored(dir.disk, entries[j]) {
          if j != k { assert StagedEntry(dir.noisy, dir.disk, entries[j]); }
        }
      }
      if !dir.noisy && r.Raised? {
        AtMostOneOpen(dir.disk, entries, k, m);
        OthersNotDisplaced(dir.disk, entries, k);
      }
      if !r.Done? { return; }
    }
  }
}
