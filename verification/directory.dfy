/** The directory as the protocol sees it: one method per system call. Any call may be preceded by other
    processes' changes of public names (noisy), may raise (faults), and may be the one the process dies
    at. What a mutating call demands of its caller is the safety of the protocol: every disk it can leave
    behind is recoverable, and no name of a stranger's last inode is dropped. */
module Directories {
  import opened Disks
  import opened Custody
  import opened Names

  /** Missing and Exists are the errors the directory itself causes; Raised is any other OSError. */
  datatype Outcome = Done | Missing | Exists | Raised | Died

  /** The kinds of calls, as far as it matters which one raised. */
  datatype Call = Looking | Reading | Unlinking | Renaming | Linking | Syncing | Making | Recording | Retiring

  /** How many calls have raised for reasons of their own, and the last of them. */
  datatype Log = Log(raises: nat, last: Call)

  /** b is the log some calls after a. */
  predicate Later(a: Log, b: Log) {
    a.raises <= b.raises && (a.raises == b.raises ==> a == b)
  }

  /** The same when the last call that raised in between was no rename. */
  predicate NoRename(a: Log, b: Log) {
    Later(a, b) && (b != a ==> !b.last.Renaming?)
  }

  /** At most one call has raised in between, and no rename. */
  predicate Mild(a: Log, b: Log) {
    b.raises <= a.raises + 1 && (b.raises == a.raises + 1 ==> !b.last.Renaming?)
  }

  /** What a caller can compare before and after: the disk, what a power loss could fall back to, the
      first free inode number, the number of changes so far, what has raised, and whether calls may raise. */
  datatype Moment = Moment(disk: Disk, recent: seq<Disk>, next: Ino, ops: nat, log: Log, faults: bool)

  class Directory {
    /** The public set before any publication. */
    const base: map<Name, Content>
    /** Whether system calls may currently raise for reasons of their own. */
    var faults: bool
    /** Whether other processes work on public names. */
    const noisy: bool
    /** Records whose encoding exceeds the size limit. */
    const oversize: Record -> bool

    var disk: Disk
    /** Every disk since the last fsync, oldest first: a power loss falls back to one of them. */
    var recent: seq<Disk>
    /** Names mkstemp has handed out, and the first inode number never used. */
    var issued: set<Name>
    var next: Ino
    /** The number of calls that changed the disk. */
    var ops: nat

    /** The disk at the moment the last call took effect, after the others had their turn. */
    ghost var seen: Disk
    /** The calls that raised so far. */
    ghost var log: Log
    /** Inodes made by the protocol, inodes bound by some record, inodes put back from an alias to a
        public name, and inodes whose last name a protocol step dropped, with the alias it was about. */
    ghost var created: set<Ino>
    ghost var recorded: set<Ino>
    ghost var returned: set<(Name, Ino)>
    ghost var lost: set<(Name, Ino)>

    ghost predicate Sound(d: Disk)
      reads this`next, this`recorded, this`created
    {
      && Bound(d)
      && (forall i :: i in d.files ==> i < next)
      && (forall i :: i in d.files && i in created ==> d.files[i].mtime >= 0)
      && match d.journal
         case None => true
         case Some(r) =>
           && WellFormed(r.entries)
           && forall i :: 0 <= i < |r.entries| ==> InodesOf(r.entries[i]) <= recorded
    }

    /** Third parties' files are never destroyed: whatever lost its last name when a protocol step dropped
        an alias was made by the protocol, bound by a record, or had been put back from that very alias. */
    ghost predicate CustodyKept()
      reads this`created, this`recorded, this`returned, this`lost
    {
      forall n, i :: (n, i) in lost ==> i in created || i in recorded || (n, i) in returned
    }

    ghost predicate Valid()
      reads this`disk, this`recent, this`next, this`created, this`recorded, this`returned, this`lost
    {
      && disk in recent
      && (forall i :: i in created ==> i < next)
      && (forall s :: s in recent ==> Sound(s))
      && (!noisy ==> forall s :: s in recent ==> Good(base, s))
      && CustodyKept()
    }

    lemma Now()
      requires Valid()
      ensures disk in recent && Sound(disk) && (!noisy ==> Good(base, disk))
    {
    }

    /** The alias may be unlinked without destroying a stranger's file. */
    ghost predicate MayDrop(n: Name)
      reads this
    {
      n in disk.names ==>
        disk.names[n] in created || disk.names[n] in recorded || (n, disk.names[n]) in returned
    }

    /** What other processes can do between two system calls: nothing unless noisy. */
    ghost predicate Others(a: Disk, b: Disk) {
      Frame(noisy, {}, a, b) && (!noisy ==> a == b)
    }

    ghost function Here(): Moment
      reads this`disk, this`recent, this`next, this`ops, this`log, this`faults
    {
      Moment(disk, recent, next, ops, log, faults)
    }

    /** Calls have been made since; some may have raised if they could. */
    ghost predicate Since(before: Log)
      reads this`faults, this`log
    {
      Later(before, log) && (!faults ==> log == before)
    }

    /** Some call has raised since. */
    ghost predicate Faulted(before: Log)
      reads this`faults, this`log
    {
      faults && before.raises < log.raises
    }

    /** The call just made raised. */
    ghost predicate Raising(before: Log, call: Call)
      reads this`faults, this`log
    {
      faults && log == Log(before.raises + 1, call)
    }

    /** Every disk since `before` has the ledger of d, and d's record or none. */
    ghost predicate Trail(before: seq<Disk>, d: Disk)
      reads this`recent
    {
      forall s :: s in recent ==> s in before || (s.ledger == d.ledger && (s.journal == d.journal || s.journal == None))
    }

    /** At most the disk of the moment is new. */
    ghost predicate OneMore(before: seq<Disk>)
      reads this`recent, this`disk
    {
      forall s :: s in recent ==> s in before || s == disk
    }

    constructor (shown: map<Name, File>, faults: bool, noisy: bool, oversize: Record -> bool)
      requires forall n :: n in shown ==> !Private(n)
      ensures Valid() && disk.journal == None && disk.ledger == []
      ensures this.faults == faults && this.noisy == noisy && this.oversize == oversize
      ensures forall n :: Shown(disk, n) == if n in shown then Some(ContentOf(shown[n])) else None
      ensures recent == [disk] && ops == 0
    {
      var names: map<Name, Ino>, files: map<Ino, File>, todo, unused: Ino := map[], map[], shown.Keys, 0;
      while todo != {}
        invariant todo <= shown.Keys && names.Keys == shown.Keys - todo
        invariant forall i :: i in files ==> i < unused
        invariant forall n :: n in names ==> names[n] in files && files[names[n]] == shown[n]
        decreases todo
      {
        var n :| n in todo;
        names, files, todo, unused := names[n := unused], files[unused := shown[n]], todo - {n}, unused + 1;
      }
      this.base := map n | n in shown :: ContentOf(shown[n]);
      this.faults, this.noisy, this.oversize := faults, noisy, oversize;
      this.disk := Disk(names, files, None, []);
      this.recent := [Disk(names, files, None, [])];
      this.issued, this.next, this.ops, this.log := {}, unused, 0, Log(0, Looking);
      this.seen := Disk(names, files, None, []);
      this.created, this.recorded, this.returned, this.lost := {}, {}, {}, {};
    }

    // ---- Others, faults and death ----

    /** Other processes create, replace or remove public names, one at a time. */
    method Interfere()
      requires Valid()
      modifies this`disk, this`recent, this`seen, this`next
      ensures Valid() && Others(old(disk), disk) && seen == disk && next >= old(next)
      ensures Trail(old(recent), old(disk)) && (!noisy ==> recent == old(recent))
      ensures old(recent) <= recent
    {
      hide Valid;
      if noisy {
        var turns := *;
        while turns > 0
          invariant Valid() && Others(old(disk), disk) && next >= old(next)
          invariant Trail(old(recent), old(disk)) && old(recent) <= recent
        {
          DisturbOne();
          turns := turns - 1;
        }
      }
      seen := disk;
    }

    /** One change of one public name: an existing inode, a new one, or none. */
    method DisturbOne()
      requires Valid() && noisy
      modifies this`disk, this`recent, this`next
      ensures Valid() && Frame(noisy, {}, old(disk), disk) && next >= old(next)
      ensures old(recent) <= recent && |recent| <= |old(recent)| + 1 &&
        (recent == old(recent) || recent == old(recent) + [disk])
    {
      hide Good;
      hide WellFormed;
      var n: Name := *;
      var target: int := *;
      var file: File := *;
      if Private(n) { return; }
      if target >= 0 && target in disk.files {
        disk := disk.(names := disk.names[n := target]);
      } else if target == next {
        disk := disk.(names := disk.names[n := next], files := disk.files[next := file]);
        next := next + 1;
      } else {
        disk := disk.(names := disk.names - {n});
      }
      recent := recent + [disk];
    }

    method Verdict(ghost call: Call) returns (r: Outcome)
      modifies this`log
      ensures r == Done || r == Died || r == Raised
      ensures if r.Raised? then Raising(old(log), call) else log == old(log)
    {
      var raises, dies := *, *;
      r := if dies then Died else if raises && faults then Raised else Done;
      if r.Raised? { log := Log(log.raises + 1, call); }
    }

    // ---- Calls that only look ----

    method Exists(n: Name) returns (r: Outcome)
      requires Valid()
      modifies this`disk, this`recent, this`seen, this`next, this`log
      ensures Valid() && Others(old(disk), disk) && next >= old(next)
      ensures Trail(old(recent), old(disk)) && (!noisy ==> recent == old(recent))
      ensures old(recent) <= recent
      ensures r == Done || r == Missing || r == Raised
      ensures if r.Raised? then Raising(old(log), Looking) else log == old(log)
      ensures r.Done? ==> n in disk.names
      ensures r.Missing? ==> n !in disk.names
    {
      Interfere();
      var v := Verdict(Looking);
      r := if v.Raised? then Raised else if n in disk.names then Done else Missing;
    }

    /** stat and read in one: everything a record binds about the name's inode. */
    method Bind(n: Name) returns (r: Outcome, b: Binding)
      requires Valid()
      modifies this`disk, this`recent, this`seen, this`next, this`log
      ensures Valid() && Others(old(disk), disk) && next >= old(next)
      ensures Trail(old(recent), old(disk)) && (!noisy ==> recent == old(recent))
      ensures old(recent) <= recent
      ensures r == Done || r == Missing || r == Raised
      ensures r.Done? ==> Holds(disk, n, b)
      ensures r.Missing? ==> n !in disk.names
      ensures r.Raised? ==> Raising(old(log), Looking) || (log == old(log) && Oversized(disk, n))
      ensures !r.Raised? ==> log == old(log)
    {
      Interfere();
      b := Binding(0, File([], 0, 0));
      var v := Verdict(Looking);
      if v.Raised? { return Raised, b; }
      if n !in disk.names { return Missing, b; }
      b := Binding(disk.names[n], disk.files[disk.names[n]]);
      r := if |b.file.data| <= MAX_ARTIFACT_BYTES then Done else Raised;
    }

    static predicate Oversized(d: Disk, n: Name) {
      n in d.names && d.names[n] in d.files && |d.files[d.names[n]].data| > MAX_ARTIFACT_BYTES
    }

    /** _artifact_matches for a present binding: any error reads as a mismatch. */
    method Matches(n: Name, b: Binding) returns (ok: bool)
      requires Valid()
      modifies this`disk, this`recent, this`seen, this`next, this`log
      ensures Valid() && Others(old(disk), disk) && next >= old(next)
      ensures Trail(old(recent), old(disk)) && (!noisy ==> recent == old(recent))
      ensures old(recent) <= recent
      ensures ok ==> Holds(disk, n, b)
      ensures log == old(log) || (Raising(old(log), Looking) && !ok)
      ensures !ok ==> log != old(log) || !Holds(disk, n, b)
    {
      var r, found := Bind(n);
      ok := r.Done? && found == b;
    }

    method ReadRecord() returns (r: Outcome, record: Option<Record>)
      requires Valid()
      modifies this`log
      ensures r == Done || r == Raised
      ensures record == disk.journal
      ensures r.Done? && record.Some? ==> Readable(record.value)
      ensures r.Raised? ==>
        || Raising(old(log), Reading)
        || (log == old(log) && record.Some? && !Readable(record.value))
      ensures r.Done? ==> log == old(log)
    {
      record := disk.journal;
      var v := Verdict(Reading);
      r := if v.Raised? || (record.Some? && !Readable(record.value)) then Raised else Done;
    }

    // ---- Calls that change the directory ----

    /** unlink of an alias. */
    method Unlink(n: Name) returns (r: Outcome)
      requires Valid() && Private(n) && MayDrop(n)
      requires !noisy ==> Good(base, Unlinked(disk, n))
      modifies this`disk, this`recent, this`seen, this`next, this`ops, this`lost, this`log
      ensures Valid() && Others(old(disk), seen) && next >= old(next)
      ensures Trail(old(recent), old(disk)) && (!noisy ==> OneMore(old(recent)))
      ensures r.Done? ==> n in seen.names && disk == Unlinked(seen, n) && ops == old(ops) + 1
      ensures !r.Done? ==> disk == seen && ops == old(ops)
      ensures r.Missing? ==> n !in seen.names
      ensures if r.Raised? then Raising(old(log), Unlinking) else log == old(log)
      ensures !r.Exists?
    {
      hide Valid;
      hide Good;
      Interfere();
      var v := Verdict(Unlinking);
      if !v.Done? { return v; }
      r := UnlinkNow(n);
    }

    /** unlink of an alias, taken not to raise. */
    method UnlinkSurely(n: Name) returns (r: Outcome)
      requires Valid() && Private(n) && MayDrop(n)
      requires !noisy ==> Good(base, Unlinked(disk, n))
      modifies this`disk, this`recent, this`seen, this`next, this`ops, this`lost
      ensures Valid() && Others(old(disk), seen) && next >= old(next)
      ensures Trail(old(recent), old(disk)) && (!noisy ==> OneMore(old(recent)))
      ensures r.Done? ==> n in seen.names && disk == Unlinked(seen, n) && ops == old(ops) + 1
      ensures !r.Done? ==> disk == seen && ops == old(ops)
      ensures r.Missing? ==> n !in seen.names
      ensures r == Done || r == Missing || r == Died
    {
      hide Valid;
      hide Good;
      Interfere();
      var dies := *;
      if dies { return Died; }
      r := UnlinkNow(n);
    }

    method UnlinkNow(n: Name) returns (r: Outcome)
      requires Valid() && Private(n) && MayDrop(n)
      requires !noisy ==> Good(base, Unlinked(disk, n))
      modifies this`disk, this`recent, this`ops, this`lost
      ensures Valid() && Trail(old(recent), old(disk)) && OneMore(old(recent))
      ensures r == if n in old(disk).names then Done else Missing
      ensures r.Done? ==> disk == Unlinked(old(disk), n) && ops == old(ops) + 1
      ensures r.Missing? ==> disk == old(disk) && ops == old(ops)
    {
      hide Valid;
      hide Good;
      Now();
      if n !in disk.names { return Missing; }
      UnlinkDropsOnlyIt(disk, n);
      Become(Unlinked(disk, n), n);
      r := Done;
    }

    /** The disk moves on to b, which may drop the last name of what alias n names and of nothing else. */
    method Become(b: Disk, ghost n: Name)
      requires Valid() && MayDrop(n) && Sound(b) && b.ledger == disk.ledger && b.journal == disk.journal
      requires !noisy ==> Good(base, b)
      requires DropsOnly(disk, b, n)
      modifies this`disk, this`recent, this`ops, this`lost
      ensures Valid() && Trail(old(recent), old(disk)) && OneMore(old(recent))
      ensures disk == b && ops == old(ops) + 1
    {
      hide Good;
      hide WellFormed;
      lost := lost + set m | m in disk.names && Unnamed(b, disk.names[m]) :: (n, disk.names[m]);
      disk, recent, ops := b, recent + [b], ops + 1;
    }

    static ghost predicate Unnamed(d: Disk, i: Ino) {
      forall k :: k in d.names ==> d.names[k] != i
    }

    static ghost predicate DropsOnly(a: Disk, b: Disk, n: Name) {
      forall m :: m in a.names && Unnamed(b, a.names[m]) ==> n in a.names && a.names[m] == a.names[n]
    }

    static lemma UnlinkDropsOnlyIt(d: Disk, n: Name)
      ensures DropsOnly(d, Unlinked(d, n), n)
    {
      var b := Unlinked(d, n);
      forall m | m in d.names && m != n ensures !Unnamed(b, d.names[m]) {
        assert m in b.names && b.names[m] == d.names[m];
      }
    }

    /** rename of a public name to an alias. */
    method Rename(src: Name, dst: Name) returns (r: Outcome)
      requires Valid() && !Private(src) && Private(dst) && MayDrop(dst)
      requires !noisy && src in disk.names ==> Good(base, Renamed(disk, src, dst))
      modifies this`disk, this`recent, this`seen, this`next, this`ops, this`lost, this`log
      ensures Valid() && Others(old(disk), seen) && next >= old(next)
      ensures Trail(old(recent), old(disk)) && (!noisy ==> OneMore(old(recent)))
      ensures r.Done? ==> src in seen.names && disk == Renamed(seen, src, dst)
      ensures r.Done? ==> ops == old(ops) + 1
      ensures !r.Done? ==> disk == seen && ops == old(ops)
      ensures r.Missing? ==> src !in seen.names
      ensures if r.Raised? then Raising(old(log), Renaming) else log == old(log)
      ensures !r.Exists?
    {
      hide Valid;
      hide Good;
      Interfere();
      var v := Verdict(Renaming);
      if !v.Done? { return v; }
      if src !in disk.names { return Missing; }
      Now();
      RenameDropsOnlyTarget(disk, src, dst);
      Become(Renamed(disk, src, dst), dst);
      r := Done;
    }

    static lemma RenameDropsOnlyTarget(d: Disk, src: Name, dst: Name)
      requires src in d.names && src != dst
      ensures DropsOnly(d, Renamed(d, src, dst), dst)
    {
      var b := Renamed(d, src, dst);
      forall m | m in d.names && m != dst ensures !Unnamed(b, d.names[m]) {
        var k := if m == src && b != d then dst else m;
        assert k in b.names && b.names[k] == d.names[m];
      }
    }

    /** link of an alias to a public name; never replaces. */
    method Link(src: Name, dst: Name) returns (r: Outcome)
      requires Valid() && Private(src) && !Private(dst)
      requires !noisy && src in disk.names && dst !in disk.names ==> Good(base, Linked(disk, src, dst))
      modifies this`disk, this`recent, this`seen, this`next, this`ops, this`returned, this`log
      ensures Valid() && Others(old(disk), seen) && next >= old(next)
      ensures Trail(old(recent), old(disk)) && (!noisy ==> OneMore(old(recent)))
      ensures r.Done? ==> src in seen.names && dst !in seen.names && disk == Linked(seen, src, dst)
      ensures r.Done? ==> ops == old(ops) + 1 && returned == old(returned) + {(src, seen.names[src])}
      ensures !r.Done? ==> disk == seen && ops == old(ops) && returned == old(returned)
      ensures r.Missing? ==> src !in seen.names
      ensures r.Exists? ==> dst in seen.names
      ensures if r.Raised? then Raising(old(log), Linking) else log == old(log)
    {
      hide Valid;
      hide Good;
      Interfere();
      var v := Verdict(Linking);
      if !v.Done? { return v; }
      if src !in disk.names { return Missing; }
      if dst in disk.names { return Outcome.Exists; }
      LinkNow(src, dst);
      r := Done;
    }

    method LinkNow(src: Name, dst: Name)
      requires Valid() && src in disk.names && dst !in disk.names
      requires !noisy ==> Good(base, Linked(disk, src, dst))
      modifies this`disk, this`recent, this`ops, this`returned
      ensures Valid() && Trail(old(recent), old(disk)) && OneMore(old(recent))
      ensures disk == Linked(old(disk), src, dst) && ops == old(ops) + 1
      ensures returned == old(returned) + {(src, old(disk).names[src])}
    {
      hide Good;
      hide WellFormed;
      returned := returned + {(src, disk.names[src])};
      var b := Linked(disk, src, dst);
      disk, recent, ops := b, recent + [b], ops + 1;
    }

    /** fsync of the directory: what happened so far can no longer be taken back. */
    method Sync() returns (r: Outcome)
      requires Valid()
      modifies this`disk, this`recent, this`seen, this`next, this`log
      ensures Valid() && Others(old(disk), disk) && next >= old(next)
      ensures Trail(old(recent), old(disk)) && (!noisy ==> OneMore(old(recent)))
      ensures r == Done || r == Died || r == Raised
      ensures if r.Raised? then Raising(old(log), Syncing) else log == old(log)
      ensures r.Done? ==> recent == [disk]
    {
      Interfere();
      r := Verdict(Syncing);
      if r.Done? { recent := [disk]; }
    }

    static function Made(d: Disk, n: Name, i: Ino, f: File): Disk {
      d.(names := d.names[n := i], files := d.files[i := f])
    }

    /** mkstemp, then mode and contents. A failure may leave the name behind; the caller knows it then. */
    method Create(target: Name, suffix: string, data: Bytes, mode: nat) returns (r: Outcome, made: Option<Name>)
      requires Valid() && disk.journal == None
      modifies this`disk, this`recent, this`seen, this`next, this`ops, this`issued, this`created, this`log
      ensures Valid() && Others(old(disk), seen) && next >= old(next)
      ensures Trail(old(recent), old(disk))
      ensures r == Done || r == Died || r == Raised
      ensures if r.Raised? then Raising(old(log), Making) else log == old(log)
      ensures made == None ==> !r.Done? && disk == seen && issued == old(issued) && created == old(created)
      ensures made.Some? ==>
        && AliasShape(made.value, target, suffix) && Private(made.value)
        && made.value !in old(issued) && made.value !in seen.names
        && issued == old(issued) + {made.value}
        && made.value in disk.names && disk.names[made.value] !in seen.files
        && created == old(created) + {disk.names[made.value]}
        && disk.names[made.value] in disk.files
        && disk == Made(seen, made.value, disk.names[made.value], disk.files[disk.names[made.value]])
        && (r.Done? ==> ContentOf(disk.files[disk.names[made.value]]) == Content(data, mode))
    {
      hide Valid;
      hide Good;
      hide Sound;
      Interfere();
      var v := Verdict(Making);
      if !v.Done? { return v, None; }
      var n := PickName(target, suffix);
      var before := disk;
      issued := issued + {n};
      var i := Claim(n);
      made := Some(n);
      r := Verdict(Making);
      if !r.Done? { return; }
      var clock: int := *;
      Place(before, n, i, File(data, mode, if clock >= 0 then clock else 0));
    }

    method PickName(target: Name, suffix: string) returns (n: Name)
      ensures AliasShape(n, target, suffix) && Private(n) && n !in issued && n !in disk.names
    {
      FreshNameExists(target, suffix, issued + disk.names.Keys);
      var m: string :| Plain(m) && "." + target + "." + m + suffix !in issued + disk.names.Keys;
      n := "." + target + "." + m + suffix;
      AliasIsPrivate(n, target, suffix);
    }

    /** The fresh alias n gets the first unused inode, still empty. */
    method Claim(n: Name) returns (i: Ino)
      requires Valid() && disk.journal == None && Private(n) && n !in disk.names
      modifies this`disk, this`recent, this`next, this`ops, this`created
      ensures Valid() && Trail(old(recent), old(disk)) && i !in old(disk).files && i == old(next) && next == i + 1
      ensures created == old(created) + {i} && disk == Made(old(disk), n, i, File([], 384, 0))
      ensures Sound(old(disk)) && (!noisy ==> Good(base, old(disk)))
    {
      hide Good;
      hide WellFormed;
      var before := disk;
      i := next;
      next, created := next + 1, created + {i};
      Place(before, n, i, File([], 384, 0));
    }

    /** The fresh alias n of the fresh inode i now has the contents f. */
    method Place(before: Disk, n: Name, i: Ino, f: File)
      requires Valid() && Sound(before) && before.journal == None && Private(n)
      requires n !in before.names && i !in before.files && i < next && f.mtime >= 0
      requires disk == before || exists g :: disk == Made(before, n, i, g)
      requires !noisy ==> Good(base, before)
      modifies this`disk, this`recent, this`ops
      ensures Valid() && Trail(old(recent), old(disk)) && disk == Made(before, n, i, f)
    {
      MadeIsGood(before, n, i, f);
      disk := Made(before, n, i, f);
      recent, ops := recent + [disk], ops + 1;
    }

    lemma MadeIsGood(d: Disk, n: Name, i: Ino, f: File)
      requires Bound(d) && d.journal == None && Private(n) && i !in d.files
      ensures Bound(Made(d, n, i, f)) && Frame(false, {n}, d, Made(d, n, i, f))
      ensures Good(base, d) ==> Good(base, Made(d, n, i, f))
    {
      if Good(base, d) { PrivateStep(base, {n}, d, Made(d, n, i, f)); }
    }

    /** The rename that puts a complete record in force. */
    method InstallRecord(record: Record) returns (r: Outcome)
      requires Valid() && WellFormed(record.entries)
      requires !noisy ==> Good(base, Journaled(disk, record))
      modifies this`disk, this`recent, this`seen, this`next, this`ops, this`recorded, this`log
      ensures Valid() && Others(old(disk), seen) && next >= old(next) && recorded >= old(recorded)
      ensures r == Done || r == Died || r == Raised
      ensures if r.Raised? then Raising(old(log), Recording) else log == old(log)
      ensures r.Done? ==> disk == Journaled(seen, record) && ops == old(ops) + 1
      ensures r.Done? ==> forall i :: 0 <= i < |record.entries| ==> InodesOf(record.entries[i]) <= recorded
      ensures !r.Done? ==> disk == seen && ops == old(ops)
      ensures forall s :: s in recent ==>
        || s in old(recent) || s == disk
        || (s.ledger == old(disk).ledger && (s.journal == old(disk).journal || s.journal == None))
    {
      hide Valid;
      hide Good;
      hide WellFormed;
      Interfere();
      r := Verdict(Recording);
      if r.Done? { InstallNow(record); }
    }

    method InstallNow(record: Record)
      requires Valid() && WellFormed(record.entries)
      requires !noisy ==> Good(base, Journaled(disk, record))
      modifies this`disk, this`recent, this`ops, this`recorded
      ensures Valid() && OneMore(old(recent)) && recorded >= old(recorded)
      ensures disk == Journaled(old(disk), record) && ops == old(ops) + 1
      ensures forall i :: 0 <= i < |record.entries| ==> InodesOf(record.entries[i]) <= recorded
    {
      hide Good;
      hide WellFormed;
      recorded := recorded + set i, k | 0 <= i < |record.entries| && k in InodesOf(record.entries[i]) :: k;
      disk := Journaled(disk, record);
      recent, ops := recent + [disk], ops + 1;
    }

    /** unlink of the record. */
    method RetireRecord() returns (r: Outcome)
      requires Valid()
      requires !noisy ==> Good(base, Retired(disk))
      modifies this`disk, this`recent, this`seen, this`next, this`ops, this`log
      ensures Valid() && Others(old(disk), seen) && next >= old(next)
      ensures Trail(old(recent), old(disk)) && (!noisy ==> OneMore(old(recent)))
      ensures r == Done || r == Died || r == Raised || (r == Missing && disk.journal == None)
      ensures if r.Raised? then Raising(old(log), Retiring) else log == old(log)
      ensures r.Done? ==> disk == Retired(seen) && ops == old(ops) + 1
      ensures !r.Done? ==> disk == seen && ops == old(ops)
    {
      hide Valid;
      hide Good;
      Interfere();
      r := Verdict(Retiring);
      if !r.Done? { return; }
      if disk.journal == None { return Missing; }
      RetireNow();
    }

    method RetireNow()
      requires Valid() && (!noisy ==> Good(base, Retired(disk)))
      modifies this`disk, this`recent, this`ops
      ensures Valid() && Trail(old(recent), old(disk)) && OneMore(old(recent))
      ensures disk == Retired(old(disk)) && ops == old(ops) + 1
    {
      hide Good;
      hide WellFormed;
      disk := Retired(disk);
      recent, ops := recent + [disk], ops + 1;
    }

    // ---- Between processes ----

    /** The machine loses power: the directory falls back to some disk since the last fsync. */
    method PowerLoss()
      requires Valid()
      modifies this`disk, this`recent, this`seen
      ensures Valid() && disk in old(recent) && recent == [disk]
    {
      var k := *;
      var survivor := if 0 <= k < |recent| then k else |recent| - 1;
      disk, recent, seen := recent[survivor], [recent[survivor]], recent[survivor];
    }

    /** A user replaces or removes a public file while no publication of that name is pending. */
    method Edit(n: Name, f: Option<File>)
      requires Valid() && !Private(n)
      requires disk.journal.Some? && disk.journal.value.phase.Pending? ==>
        !IsTarget(disk.journal.value.entries, n)
      modifies this`disk, this`recent, this`next
      ensures Valid() && disk.journal == old(disk.journal)
      ensures disk.ledger == old(disk.ledger) + [map[n := if f.None? then None else Some(ContentOf(f.value))]]
      ensures forall s :: s in recent ==> s in old(recent) || s == disk
      ensures next >= old(next)
    {
      hide Good;
      hide WellFormed;
      var u: Update := map[n := if f.None? then None else Some(ContentOf(f.value))];
      var a := disk;
      var b := if f.None? then a.(names := a.names - {n}, ledger := a.ledger + [u])
               else a.(names := a.names[n := next], files := a.files[next := f.value], ledger := a.ledger + [u]);
      if !noisy { EditIsGood(a, b, n, u); }
      disk, recent, next := b, recent + [b], next + 1;
    }

    static lemma EntryUntouched(a: Disk, b: Disk, n: Name, u: Update, i: nat)
      requires Recoverable(a) && a.journal.Some? && i < |a.journal.value.entries| && !Private(n)
      requires a.journal.value.phase.Pending? ==> !IsTarget(a.journal.value.entries, n)
      requires Frame(false, {n}, a.(ledger := a.ledger + [u]), b)
      ensures var e := a.journal.value.entries[i];
        && (if a.journal.value.phase.Pending? then Safe(b, e) else AliasesIntact(b, e))
        && (a.journal.value.phase.Pending? ==> e.target != n)
    {
      var r, e, c := a.journal.value, a.journal.value.entries[i], a.(ledger := a.ledger + [u]);
      assert WellFormedEntry(e);
      assert At(c, e.temporary) == At(b, e.temporary) && At(c, e.failed) == At(b, e.failed)
          && At(c, e.displaced) == At(b, e.displaced);
      if e.preimage.Some? { assert At(c, e.preimage.value.rollback) == At(b, e.preimage.value.rollback); }
      if r.phase.Pending? {
        assert IsTarget(r.entries, e.target);
        assert At(c, e.target) == At(b, e.target);
      }
    }

    lemma EditIsGood(a: Disk, b: Disk, n: Name, u: Update)
      requires Good(base, a) && Bound(b) && !Private(n)
      requires a.journal.Some? && a.journal.value.phase.Pending? ==> !IsTarget(a.journal.value.entries, n)
      requires u.Keys == {n} && Shown(b, n) == u[n]
      requires Frame(false, {n}, a.(ledger := a.ledger + [u]), b)
      ensures Good(base, b)
    {
      forall m | !Private(m) ensures Replay(base, b.ledger, m) == if m == n then u[n] else Replay(base, a.ledger, m) {
        ReplayAppend(base, a.ledger, u, m);
      }
      var c := a.(ledger := a.ledger + [u]);
      forall m | m != n ensures Shown(a, m) == Shown(b, m) { ShownFramed({n}, c, b, m); }
      if a.journal.Some? {
        forall i | 0 <= i < |a.journal.value.entries|
          ensures var e := a.journal.value.entries[i];
            && (if a.journal.value.phase.Pending? then Safe(b, e) else AliasesIntact(b, e))
            && (a.journal.value.phase.Pending? ==> e.target != n)
        {
          EntryUntouched(a, b, n, u, i);
        }
      }
    }
  }
}
