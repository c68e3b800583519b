/** Recovery after a crash: put every target of a pending record back, then retire the record's aliases
    and the record. Each method is stated for three kinds of runs at once: always (custody, frames),
    quiet runs where calls may still raise or the process die, and calm runs in which nothing raised. */
module Recovery {
  import opened Disks
  import opened Custody
  import opened Restart
  import opened Names
  import opened Directories

  /** An error of a call as its caller sees it: the process is dead, or an exception is under way. */
  function Failure(r: Outcome): Outcome {
    if r.Died? then Died else Raised
  }

  /** Since then nobody interfered and no call raised. */
  ghost predicate Calm(dir: Directory, since: Log)
    reads dir`log
  {
    !dir.noisy && dir.log == since
  }

  lemma FrameTrans(noisy: bool, S: set<Name>, a: Disk, b: Disk, c: Disk)
    requires Frame(noisy, S, a, b) && Frame(noisy, S, b, c)
    ensures Frame(noisy, S, a, c)
  {
    forall n | n !in S && (Private(n) || !noisy) ensures At(a, n) == At(c, n) {
      assert At(a, n) == At(b, n);
    }
  }

  lemma FrameWiden(noisy: bool, S: set<Name>, T: set<Name>, a: Disk, b: Disk)
    requires Frame(noisy, S, a, b) && S <= T
    ensures Frame(noisy, T, a, b)
  {
  }

  /** From a to b only the given names were moved, no inode rewritten, and neither ledger nor record changed;
      the disks in between have that ledger, and that record or none. */
  ghost predicate Ran(noisy: bool, S: set<Name>, a: Moment, b: Moment) {
    && Frame(noisy, S, a.disk, b.disk) && a.next <= b.next && a.ops <= b.ops
    && Later(a.log, b.log) && a.faults == b.faults && (!a.faults ==> a.log == b.log)
    && forall s :: s in b.recent ==>
         s in a.recent || (s.ledger == a.disk.ledger && (s.journal == a.disk.journal || s.journal == None))
  }

  lemma RanTrans(noisy: bool, S: set<Name>, T: set<Name>, U: set<Name>, a: Moment, b: Moment, c: Moment)
    requires Ran(noisy, S, a, b) && Ran(noisy, T, b, c) && S <= U && T <= U
    ensures Ran(noisy, U, a, c) && c.disk.journal == b.disk.journal == a.disk.journal
    ensures Later(a.log, b.log) && Later(b.log, c.log)
  {
    FrameTrans(noisy, U, a.disk, b.disk, c.disk);
  }

  lemma RanWiden(noisy: bool, S: set<Name>, T: set<Name>, a: Moment, b: Moment)
    requires Ran(noisy, S, a, b) && S <= T
    ensures Ran(noisy, T, a, b) && b.disk.journal == a.disk.journal && Later(a.log, b.log)
  {
  }

  lemma RanFrame(noisy: bool, S: set<Name>, a: Moment, b: Moment)
    requires Ran(noisy, S, a, b)
    ensures Frame(noisy, S, a.disk, b.disk)
  {
  }

  /** Whatever a power loss may fall back to has this ledger. */
  ghost predicate AllHave(recent: seq<Disk>, L: seq<Update>) {
    forall s :: s in recent ==> s.ledger == L
  }

  /** A name outside the moved ones is what it was. */
  lemma RanAt(noisy: bool, S: set<Name>, a: Moment, b: Moment, n: Name)
    requires Ran(noisy, S, a, b) && n !in S && (Private(n) || !noisy)
    ensures At(a.disk, n) == At(b.disk, n) && b.disk.journal == a.disk.journal
  {
  }

  lemma RanNot(noisy: bool, S: set<Name>, a: Moment)
    ensures Ran(noisy, S, a, a)
  {
  }

  /** What a call that only looks, or syncs, does. */
  lemma LookRan(dir: Directory, a: Moment)
    requires dir.Others(a.disk, dir.disk) && dir.Trail(a.recent, a.disk) && a.next <= dir.next && a.ops == dir.ops
    requires dir.Since(a.log) && a.faults == dir.faults
    ensures Ran(dir.noisy, {}, a, dir.Here())
  {
  }

  lemma LinkRan(dir: Directory, src: Name, dst: Name, a: Moment)
    requires dir.Others(a.disk, dir.seen) && dir.Trail(a.recent, a.disk) && a.next <= dir.next && a.ops <= dir.ops
    requires dir.Since(a.log) && a.faults == dir.faults
    requires dir.disk == dir.seen || (src in dir.seen.names && dir.disk == Linked(dir.seen, src, dst))
    ensures Ran(dir.noisy, {dst}, a, dir.Here())
  {
    LinkFrame(dir.noisy, src, dst, a.disk, dir.seen, dir.disk);
  }

  lemma RenameRan(dir: Directory, src: Name, dst: Name, a: Moment)
    requires dir.Others(a.disk, dir.seen) && dir.Trail(a.recent, a.disk) && a.next <= dir.next && a.ops <= dir.ops
    requires dir.Since(a.log) && a.faults == dir.faults
    requires dir.disk == dir.seen || (src in dir.seen.names && dir.disk == Renamed(dir.seen, src, dst))
    ensures Ran(dir.noisy, {src, dst}, a, dir.Here())
  {
    RenameFrame(dir.noisy, src, dst, a.disk, dir.seen, dir.disk);
  }

  lemma UnlinkRan(dir: Directory, n: Name, a: Moment)
    requires dir.Others(a.disk, dir.seen) && dir.Trail(a.recent, a.disk) && a.next <= dir.next && a.ops <= dir.ops
    requires dir.Since(a.log) && a.faults == dir.faults
    requires dir.disk == dir.seen || dir.disk == Unlinked(dir.seen, n)
    ensures Ran(dir.noisy, {n}, a, dir.Here()) && Shrinks(a.disk, dir.disk)
  {
    FrameTrans(dir.noisy, {}, a.disk, a.disk, dir.seen);
    UnlinkFrame(dir.noisy, n, a.disk, a.disk, dir.seen, dir.disk);
  }

  /** One or more effective steps of a calm recovery: fates stay, the rank pays for every step. */
  ghost predicate Advances(a: Disk, b: Disk, steps: int) {
    SameFate(a, b) && Rank(b) + steps <= Rank(a) && NoEntryRises(a, b)
  }

  lemma AdvancesTrans(a: Disk, b: Disk, c: Disk, m: int, n: int)
    requires Advances(a, b, m) && Advances(b, c, n)
    ensures Advances(a, c, m + n)
  {
    var r := a.journal.value;
    forall i | 0 <= i < |r.entries| ensures Fate(c, r.phase, r.entries[i]) == Fate(a, r.phase, r.entries[i]) {
      assert Fate(b, r.phase, r.entries[i]) == Fate(a, r.phase, r.entries[i]);
    }
    forall n | !Recorded(r.entries, n) ensures At(c, n) == At(a, n) {
      assert At(b, n) == At(a, n);
    }
  }

  lemma EntryAdvances(a: Disk, b: Disk, i: nat, steps: int)
    requires a.journal.Some? && i < |a.journal.value.entries| && WellFormed(a.journal.value.entries)
    requires Frame(false, NamesOf(a.journal.value.entries[i]), a, b) && a.files == b.files
    requires var r := a.journal.value; var e := r.entries[i];
      && Fate(b, r.phase, e) == Fate(a, r.phase, e)
      && 0 <= steps && EntryRank(b, r.phase, e) + steps <= EntryRank(a, r.phase, e)
    ensures Advances(a, b, steps)
  {
    FateStep(a, b, i);
    RankStep(a, b, a.journal.value.phase, a.journal.value.entries, i);
    NoEntryRisesStep(a, b, i);
  }

  /** Whatever a power loss may fall back to was there before, or is a step of this recovery. */
  ghost predicate Onward(after: seq<Disk>, before: seq<Disk>, since: Disk) {
    forall s :: s in after ==> s in before || Advances(since, s, 0)
  }

  lemma OnwardTrans(a: seq<Disk>, b: seq<Disk>, c: seq<Disk>, d: Disk, e: Disk, m: int)
    requires Onward(b, a, d) && Onward(c, b, e) && Advances(d, e, m) && m >= 0
    ensures Onward(c, a, d)
  {
    forall s | s in c && s !in a ensures Advances(d, s, 0) {
      if s !in b { AdvancesTrans(d, e, s, m, 0); }
    }
  }

  lemma OnwardStep(dir: Directory, before: seq<Disk>, since: Disk, m: int)
    requires dir.OneMore(before) && Advances(since, dir.disk, m) && m >= 0
    ensures Onward(dir.recent, before, since)
  {
  }

  lemma StaysPut(recent: seq<Disk>, since: Disk)
    ensures Onward(recent, recent, since)
    ensures since.journal.Some? ==> Advances(since, since, 0)
  {
  }

  /** A calm recovery on the way or at its end. */
  ghost predicate Recovering(a: Disk, b: Disk, steps: int) {
    (SameFate(a, b) || IsRecovered(a, b)) && Rank(b) + steps <= Rank(a) && NoEntryRises(a, b)
  }

  /** A stretch of a recovery under a record in force; in a run in which nothing has raised since some
      earlier moment it only goes forward. */
  ghost predicate Progress(noisy: bool, since: Log, S: set<Name>, a: Moment, b: Moment) {
    && Ran(noisy, S, a, b) && (!noisy ==> b.disk.files == a.disk.files)
    && (!noisy && b.log == since ==>
          Advances(a.disk, b.disk, b.ops - a.ops) && Onward(b.recent, a.recent, a.disk))
  }

  lemma ProgressTrans(noisy: bool, since: Log, S: set<Name>, T: set<Name>, U: set<Name>, a: Moment, b: Moment,
                      c: Moment)
    requires Progress(noisy, since, S, a, b) && S <= U && T <= U && Later(since, a.log)
    requires Progress(noisy, since, T, b, c) || Progress(noisy, b.log, T, b, c)
    ensures Progress(noisy, since, U, a, c) && Later(a.log, b.log) && Later(b.log, c.log)
  {
    hide Advances;
    hide Onward;
    RanTrans(noisy, S, T, U, a, b, c);
    if !noisy && c.log == since {
      AdvancesTrans(a.disk, b.disk, c.disk, b.ops - a.ops, c.ops - b.ops);
      OnwardTrans(a.recent, b.recent, c.recent, a.disk, b.disk, b.ops - a.ops);
    }
  }

  /** One call as a stretch: in a calm run it either did nothing or took the step that is known to advance. */
  lemma OneStep(dir: Directory, since: Log, S: set<Name>, a: Moment)
    requires Ran(dir.noisy, S, a, dir.Here()) && a.disk.journal.Some?
    requires !dir.noisy ==> dir.OneMore(a.recent) && dir.disk.files == a.disk.files
    requires Calm(dir, since) && dir.disk == a.disk ==> a.ops == dir.ops
    requires Calm(dir, since) && dir.disk != a.disk ==> Advances(a.disk, dir.disk, dir.ops - a.ops)
    ensures Progress(dir.noisy, since, S, a, dir.Here())
  {
    if Calm(dir, since) {
      StaysPut(a.recent, a.disk);
      OnwardStep(dir, a.recent, a.disk, dir.ops - a.ops);
    }
  }

  /** The same for a call that only looks, or syncs. */
  lemma Looked(dir: Directory, a: Moment)
    requires dir.Others(a.disk, dir.disk) && dir.Trail(a.recent, a.disk) && a.next <= dir.next && a.ops == dir.ops
    requires dir.Since(a.log) && a.faults == dir.faults
    requires a.disk.journal.Some? && (!dir.noisy ==> dir.OneMore(a.recent))
    ensures Progress(dir.noisy, a.log, {}, a, dir.Here())
  {
    LookRan(dir, a);
    OneStep(dir, a.log, {}, a);
  }

  /** The same for a recovery that may have reached its end. */
  ghost predicate Comeback(after: seq<Disk>, before: seq<Disk>, since: Disk) {
    forall s :: s in after ==> s in before || Recovering(since, s, 0)
  }

  lemma ComebackStep(dir: Directory, before: seq<Disk>, middle: seq<Disk>, since: Disk, m: int)
    requires Onward(middle, before, since) && dir.OneMore(middle) && Recovering(since, dir.disk, m) && m >= 0
    ensures Comeback(dir.recent, before, since)
  {
  }

  lemma ComebackAfter(a: seq<Disk>, b: seq<Disk>, c: seq<Disk>, d: Disk, e: Disk, m: int)
    requires Onward(b, a, d) && Comeback(c, b, e) && Advances(d, e, m) && m >= 0
    ensures Comeback(c, a, d)
  {
    forall s | s in c && s !in a ensures Recovering(d, s, 0) {
      if s !in b { RecoveringAfter(d, e, s, m, 0); }
    }
  }

  lemma OnwardComesBack(a: seq<Disk>, b: seq<Disk>, d: Disk)
    requires Onward(b, a, d)
    ensures Comeback(b, a, d)
  {
  }

  // ---- _restore_displaced_artifact ----

  /** Give a moved name back to the public; the alias goes only after the link is made. */
  method Restore(dir: Directory, alias: Name, target: Name) returns (r: Outcome)
    requires dir.Valid() && Private(alias) && !Private(target)
    requires !dir.noisy && alias in dir.disk.names && target !in dir.disk.names ==>
      && Good(dir.base, Linked(dir.disk, alias, target))
      && Good(dir.base, Unlinked(Linked(dir.disk, alias, target), alias))
    modifies dir`disk, dir`recent, dir`seen, dir`next, dir`log, dir`ops, dir`lost, dir`returned
    ensures dir.Valid() && Ran(dir.noisy, {alias, target}, old(dir.Here()), dir.Here())
    ensures r == Done || r == Raised || r == Died
    ensures r.Done? ==> alias !in dir.disk.names
    ensures At(dir.disk, alias) == None || At(dir.disk, alias) == At(old(dir.disk), alias)
    ensures !dir.noisy ==>
      || (dir.disk == old(dir.disk) && !r.Done?)
      || (alias in old(dir.disk).names && target !in old(dir.disk).names
          && (|| (dir.disk == Linked(old(dir.disk), alias, target) && !r.Done?)
              || dir.disk == Unlinked(Linked(old(dir.disk), alias, target), alias)))
    ensures !dir.noisy && r.Raised? && alias in old(dir.disk).names && target !in old(dir.disk).names ==>
      dir.Faulted(old(dir.log))
    ensures NoRename(old(dir.log), dir.log)
  {
    hide Good;
    hide WellFormed;
    hide dir.Valid;
    hide dir.Trail;
    hide Ran;
    ghost var a, S := dir.Here(), {alias, target};
    r := dir.Link(alias, target);
    LinkRan(dir, alias, target, a);
    ghost var b := dir.Here();
    RanWiden(dir.noisy, {target}, S, a, b);
    if !r.Done? { return Failure(r); }
    r := dir.Unlink(alias);
    UnlinkRan(dir, alias, b);
    RanTrans(dir.noisy, {target}, {alias}, S, a, b, dir.Here());
    if r.Missing? { r := Done; }
  }

  // ---- _cleanup_artifact_recovery ----

  lemma AliasGone(base: map<Name, Content>, d: Disk, i: nat, n: Name)
    requires Good(base, d) && d.journal.Some? && i < |d.journal.value.entries|
    requires var r := d.journal.value; var e := r.entries[i];
      n in NamesOf(e) && n != e.target && (r.phase.Pending? ==> Restored(d, e))
    ensures Good(base, Unlinked(d, n))
    ensures n in d.names ==> Advances(d, Unlinked(d, n), 1)
    ensures Restored(d, d.journal.value.entries[i]) ==> Restored(Unlinked(d, n), d.journal.value.entries[i])
  {
    var r := d.journal.value;
    var e := r.entries[i];
    var b := Unlinked(d, n);
    assert WellFormedEntry(e);
    assert if r.phase.Pending? then Safe(d, e) else AliasesIntact(d, e);
    assert e.target in NamesOf(e);
    EntryStep(base, d, b, i);
    if n in d.names {
      assert Count(b, n) + 1 == Count(d, n);
      assert forall m :: m != n ==> Count(b, m) == Count(d, m);
      assert Standing(b, e) == Standing(d, e) || r.phase.Committed?;
      EntryAdvances(d, b, i, 1);
    }
  }

  /** No alias of the entry is left. */
  predicate Cleared(d: Disk, e: Entry) {
    && At(d, e.temporary) == None && At(d, e.displaced) == None && At(d, e.failed) == None
    && match e.preimage case None => true case Some(p) => At(d, p.rollback) == None
  }

  function AliasesOf(e: Entry): set<Name> {
    NamesOf(e) - {e.target}
  }

  /** The record can be retired as it stands: a calm cleanup has nothing to refuse. */
  ghost predicate Settled(d: Disk) {
    && d.journal.Some?
    && (d.journal.value.phase.Pending? ==>
          forall i :: 0 <= i < |d.journal.value.entries| ==> Restored(d, d.journal.value.entries[i]))
  }

  lemma SettledFramed(S: set<Name>, a: Disk, b: Disk)
    requires Settled(a) && Frame(false, S, a, b)
    requires forall i :: 0 <= i < |a.journal.value.entries| ==> a.journal.value.entries[i].target !in S
    ensures Settled(b)
  {
    forall i | 0 <= i < |a.journal.value.entries|
      ensures At(a, a.journal.value.entries[i].target) == At(b, a.journal.value.entries[i].target)
    {
    }
    forall i | 0 <= i < |a.journal.value.entries| && a.journal.value.phase.Pending?
      ensures Restored(b, b.journal.value.entries[i])
    {
      assert Restored(a, a.journal.value.entries[i]);
    }
  }

  lemma PublicOutside(entries: seq<Entry>, e: Entry)
    requires WellFormed(entries) && WellFormedEntry(e)
    ensures forall i :: 0 <= i < |entries| ==> entries[i].target !in AliasesOf(e)
    ensures forall n :: n in AliasesOf(e) ==> Private(n)
  {
    forall i | 0 <= i < |entries| ensures !Private(entries[i].target) {
      assert WellFormedEntry(entries[i]);
    }
  }

  /** Private names only went away. */
  ghost predicate Shrinks(a: Disk, b: Disk) {
    forall n :: Private(n) ==> At(b, n) == None || At(b, n) == At(a, n)
  }

  /** Whether the alias is there (Done) with exactly what the record binds to it, or gone (Missing). */
  method Confirm(dir: Directory, n: Name, b: Option<Binding>) returns (r: Outcome)
    requires dir.Valid()
    modifies dir`disk, dir`recent, dir`seen, dir`next, dir`log
    ensures dir.Valid() && dir.next >= old(dir.next) && dir.Trail(old(dir.recent), old(dir.disk))
    ensures dir.Others(old(dir.disk), dir.disk) && (!dir.noisy ==> dir.recent == old(dir.recent))
    ensures r == Done || r == Missing || r == Raised
    ensures r.Done? ==> b.Some? && Holds(dir.disk, n, b.value)
    ensures r.Missing? ==> n !in dir.disk.names || dir.noisy
    ensures r.Missing? && Private(n) ==> n !in dir.disk.names
    ensures r.Raised? ==>
      || dir.Faulted(old(dir.log)) || dir.noisy
      || (n in dir.disk.names && (b.None? || !Holds(dir.disk, n, b.value)))
    ensures dir.Since(old(dir.log))
  {
    ghost var d0 := dir.disk;
    r := dir.Exists(n);
    if !r.Done? { return; }
    if b.None? { return Raised; }
    ghost var d1 := dir.disk;
    var ok := dir.Matches(n, b.value);
    FrameTrans(dir.noisy, {}, d0, d1, dir.disk);
    r := if ok then Done else Raised;
  }

  /** What validity says about an entry of the record in force. */
  lemma Known(dir: Directory, i: nat)
    requires dir.Valid() && dir.disk.journal.Some? && i < |dir.disk.journal.value.entries|
    ensures WellFormed(dir.disk.journal.value.entries)
    ensures
      var r := dir.disk.journal.value;
      && WellFormedEntry(r.entries[i]) && InodesOf(r.entries[i]) <= dir.recorded
      && (!dir.noisy ==> Good(dir.base, dir.disk) && AliasesIntact(dir.disk, r.entries[i]))
      && (!dir.noisy && r.phase.Pending? ==> Safe(dir.disk, r.entries[i]))
  {
    dir.Now();
  }

  /** One alias of entry i. */
  method RetireAlias(dir: Directory, i: nat, n: Name, b: Option<Binding>) returns (r: Outcome)
    requires dir.Valid() && dir.disk.journal.Some? && i < |dir.disk.journal.value.entries|
    requires var e := dir.disk.journal.value.entries[i];
      n in AliasesOf(e) && (b.Some? ==> b.value.ino in InodesOf(e))
    requires !dir.noisy ==> Settled(dir.disk)
    requires !dir.noisy && n in dir.disk.names ==> b.Some? && Holds(dir.disk, n, b.value)
    modifies dir`disk, dir`recent, dir`seen, dir`next, dir`log, dir`ops, dir`lost
    ensures dir.Valid() && Progress(dir.noisy, old(dir.log), {n}, old(dir.Here()), dir.Here())
    ensures Shrinks(old(dir.disk), dir.disk)
    ensures r == Done || r == Raised || r == Died
    ensures r.Done? ==> n !in dir.disk.names
    ensures !dir.noisy ==> Settled(dir.disk)
    ensures !dir.noisy && r.Raised? ==> dir.Faulted(old(dir.log))
  {
    hide Good;
    hide WellFormed;
    hide dir.Valid;
    hide dir.Trail;
    hide Ran;
    hide Progress;
    hide Advances;
    ghost var a, e := dir.Here(), dir.disk.journal.value.entries[i];
    Known(dir, i);
    PublicOutside(dir.disk.journal.value.entries, e);
    r := Confirm(dir, n, b);
    Looked(dir, a);
    ghost var c := dir.Here();
    ProgressWiden(dir.noisy, a.log, {}, {n}, a, c);
    LookShrinks(dir.noisy, a.disk, c.disk);
    if r.Raised? { return; }
    if r.Missing? { return Done; }
    Known(dir, i);
    if !dir.noisy { AliasGone(dir.base, c.disk, i, n); }
    r := dir.Unlink(n);
    UnlinkRan(dir, n, c);
    OneStep(dir, a.log, {n}, c);
    ProgressTrans(dir.noisy, a.log, {}, {n}, {n}, a, c, dir.Here());
    ShrinksTrans(a.disk, c.disk, dir.disk);
    if !dir.noisy && r.Done? { SettledFramed({n}, c.disk, dir.disk); }
    r := if r.Done? then Done else Failure(r);
  }

  lemma LookShrinks(noisy: bool, a: Disk, b: Disk)
    requires Frame(noisy, {}, a, b)
    ensures Shrinks(a, b)
  {
  }

  lemma UnlinkFrame(noisy: bool, n: Name, a: Disk, b: Disk, seen: Disk, c: Disk)
    requires Frame(noisy, {}, a, b) && Frame(noisy, {}, b, seen) && (c == seen || c == Unlinked(seen, n))
    ensures Frame(noisy, {n}, a, c) && Shrinks(a, c)
  {
    FrameTrans(noisy, {}, a, b, seen);
    forall m | m != n && (Private(m) || !noisy) ensures At(a, m) == At(c, m) {
      assert At(a, m) == At(seen, m);
    }
    forall m | Private(m) ensures At(c, m) == None || At(c, m) == At(a, m) {
      assert At(a, m) == At(seen, m);
    }
  }

  /** The aliases of one entry in the order of the source, with what each is bound to. */
  function Fields(e: Entry): seq<(Option<Name>, Option<Binding>)> {
    [ (Some(e.temporary), Some(e.candidate)),
      match e.preimage case None => (None, None) case Some(p) => (Some(p.rollback), Some(p.copy)),
      (Some(e.displaced), match e.preimage case None => None case Some(p) => Some(p.original)),
      (Some(e.failed), Some(e.candidate)) ]
  }

  lemma FieldFacts(e: Entry, k: nat)
    requires WellFormedEntry(e) && k < 4 && Fields(e)[k].0.Some?
    ensures Fields(e)[k].0.value in AliasesOf(e) && Private(Fields(e)[k].0.value)
    ensures Fields(e)[k].1.Some? ==> Fields(e)[k].1.value.ino in InodesOf(e)
    ensures forall d :: AliasesIntact(d, e) && Fields(e)[k].0.value in d.names ==>
      Fields(e)[k].1.Some? && Holds(d, Fields(e)[k].0.value, Fields(e)[k].1.value)
  {
  }

  lemma FieldsClear(d: Disk, e: Entry)
    requires forall k :: 0 <= k < 4 && Fields(e)[k].0.Some? ==> Fields(e)[k].0.value !in d.names
    ensures Cleared(d, e)
  {
    assert Fields(e)[0].0 == Some(e.temporary);
    assert Fields(e)[1].0 == match e.preimage case None => None case Some(p) => Some(p.rollback);
    assert Fields(e)[2].0 == Some(e.displaced);
    assert Fields(e)[3].0 == Some(e.failed);
  }

  method RetireAliases(dir: Directory, i: nat) returns (r: Outcome)
    requires dir.Valid() && dir.disk.journal.Some? && i < |dir.disk.journal.value.entries|
    requires !dir.noisy ==> Settled(dir.disk)
    modifies dir`disk, dir`recent, dir`seen, dir`next, dir`log, dir`ops, dir`lost
    ensures dir.Valid()
    ensures Progress(dir.noisy, old(dir.log), AliasesOf(old(dir.disk).journal.value.entries[i]), old(dir.Here()),
      dir.Here())
    ensures Shrinks(old(dir.disk), dir.disk)
    ensures r == Done || r == Raised || r == Died
    ensures r.Done? ==> Cleared(dir.disk, old(dir.disk).journal.value.entries[i])
    ensures !dir.noisy ==> Settled(dir.disk)
    ensures !dir.noisy && r.Raised? ==> dir.Faulted(old(dir.log))
  {
    hide Good;
    hide WellFormed;
    hide dir.Valid;
    hide dir.Trail;
    hide Ran;
    hide Progress;
    hide Advances;
    hide NamesOf;
    hide Settled;
    hide AliasesOf;
    var e := dir.disk.journal.value.entries[i];
    ghost var a, S := dir.Here(), AliasesOf(e);
    Known(dir, i);
    StandsStill(dir.noisy, a.log, S, a);
    r := Done;
    var k := 0;
    while k < 4
      invariant 0 <= k <= 4 && dir.Valid()
      invariant Progress(dir.noisy, a.log, S, a, dir.Here()) && Shrinks(a.disk, dir.disk)
      invariant dir.disk.journal == a.disk.journal && (!dir.noisy ==> Settled(dir.disk))
      invariant forall j :: 0 <= j < k && Fields(e)[j].0.Some? ==> Fields(e)[j].0.value !in dir.disk.names
      decreases 4 - k
    {
      var (name, binding) := Fields(e)[k];
      if name.Some? {
        FieldFacts(e, k);
        Known(dir, i);
        ghost var b := dir.Here();
        r := RetireAlias(dir, i, name.value, binding);
        ProgressAt(dir.noisy, b.log, {name.value}, b, dir.Here(), "");
        ProgressTrans(dir.noisy, a.log, S, {name.value}, S, a, b, dir.Here());
        ShrinksTrans(a.disk, b.disk, dir.disk);
        if !r.Done? { return; }
        forall j | 0 <= j < k && Fields(e)[j].0.Some? ensures Fields(e)[j].0.value !in dir.disk.names {
          FieldFacts(e, j);
          StaysGone(b.disk, dir.disk, Fields(e)[j].0.value);
        }
      }
      k := k + 1;
    }
    FieldsClear(dir.disk, e);
    r := Done;
  }

  lemma StaysGone(a: Disk, b: Disk, n: Name)
    requires Shrinks(a, b) && Private(n) && n !in a.names
    ensures n !in b.names
  {
    assert At(b, n) == None || At(b, n) == At(a, n);
  }

  lemma ShrinksTrans(a: Disk, b: Disk, c: Disk)
    requires Shrinks(a, b) && Shrinks(b, c)
    ensures Shrinks(a, c)
  {
  }

  /** A calm cleanup that got this far has made the finished recovery of where it began. */
  lemma FinishesRecovery(a: Disk, b: Disk, c: Disk)
    requires Recoverable(a) && Settled(b) && SameFate(a, b) && WellFormed(b.journal.value.entries)
    requires forall i :: 0 <= i < |b.journal.value.entries| ==> Cleared(b, b.journal.value.entries[i])
    requires c == Retired(b)
    ensures IsRecovered(a, c)
  {
    var r := b.journal.value;
    forall i | 0 <= i < |r.entries|
      ensures At(c, r.entries[i].target) == Fate(a, r.phase, r.entries[i])
      ensures forall n :: n in NamesOf(r.entries[i]) && n != r.entries[i].target ==> At(c, n) == None
    {
      assert Fate(b, r.phase, r.entries[i]) == Fate(a, r.phase, r.entries[i]);
      assert Cleared(b, r.entries[i]) && WellFormedEntry(r.entries[i]);
    }
    forall n | !Recorded(r.entries, n) ensures At(c, n) == At(a, n) {
      assert At(b, n) == At(a, n);
    }
  }

  /** Public names do not move. */
  ghost predicate SamePublic(a: Disk, b: Disk) {
    forall n :: !Private(n) ==> At(a, n) == At(b, n)
  }

  method RetireAllAliases(dir: Directory) returns (r: Outcome)
    requires dir.Valid() && dir.disk.journal.Some?
    requires !dir.noisy ==> Settled(dir.disk)
    modifies dir`disk, dir`recent, dir`seen, dir`next, dir`log, dir`ops, dir`lost
    ensures dir.Valid()
    ensures Progress(dir.noisy, old(dir.log), Everything(old(dir.disk).journal.value.entries), old(dir.Here()),
                     dir.Here())
    ensures dir.disk.journal == old(dir.disk.journal)
    ensures r == Done || r == Raised || r == Died
    ensures r.Done? ==> forall i :: 0 <= i < |dir.disk.journal.value.entries| ==>
      Cleared(dir.disk, dir.disk.journal.value.entries[i])
    ensures !dir.noisy ==> Settled(dir.disk) && SamePublic(old(dir.disk), dir.disk)
    ensures !dir.noisy && r.Raised? ==> dir.Faulted(old(dir.log))
  {
    hide Good;
    hide WellFormed;
    hide dir.Valid;
    hide dir.Trail;
    hide Ran;
    hide Progress;
    hide Advances;
    hide NamesOf;
    hide Settled;
    hide Shrinks;
    hide AliasesOf;
    ghost var a := dir.Here();
    var record := dir.disk.journal.value;
    ghost var S := Everything(record.entries);
    StandsStill(dir.noisy, a.log, S, a);
    r := Done;
    var i := 0;
    while i < |record.entries|
      invariant 0 <= i <= |record.entries| && dir.Valid()
      invariant Progress(dir.noisy, a.log, S, a, dir.Here()) && dir.disk.journal == Some(record)
      invariant !dir.noisy ==> Settled(dir.disk) && SamePublic(a.disk, dir.disk)
      invariant forall j :: 0 <= j < i ==> Cleared(dir.disk, record.entries[j])
    {
      ghost var b, T := dir.Here(), AliasesOf(record.entries[i]);
      Known(dir, i);
      r := RetireAliases(dir, i);
      ProgressAt(dir.noisy, b.log, T, b, dir.Here(), "");
      EverythingHas(record.entries, i);
      ProgressTrans(dir.noisy, a.log, S, T, S, a, b, dir.Here());
      if !dir.noisy { PublicProgress(record.entries[i], b.log, a.disk, b, dir.Here()); }
      if !r.Done? { return; }
      forall j | 0 <= j < i ensures Cleared(dir.disk, record.entries[j]) {
        AllWellFormed(record.entries, j);
        ShrinksClears(b.disk, dir.disk, record.entries[j]);
      }
      i := i + 1;
    }
    r := Done;
  }

  lemma PublicProgress(e: Entry, since: Log, a: Disk, b: Moment, c: Moment)
    requires WellFormedEntry(e) && SamePublic(a, b.disk) && Progress(false, since, AliasesOf(e), b, c)
    ensures SamePublic(a, c.disk)
  {
    PublicFramed(e, a, b.disk, c.disk);
  }

  lemma AllWellFormed(entries: seq<Entry>, j: nat)
    requires WellFormed(entries) && j < |entries|
    ensures WellFormedEntry(entries[j])
  {
  }

  lemma PublicFramed(e: Entry, a: Disk, b: Disk, c: Disk)
    requires WellFormedEntry(e) && SamePublic(a, b) && Frame(false, AliasesOf(e), b, c)
    ensures SamePublic(a, c)
  {
    forall n | !Private(n) ensures At(a, n) == At(c, n) {
      assert At(a, n) == At(b, n);
      assert n !in AliasesOf(e);
    }
  }

  lemma ShrinksClears(a: Disk, b: Disk, e: Entry)
    requires Shrinks(a, b) && Cleared(a, e) && WellFormedEntry(e)
    ensures Cleared(b, e)
  {
  }

  lemma OthersClear(noisy: bool, entries: seq<Entry>, a: Disk, b: Disk)
    requires Frame(noisy, {}, a, b) && WellFormed(entries)
    requires forall i :: 0 <= i < |entries| ==> Cleared(a, entries[i])
    ensures forall i :: 0 <= i < |entries| ==> Cleared(b, entries[i])
  {
    forall i | 0 <= i < |entries| ensures Cleared(b, entries[i]) {
      var e := entries[i];
      assert Cleared(a, e) && WellFormedEntry(e);
      assert At(a, e.temporary) == At(b, e.temporary) && At(a, e.displaced) == At(b, e.displaced)
          && At(a, e.failed) == At(b, e.failed);
      if e.preimage.Some? { assert At(a, e.preimage.value.rollback) == At(b, e.preimage.value.rollback); }
    }
  }

  /** Make what happened durable, retire the record, and make that durable. */
  method RetireDurably(dir: Directory) returns (r: Outcome)
    requires dir.Valid() && dir.disk.journal.Some?
    requires !dir.noisy ==> Settled(dir.disk)
    modifies dir`disk, dir`recent, dir`seen, dir`next, dir`log, dir`ops
    ensures dir.Valid() && dir.next >= old(dir.next) && dir.Trail(old(dir.recent), old(dir.disk))
    ensures r == Done || r == Raised || r == Died
    ensures dir.disk.journal.None? || dir.disk.journal == old(dir.disk.journal)
    ensures dir.disk.journal.None? ==> Frame(dir.noisy, {}, Retired(old(dir.disk)), dir.disk)
    ensures dir.disk.journal.Some? ==> Frame(dir.noisy, {}, old(dir.disk), dir.disk)
    ensures r.Done? ==> dir.disk.journal == None && dir.recent == [dir.disk]
    ensures !dir.noisy ==> dir.disk == if dir.disk.journal.None? then Retired(old(dir.disk)) else old(dir.disk)
    ensures dir.ops == old(dir.ops) + if dir.disk.journal.None? then 1 else 0
    ensures dir.disk.journal == None ==> AllHave(dir.recent, dir.disk.ledger)
    ensures !dir.noisy ==> dir.OneMore(old(dir.recent))
    ensures dir.Since(old(dir.log))
    ensures !dir.noisy && r.Raised? ==> dir.Faulted(old(dir.log))
  {
    hide Good;
    ghost var d0 := dir.disk;
    r := dir.Sync();
    if !r.Done? { return; }
    ghost var d1 := dir.disk;
    if !dir.noisy { RetireStep(dir.base, d1); }
    r := dir.RetireRecord();
    FrameTrans(dir.noisy, {}, d0, d1, dir.seen);
    if !r.Done? { return Failure(r); }
    ghost var d2 := dir.disk;
    assert Frame(dir.noisy, {}, Retired(d0), d2);
    r := dir.Sync();
    FrameTrans(dir.noisy, {}, Retired(d0), d2, dir.disk);
  }

  /** After the aliases the record goes, which is the last step. */
  lemma Finished(base: map<Name, Content>, a: Disk, b: Disk, c: Disk, m: int)
    requires Good(base, a) && Advances(a, b, m) && Settled(b) && WellFormed(b.journal.value.entries)
    requires forall i :: 0 <= i < |b.journal.value.entries| ==> Cleared(b, b.journal.value.entries[i])
    requires c == Retired(b) || c == b
    ensures Recovering(a, c, m + if c.journal.None? then 1 else 0)
  {
    if c == Retired(b) { FinishesRecovery(a, b, c); }
  }

  method Cleanup(dir: Directory) returns (r: Outcome)
    requires dir.Valid() && dir.disk.journal.Some?
    requires !dir.noisy ==> Settled(dir.disk)
    requires !dir.noisy && dir.disk.journal.value.phase.Pending? ==> dir.recent == [dir.disk]
    modifies dir`disk, dir`recent, dir`seen, dir`next, dir`log, dir`ops, dir`lost
    ensures dir.Valid() && dir.next >= old(dir.next) && dir.Trail(old(dir.recent), old(dir.disk))
    ensures dir.disk.ledger == old(dir.disk.ledger) && dir.ops >= old(dir.ops)
    ensures dir.disk.journal == None || dir.disk.journal == old(dir.disk.journal)
    ensures r == Done || r == Raised || r == Died
    ensures r.Done? ==> dir.disk.journal == None && dir.recent == [dir.disk]
    ensures dir.disk.journal == None ==> AllHave(dir.recent, dir.disk.ledger)
    ensures r.Done? ==> forall i :: 0 <= i < |old(dir.disk).journal.value.entries| ==>
      Cleared(dir.disk, old(dir.disk).journal.value.entries[i])
    ensures !dir.noisy ==> SamePublic(old(dir.disk), dir.disk)
    ensures dir.Since(old(dir.log)) && (!dir.noisy && r.Raised? ==> dir.Faulted(old(dir.log)))
    ensures !dir.noisy && dir.disk.journal.Some? ==> Settled(dir.disk)
    ensures Calm(dir, old(dir.log)) ==> Recovering(old(dir.disk), dir.disk, dir.ops - old(dir.ops))
    ensures Calm(dir, old(dir.log)) ==> Comeback(dir.recent, old(dir.recent), old(dir.disk))
  {
    hide Good;
    hide WellFormed;
    hide dir.Valid;
    hide Advances;
    hide Recovering;
    hide Onward;
    hide Comeback;
    hide Everything;
    dir.Now();
    ghost var a := dir.Here();
    ghost var entries := dir.disk.journal.value.entries;
    r := RetireAllAliases(dir);
    ghost var b := dir.Here();
    if Calm(dir, a.log) {
      RecoveringMeans(a.disk, b.disk, b.ops - a.ops);
      OnwardComesBack(a.recent, b.recent, a.disk);
    }
    if !r.Done? { return; }
    dir.Now();
    r := RetireDurably(dir);
    OthersClear(dir.noisy, entries, if dir.disk.journal.None? then Retired(b.disk) else b.disk, dir.disk);
    if Calm(dir, a.log) {
      Finished(dir.base, a.disk, b.disk, dir.disk, b.ops - a.ops);
      ComebackStep(dir, a.recent, b.recent, a.disk, dir.ops - a.ops);
    }
  }

  // ---- _recover_artifact_publication_locked ----

  /** Entry i of the pending record in force. */
  ghost predicate InForce(dir: Directory, i: nat)
    reads dir
  {
    && dir.disk.journal.Some? && dir.disk.journal.value.phase.Pending?
    && i < |dir.disk.journal.value.entries|
  }

  /** Whether the target already shows its original or its copy; an absent original wants it absent. */
  method AlreadyRestored(dir: Directory, e: Entry) returns (r: Outcome, restored: bool)
    requires dir.Valid()
    modifies dir`disk, dir`recent, dir`seen, dir`next, dir`log
    ensures dir.Valid() && dir.next >= old(dir.next) && dir.Trail(old(dir.recent), old(dir.disk))
    ensures dir.Others(old(dir.disk), dir.disk) && (!dir.noisy ==> dir.recent == old(dir.recent))
    ensures r == Done || (r == Raised && dir.Faulted(old(dir.log)))
    ensures dir.Since(old(dir.log))
    ensures !dir.noisy && r.Done? && restored ==> Restored(dir.disk, e)
    ensures !dir.noisy && AliasesIntact(dir.disk, e) && !restored && !dir.Faulted(old(dir.log)) ==>
      !Restored(dir.disk, e)
  {
    ghost var d0 := dir.disk;
    match e.preimage
    case None =>
      r := dir.Exists(e.target);
      restored := r.Missing?;
      if !r.Raised? { r := Done; }
    case Some(p) =>
      r := Done;
      restored := dir.Matches(e.target, p.original);
      if !restored {
        ghost var d1 := dir.disk;
        restored := dir.Matches(e.target, p.copy);
        FrameTrans(dir.noisy, {}, d0, d1, dir.disk);
      }
  }

  lemma Unlinking(base: map<Name, Content>, d: Disk, i: nat)
    requires Good(base, d) && d.journal.Some? && d.journal.value.phase.Pending? && i < |d.journal.value.entries|
    requires At(d, d.journal.value.entries[i].target) == Some(d.journal.value.entries[i].candidate.ino)
    requires d.journal.value.entries[i].failed in d.names
    ensures Good(base, Unlinked(d, d.journal.value.entries[i].failed))
    ensures Advances(d, Unlinked(d, d.journal.value.entries[i].failed), 1)
  {
    var e := d.journal.value.entries[i];
    var b := Unlinked(d, e.failed);
    assert WellFormedEntry(e) && Safe(d, e);
    EntryStep(base, d, b, i);
    assert Count(d, e.failed) == 1 && Count(b, e.failed) == 0;
    EntryAdvances(d, b, i, 1);
  }

  lemma PuttingAside(base: map<Name, Content>, d: Disk, i: nat)
    requires Good(base, d) && d.journal.Some? && d.journal.value.phase.Pending? && i < |d.journal.value.entries|
    requires At(d, d.journal.value.entries[i].target) == Some(d.journal.value.entries[i].candidate.ino)
    requires d.journal.value.entries[i].failed !in d.names
    ensures
      var e := d.journal.value.entries[i];
      var b := Renamed(d, e.target, e.failed);
      && Good(base, b) && Advances(d, b, 1)
      && At(b, e.target) == None && At(b, e.failed) == Some(e.candidate.ino)
      && Frame(false, NamesOf(e), d, b)
  {
    var e := d.journal.value.entries[i];
    var b := Renamed(d, e.target, e.failed);
    assert WellFormedEntry(e) && Safe(d, e);
    EntryStep(base, d, b, i);
    assert Count(d, e.failed) == 0 && Count(b, e.failed) == 1;
    EntryAdvances(d, b, i, 1);
  }

  /** A candidate set aside under `failed` can be given back to the public. */
  lemma GivingBack(base: map<Name, Content>, d: Disk, i: nat)
    requires Good(base, d) && d.journal.Some? && d.journal.value.phase.Pending? && i < |d.journal.value.entries|
    requires At(d, d.journal.value.entries[i].target) == None
    requires At(d, d.journal.value.entries[i].failed) == Some(d.journal.value.entries[i].candidate.ino)
    requires d.journal.value.entries[i].preimage.Some? ==>
      At(d, d.journal.value.entries[i].preimage.value.rollback) ==
        Some(d.journal.value.entries[i].preimage.value.copy.ino)
    ensures
      var e := d.journal.value.entries[i];
      && Good(base, Linked(d, e.failed, e.target))
      && Good(base, Unlinked(Linked(d, e.failed, e.target), e.failed))
  {
    var e := d.journal.value.entries[i];
    assert WellFormedEntry(e) && Safe(d, e);
    EntryStep(base, d, Linked(d, e.failed, e.target), i);
    EntryStep(base, d, Unlinked(Linked(d, e.failed, e.target), e.failed), i);
  }

  /** Linking the displaced original, or failing that the rollback copy, restores the entry. */
  lemma PuttingBack(base: map<Name, Content>, d: Disk, i: nat, source: Name)
    requires Good(base, d) && d.journal.Some? && d.journal.value.phase.Pending? && i < |d.journal.value.entries|
    requires
      var e := d.journal.value.entries[i];
      && At(d, e.target) == None && e.preimage.Some?
      && ((source == e.displaced && At(d, source) == Some(e.preimage.value.original.ino))
          || (source == e.preimage.value.rollback && At(d, source) == Some(e.preimage.value.copy.ino)))
    ensures
      var e := d.journal.value.entries[i];
      var b := Linked(d, source, e.target);
      && Good(base, b) && Restored(b, e)
      && (source == e.displaced || At(d, e.displaced) == None ==> Advances(d, b, 1))
  {
    var e := d.journal.value.entries[i];
    var b := Linked(d, source, e.target);
    assert WellFormedEntry(e) && Safe(d, e);
    EntryStep(base, d, b, i);
    if source == e.displaced || At(d, e.displaced) == None { EntryAdvances(d, b, i, 1); }
  }

  lemma InEntry(e: Entry)
    ensures e.target in NamesOf(e) && e.failed in NamesOf(e) && e.displaced in NamesOf(e) && e.temporary in NamesOf(e)
    ensures e.preimage.Some? ==> e.preimage.value.rollback in NamesOf(e)
  {
  }

  lemma ProgressWiden(noisy: bool, since: Log, S: set<Name>, T: set<Name>, a: Moment, b: Moment)
    requires Progress(noisy, since, S, a, b) && S <= T
    ensures Progress(noisy, since, T, a, b) && Later(a.log, b.log)
  {
  }

  /** The record in force stays, and so do names that were not moved. */
  lemma ProgressAt(noisy: bool, since: Log, S: set<Name>, a: Moment, b: Moment, n: Name)
    requires Progress(noisy, since, S, a, b)
    ensures b.disk.journal == a.disk.journal && b.disk.ledger == a.disk.ledger && Later(a.log, b.log)
    ensures n !in S && (Private(n) || !noisy) ==> At(a.disk, n) == At(b.disk, n)
  {
  }

  /** A failed alias left by an earlier attempt goes first: renaming over it would do nothing. */
  method ClearFailed(dir: Directory, i: nat) returns (r: Outcome)
    requires dir.Valid() && InForce(dir, i)
    requires var e := dir.disk.journal.value.entries[i];
      !dir.noisy ==> At(dir.disk, e.target) == Some(e.candidate.ino)
    modifies dir`disk, dir`recent, dir`seen, dir`next, dir`log, dir`ops, dir`lost
    ensures dir.Valid()
    ensures r == Done || r == Raised || r == Died
    ensures r.Done? ==> old(dir.disk).journal.value.entries[i].failed !in dir.disk.names
    ensures !dir.noisy && r.Done? && old(dir.disk).journal.value.entries[i].failed in old(dir.disk).names ==>
      dir.recent == [dir.disk]
    ensures Progress(dir.noisy, old(dir.log), {old(dir.disk).journal.value.entries[i].failed}, old(dir.Here()),
                     dir.Here())
    ensures !dir.noisy && r.Raised? ==> dir.Faulted(old(dir.log))
  {
    hide Good;
    hide WellFormed;
    hide dir.Valid;
    hide dir.Trail;
    hide Ran;
    hide Progress;
    hide Advances;
    hide NamesOf;
    var e := dir.disk.journal.value.entries[i];
    ghost var a, S := dir.Here(), {e.failed};
    Known(dir, i);
    r := Confirm(dir, e.failed, Some(e.candidate));
    Looked(dir, a);
    ghost var b := dir.Here();
    ProgressWiden(dir.noisy, a.log, {}, S, a, b);
    if r.Raised? { return; }
    if r.Missing? { return Done; }
    Known(dir, i);
    if !dir.noisy { Unlinking(dir.base, b.disk, i); }
    r := dir.Unlink(e.failed);
    UnlinkRan(dir, e.failed, b);
    OneStep(dir, a.log, S, b);
    ghost var c := dir.Here();
    ProgressTrans(dir.noisy, a.log, {}, S, S, a, b, c);
    if !r.Done? { return Failure(r); }
    r := dir.Sync();
    Looked(dir, c);
    ProgressTrans(dir.noisy, a.log, S, {}, S, a, c, dir.Here());
    ProgressAt(dir.noisy, c.log, {}, c, dir.Here(), e.failed);
  }

  lemma RenameFrame(noisy: bool, src: Name, dst: Name, a: Disk, seen: Disk, b: Disk)
    requires Frame(noisy, {}, a, seen)
    requires b == seen || (src in seen.names && b == Renamed(seen, src, dst))
    ensures Frame(noisy, {src, dst}, a, b)
  {
    forall n | n !in {src, dst} && (Private(n) || !noisy) ensures At(a, n) == At(b, n) {
      assert At(a, n) == At(seen, n);
    }
  }

  lemma LinkFrame(noisy: bool, src: Name, dst: Name, a: Disk, seen: Disk, b: Disk)
    requires Frame(noisy, {}, a, seen)
    requires b == seen || (src in seen.names && b == Linked(seen, src, dst))
    ensures Frame(noisy, {dst}, a, b)
  {
    forall n | n != dst && (Private(n) || !noisy) ensures At(a, n) == At(b, n) {
      assert At(a, n) == At(seen, n);
    }
  }

  /** Take the candidate off the public name into the cleared failed alias, and check what was caught:
      whatever is not the candidate is given back. */
  method SetAside(dir: Directory, i: nat) returns (r: Outcome)
    requires dir.Valid() && InForce(dir, i)
    requires var e := dir.disk.journal.value.entries[i];
      e.failed !in dir.disk.names && (!dir.noisy ==> At(dir.disk, e.target) == Some(e.candidate.ino))
    modifies dir`disk, dir`recent, dir`seen, dir`next, dir`log, dir`ops, dir`lost, dir`returned
    ensures dir.Valid()
    ensures r == Done || r == Raised || r == Died
    ensures r.Done? ==> dir.recent == [dir.disk]
    ensures r.Done? ==>
      var e := old(dir.disk).journal.value.entries[i]; At(dir.disk, e.failed) == Some(e.candidate.ino)
    ensures !dir.noisy && r.Done? ==> old(dir.disk).journal.value.entries[i].target !in dir.disk.names
    ensures var e := old(dir.disk).journal.value.entries[i];
      Progress(dir.noisy, old(dir.log), {e.target, e.failed}, old(dir.Here()), dir.Here())
    ensures !dir.noisy && r.Raised? ==> dir.Faulted(old(dir.log))
  {
    hide Good;
    hide WellFormed;
    hide dir.Valid;
    hide dir.Trail;
    hide Ran;
    hide Progress;
    hide Advances;
    hide NamesOf;
    var e := dir.disk.journal.value.entries[i];
    ghost var a, S := dir.Here(), {e.target, e.failed};
    Known(dir, i);
    if !dir.noisy { PuttingAside(dir.base, a.disk, i); }
    r := dir.Rename(e.target, e.failed);
    RenameRan(dir, e.target, e.failed, a);
    OneStep(dir, a.log, S, a);
    if !r.Done? { return Failure(r); }
    ghost var b := dir.Here();
    var ok := dir.Matches(e.failed, e.candidate);
    Looked(dir, b);
    ghost var c := dir.Here();
    ProgressTrans(dir.noisy, a.log, S, {}, S, a, b, c);
    if ok {
      r := dir.Sync();
      Looked(dir, c);
      ProgressAt(dir.noisy, c.log, {}, c, dir.Here(), e.failed);
      ProgressTrans(dir.noisy, a.log, S, {}, S, a, c, dir.Here());
    } else {
      r := PutBackCaught(dir, i, a.log);
      ProgressTrans(dir.noisy, a.log, S, S, S, a, c, dir.Here());
    }
  }

  /** What was caught is not the candidate, which never happens when nobody interferes and nothing has raised. */
  method PutBackCaught(dir: Directory, i: nat, ghost since: Log) returns (r: Outcome)
    requires dir.Valid() && InForce(dir, i) && Later(since, dir.log) && !Calm(dir, since)
    requires var e := dir.disk.journal.value.entries[i];
      !dir.noisy ==> At(dir.disk, e.target) == None && At(dir.disk, e.failed) == Some(e.candidate.ino)
    modifies dir`disk, dir`recent, dir`seen, dir`next, dir`log, dir`ops, dir`lost, dir`returned
    ensures dir.Valid() && (r == Raised || r == Died)
    ensures var e := old(dir.disk).journal.value.entries[i];
      Progress(dir.noisy, since, {e.target, e.failed}, old(dir.Here()), dir.Here())
  {
    hide Good;
    hide WellFormed;
    hide dir.Valid;
    hide Ran;
    var e := dir.disk.journal.value.entries[i];
    ghost var a := dir.Here();
    Known(dir, i);
    if !dir.noisy { GivingBack(dir.base, a.disk, i); }
    r := Restore(dir, e.failed, e.target);
    assert {e.failed, e.target} == {e.target, e.failed};
    r := if r.Died? then Died else Raised;
  }

  /** With the public name free, link the original back: from its displaced name, or from the copy when
      the displaced name is gone and the candidate is known to be set aside. */
  method Reinstate(dir: Directory, i: nat) returns (r: Outcome)
    requires dir.Valid() && InForce(dir, i)
    requires !dir.noisy ==> At(dir.disk, dir.disk.journal.value.entries[i].target) == None
    modifies dir`disk, dir`recent, dir`seen, dir`next, dir`log, dir`ops, dir`lost, dir`returned
    ensures dir.Valid()
    ensures r == Done || r == Raised || r == Died
    ensures r.Done? ==> dir.recent == [dir.disk]
    ensures !dir.noisy && r.Done? ==> Restored(dir.disk, old(dir.disk).journal.value.entries[i])
    ensures Progress(dir.noisy, old(dir.log), {old(dir.disk).journal.value.entries[i].target}, old(dir.Here()),
                     dir.Here())
    ensures !dir.noisy && r.Raised? ==> dir.Faulted(old(dir.log))
  {
    hide Good;
    hide WellFormed;
    hide dir.Valid;
    hide dir.Trail;
    hide Ran;
    hide Progress;
    hide Advances;
    hide NamesOf;
    var e := dir.disk.journal.value.entries[i];
    ghost var a, S := dir.Here(), {e.target};
    Known(dir, i);
    StandsStill(dir.noisy, a.log, S, a);
    if e.preimage.Some? {
      var source;
      r, source := ChooseSource(dir, e);
      Looked(dir, a);
      ghost var b := dir.Here();
      ProgressWiden(dir.noisy, a.log, {}, S, a, b);
      if !r.Done? { return; }
      if !dir.noisy { PuttingBack(dir.base, b.disk, i, source); }
      r := dir.Link(source, e.target);
      LinkRan(dir, source, e.target, b);
      OneStep(dir, a.log, S, b);
      ProgressTrans(dir.noisy, a.log, {}, S, S, a, b, dir.Here());
      if !r.Done? { return Failure(r); }
    }
    ghost var c := dir.Here();
    r := dir.Sync();
    Looked(dir, c);
    ProgressTrans(dir.noisy, a.log, S, {}, S, a, c, dir.Here());
    if !dir.noisy { SameAgain(c.disk, dir.disk); }
  }

  lemma SameAgain(a: Disk, b: Disk)
    requires Frame(false, {}, a, b)
    ensures forall e :: Restored(a, e) ==> Restored(b, e)
  {
    assert forall n :: At(a, n) == At(b, n);
  }

  lemma StandsStill(noisy: bool, since: Log, S: set<Name>, a: Moment)
    requires a.disk.journal.Some?
    ensures Progress(noisy, since, S, a, a)
  {
    StaysPut(a.recent, a.disk);
  }

  method ChooseSource(dir: Directory, e: Entry) returns (r: Outcome, source: Name)
    requires dir.Valid() && e.preimage.Some? && WellFormedEntry(e)
    modifies dir`disk, dir`recent, dir`seen, dir`next, dir`log
    ensures dir.Valid() && dir.next >= old(dir.next) && dir.Trail(old(dir.recent), old(dir.disk))
    ensures dir.Others(old(dir.disk), dir.disk) && (!dir.noisy ==> dir.recent == old(dir.recent))
    ensures r == Done || r == Raised
    ensures r.Done? ==> Private(source)
    ensures !dir.noisy && r.Done? ==>
      || (source == e.displaced && At(dir.disk, source) == Some(e.preimage.value.original.ino))
      || (source == e.preimage.value.rollback && At(dir.disk, source) == Some(e.preimage.value.copy.ino))
    ensures dir.Since(old(dir.log))
    ensures Calm(dir, old(dir.log)) && r.Done? && AliasesIntact(dir.disk, e) ==>
      source == e.displaced || At(dir.disk, e.displaced) == None
    ensures !dir.noisy && r.Raised? && Safe(dir.disk, e) && !Restored(dir.disk, e) ==>
      At(dir.disk, e.target) != None || dir.Faulted(old(dir.log))
  {
    ghost var d0 := dir.disk;
    source := e.displaced;
    var ok := dir.Matches(e.displaced, e.preimage.value.original);
    if ok { return Done, source; }
    ghost var d1 := dir.disk;
    ok := dir.Matches(e.failed, e.candidate);
    FrameTrans(dir.noisy, {}, d0, d1, dir.disk);
    if !ok { return Raised, source; }
    source := e.preimage.value.rollback;
    ghost var d2 := dir.disk;
    ok := dir.Matches(source, e.preimage.value.copy);
    FrameTrans(dir.noisy, {}, d0, d2, dir.disk);
    r := if ok then Done else Raised;
  }

  /** One target of a pending record: leave it when restored, otherwise set the candidate aside and put
      the original back; anything else found there is somebody else's and stays. */
  method RecoverEntry(dir: Directory, i: nat) returns (r: Outcome)
    requires dir.Valid() && InForce(dir, i)
    modifies dir`disk, dir`recent, dir`seen, dir`next, dir`log, dir`ops, dir`lost, dir`returned
    ensures dir.Valid()
    ensures r == Done || r == Raised || r == Died
    ensures !dir.noisy && r.Done? ==> Restored(dir.disk, old(dir.disk).journal.value.entries[i])
    ensures Progress(dir.noisy, old(dir.log), NamesOf(old(dir.disk).journal.value.entries[i]), old(dir.Here()),
                     dir.Here())
    ensures !dir.noisy && r.Raised? ==> dir.Faulted(old(dir.log))
  {
    hide Good;
    hide WellFormed;
    hide dir.Valid;
    hide dir.Trail;
    hide Ran;
    hide Progress;
    hide Advances;
    hide NamesOf;
    var e := dir.disk.journal.value.entries[i];
    ghost var a, S := dir.Here(), NamesOf(e);
    Known(dir, i);
    InEntry(e);
    var restored;
    r, restored := AlreadyRestored(dir, e);
    Looked(dir, a);
    ghost var b := dir.Here();
    ProgressWiden(dir.noisy, a.log, {}, S, a, b);
    if r.Raised? || restored { return; }
    r := MakeRoom(dir, i);
    ghost var c := dir.Here();
    ProgressTrans(dir.noisy, a.log, {}, S, S, a, b, c);
    if !r.Done? { return; }
    ProgressAt(dir.noisy, b.log, S, b, c, e.target);
    r := Reinstate(dir, i);
    ProgressTrans(dir.noisy, a.log, S, {e.target}, S, a, c, dir.Here());
  }

  /** Free the public name of a target that is not restored: only its candidate may be moved. */
  method MakeRoom(dir: Directory, i: nat) returns (r: Outcome)
    requires dir.Valid() && InForce(dir, i)
    modifies dir`disk, dir`recent, dir`seen, dir`next, dir`log, dir`ops, dir`lost, dir`returned
    ensures dir.Valid()
    ensures r == Done || r == Raised || r == Died
    ensures !dir.noisy && r.Done? ==> At(dir.disk, old(dir.disk).journal.value.entries[i].target) == None
    ensures Progress(dir.noisy, old(dir.log), NamesOf(old(dir.disk).journal.value.entries[i]), old(dir.Here()),
                     dir.Here())
    ensures !dir.noisy && r.Raised? && !Restored(old(dir.disk), old(dir.disk).journal.value.entries[i]) ==>
      dir.Faulted(old(dir.log))
  {
    hide Good;
    hide WellFormed;
    hide dir.Valid;
    hide dir.Trail;
    hide Ran;
    hide Progress;
    hide Advances;
    hide NamesOf;
    var e := dir.disk.journal.value.entries[i];
    ghost var a, S := dir.Here(), NamesOf(e);
    Known(dir, i);
    InEntry(e);
    var isCandidate := dir.Matches(e.target, e.candidate);
    Looked(dir, a);
    ghost var b := dir.Here();
    if isCandidate {
      r := ClearFailed(dir, i);
      ghost var c := dir.Here();
      ProgressTrans(dir.noisy, a.log, {}, {e.failed}, S, a, b, c);
      if !r.Done? { return; }
      ProgressAt(dir.noisy, b.log, {e.failed}, b, c, e.target);
      r := SetAside(dir, i);
      ProgressAt(dir.noisy, c.log, {e.target, e.failed}, c, dir.Here(), e.target);
      ProgressTrans(dir.noisy, a.log, S, {e.target, e.failed}, S, a, c, dir.Here());
    } else {
      r := dir.Exists(e.target);
      Looked(dir, b);
      ProgressTrans(dir.noisy, a.log, {}, {}, S, a, b, dir.Here());
      r := if r.Missing? then Done else Raised;
    }
  }

  lemma RestoredFramed(a: Disk, b: Disk, entries: seq<Entry>, i: nat, j: nat)
    requires WellFormed(entries) && i < |entries| && j < |entries| && i != j
    requires Frame(false, NamesOf(entries[i]), a, b)
    ensures Restored(a, entries[j]) <==> Restored(b, entries[j])
  {
    if i < j { assert NamesOf(entries[i]) !! NamesOf(entries[j]); }
    else { assert NamesOf(entries[j]) !! NamesOf(entries[i]); }
    AliasesFramed(NamesOf(entries[i]), a, b, entries[j]);
  }

  /** How many of the targets from i on are not restored. */
  function Unrestored(d: Disk, entries: seq<Entry>, i: nat): nat {
    |set j | i <= j < |entries| && !Restored(d, entries[j])|
  }

  /** Handling entry i can add at most entry i itself, and only if it is not restored. */
  lemma UnrestoredStep(a: Disk, b: Disk, entries: seq<Entry>, i: nat)
    requires i < |entries|
    requires forall j :: i < j < |entries| ==> (Restored(a, entries[j]) <==> Restored(b, entries[j]))
    ensures Unrestored(b, entries, i) <= Unrestored(a, entries, i + 1) + if Restored(b, entries[i]) then 0 else 1
  {
    hide Restored;
    var rest := set j | i + 1 <= j < |entries| && !Restored(a, entries[j]);
    var all := set j | i <= j < |entries| && !Restored(b, entries[j]);
    assert all == if Restored(b, entries[i]) then rest else rest + {i};
  }

  lemma NoneUnrestored(d: Disk, entries: seq<Entry>, i: nat)
    ensures Unrestored(d, entries, i) == 0 <==> forall j :: i <= j < |entries| ==> Restored(d, entries[j])
  {
    hide Restored;
    var open := set j | i <= j < |entries| && !Restored(d, entries[j]);
    if open == {} {
      forall j | i <= j < |entries| ensures Restored(d, entries[j]) {
        assert j !in open;
      }
    } else {
      var j :| j in open;
    }
  }

  lemma SettledHasNone(d: Disk)
    ensures Settled(d) && d.journal.value.phase.Pending? ==> Unrestored(d, d.journal.value.entries, 0) == 0
  {
    if d.journal.Some? { NoneUnrestored(d, d.journal.value.entries, 0); }
  }

  /** All targets, last entry first; one that cannot be restored does not stop the others: without
      interference each call that raises leaves at most one target not restored. */
  method RecoverEntries(dir: Directory) returns (r: Outcome)
    requires dir.Valid() && dir.disk.journal.Some? && dir.disk.journal.value.phase.Pending?
    modifies dir`disk, dir`recent, dir`seen, dir`next, dir`log, dir`ops, dir`lost, dir`returned
    ensures dir.Valid()
    ensures r == Done || r == Raised || r == Died
    ensures !dir.noisy && r.Done? ==> Settled(dir.disk)
    ensures !dir.noisy && !r.Died? ==>
      Unrestored(dir.disk, old(dir.disk).journal.value.entries, 0) <= dir.log.raises - old(dir.log).raises
    ensures Progress(dir.noisy, old(dir.log), Everything(old(dir.disk).journal.value.entries), old(dir.Here()),
                     dir.Here())
    ensures dir.disk.journal == old(dir.disk.journal)
    ensures !dir.noisy && r.Raised? ==> dir.Faulted(old(dir.log))
  {
    hide Good;
    hide WellFormed;
    hide dir.Valid;
    hide dir.Trail;
    hide Ran;
    hide Progress;
    hide Advances;
    hide NamesOf;
    hide Unrestored;
    ghost var a := dir.Here();
    var entries := dir.disk.journal.value.entries;
    ghost var S := Everything(entries);
    StandsStill(dir.noisy, a.log, S, a);
    dir.Now();
    NoneUnrestored(dir.disk, entries, |entries|);
    var i, errors := |entries|, false;
    while i > 0
      invariant 0 <= i <= |entries| && dir.Valid()
      invariant Progress(dir.noisy, a.log, S, a, dir.Here()) && dir.disk.journal == a.disk.journal
      invariant !dir.noisy && !errors ==> forall j :: i <= j < |entries| ==> Restored(dir.disk, entries[j])
      invariant !dir.noisy && errors ==> dir.Faulted(a.log)
      invariant a.log.raises <= dir.log.raises
      invariant !dir.noisy ==> Unrestored(dir.disk, entries, i) <= dir.log.raises - a.log.raises
    {
      i := i - 1;
      ghost var b := dir.Here();
      r := RecoverEntry(dir, i);
      ghost var c := dir.Here();
      ProgressAt(dir.noisy, b.log, NamesOf(entries[i]), b, c, "");
      EverythingHas(entries, i);
      ProgressTrans(dir.noisy, a.log, S, NamesOf(entries[i]), S, a, b, c);
      if r.Died? { return; }
      if r.Raised? { errors := true; }
      if !dir.noisy {
        OthersRestored(entries, i, b, c, b.log);
        UnrestoredStep(b.disk, c.disk, entries, i);
      }
    }
    r := if errors then Raised else Done;
  }

  function Everything(entries: seq<Entry>): set<Name> {
    set i, n | 0 <= i < |entries| && n in NamesOf(entries[i]) :: n
  }

  lemma EverythingHas(entries: seq<Entry>, i: nat)
    requires i < |entries|
    ensures NamesOf(entries[i]) <= Everything(entries) && AliasesOf(entries[i]) <= Everything(entries)
  {
  }

  lemma OthersRestored(entries: seq<Entry>, i: nat, b: Moment, c: Moment, since: Log)
    requires WellFormed(entries) && i < |entries| && Progress(false, since, NamesOf(entries[i]), b, c)
    ensures forall j :: 0 <= j < |entries| && j != i ==>
      (Restored(b.disk, entries[j]) <==> Restored(c.disk, entries[j]))
  {
    forall j | 0 <= j < |entries| && j != i
      ensures Restored(b.disk, entries[j]) <==> Restored(c.disk, entries[j])
    {
      RestoredFramed(b.disk, c.disk, entries, i, j);
    }
  }

  lemma RecoveringAfter(a: Disk, b: Disk, c: Disk, m: int, n: int)
    requires Advances(a, b, m) && Recovering(b, c, n)
    ensures Recovering(a, c, m + n)
  {
    if SameFate(b, c) { AdvancesTrans(a, b, c, m, n); } else { RestartIsConfluent(a, b, c); }
  }

  /** Without a record, a quiet directory shows exactly its replayed history. */
  lemma ShowsHistory(dir: Directory)
    requires dir.Valid() && !dir.noisy && dir.disk.journal == None
    ensures forall n :: !Private(n) ==> Shown(dir.disk, n) == Replay(dir.base, dir.disk.ledger, n)
  {
    dir.Now();
  }

  lemma RecoveringMeans(a: Disk, b: Disk, n: int)
    ensures Advances(a, b, n) ==> Recovering(a, b, n)
    ensures Recovering(a, b, n) && a.journal.Some? && b.journal == None ==> IsRecovered(a, b)
  {
  }

  lemma AlreadyRecovered(a: Disk)
    ensures a.journal == None ==> Recovering(a, a, 0) && IsRecovered(a, a)
    ensures a.journal.Some? ==> Recovering(a, a, 0)
  {
  }

  /** Under a pending record: put the targets back, make that durable, and only then clean up. */
  method RecoverPending(dir: Directory) returns (r: Outcome)
    requires dir.Valid() && dir.disk.journal.Some? && dir.disk.journal.value.phase.Pending?
    modifies dir`disk, dir`recent, dir`seen, dir`next, dir`log, dir`ops, dir`lost, dir`returned
    ensures dir.Valid() && dir.next >= old(dir.next) && dir.Trail(old(dir.recent), old(dir.disk))
    ensures r == Done || r == Raised || r == Died
    ensures dir.disk.ledger == old(dir.disk.ledger) && dir.ops >= old(dir.ops)
    ensures dir.disk.journal == None || dir.disk.journal == old(dir.disk.journal)
    ensures r.Done? ==>
      && dir.disk.journal == None && dir.recent == [dir.disk]
      && forall i :: 0 <= i < |old(dir.disk).journal.value.entries| ==>
           Cleared(dir.disk, old(dir.disk).journal.value.entries[i])
    ensures dir.disk.journal == None ==> AllHave(dir.recent, dir.disk.ledger)
    ensures Calm(dir, old(dir.log)) ==>
      && Recovering(old(dir.disk), dir.disk, dir.ops - old(dir.ops))
      && Comeback(dir.recent, old(dir.recent), old(dir.disk))
    ensures dir.Since(old(dir.log)) && (!dir.noisy && r.Raised? ==> dir.Faulted(old(dir.log)))
    ensures !dir.noisy && !r.Died? && dir.disk.journal.Some? ==>
      Unrestored(dir.disk, old(dir.disk).journal.value.entries, 0) <= dir.log.raises - old(dir.log).raises
  {
    hide Good;
    hide WellFormed;
    hide dir.Valid;
    hide Advances;
    hide Recovering;
    hide Onward;
    hide Comeback;
    hide Everything;
    hide Unrestored;
    hide Shown;
    ghost var a := dir.Here();
    r := RecoverEntries(dir);
    ghost var b := dir.Here();
    RecoveringMeans(a.disk, b.disk, b.ops - a.ops);
    if Calm(dir, a.log) { OnwardComesBack(a.recent, b.recent, a.disk); }
    if !r.Done? { return; }
    r := dir.Sync();
    ghost var c := dir.Here();
    SettledHasNone(c.disk);
    if Calm(dir, a.log) {
      AtRest(b.disk, dir.recent, b.recent);
      OnwardTrans(a.recent, b.recent, c.recent, a.disk, b.disk, b.ops - a.ops);
      OnwardComesBack(a.recent, c.recent, a.disk);
    }
    if !r.Done? { return; }
    r := Cleanup(dir);
    if Calm(dir, a.log) {
      RecoveringAfter(a.disk, b.disk, dir.disk, b.ops - a.ops, dir.ops - b.ops);
      ComebackAfter(a.recent, c.recent, dir.recent, a.disk, b.disk, b.ops - a.ops);
    }
    SettledHasNone(dir.disk);
  }

  /** Finish what a dead or failed publication left. In any run: custody is kept. Without interference:
      every disk on the way is good (Valid), and a completed recovery shows exactly the replayed history,
      has no record and none of the recorded aliases, all of it durable; a committed record's public
      names are not touched; once the record could be read, each call that raises leaves at most one of
      its targets not restored. In a calm run it completes unless the record cannot be read, and wherever
      it stops, what remains to be done leads to the same disk and costs at least that many steps less. */
  method Recover(dir: Directory) returns (r: Outcome)
    requires dir.Valid()
    modifies dir`disk, dir`recent, dir`seen, dir`next, dir`log, dir`ops, dir`lost, dir`returned
    ensures dir.Valid() && dir.next >= old(dir.next) && dir.Trail(old(dir.recent), old(dir.disk))
    ensures r == Done || r == Raised || r == Died
    ensures dir.disk.ledger == old(dir.disk.ledger) && dir.ops >= old(dir.ops)
    ensures dir.disk.journal == None || dir.disk.journal == old(dir.disk.journal)
    ensures r.Done? ==> dir.disk.journal == None
    ensures old(dir.disk).journal.None? ==> dir.disk == old(dir.disk) && dir.recent == old(dir.recent)
    ensures r.Done? && old(dir.disk.journal).Some? ==>
      && dir.recent == [dir.disk]
      && forall i :: 0 <= i < |old(dir.disk).journal.value.entries| ==>
           Cleared(dir.disk, old(dir.disk).journal.value.entries[i])
    ensures old(dir.disk).journal.Some? && dir.disk.journal == None ==> AllHave(dir.recent, dir.disk.ledger)
    ensures !dir.noisy && r.Done? ==>
      forall n :: !Private(n) ==> Shown(dir.disk, n) == Replay(dir.base, dir.disk.ledger, n)
    ensures !dir.noisy && old(dir.disk.journal).Some? && old(dir.disk).journal.value.phase.Committed? ==>
      SamePublic(old(dir.disk), dir.disk)
    ensures Calm(dir, old(dir.log)) ==> Recovering(old(dir.disk), dir.disk, dir.ops - old(dir.ops))
    ensures Calm(dir, old(dir.log)) && r.Done? ==> IsRecovered(old(dir.disk), dir.disk)
    ensures Calm(dir, old(dir.log)) ==> Comeback(dir.recent, old(dir.recent), old(dir.disk))
    ensures Calm(dir, old(dir.log)) ==>
      (r.Raised? <==> old(dir.disk).journal.Some? && !Readable(old(dir.disk).journal.value))
    ensures dir.Since(old(dir.log))
    ensures !dir.noisy && r.Raised? ==>
      dir.Faulted(old(dir.log)) || (old(dir.disk).journal.Some? && !Readable(old(dir.disk).journal.value))
    ensures !dir.noisy && !r.Died? && dir.disk.journal.Some? && dir.disk.journal.value.phase.Pending? ==>
      || (dir.disk == old(dir.disk)
          && (!Readable(dir.disk.journal.value) || dir.Raising(old(dir.log), Reading)))
      || Unrestored(dir.disk, dir.disk.journal.value.entries, 0) <= dir.log.raises - old(dir.log).raises
  {
    hide Good;
    hide WellFormed;
    hide dir.Valid;
    hide Recovering;
    hide IsRecovered;
    hide Readable;
    hide Comeback;
    hide Unrestored;
    ghost var a := dir.Here();
    AlreadyRecovered(a.disk);
    StaysPut(a.recent, a.disk);
    OnwardComesBack(a.recent, a.recent, a.disk);
    var record;
    r, record := dir.ReadRecord();
    if !dir.noisy && record.None? { ShowsHistory(dir); }
    if r.Raised? || record.None? { return; }
    if record.value.phase.Committed? {
      r := Cleanup(dir);
    } else {
      r := RecoverPending(dir);
    }
    RecoveringMeans(a.disk, dir.disk, dir.ops - a.ops);
    if !dir.noisy && r.Done? { ShowsHistory(dir); }
  }

  /** A sync in a calm run brings nothing new. */
  lemma AtRest(d: Disk, after: seq<Disk>, before: seq<Disk>)
    requires d.journal.Some? && forall s :: s in after ==> s in before || s == d
    ensures Onward(after, before, d)
  {
    StaysPut(before, d);
  }
}
