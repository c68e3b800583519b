/** A whole publication: recover, stage, put the record in force, install, commit, and clean up, with the
    handlers that run when a call raises. */
module Publication {
  import opened Disks
  import opened Custody
  import opened Restart
  import opened Names
  import opened Directories
  import opened Recovery
  import opened Installation
  import opened Staging

  /** What the candidates change once they take effect. */
  function UpdateOfCandidates(cands: seq<Candidate>): Update {
    if cands == [] then map[]
    else
      var last := cands[|cands| - 1];
      UpdateOfCandidates(cands[..|cands| - 1])[last.target := Some(Content(last.data, CANDIDATE_MODE))]
  }

  /** The committed record changes exactly what was asked for. */
  lemma UpdatesAgree(noisy: bool, d: Disk, I: set<Name>, entries: seq<Entry>, cands: seq<Candidate>)
    requires EntriesReady(noisy, d, I, entries, cands) && |entries| == |cands|
    ensures UpdateOf(entries) == UpdateOfCandidates(cands)
  {
    ReadyAnswers(noisy, d, I, entries, cands);
    SameUpdates(entries, cands);
  }

  /** One of the two records over entries for just these candidates is over the size limit. */
  ghost predicate TooLong(oversize: Record -> bool, cands: seq<Candidate>) {
    exists entries: seq<Entry> :: Answers(entries, cands)
      && (oversize(Record(Pending, entries)) || oversize(Record(Committed, entries)))
  }

  predicate Answers(entries: seq<Entry>, cands: seq<Candidate>) {
    |entries| == |cands| && forall k :: 0 <= k < |entries| ==> Asks(entries[k], cands[k])
  }

  lemma ReadyAnswers(noisy: bool, d: Disk, I: set<Name>, entries: seq<Entry>, cands: seq<Candidate>)
    requires EntriesReady(noisy, d, I, entries, cands) && |entries| == |cands|
    ensures Answers(entries, cands)
  {
    forall k | 0 <= k < |entries| ensures Asks(entries[k], cands[k]) {
      assert EntryReady(noisy, d, entries[k], cands[k]);
    }
  }

  predicate Asks(e: Entry, c: Candidate) {
    e.target == c.target && ContentOf(e.candidate.file) == Content(c.data, CANDIDATE_MODE)
  }

  lemma {:induction false} SameUpdates(entries: seq<Entry>, cands: seq<Candidate>)
    requires Answers(entries, cands)
    ensures UpdateOf(entries) == UpdateOfCandidates(cands)
  {
    if entries != [] {
      var k := |entries| - 1;
      assert Asks(entries[k], cands[k]);
      SameUpdates(entries[..k], cands[..k]);
    }
  }

  /** What the public set shows once a publication is the last update that took effect: every candidate
      with its bytes and the mode of candidates, and every other name as before. */
  lemma LastPublicationShows(base: map<Name, Content>, ledger: seq<Update>, cands: seq<Candidate>)
    requires forall i, j :: 0 <= i < j < |cands| ==> cands[i].target != cands[j].target
    ensures forall k :: 0 <= k < |cands| ==>
      Replay(base, ledger + [UpdateOfCandidates(cands)], cands[k].target) ==
        Some(Content(cands[k].data, CANDIDATE_MODE))
    ensures forall n :: (forall k :: 0 <= k < |cands| ==> cands[k].target != n) ==>
      Replay(base, ledger + [UpdateOfCandidates(cands)], n) == Replay(base, ledger, n)
  {
    var u := UpdateOfCandidates(cands);
    forall n | forall k :: 0 <= k < |cands| ==> cands[k].target != n
      ensures Replay(base, ledger + [u], n) == Replay(base, ledger, n)
    {
      CandidatesChange(cands, n);
      ReplayAppend(base, ledger, u, n);
    }
    forall k | 0 <= k < |cands|
      ensures Replay(base, ledger + [u], cands[k].target) == Some(Content(cands[k].data, CANDIDATE_MODE))
    {
      CandidatesChange(cands, cands[k].target);
      ReplayAppend(base, ledger, u, cands[k].target);
    }
  }

  lemma {:induction false} CandidatesChange(cands: seq<Candidate>, n: Name)
    requires forall i, j :: 0 <= i < j < |cands| ==> cands[i].target != cands[j].target
    ensures n in UpdateOfCandidates(cands) <==> exists k :: 0 <= k < |cands| && cands[k].target == n
    ensures forall k :: 0 <= k < |cands| && cands[k].target == n ==>
      n in UpdateOfCandidates(cands) && UpdateOfCandidates(cands)[n] == Some(Content(cands[k].data, CANDIDATE_MODE))
  {
    if cands != [] {
      var front, last := cands[..|cands| - 1], cands[|cands| - 1];
      CandidatesChange(front, n);
      assert forall k :: 0 <= k < |front| ==> front[k] == cands[k];
      if n in UpdateOfCandidates(front) {
        var k :| 0 <= k < |front| && front[k].target == n;
        assert cands[k].target == n;
      }
    }
  }

  // ---- _write_artifact_recovery ----

  /** The ledger of d, and its record or none. */
  predicate Carries(s: Disk, d: Disk) {
    s.ledger == d.ledger && (s.journal == d.journal || s.journal == None)
  }

  /** A disk on the way from ledger L to L + [u]: a pending record stands for L, a committed one for
      L + [u]. */
  ghost predicate OnTheWay(s: Disk, L: seq<Update>, u: Update) {
    && (s.ledger == L || s.ledger == L + [u])
    && (s.journal.Some? ==> (s.journal.value.phase.Committed? <==> s.ledger == L + [u]))
  }

  /** Put a complete record in force: its bytes go to a temporary of their own first, one rename makes
      them the record, and only then is the directory synced. */
  method WriteRecord(dir: Directory, record: Record) returns (r: Outcome, installed: bool)
    requires dir.Valid() && WellFormed(record.entries)
    requires !dir.noisy ==> Good(dir.base, Journaled(dir.disk, record))
    modifies dir`disk, dir`recent, dir`seen, dir`next, dir`log, dir`ops, dir`recorded
    ensures dir.Valid() && dir.next >= old(dir.next) && dir.recorded >= old(dir.recorded)
    ensures r == Done || r == Raised || r == Died
    ensures r.Done? ==> installed && dir.recent == [dir.disk]
    ensures installed ==> Frame(dir.noisy, {}, Journaled(old(dir.disk), record), dir.disk)
    ensures !installed ==> Frame(dir.noisy, {}, old(dir.disk), dir.disk)
    ensures !dir.noisy ==> dir.disk == if installed then Journaled(old(dir.disk), record) else old(dir.disk)
    ensures forall s :: s in dir.recent ==>
      s in old(dir.recent) || Carries(s, old(dir.disk)) || Carries(s, Journaled(old(dir.disk), record))
    ensures NoRename(old(dir.log), dir.log) && (r.Done? ==> dir.log == old(dir.log))
    ensures dir.oversize(record) ==> r.Raised? && dir.disk == old(dir.disk) && dir.log == old(dir.log)
    ensures r.Raised? && !dir.oversize(record) ==> dir.Faulted(old(dir.log))
  {
    hide Good;
    hide WellFormed;
    hide dir.Valid;
    hide UpdateOf;
    ghost var d0 := dir.disk;
    installed := false;
    if dir.oversize(record) { r := Raised; return; }
    r := dir.Verdict(Recording);
    if !r.Done? { return; }
    r := dir.InstallRecord(record);
    if !r.Done? { return; }
    installed := true;
    ghost var d1 := dir.disk;
    assert Frame(dir.noisy, {}, Journaled(d0, record), d1);
    r := dir.Sync();
    FrameTrans(dir.noisy, {}, Journaled(d0, record), d1, dir.disk);
    if r.Died? { return; }
    var v := dir.Verdict(Recording);
    if !v.Done? { r := v; }
  }

  /** A pending record all of whose targets show their candidates. */
  ghost predicate AllPublished(d: Disk) {
    && d.journal.Some? && d.journal.value.phase.Pending?
    && PublishedUpTo(d, d.journal.value.entries, |d.journal.value.entries|)
  }

  /** On some disk since the last fsync the target was its recorded candidate. */
  ghost predicate SeenPublished(recent: seq<Disk>, e: Entry) {
    exists s :: s in recent && Holds(s, e.target, e.candidate)
  }

  /** Every published target is looked at again before the commit; the others may have been there since. */
  method Revalidate(dir: Directory) returns (r: Outcome)
    requires dir.Valid() && dir.disk.journal.Some?
    modifies dir`disk, dir`recent, dir`seen, dir`next, dir`log
    ensures dir.Valid() && dir.next >= old(dir.next) && dir.Trail(old(dir.recent), old(dir.disk))
    ensures dir.Others(old(dir.disk), dir.disk) && old(dir.recent) <= dir.recent
    ensures r == Done || r == Raised
    ensures !dir.noisy ==> dir.recent == old(dir.recent)
    ensures r.Done? ==> forall i :: 0 <= i < |dir.disk.journal.value.entries| ==>
      SeenPublished(dir.recent, dir.disk.journal.value.entries[i])
    ensures dir.Since(old(dir.log)) && NoRename(old(dir.log), dir.log)
    ensures !dir.noisy && AllPublished(dir.disk) && !r.Done? ==> dir.Faulted(old(dir.log))
  {
    hide Good;
    hide WellFormed;
    hide dir.Valid;
    ghost var d0 := dir.disk;
    var entries := dir.disk.journal.value.entries;
    var i := 0;
    while i < |entries|
      invariant 0 <= i <= |entries| && dir.Valid() && dir.next >= old(dir.next)
      invariant dir.log == old(dir.log) && (!dir.noisy ==> dir.recent == old(dir.recent))
      invariant dir.Trail(old(dir.recent), d0) && dir.Others(d0, dir.disk) && old(dir.recent) <= dir.recent
      invariant forall j :: 0 <= j < i ==> SeenPublished(dir.recent, entries[j])
    {
      ghost var d, recent := dir.disk, dir.recent;
      var ok := dir.Matches(entries[i].target, entries[i].candidate);
      FrameTrans(dir.noisy, {}, d0, d, dir.disk);
      if !ok {
        if !dir.noisy && d0.journal.value.phase.Pending? { Known(dir, i); }
        return Raised;
      }
      assert SeenPublished(dir.recent, entries[i]);
      forall j | 0 <= j < i ensures SeenPublished(dir.recent, entries[j]) {
        StillSeen(recent, dir.recent, entries[j]);
      }
      i := i + 1;
    }
    r := Done;
  }

  lemma StillSeen(a: seq<Disk>, b: seq<Disk>, e: Entry)
    requires a <= b && SeenPublished(a, e)
    ensures SeenPublished(b, e)
  {
    var s :| s in a && Holds(s, e.target, e.candidate);
    assert s in b;
  }

  // ---- The outer finally ----

  /** The aliases a finishing publication drops: nobody needs them any more. */
  ghost predicate Spent(d: Disk, n: Name) {
    d.journal.Some? ==>
      exists i :: 0 <= i < |d.journal.value.entries|
        && var e := d.journal.value.entries[i];
           n == e.temporary || (n in AliasesOf(e) && Settled(d))
  }

  lemma DropSpent(base: map<Name, Content>, d: Disk, n: Name)
    requires Good(base, d) && Private(n) && Spent(d, n)
    ensures Good(base, Unlinked(d, n))
    ensures d.journal.Some? && Settled(d) ==> Settled(Unlinked(d, n))
  {
    hide AliasesIntact;
    var b := Unlinked(d, n);
    if d.journal.None? {
      PrivateStep(base, {n}, d, b);
    } else {
      var r := d.journal.value;
      var i :| 0 <= i < |r.entries| && (n == r.entries[i].temporary || (n in AliasesOf(r.entries[i]) && Settled(d)));
      var e := r.entries[i];
      assert WellFormedEntry(e);
      InEntry(e);
      if r.phase.Pending? && n == e.temporary {
        DroppingSpent(base, d, i, n);
      } else {
        if r.phase.Pending? { assert Restored(d, e); }
        AliasGone(base, d, i, n);
      }
      if Settled(d) {
        forall j | 0 <= j < |r.entries| ensures r.entries[j].target !in {n} { assert WellFormedEntry(r.entries[j]); }
        SettledFramed({n}, d, b);
      }
    }
  }

  ghost predicate AllSpent(d: Disk, names: seq<Name>) {
    forall k :: 0 <= k < |names| ==> Spent(d, names[k])
  }

  /** Every disk that has come up since shows the public names of d. */
  ghost predicate SinceThen(before: seq<Disk>, after: seq<Disk>, d: Disk) {
    forall s :: s in after ==> s in before || SamePublic(d, s)
  }

  /** Unlink a list of aliases, missing ones included. */
  method Discard(dir: Directory, names: seq<Name>) returns (r: Outcome)
    requires dir.Valid() && Owned(dir.disk, dir.issued, dir.created, names)
    requires !dir.noisy ==> AllSpent(dir.disk, names)
    modifies dir`disk, dir`recent, dir`seen, dir`next, dir`log, dir`ops, dir`lost
    ensures dir.Valid() && Ran(dir.noisy, Members(names), old(dir.Here()), dir.Here())
    ensures r == Done || r == Raised || r == Died
    ensures Shrinks(old(dir.disk), dir.disk)
    ensures forall n :: Private(n) && n !in names ==> At(old(dir.disk), n) == At(dir.disk, n)
    ensures r.Done? ==> forall k :: 0 <= k < |names| ==> names[k] !in dir.disk.names
    ensures dir.disk.journal == old(dir.disk.journal) && dir.disk.ledger == old(dir.disk.ledger)
    ensures !dir.noisy ==> SamePublic(old(dir.disk), dir.disk) && dir.disk.files == old(dir.disk.files)
    ensures !dir.noisy && old(dir.disk).journal.Some? && Settled(old(dir.disk)) ==> Settled(dir.disk)
    ensures !dir.noisy ==> SinceThen(old(dir.recent), dir.recent, old(dir.disk))
    ensures !dir.noisy && r.Raised? ==> dir.Faulted(old(dir.log))
  {
    hide Good;
    hide WellFormed;
    hide dir.Valid;
    hide dir.Trail;
    hide Ran;
    hide Settled;
    hide AllSpent;
    ghost var a, S := dir.Here(), Members(names);
    RanNot(dir.noisy, S, a);
    var k := 0;
    r := Done;
    while k < |names|
      invariant 0 <= k <= |names| && dir.Valid() && r.Done?
      invariant Ran(dir.noisy, S, a, dir.Here()) && dir.disk.journal == a.disk.journal
      invariant Shrinks(a.disk, dir.disk)
      invariant !dir.noisy ==> SinceThen(a.recent, dir.recent, a.disk)
      invariant forall j :: 0 <= j < k ==> names[j] !in dir.disk.names
      invariant !dir.noisy ==>
        SamePublic(a.disk, dir.disk) && dir.disk.files == a.disk.files &&
        AllSpent(dir.disk, names)
      invariant !dir.noisy && a.disk.journal.Some? && Settled(a.disk) ==> Settled(dir.disk)
    {
      ghost var b := dir.Here();
      r := DiscardOne(dir, names, k);
      RanTrans(dir.noisy, S, {names[k]}, S, a, b, dir.Here());
      ShrinksTrans(a.disk, b.disk, dir.disk);
      if !dir.noisy { PublicTrans(a.disk, b.disk, dir.disk); }
      if r.Died? || r.Raised? { break; }
      forall j | 0 <= j < k ensures names[j] !in dir.disk.names { StaysGone(b.disk, dir.disk, names[j]); }
      k := k + 1;
    }
    forall n | Private(n) && n !in names ensures At(a.disk, n) == At(dir.disk, n) {
      RanAt(dir.noisy, S, a, dir.Here(), n);
    }
    RanSame(dir.noisy, S, a, dir.Here());
  }

  lemma RanSame(noisy: bool, S: set<Name>, a: Moment, b: Moment)
    requires Ran(noisy, S, a, b)
    ensures b.disk.journal == a.disk.journal && b.disk.ledger == a.disk.ledger
  {
  }

  lemma PublicTrans(a: Disk, b: Disk, c: Disk)
    requires SamePublic(a, b) && SamePublic(b, c)
    ensures SamePublic(a, c)
  {
  }

  method DiscardOne(dir: Directory, names: seq<Name>, k: nat) returns (r: Outcome)
    requires dir.Valid() && Owned(dir.disk, dir.issued, dir.created, names) && k < |names|
    requires !dir.noisy ==> AllSpent(dir.disk, names)
    modifies dir`disk, dir`recent, dir`seen, dir`next, dir`log, dir`ops, dir`lost
    ensures dir.Valid() && Ran(dir.noisy, {names[k]}, old(dir.Here()), dir.Here())
    ensures r == Done || r == Raised || r == Died
    ensures Shrinks(old(dir.disk), dir.disk) && (r.Done? ==> names[k] !in dir.disk.names)
    ensures Owned(dir.disk, dir.issued, dir.created, names)
    ensures !dir.noisy ==>
      && SamePublic(old(dir.disk), dir.disk) && dir.disk.files == old(dir.disk.files) && AllSpent(dir.disk, names)
      && (old(dir.disk).journal.Some? && Settled(old(dir.disk)) ==> Settled(dir.disk))
    ensures !dir.noisy ==> dir.OneMore(old(dir.recent))
    ensures !dir.noisy && r.Raised? ==> dir.Faulted(old(dir.log))
  {
    hide Good;
    hide WellFormed;
    hide dir.Valid;
    hide dir.Trail;
    hide Ran;
    hide Settled;
    hide Spent;
    dir.Now();
    ghost var a := dir.Here();
    if !dir.noisy { DropSpent(dir.base, a.disk, names[k]); }
    r := dir.Unlink(names[k]);
    UnlinkRan(dir, names[k], a);
    RanFrame(dir.noisy, {names[k]}, a, dir.Here());
    OwnedShrinks(a.disk, dir.disk, dir.issued, dir.created, names);
    if !dir.noisy { DiscardKeeps(a.disk, a.disk, dir.disk, names, k); }
    if r.Missing? { r := Done; }
  }

  lemma DiscardKeeps(a: Disk, b: Disk, c: Disk, names: seq<Name>, k: nat)
    requires k < |names| && Private(names[k]) && SamePublic(a, b) && Frame(false, {names[k]}, b, c)
    requires AllSpent(b, names)
    requires b.journal.Some? ==> WellFormed(b.journal.value.entries)
    ensures SamePublic(a, c) && AllSpent(c, names)
    ensures b.journal.Some? && Settled(b) ==> Settled(c)
  {
    forall n | !Private(n) ensures At(a, n) == At(c, n) { assert At(a, n) == At(b, n); }
    if b.journal.Some? && Settled(b) {
      forall j | 0 <= j < |b.journal.value.entries| ensures b.journal.value.entries[j].target !in {names[k]} {
        assert WellFormedEntry(b.journal.value.entries[j]);
      }
      SettledFramed({names[k]}, b, c);
    }
    forall j | 0 <= j < |names| ensures Spent(c, names[j]) {
      assert Spent(b, names[j]);
    }
  }

  ghost predicate NoneOf(d: Disk, names: seq<Name>) {
    forall k :: 0 <= k < |names| ==> At(d, names[k]) == None
  }

  lemma NoneOfShrinks(a: Disk, b: Disk, names: seq<Name>)
    requires NoneOf(a, names) && Shrinks(a, b) && forall k :: 0 <= k < |names| ==> Private(names[k])
    ensures NoneOf(b, names)
  {
  }

  lemma FrameShrinks(noisy: bool, a: Disk, b: Disk)
    requires Frame(noisy, {}, a, b)
    ensures Shrinks(a, b)
  {
  }

  /** The outer finally: temporaries go in any case, rollback copies and the record only when they are
      not retained. */
  method Finish(dir: Directory, temps: seq<Name>, rolls: seq<Name>, retain: bool, prepared: bool) returns (r: Outcome)
    requires dir.Valid()
    requires Owned(dir.disk, dir.issued, dir.created, temps) && Owned(dir.disk, dir.issued, dir.created, rolls)
    requires !dir.noisy ==> AllSpent(dir.disk, temps) && (!retain ==> AllSpent(dir.disk, rolls))
    requires !dir.noisy && dir.disk.journal.Some? && !retain ==> Settled(dir.disk)
    modifies dir`disk, dir`recent, dir`seen, dir`next, dir`log, dir`ops, dir`lost
    ensures dir.Valid() && dir.next >= old(dir.next) && dir.Trail(old(dir.recent), old(dir.disk))
    ensures r == Done || r == Raised || r == Died
    ensures dir.disk.ledger == old(dir.disk.ledger)
    ensures retain ==>
      && dir.disk.journal == old(dir.disk.journal)
      && forall n :: Private(n) && n !in temps ==> At(old(dir.disk), n) == At(dir.disk, n)
    ensures dir.disk.journal == None || dir.disk.journal == old(dir.disk.journal)
    ensures r.Done? ==> Shrinks(old(dir.disk), dir.disk) && NoneOf(dir.disk, temps)
    ensures r.Done? && !retain ==> NoneOf(dir.disk, rolls)
    ensures old(dir.disk).journal.Some? && dir.disk.journal == None ==> AllHave(dir.recent, dir.disk.ledger)
    ensures r.Done? && !retain && prepared ==> dir.disk.journal == None
    ensures r.Done? && !retain && prepared && old(dir.disk.journal).Some? ==> dir.recent == [dir.disk]
    ensures !dir.noisy ==> SamePublic(old(dir.disk), dir.disk) && dir.disk.files == old(dir.disk.files)
    ensures Later(old(dir.log), dir.log)
    ensures !dir.noisy && !retain && old(dir.disk).journal.Some? && dir.disk != old(dir.disk) ==>
      SinceThen([], dir.recent, old(dir.disk))
    ensures !dir.noisy && r.Raised? ==> dir.Faulted(old(dir.log))
  {
    hide Good;
    hide WellFormed;
    hide dir.Valid;
    ghost var d0 := dir.disk;
    r := dir.Verdict(Looking);
    if !r.Done? { return; }
    var active := dir.disk.journal.Some?;
    if active && !retain {
      r := dir.Sync();
      if !r.Done? { return; }
    }
    ghost var d1 := dir.disk;
    SentAway(dir.noisy, d0, d1, dir.issued, dir.created, temps, rolls);
    FrameShrinks(dir.noisy, d0, d1);
    r := Discard(dir, temps);
    if !r.Done? { return; }
    ShrinksTrans(d0, d1, dir.disk);
    if !retain {
      ghost var d2 := dir.disk;
      OwnedShrinks(d1, d2, dir.issued, dir.created, rolls);
      if !dir.noisy { SpentShrinks(d1, d2, rolls); }
      r := Discard(dir, rolls);
      if !r.Done? { return; }
      NoneOfShrinks(d2, dir.disk, temps);
      ShrinksTrans(d0, d2, dir.disk);
      if active && prepared {
        ghost var d3 := dir.disk;
        r := RetireDurably(dir);
        if !dir.noisy { assert dir.disk.names == d3.names; }
        FrameShrinks(dir.noisy, if dir.disk.journal.None? then Retired(d3) else d3, dir.disk);
        assert Shrinks(d3, dir.disk);
        NoneOfShrinks(d3, dir.disk, temps);
        NoneOfShrinks(d3, dir.disk, rolls);
        ShrinksTrans(d0, d3, dir.disk);
      }
    }
  }

  lemma SentAway(noisy: bool, a: Disk, b: Disk, I: set<Name>, C: set<Ino>, temps: seq<Name>, rolls: seq<Name>)
    requires Frame(noisy, {}, a, b) && Owned(a, I, C, temps) && Owned(a, I, C, rolls)
    ensures Owned(b, I, C, temps) && Owned(b, I, C, rolls)
  {
    forall k | 0 <= k < |temps| ensures At(a, temps[k]) == At(b, temps[k]) {}
    forall k | 0 <= k < |rolls| ensures At(a, rolls[k]) == At(b, rolls[k]) {}
  }

  lemma OwnedShrinks(a: Disk, b: Disk, I: set<Name>, C: set<Ino>, names: seq<Name>)
    requires Owned(a, I, C, names) && Shrinks(a, b)
    ensures Owned(b, I, C, names)
  {
    forall k | 0 <= k < |names| ensures At(b, names[k]) == None || At(b, names[k]) == At(a, names[k]) {}
  }

  lemma SpentShrinks(a: Disk, b: Disk, names: seq<Name>)
    requires AllSpent(a, names) && a.journal == b.journal && (a.journal.Some? && Settled(a) ==> Settled(b))
    ensures AllSpent(b, names)
  {
    forall k | 0 <= k < |names| ensures Spent(b, names[k]) { assert Spent(a, names[k]); }
  }

  // ---- The publication proper ----

  /** The copies a restart may need are all there. */
  ghost predicate CopiesHeld(d: Disk, entries: seq<Entry>) {
    forall j :: 0 <= j < |entries| && entries[j].preimage.Some? ==>
      At(d, entries[j].preimage.value.rollback) == Some(entries[j].preimage.value.copy.ino)
  }

  /** Install every target, make that durable, and look at all of them once more. */
  method InstallChecked(dir: Directory) returns (r: Outcome, m: nat, broken: bool)
    requires dir.Valid() && dir.disk.journal.Some? && dir.disk.journal.value.phase.Pending?
    requires Staged(dir.noisy, dir.disk, dir.disk.journal.value.entries)
    requires CopiesHeld(dir.disk, dir.disk.journal.value.entries)
    modifies dir`disk, dir`recent, dir`seen, dir`next, dir`log, dir`ops, dir`lost, dir`returned
    ensures dir.Valid() && dir.disk.journal == old(dir.disk.journal)
    ensures r == Done || r == Raised || r == Died
    ensures Ran(dir.noisy, Everything(old(dir.disk).journal.value.entries), old(dir.Here()), dir.Here())
    ensures var entries := old(dir.disk).journal.value.entries;
      && m <= |entries| && (r.Done? ==> m == |entries|)
      && FailedUnused(dir.disk, entries, |entries|)
      && KeptStaged(old(dir.disk), dir.disk, entries) && CopiesHeld(dir.disk, entries)
      && (!dir.noisy ==> PublishedUpTo(dir.disk, entries, m))
      && (!dir.noisy && r.Raised? && !broken ==> RolledBackFrom(dir.disk, entries, m))
      && (r.Done? ==> forall i :: 0 <= i < |entries| ==> SeenPublished(dir.recent, entries[i]))
      && (r.Done? ==> AllPlaced(dir.disk, entries, |entries|))
      && (!dir.noisy && r.Done? ==> dir.recent == [dir.disk])
    ensures !dir.noisy && r.Raised? ==> dir.Faulted(old(dir.log))
    ensures !dir.noisy && r.Raised? && dir.log.raises == old(dir.log).raises + 1 ==>
      && (broken <==> dir.log.last.Renaming?)
      && (!dir.log.last.Unlinking? ==> NoneDisplaced(dir.disk, old(dir.disk).journal.value.entries))
    ensures !dir.noisy && r.Raised? ==>
      Unrestored(dir.disk, old(dir.disk).journal.value.entries, m) < dir.log.raises - old(dir.log).raises
  {
    hide Good;
    hide WellFormed;
    hide dir.Valid;
    hide dir.Trail;
    hide Ran;
    hide Everything;
    ghost var a := dir.Here();
    dir.Now();
    ghost var entries := dir.disk.journal.value.entries;
    r, m, broken := InstallAll(dir);
    ghost var b := dir.Here();
    RanNot(dir.noisy, {}, b);
    if r.Done? { r := LookAround(dir); }
    ghost var S := Everything(entries);
    RanTrans(dir.noisy, S, {}, S, a, b, dir.Here());
    RanFrame(dir.noisy, {}, b, dir.Here());
    OthersKept(dir.noisy, a.disk, b.disk, dir.disk, entries);
    CopiesKept(a.disk, dir.disk, entries);
    UnusedStill(dir.noisy, b.disk, dir.disk, entries);
    if r.Done? { PlacedStill(dir.noisy, b.disk, dir.disk, entries); }
  }

  /** The fsync and the second look between the installation and the commit. */
  method LookAround(dir: Directory) returns (r: Outcome)
    requires dir.Valid() && dir.disk.journal.Some?
    modifies dir`disk, dir`recent, dir`seen, dir`next, dir`log
    ensures dir.Valid() && Ran(dir.noisy, {}, old(dir.Here()), dir.Here())
    ensures r == Done || r == Raised || r == Died
    ensures !dir.noisy ==> dir.disk == old(dir.disk) && (r.Done? ==> dir.recent == [dir.disk])
    ensures r.Done? ==> forall i :: 0 <= i < |old(dir.disk).journal.value.entries| ==>
      SeenPublished(dir.recent, old(dir.disk).journal.value.entries[i])
    ensures NoRename(old(dir.log), dir.log)
    ensures !dir.noisy && AllPublished(old(dir.disk)) && r.Raised? ==> dir.Faulted(old(dir.log))
  {
    hide dir.Valid;
    hide Ran;
    ghost var a := dir.Here();
    r := dir.Sync();
    LookRan(dir, a);
    if !r.Done? { return; }
    ghost var b := dir.Here();
    r := Revalidate(dir);
    LookRan(dir, b);
    RanTrans(dir.noisy, {}, {}, {}, a, b, dir.Here());
  }

  lemma PlacedStill(noisy: bool, a: Disk, b: Disk, entries: seq<Entry>)
    requires WellFormed(entries) && AllPlaced(a, entries, |entries|) && Frame(noisy, {}, a, b)
    ensures AllPlaced(b, entries, |entries|)
  {
    forall j | 0 <= j < |entries| ensures Placed(b, entries[j]) {
      assert WellFormedEntry(entries[j]) && Placed(a, entries[j]);
      assert At(a, entries[j].temporary) == At(b, entries[j].temporary);
      assert At(a, entries[j].displaced) == At(b, entries[j].displaced);
    }
  }

  /** Of all aliases only temporaries and rollback copies can be left. */
  ghost predicate Swept(d: Disk, entries: seq<Entry>) {
    NoneDisplaced(d, entries) && FailedUnused(d, entries, |entries|)
  }

  lemma StagedIsSwept(noisy: bool, d: Disk, entries: seq<Entry>)
    ensures Staged(noisy, d, entries) ==> Swept(d, entries)
  {
    if Staged(noisy, d, entries) {
      forall j | 0 <= j < |entries| ensures At(d, entries[j].displaced) == At(d, entries[j].failed) == None {
        assert StagedEntry(noisy, d, entries[j]);
      }
    }
  }

  /** Of all aliases only the rollback copies can be left. */
  ghost predicate Spotless(d: Disk, entries: seq<Entry>) {
    AllPlaced(d, entries, |entries|) && FailedUnused(d, entries, |entries|)
  }

  /** Whatever a power loss may fall back to was there before, or is on the way of this publication. */
  ghost predicate Ledgers(before: seq<Disk>, recent: seq<Disk>, L: seq<Update>, u: Update, entries: seq<Entry>) {
    forall s :: s in recent ==> s in before || (OnTheWay(s, L, u) && Writes(s, entries))
  }

  predicate Writes(s: Disk, entries: seq<Entry>) {
    s.journal.Some? ==> s.journal.value.entries == entries
  }

  /** The same for a caller who knows the candidates and not the entries: without interference a record is
      readable exactly when the publication was one that can be restarted. */
  ghost predicate Foreseen(noisy: bool, s: Disk, d: Disk, cands: seq<Candidate>) {
    && OnTheWay(s, d.ledger, UpdateOfCandidates(cands))
    && (s.ledger != d.ledger ==> PublicTargets(cands))
    && (!noisy && s.journal.Some? ==> (Readable(s.journal.value) <==> Restartable(d, cands)))
  }

  predicate PublicTargets(cands: seq<Candidate>) {
    forall k :: 0 <= k < |cands| ==> !Private(cands[k].target)
  }

  /** Between the two writes of the record, and the handlers of what raises there. */
  method InstallAndCommit(dir: Directory) returns (r: Outcome, committing: bool, retain: bool, incomplete: bool)
    requires dir.Valid() && dir.disk.journal.Some? && dir.disk.journal.value.phase.Pending?
    requires Staged(dir.noisy, dir.disk, dir.disk.journal.value.entries)
    requires CopiesHeld(dir.disk, dir.disk.journal.value.entries)
    modifies dir`disk, dir`recent, dir`seen, dir`next, dir`log, dir`ops, dir`lost, dir`returned, dir`recorded
    ensures dir.Valid() && dir.next >= old(dir.next)
    ensures r == Done || r == Raised || r == Died
    ensures dir.disk.journal.Some? && dir.disk.journal.value.entries == old(dir.disk).journal.value.entries
    ensures KeptStaged(old(dir.disk), dir.disk, old(dir.disk).journal.value.entries)
    ensures var L := old(dir.disk).ledger; var u := UpdateOf(old(dir.disk).journal.value.entries);
      && Ledgers(old(dir.recent), dir.recent, L, u, old(dir.disk).journal.value.entries)
      && dir.disk.ledger == (if dir.disk.journal.value.phase.Committed? then L + [u] else L)
    ensures r.Done? ==> committing && !retain && dir.disk.journal.value.phase.Committed? && dir.recent == [dir.disk]
    ensures r.Done? ==> Spotless(dir.disk, dir.disk.journal.value.entries)
    ensures dir.disk.journal.value.phase.Committed? ==> committing
    ensures r.Raised? ==> (retain <==> committing || incomplete)
    ensures incomplete ==> retain && dir.disk.journal == old(dir.disk.journal)
    ensures CopiesHeld(dir.disk, dir.disk.journal.value.entries)
    ensures !dir.noisy && r.Raised? && !retain ==> Settled(dir.disk)
    ensures !dir.noisy && committing ==>
      PublishedUpTo(dir.disk, dir.disk.journal.value.entries, |dir.disk.journal.value.entries|)
    ensures Later(old(dir.log), dir.log)
    ensures !dir.noisy && r.Raised? ==>
      || dir.Faulted(old(dir.log))
      || (committing && dir.oversize(Record(Committed, old(dir.disk).journal.value.entries)))
    ensures !dir.noisy && r.Raised? && !committing ==>
      Unrestored(dir.disk, old(dir.disk).journal.value.entries, 0) < dir.log.raises - old(dir.log).raises
    ensures !dir.noisy && r.Raised? && !committing && dir.log.raises == old(dir.log).raises + 1 ==>
      && (incomplete <==> dir.log.last.Renaming?)
      && (Mild(old(dir.log), dir.log) && !dir.log.last.Unlinking? ==>
            Swept(dir.disk, old(dir.disk).journal.value.entries))
  {
    hide Ledgers;
    hide OnTheWay;
    hide Good;
    hide WellFormed;
    hide dir.Valid;
    hide Ran;
    hide Everything;
    hide PublishedUpTo;
    hide KeptStaged;
    hide AllPlaced;
    hide FailedUnused;
    hide Frame;
    hide Unrestored;
    hide CopiesHeld;
    ghost var a := dir.Here();
    dir.Now();
    var record := dir.disk.journal.value;
    ghost var S := Everything(record.entries);
    committing, retain, incomplete := false, false, false;
    var m, broken;
    r, m, broken := InstallChecked(dir);
    ghost var b := dir.Here();
    RanOnTheWay(dir.noisy, S, a, b);
    if r.Died? { return; }
    if r.Done? {
      committing := true;
      r := Commit(dir);
      retain := r.Raised?;
      CommitOnTheWay(a, b, dir.recent);
      AfterCommit(dir.noisy, a.disk, b.disk, dir.disk, record.entries);
      return;
    }
    var v, errors;
    v, errors := Rollback(dir, m);
    ghost var c := dir.Here();
    RanTrans(dir.noisy, S, S, S, a, b, c);
    RanOnTheWay(dir.noisy, S, a, c);
    SameKept(a.disk, b.disk, c.disk, record.entries);
    CopiesKept(a.disk, c.disk, record.entries);
    if v.Died? { r := Died; return; }
    incomplete := errors || broken;
    retain := incomplete;
  }

  /** The commit moves no name. */
  lemma AfterCommit(noisy: bool, a: Disk, b: Disk, c: Disk, entries: seq<Entry>)
    requires WellFormed(entries) && Frame(noisy, {}, b, c.(journal := b.journal, ledger := b.ledger))
    requires KeptStaged(a, b, entries) && CopiesHeld(a, entries) && Spotless(b, entries)
    ensures KeptStaged(a, c, entries) && CopiesHeld(c, entries) && Spotless(c, entries)
    ensures !noisy && PublishedUpTo(b, entries, |entries|) ==> PublishedUpTo(c, entries, |entries|)
  {
    var named := c.(journal := b.journal, ledger := b.ledger);
    OthersKept(noisy, a, b, named, entries);
    CopiesKept(a, c, entries);
    PlacedStill(noisy, b, named, entries);
    UnusedStill(noisy, b, named, entries);
    if !noisy && PublishedUpTo(b, entries, |entries|) {
      forall j | 0 <= j < |entries| ensures At(b, entries[j].target) == At(named, entries[j].target) {}
    }
  }

  /** As long as the pending record stands, all disks stand for the old ledger. */
  lemma RanOnTheWay(noisy: bool, S: set<Name>, a: Moment, b: Moment)
    requires Ran(noisy, S, a, b) && a.disk.journal.Some? && a.disk.journal.value.phase.Pending?
    ensures Ledgers(a.recent, b.recent, a.disk.ledger, UpdateOf(a.disk.journal.value.entries),
      a.disk.journal.value.entries)
    ensures b.disk.ledger == a.disk.ledger && b.disk.journal == a.disk.journal && a.next <= b.next
    ensures Later(a.log, b.log)
  {
  }

  lemma CommitOnTheWay(a: Moment, b: Moment, recent: seq<Disk>)
    requires b.disk.ledger == a.disk.ledger && a.disk.journal.Some? && a.disk.journal.value.phase.Pending?
    requires Ledgers(a.recent, b.recent, a.disk.ledger, UpdateOf(a.disk.journal.value.entries),
      a.disk.journal.value.entries)
    requires Ledgers(b.recent, recent, b.disk.ledger, UpdateOf(a.disk.journal.value.entries),
      a.disk.journal.value.entries)
    ensures Ledgers(a.recent, recent, a.disk.ledger, UpdateOf(a.disk.journal.value.entries),
      a.disk.journal.value.entries)
  {
  }

  /** Replace the record by a committed one. */
  method Commit(dir: Directory) returns (r: Outcome)
    requires dir.Valid() && dir.disk.journal.Some? && dir.disk.journal.value.phase.Pending?
    requires !dir.noisy ==> PublishedUpTo(dir.disk, dir.disk.journal.value.entries, |dir.disk.journal.value.entries|)
    requires !dir.noisy ==> dir.recent == [dir.disk]
    modifies dir`disk, dir`recent, dir`seen, dir`next, dir`log, dir`ops, dir`recorded
    ensures dir.Valid() && dir.next >= old(dir.next)
    ensures r == Done || r == Raised || r == Died
    ensures dir.disk.journal.Some? && dir.disk.journal.value.entries == old(dir.disk).journal.value.entries
    ensures Frame(dir.noisy, {}, old(dir.disk),
                  dir.disk.(journal := old(dir.disk).journal, ledger := old(dir.disk).ledger))
    ensures var L := old(dir.disk).ledger; var u := UpdateOf(old(dir.disk).journal.value.entries);
      && Ledgers(old(dir.recent), dir.recent, L, u, old(dir.disk).journal.value.entries)
      && dir.disk.ledger == (if dir.disk.journal.value.phase.Committed? then L + [u] else L)
    ensures r.Done? ==> dir.disk.journal.value.phase.Committed? && dir.recent == [dir.disk]
    ensures Later(old(dir.log), dir.log)
    ensures r.Raised? && !dir.oversize(Record(Committed, old(dir.disk).journal.value.entries)) ==>
      dir.Faulted(old(dir.log))
  {
    hide Good;
    hide WellFormed;
    hide dir.Valid;
    dir.Now();
    var record := dir.disk.journal.value;
    if !dir.noisy { CommitStep(dir.base, dir.disk); }
    var installed;
    r, installed := WriteRecord(dir, Record(Committed, record.entries));
  }

  lemma CopiesKept(a: Disk, b: Disk, entries: seq<Entry>)
    requires KeptStaged(a, b, entries) && CopiesHeld(a, entries)
    ensures CopiesHeld(b, entries)
  {
  }

  lemma OthersKept(noisy: bool, a: Disk, b: Disk, c: Disk, entries: seq<Entry>)
    requires WellFormed(entries) && KeptStaged(a, b, entries) && Frame(noisy, {}, b, c)
    ensures KeptStaged(a, c, entries)
  {
    forall j | 0 <= j < |entries|
      ensures At(b, entries[j].temporary) == At(c, entries[j].temporary)
      ensures entries[j].preimage.Some? ==>
        At(b, entries[j].preimage.value.rollback) == At(c, entries[j].preimage.value.rollback)
    {
      assert WellFormedEntry(entries[j]);
    }
  }

  lemma UnusedStill(noisy: bool, a: Disk, b: Disk, entries: seq<Entry>)
    requires WellFormed(entries) && FailedUnused(a, entries, |entries|) && Frame(noisy, {}, a, b)
    ensures FailedUnused(b, entries, |entries|)
  {
    forall j | 0 <= j < |entries| ensures At(b, entries[j].failed) == None {
      assert WellFormedEntry(entries[j]);
      assert At(a, entries[j].failed) == At(b, entries[j].failed);
    }
  }

  lemma SameKept(a: Disk, b: Disk, c: Disk, entries: seq<Entry>)
    requires KeptStaged(a, b, entries) && SameStaged(b, c, entries)
    ensures KeptStaged(a, c, entries)
  {
  }

  /** Who may publish with a restart in mind: 1 to 64 targets without backslashes, and over no file that is
      dated before the epoch. */
  ghost predicate Restartable(d: Disk, cands: seq<Candidate>) {
    && 1 <= |cands| <= MAX_ENTRIES && (forall k :: 0 <= k < |cands| ==> '\\' !in cands[k].target)
    && forall k :: 0 <= k < |cands| ==> DatedTarget(d, cands[k].target)
  }

  predicate DatedTarget(d: Disk, n: Name) {
    n in d.names && d.names[n] in d.files ==> d.files[d.names[n]].mtime >= 0
  }

  lemma ReadyIsReadable(noisy: bool, d: Disk, I: set<Name>, phase: Phase, entries: seq<Entry>, cands: seq<Candidate>)
    requires EntriesReady(noisy, d, I, entries, cands) && |entries| == |cands|
    ensures Readable(Record(phase, entries)) <==>
      && 1 <= |cands| <= MAX_ENTRIES && (forall k :: 0 <= k < |cands| ==> '\\' !in cands[k].target)
      && forall k :: 0 <= k < |entries| ==> Dated(entries[k])
  {
    hide ReadableAlias;
    forall k | 0 <= k < |entries|
      ensures entries[k].target == cands[k].target
      ensures ReadableEntry(entries[k]) <==> '\\' !in cands[k].target && Dated(entries[k])
    {
      assert EntryReady(noisy, d, entries[k], cands[k]);
      Roles(entries[k]);
    }
    forall i, j | 0 <= i < j < |entries| ensures entries[i].target != entries[j].target {
      assert SameRolesDiffer(entries[i], entries[j]);
    }
  }

  /** The publisher's own files carry today's date, so only the originals decide. */
  lemma DatedByOriginals(dir: Directory, a: Disk, I: set<Name>, entries: seq<Entry>, cands: seq<Candidate>,
                         temps: seq<Name>, rolls: seq<Option<Name>>)
    requires dir.Valid() && Bound(a) && Grew(false, I, a, dir.disk) && |entries| == |cands| == |temps| == |rolls|
    requires EntriesReady(false, dir.disk, dir.issued, entries, cands) && EntriesUse(entries, temps, rolls)
    requires Owned(dir.disk, dir.issued, dir.created, temps) && Owned(dir.disk, dir.issued, dir.created, Given(rolls))
    ensures forall k :: 0 <= k < |entries| ==> (Dated(entries[k]) <==> DatedTarget(a, cands[k].target))
  {
    hide dir.Valid;
    hide Good;
    hide WellFormed;
    hide EntryReady;
    hide Grew;
    hide Dated;
    hide DatedTarget;
    dir.Now();
    GivenMembers(rolls);
    var d := dir.disk;
    SameFiles(a, I, d);
    forall k | 0 <= k < |entries| ensures Dated(entries[k]) <==> DatedTarget(a, cands[k].target) {
      assert EntryReady(false, d, entries[k], cands[k]) && entries[k].temporary == temps[k];
      assert Mine(dir.created, d, temps[k]);
      if rolls[k].Some? {
        assert rolls[k].value in Given(rolls);
        assert Mine(dir.created, d, rolls[k].value);
      }
      EntryDated(dir.created, a, d, entries[k], cands[k]);
    }
  }

  /** What the name shows, if it is there, the publisher made. */
  predicate Mine(created: set<Ino>, d: Disk, n: Name) {
    n in d.names ==> d.names[n] in created
  }

  lemma SameFiles(a: Disk, I: set<Name>, d: Disk)
    requires Grew(false, I, a, d)
    ensures forall n :: !Private(n) ==> At(a, n) == At(d, n)
    ensures forall i :: i in a.files ==> i in d.files && d.files[i] == a.files[i]
  {
  }

  lemma EntryDated(created: set<Ino>, a: Disk, d: Disk, e: Entry, c: Candidate)
    requires EntryReady(false, d, e, c) && Bound(a)
    requires forall i :: i in d.files && i in created ==> d.files[i].mtime >= 0
    requires Mine(created, d, e.temporary) && (e.preimage.Some? ==> Mine(created, d, e.preimage.value.rollback))
    requires forall n :: !Private(n) ==> At(a, n) == At(d, n)
    requires forall i :: i in a.files ==> i in d.files && d.files[i] == a.files[i]
    ensures Dated(e) <==> DatedTarget(a, c.target)
  {
    assert At(a, e.target) == At(d, e.target);
  }

  lemma RestartableIsReadable(dir: Directory, a: Disk, I: set<Name>, phase: Phase, entries: seq<Entry>,
                              cands: seq<Candidate>, temps: seq<Name>, rolls: seq<Option<Name>>)
    requires dir.Valid() && Bound(a) && Grew(false, I, a, dir.disk) && |entries| == |cands| == |temps| == |rolls|
    requires EntriesReady(false, dir.disk, dir.issued, entries, cands) && EntriesUse(entries, temps, rolls)
    requires Owned(dir.disk, dir.issued, dir.created, temps) && Owned(dir.disk, dir.issued, dir.created, Given(rolls))
    ensures Readable(Record(phase, entries)) <==> Restartable(a, cands)
  {
    hide dir.Valid;
    hide EntriesReady;
    hide Readable;
    hide Dated;
    hide DatedTarget;
    ReadyIsReadable(false, dir.disk, dir.issued, phase, entries, cands);
    DatedByOriginals(dir, a, I, entries, cands, temps, rolls);
  }

  /** What stays to be cleaned up is owned and, where it matters, no longer needed. */
  lemma ReadyToFinish(a: Disk, b: Disk, I: set<Name>, C: set<Ino>, entries: seq<Entry>,
                      temps: seq<Name>, rolls: seq<Option<Name>>)
    requires KeptStaged(a, b, entries) && EntriesUse(entries, temps, rolls)
    requires |entries| == |temps| == |rolls| && WellFormed(entries)
    requires Owned(a, I, C, temps) && Owned(a, I, C, Given(rolls))
    ensures Owned(b, I, C, temps) && Owned(b, I, C, Given(rolls))
    ensures b.journal.None? || b.journal.value.entries == entries ==> AllSpent(b, temps)
    ensures b.journal.None? || (b.journal.value.entries == entries && Settled(b)) ==> AllSpent(b, Given(rolls))
  {
    hide WellFormed;
    hide Settled;
    forall k | 0 <= k < |temps|
      ensures At(b, temps[k]) == None || At(b, temps[k]) == At(a, temps[k])
    {
      assert entries[k].temporary == temps[k];
    }
    if b.journal.None? || b.journal.value.entries == entries {
      forall k | 0 <= k < |temps| ensures Spent(b, temps[k]) {
        assert b.journal.Some? ==> temps[k] == entries[k].temporary;
      }
    }
    forall k | 0 <= k < |Given(rolls)|
      ensures At(b, Given(rolls)[k]) == At(a, Given(rolls)[k])
      ensures b.journal.None? || (b.journal.value.entries == entries && Settled(b)) ==> Spent(b, Given(rolls)[k])
    {
      CopySpent(a, b, entries, temps, rolls, Given(rolls)[k]);
    }
  }

  lemma CopySpent(a: Disk, b: Disk, entries: seq<Entry>, temps: seq<Name>, rolls: seq<Option<Name>>, n: Name)
    requires KeptStaged(a, b, entries) && EntriesUse(entries, temps, rolls) && n in Given(rolls)
    requires |entries| == |rolls| && WellFormed(entries)
    ensures At(b, n) == At(a, n)
    ensures b.journal.None? || (b.journal.value.entries == entries && Settled(b)) ==> Spent(b, n)
  {
    hide Settled;
    GivenMembers(rolls);
    var j :| 0 <= j < |rolls| && rolls[j] == Some(n);
    assert entries[j].preimage.Some? && entries[j].preimage.value.rollback == n;
    InEntry(entries[j]);
    assert WellFormedEntry(entries[j]);
  }

  /** Every target shows its candidate. */
  ghost predicate ShowsCandidates(d: Disk, cands: seq<Candidate>) {
    forall k :: 0 <= k < |cands| ==> Shown(d, cands[k].target) == Some(Content(cands[k].data, CANDIDATE_MODE))
  }

  /** Put the record in force and act under it. */
  method Enact(dir: Directory, entries: seq<Entry>, ghost cands: seq<Candidate>)
    returns (r: Outcome, committing: bool, retain: bool, incomplete: bool)
    requires dir.Valid() && dir.disk.journal == None
    requires EntriesReady(dir.noisy, dir.disk, dir.issued, entries, cands) && |entries| == |cands|
    modifies dir`disk, dir`recent, dir`seen, dir`next, dir`log, dir`ops, dir`lost, dir`returned, dir`recorded
    ensures dir.Valid() && dir.next >= old(dir.next)
    ensures r == Done || r == Raised || r == Died
    ensures dir.disk.journal.Some? ==> dir.disk.journal.value.entries == entries && CopiesHeld(dir.disk, entries)
    ensures KeptStaged(old(dir.disk), dir.disk, entries)
    ensures var L := old(dir.disk).ledger; var u := UpdateOfCandidates(cands);
      && Ledgers(old(dir.recent), dir.recent, L, u, entries)
      && dir.disk.ledger == (if dir.disk.journal.Some? && dir.disk.journal.value.phase.Committed? then L + [u] else L)
    ensures r.Done? ==>
      && committing && !retain && dir.recent == [dir.disk]
      && dir.disk.journal.Some? && dir.disk.journal.value.phase.Committed?
    ensures r.Done? ==> Spotless(dir.disk, entries)
    ensures dir.disk.journal.Some? && dir.disk.journal.value.phase.Committed? ==> committing
    ensures r.Raised? ==> (retain <==> committing || incomplete)
    ensures incomplete ==> retain && dir.disk.journal.Some? && dir.disk.journal.value.phase.Pending?
    ensures !dir.noisy && r.Raised? && !retain && dir.disk.journal.Some? ==> Settled(dir.disk)
    ensures !dir.noisy && committing ==> ShowsCandidates(dir.disk, cands)
    ensures !dir.noisy && r.Raised? ==>
      || dir.Faulted(old(dir.log))
      || dir.oversize(Record(Pending, entries)) || (committing && dir.oversize(Record(Committed, entries)))
    ensures Later(old(dir.log), dir.log)
    ensures !dir.noisy && r.Raised? && !committing && dir.disk.journal.Some? ==>
      Unrestored(dir.disk, entries, 0) < dir.log.raises - old(dir.log).raises
    ensures !dir.noisy && r.Raised? && !committing && dir.log.raises == old(dir.log).raises + 1 ==>
      && (incomplete <==> dir.log.last.Renaming?)
      && (Mild(old(dir.log), dir.log) && !dir.log.last.Unlinking? ==> Swept(dir.disk, entries))
  {
    hide EntriesReady;
    hide Good;
    hide WellFormed;
    hide Staged;
    hide KeptStaged;
    hide CopiesHeld;
    hide ShowsCandidates;
    hide Spotless;
    hide dir.Valid;
    hide OnTheWay;
    hide Ledgers;
    hide Unrestored;
    hide Swept;
    hide UpdateOf;
    hide UpdateOfCandidates;
    dir.Now();
    ghost var d0, recent0, u := dir.disk, dir.recent, UpdateOfCandidates(cands);
    committing, retain, incomplete := false, false, false;
    BeforeRecord(dir.base, dir.noisy, d0, dir.issued, entries, cands);
    var installed;
    r, installed := WriteRecord(dir, Record(Pending, entries));
    ghost var d1, recent1 := dir.disk, dir.recent;
    FrameStaged(dir.noisy, d0, d1, entries);
    BegunOnTheWay(d0, recent0, recent1, u, entries);
    if !dir.noisy && installed { AllStillRestored(d0, d1, entries); }
    StagedIsSwept(dir.noisy, d1, entries);
    if !r.Done? { return; }
    r, committing, retain, incomplete := InstallAndCommit(dir);
    LedgersTrans(recent0, recent1, dir.recent, d0.ledger, u, entries);
    KeptTrans(d0, d1, dir.disk, entries);
    dir.Now();
    if !dir.noisy && committing { PublishedShows(dir.base, dir.disk, d0, dir.issued, entries, cands); }
  }

  lemma AllStillRestored(a: Disk, b: Disk, entries: seq<Entry>)
    requires b.names == a.names && forall j :: 0 <= j < |entries| ==> Restored(a, entries[j])
    ensures Unrestored(b, entries, 0) == 0
  {
    NoneUnrestored(b, entries, 0);
  }

  /** Nobody's public name moved, so the same targets are restored. */
  lemma SameUnrestored(a: Disk, b: Disk, entries: seq<Entry>)
    requires SamePublic(a, b) && WellFormed(entries)
    ensures Unrestored(a, entries, 0) == Unrestored(b, entries, 0)
  {
    forall j | 0 <= j < |entries| ensures Restored(a, entries[j]) <==> Restored(b, entries[j]) {
      assert WellFormedEntry(entries[j]);
    }
    hide Restored;
    assert (set j | 0 <= j < |entries| && !Restored(a, entries[j]))
        == (set j | 0 <= j < |entries| && !Restored(b, entries[j]));
  }

  lemma BegunOnTheWay(d: Disk, before: seq<Disk>, after: seq<Disk>, u: Update, entries: seq<Entry>)
    requires d.journal == None
    requires forall s :: s in after ==>
      s in before || Carries(s, d) || Carries(s, Journaled(d, Record(Pending, entries)))
    ensures Ledgers(before, after, d.ledger, u, entries)
  {
  }

  lemma LedgersTrans(a: seq<Disk>, b: seq<Disk>, c: seq<Disk>, L: seq<Update>, u: Update, entries: seq<Entry>)
    requires Ledgers(a, b, L, u, entries) && Ledgers(b, c, L, u, entries)
    ensures Ledgers(a, c, L, u, entries)
  {
  }

  lemma BeforeRecord(base: map<Name, Content>, noisy: bool, d: Disk, I: set<Name>, entries: seq<Entry>,
                     cands: seq<Candidate>)
    requires EntriesReady(noisy, d, I, entries, cands) && |entries| == |cands|
    requires d.journal == None && (!noisy ==> Good(base, d))
    ensures WellFormed(entries) && Staged(noisy, d, entries) && CopiesHeld(d, entries)
    ensures UpdateOf(entries) == UpdateOfCandidates(cands)
    ensures !noisy ==> Good(base, Journaled(d, Record(Pending, entries)))
    ensures !noisy ==> forall j :: 0 <= j < |entries| ==> Restored(d, entries[j])
  {
    ReadyIsStaged(noisy, d, I, entries, cands);
    UpdatesAgree(noisy, d, I, entries, cands);
    StagedHoldsCopies(noisy, d, I, entries, cands);
    if !noisy { PendingStep(base, d, entries); }
  }

  lemma StagedHoldsCopies(noisy: bool, d: Disk, I: set<Name>, entries: seq<Entry>, cands: seq<Candidate>)
    requires EntriesReady(noisy, d, I, entries, cands)
    ensures CopiesHeld(d, entries)
  {
    forall j | 0 <= j < |entries| && entries[j].preimage.Some?
      ensures At(d, entries[j].preimage.value.rollback) == Some(entries[j].preimage.value.copy.ino)
    {
      assert EntryReady(noisy, d, entries[j], cands[j]);
    }
  }

  /** Writing the record moves no name. */
  lemma FrameStaged(noisy: bool, a: Disk, b: Disk, entries: seq<Entry>)
    requires WellFormed(entries) && Staged(noisy, a, entries) && CopiesHeld(a, entries)
    requires Frame(noisy, {}, a.(journal := b.journal, ledger := b.ledger), b)
    ensures Staged(noisy, b, entries) && CopiesHeld(b, entries) && KeptStaged(a, b, entries)
    ensures !noisy && (forall j :: 0 <= j < |entries| ==> Restored(a, entries[j])) ==>
      forall j :: 0 <= j < |entries| ==> Restored(b, entries[j])
  {
    var c := a.(journal := b.journal, ledger := b.ledger);
    forall j | 0 <= j < |entries|
      ensures StagedEntry(noisy, b, entries[j])
      ensures At(a, entries[j].temporary) == At(b, entries[j].temporary)
      ensures entries[j].preimage.Some? ==>
        At(a, entries[j].preimage.value.rollback) == At(b, entries[j].preimage.value.rollback)
      ensures !noisy && Restored(a, entries[j]) ==> Restored(b, entries[j])
    {
      var e := entries[j];
      assert WellFormedEntry(e) && StagedEntry(noisy, a, e);
      assert At(c, e.temporary) == At(b, e.temporary) && At(c, e.displaced) == At(b, e.displaced)
          && At(c, e.failed) == At(b, e.failed);
      if e.preimage.Some? { assert At(c, e.preimage.value.rollback) == At(b, e.preimage.value.rollback); }
      if !noisy { assert At(c, e.target) == At(b, e.target); }
    }
  }

  lemma KeptTrans(a: Disk, b: Disk, c: Disk, entries: seq<Entry>)
    requires KeptStaged(a, b, entries) && KeptStaged(b, c, entries)
    ensures KeptStaged(a, c, entries)
  {
  }

  lemma PublishedShows(base: map<Name, Content>, d: Disk, staged: Disk, I: set<Name>, entries: seq<Entry>,
                       cands: seq<Candidate>)
    requires EntriesReady(false, staged, I, entries, cands) && |entries| == |cands|
    requires Good(base, d) && d.journal.Some? && d.journal.value.entries == entries
    requires PublishedUpTo(d, entries, |entries|)
    ensures ShowsCandidates(d, cands)
  {
    forall k | 0 <= k < |cands| ensures Shown(d, cands[k].target) == Some(Content(cands[k].data, CANDIDATE_MODE)) {
      assert EntryReady(false, staged, entries[k], cands[k]);
      assert AliasesIntact(d, entries[k]);
    }
  }

  lemma StillShows(a: Disk, b: Disk, cands: seq<Candidate>)
    requires SamePublic(a, b) && a.files == b.files && ShowsCandidates(a, cands)
    requires forall k :: 0 <= k < |cands| ==> !Private(cands[k].target)
    ensures ShowsCandidates(b, cands)
  {
    forall k | 0 <= k < |cands| ensures At(a, cands[k].target) == At(b, cands[k].target) {}
  }

  lemma RetainedCopies(a: Disk, b: Disk, entries: seq<Entry>, temps: seq<Name>)
    requires WellFormed(entries) && |entries| == |temps| && CopiesHeld(a, entries)
    requires forall k :: 0 <= k < |temps| ==> temps[k] == entries[k].temporary
    requires forall n :: Private(n) && n !in temps ==> At(a, n) == At(b, n)
    ensures CopiesHeld(b, entries)
  {
    forall j | 0 <= j < |entries| && entries[j].preimage.Some?
      ensures At(a, entries[j].preimage.value.rollback) == At(b, entries[j].preimage.value.rollback)
    {
      var roll := entries[j].preimage.value.rollback;
      InEntry(entries[j]);
      assert WellFormedEntry(entries[j]);
      forall k | 0 <= k < |temps| ensures temps[k] != roll {
        InEntry(entries[k]);
        if k != j { NamesApart(entries, k, j); }
      }
    }
  }

  lemma NamesApart(entries: seq<Entry>, i: nat, j: nat)
    requires WellFormed(entries) && i < |entries| && j < |entries| && i != j
    ensures NamesOf(entries[i]) !! NamesOf(entries[j])
  {
    if i < j { assert NamesOf(entries[i]) !! NamesOf(entries[j]); }
    else { assert NamesOf(entries[j]) !! NamesOf(entries[i]); }
  }

  lemma ReadyTargets(noisy: bool, d: Disk, I: set<Name>, entries: seq<Entry>, cands: seq<Candidate>)
    requires EntriesReady(noisy, d, I, entries, cands) && |entries| == |cands|
    ensures PublicTargets(cands)
  {
    forall k | 0 <= k < |cands| ensures !Private(cands[k].target) {
      assert EntryReady(noisy, d, entries[k], cands[k]);
    }
  }

  /** What comes after d keeps to its ledger and record. */
  lemma StillOnTheWay(before: seq<Disk>, middle: seq<Disk>, after: seq<Disk>, d: Disk, e: Disk,
                      L: seq<Update>, u: Update, entries: seq<Entry>)
    requires Ledgers(before, middle, L, u, entries) && Writes(d, entries)
    requires d.ledger == if d.journal.Some? && d.journal.value.phase.Committed? then L + [u] else d.ledger
    requires d.ledger == L || d.ledger == L + [u]
    requires d.journal.Some? && d.journal.value.phase.Pending? ==> d.ledger == L
    requires forall s :: s in after ==>
      s in middle || (s.ledger == d.ledger && (s.journal == d.journal || s.journal == None))
    requires Carries(e, d)
    ensures Ledgers(before, after, L, u, entries) && OnTheWay(e, L, u)
  {
  }

  /** Everything after staging. */
  method PublishStaged(dir: Directory, cands: seq<Candidate>, temps: seq<Name>, rolls: seq<Option<Name>>,
                       entries: seq<Entry>)
    returns (r: Outcome, committing: bool, incomplete: bool)
    requires dir.Valid() && dir.disk.journal == None
    requires |temps| == |rolls| == |entries| == |cands|
    requires EntriesReady(dir.noisy, dir.disk, dir.issued, entries, cands) && EntriesUse(entries, temps, rolls)
    requires Owned(dir.disk, dir.issued, dir.created, temps)
    requires Owned(dir.disk, dir.issued, dir.created, Given(rolls))
    modifies dir`disk, dir`recent, dir`seen, dir`next, dir`log, dir`ops, dir`lost, dir`returned, dir`recorded
    ensures dir.Valid() && dir.next >= old(dir.next)
    ensures r == Done || r == Raised || r == Died
    ensures dir.disk.journal.Some? ==> dir.disk.journal.value.entries == entries
    ensures incomplete && !r.Died? ==>
      && dir.disk.journal.Some? && dir.disk.journal.value.phase.Pending? && CopiesHeld(dir.disk, entries)
    ensures Ledgers(old(dir.recent), dir.recent, old(dir.disk).ledger, UpdateOfCandidates(cands), entries)
    ensures OnTheWay(dir.disk, old(dir.disk).ledger, UpdateOfCandidates(cands))
    ensures var L := old(dir.disk).ledger; var u := UpdateOfCandidates(cands);
      && (dir.disk.ledger == L || dir.disk.ledger == L + [u])
      && (dir.disk.ledger == L + [u] ==> committing)
      && (r.Done? ==> dir.disk.ledger == L + [u] && dir.disk.journal == None && dir.recent == [dir.disk])
    ensures dir.disk.journal == None && dir.disk.ledger != old(dir.disk).ledger ==> AllHave(dir.recent, dir.disk.ledger)
    ensures r.Done? ==> forall k :: 0 <= k < |entries| ==> Cleared(dir.disk, entries[k])
    ensures !dir.noisy && committing ==> ShowsCandidates(dir.disk, cands)
    ensures !dir.noisy && r.Raised? ==>
      || dir.Faulted(old(dir.log))
      || dir.oversize(Record(Pending, entries)) || (committing && dir.oversize(Record(Committed, entries)))
    ensures Later(old(dir.log), dir.log)
    ensures !dir.noisy && r.Raised? && !committing && dir.disk.journal.Some? ==>
      Unrestored(dir.disk, entries, 0) < dir.log.raises - old(dir.log).raises
    ensures !dir.noisy && r.Raised? && !committing && Mild(old(dir.log), dir.log) ==>
      && dir.disk.journal == None
      && (!dir.log.last.Unlinking? && !dir.oversize(Record(Pending, entries)) ==>
            forall k :: 0 <= k < |entries| ==> Cleared(dir.disk, entries[k]))
  {
    hide ShowsCandidates;
    hide AllSpent;
    hide Owned;
    hide UpdateOf;
    hide UpdateOfCandidates;
    hide Frame;
    hide NoneOf;
    hide Shrinks;
    hide Good;
    hide WellFormed;
    hide dir.Valid;
    hide Ledgers;
    hide OnTheWay;
    hide Unrestored;
    hide Swept;
    hide Spotless;
    hide EntriesReady;
    hide Cleared;
    hide KeptStaged;
    hide CopiesHeld;
    ghost var d1, recent1, u := dir.disk, dir.recent, UpdateOfCandidates(cands);
    ReadyIsStaged(dir.noisy, d1, dir.issued, entries, cands);
    ReadyTargets(dir.noisy, d1, dir.issued, entries, cands);
    var retain;
    r, committing, retain, incomplete := Enact(dir, entries, cands);
    ghost var d2, recent2 := dir.disk, dir.recent;
    StillOnTheWay(recent1, recent2, recent2, d2, d2, d1.ledger, u, entries);
    if r.Died? { return; }
    ReadyToFinish(d1, d2, dir.issued, dir.created, entries, temps, rolls);
    var v := Finish(dir, temps, Given(rolls), retain, true);
    StillOnTheWay(recent1, recent2, dir.recent, d2, dir.disk, d1.ledger, u, entries);
    if !dir.noisy { SameUnrestored(d2, dir.disk, entries); }
    if !dir.noisy && committing { StillShows(d2, dir.disk, cands); }
    if incomplete && !v.Died? { RetainedCopies(d2, dir.disk, entries, temps); }
    if v.Done? && !retain { NothingLeft(d2, dir.disk, entries, temps, rolls); }
    if !v.Done? { r := v; }
  }

  lemma NothingLeft(a: Disk, b: Disk, entries: seq<Entry>, temps: seq<Name>, rolls: seq<Option<Name>>)
    requires WellFormed(entries) && Shrinks(a, b)
    requires EntriesUse(entries, temps, rolls) && |entries| == |temps| == |rolls|
    requires NoneOf(b, temps) && NoneOf(b, Given(rolls))
    ensures Spotless(a, entries) || Swept(a, entries) ==> forall k :: 0 <= k < |entries| ==> Cleared(b, entries[k])
  {
    GivenMembers(rolls);
    forall k | 0 <= k < |entries| && (Spotless(a, entries) || Swept(a, entries)) ensures Cleared(b, entries[k]) {
      assert WellFormedEntry(entries[k]) && (Spotless(a, entries) ==> Placed(a, entries[k]));
      assert At(b, temps[k]) == None;
      if rolls[k].Some? {
        var j :| 0 <= j < |Given(rolls)| && Given(rolls)[j] == rolls[k].value;
        assert At(b, Given(rolls)[j]) == None;
      }
    }
  }

  lemma RecordForeseen(noisy: bool, s: Disk, d: Disk, e: Disk, entries: seq<Entry>, cands: seq<Candidate>)
    requires OnTheWay(s, e.ledger, UpdateOfCandidates(cands)) && Writes(s, entries) && e.ledger == d.ledger
    requires PublicTargets(cands)
    requires !noisy ==>
      && (Readable(Record(Pending, entries)) <==> Restartable(d, cands))
      && (Readable(Record(Committed, entries)) <==> Restartable(d, cands))
    ensures Foreseen(noisy, s, d, cands)
  {
    hide Readable;
    hide Restartable;
    if s.journal.Some? {
      var phase := s.journal.value.phase;
      assert s.journal.value == Record(phase, entries) && (phase == Pending || phase == Committed);
    }
  }

  /** Every name handed out for a publication is an alias of one of its entries. */
  lemma AllNamesGone(d: Disk, I: set<Name>, J: set<Name>, entries: seq<Entry>, temps: seq<Name>,
                     rolls: seq<Option<Name>>)
    requires J <= I + Members(temps) + Members(Given(rolls)) + Reserved(entries)
    requires EntriesUse(entries, temps, rolls) && |entries| == |temps| == |rolls|
    requires forall k :: 0 <= k < |entries| ==> Cleared(d, entries[k])
    ensures forall n :: n in J && n !in I ==> n !in d.names
  {
    hide EntriesUse;
    hide Cleared;
    forall n | n in J && n !in I ensures At(d, n) == None {
      if n in Members(temps) {
        TemporaryGone(d, n, entries, temps, rolls);
      } else if n in Members(Given(rolls)) {
        CopyGone(d, n, entries, temps, rolls);
      } else {
        ReservedGone(d, n, entries);
      }
    }
  }

  lemma TemporaryGone(d: Disk, n: Name, entries: seq<Entry>, temps: seq<Name>, rolls: seq<Option<Name>>)
    requires EntriesUse(entries, temps, rolls) && |entries| == |temps| && n in temps
    requires forall k :: 0 <= k < |entries| ==> Cleared(d, entries[k])
    ensures At(d, n) == None
  {
    var k :| 0 <= k < |temps| && temps[k] == n;
    assert Cleared(d, entries[k]);
  }

  lemma CopyGone(d: Disk, n: Name, entries: seq<Entry>, temps: seq<Name>, rolls: seq<Option<Name>>)
    requires EntriesUse(entries, temps, rolls) && |entries| == |rolls| && n in Given(rolls)
    requires forall k :: 0 <= k < |entries| ==> Cleared(d, entries[k])
    ensures At(d, n) == None
  {
    GivenMembers(rolls);
    var k :| 0 <= k < |rolls| && rolls[k] == Some(n);
    assert Cleared(d, entries[k]);
  }

  lemma ReservedGone(d: Disk, n: Name, entries: seq<Entry>)
    requires n in Reserved(entries) && forall k :: 0 <= k < |entries| ==> Cleared(d, entries[k])
    ensures At(d, n) == None
  {
    var e :| e in entries && (n == e.displaced || n == e.failed);
    var k :| 0 <= k < |entries| && entries[k] == e;
    assert Cleared(d, entries[k]);
  }

  /** Every public name shows what it showed. */
  ghost predicate AsBefore(a: Disk, b: Disk) {
    forall n :: !Private(n) ==> Shown(b, n) == Shown(a, n)
  }

  /** Two good disks without a record and with one history show the same. */
  lemma SameHistoryShows(base: map<Name, Content>, a: Disk, b: Disk)
    requires Good(base, a) && Good(base, b) && a.journal == None && b.journal == None && a.ledger == b.ledger
    ensures AsBefore(a, b)
  {
  }

  /** _publish_exact_candidate_bytes_locked. In any run: custody is kept, and a rollback that reports errors
      leaves the pending record and every rollback copy on disk. Without interference: every disk on the
      way is good; the update takes effect wholly or not at all; once the commit has begun every target
      shows its candidate whatever happens; a reported end is durable and leaves no private name behind; a
      failure before that is rolled back: with one call that raised, and that no rename, every public name
      shows what it showed and the record is gone, and each further one leaves at most one more target not
      restored. If no call raised it fails only on candidates it refuses or when one of its two records is
      over the size limit. */
  method PublishLocked(dir: Directory, cands: seq<Candidate>) returns (r: Outcome, committing: bool, incomplete: bool)
    requires dir.Valid() && dir.disk.journal == None
    requires forall i, j :: 0 <= i < j < |cands| ==> cands[i].target != cands[j].target
    modifies dir`disk, dir`recent, dir`seen, dir`next, dir`log, dir`ops, dir`issued, dir`lost
    modifies dir`created, dir`recorded, dir`returned
    ensures dir.Valid() && dir.next >= old(dir.next)
    ensures r == Done || r == Raised || r == Died
    ensures dir.disk.journal.Some? ==> |dir.disk.journal.value.entries| == |cands|
    ensures forall s :: s in dir.recent ==> s in old(dir.recent) || Foreseen(dir.noisy, s, old(dir.disk), cands)
    ensures Foreseen(dir.noisy, dir.disk, old(dir.disk), cands)
    ensures incomplete && !r.Died? ==>
      && dir.disk.journal.Some? && dir.disk.journal.value.phase.Pending?
      && CopiesHeld(dir.disk, dir.disk.journal.value.entries)
    ensures var L := old(dir.disk).ledger; var u := UpdateOfCandidates(cands);
      && (dir.disk.ledger == L || dir.disk.ledger == L + [u])
      && (dir.disk.ledger == L + [u] ==> committing)
      && (r.Done? ==> dir.disk.ledger == L + [u] && dir.disk.journal == None && dir.recent == [dir.disk])
    ensures dir.disk.journal == None && dir.disk.ledger != old(dir.disk).ledger ==> AllHave(dir.recent, dir.disk.ledger)
    ensures r.Done? ==> forall n :: n in dir.issued && n !in old(dir.issued) ==> n !in dir.disk.names
    ensures !dir.noisy && committing ==> ShowsCandidates(dir.disk, cands)
    ensures Later(old(dir.log), dir.log)
    ensures !dir.noisy && r.Raised? && !committing && dir.disk.journal.Some? ==>
      Unrestored(dir.disk, dir.disk.journal.value.entries, 0) < dir.log.raises - old(dir.log).raises
    ensures !dir.noisy && r.Raised? && !committing && Mild(old(dir.log), dir.log) ==>
      dir.disk.journal == None && AsBefore(old(dir.disk), dir.disk)
    ensures !dir.noisy && r.Raised? ==>
      dir.Faulted(old(dir.log)) || Refused(old(dir.disk), cands) || TooLong(dir.oversize, cands)
  {
    hide Good;
    hide WellFormed;
    hide dir.Valid;
    hide EntriesReady;
    hide Answers;
    hide Restartable;
    hide Readable;
    hide Unrestored;
    hide AsBefore;
    dir.Now();
    committing, incomplete := false, false;
    var temps, rolls, entries;
    r, temps, rolls, entries := Stage(dir, cands);
    if r.Died? { return; }
    if r.Done? {
      ghost var d1 := dir.disk;
      ReadyTargets(dir.noisy, d1, dir.issued, entries, cands);
      ReadyAnswers(dir.noisy, d1, dir.issued, entries, cands);
      if !dir.noisy {
        RestartableIsReadable(dir, old(dir.disk), old(dir.issued), Pending, entries, cands, temps, rolls);
        RestartableIsReadable(dir, old(dir.disk), old(dir.issued), Committed, entries, cands, temps, rolls);
      }
      ghost var recent1 := dir.recent;
      r, committing, incomplete := PublishStaged(dir, cands, temps, rolls, entries);
      if r.Done? { AllNamesGone(dir.disk, old(dir.issued), dir.issued, entries, temps, rolls); }
      forall s | s in dir.recent && s !in recent1 ensures Foreseen(dir.noisy, s, old(dir.disk), cands) {
        RecordForeseen(dir.noisy, s, old(dir.disk), d1, entries, cands);
      }
      RecordForeseen(dir.noisy, dir.disk, old(dir.disk), d1, entries, cands);
    } else {
      var v := Finish(dir, temps, Given(rolls), false, false);
      if !v.Done? { r := v; }
    }
    dir.Now();
    if !dir.noisy && dir.disk.journal == None && dir.disk.ledger == old(dir.disk).ledger {
      SameHistoryShows(dir.base, old(dir.disk), dir.disk);
    }
  }

  /** publish_exact_candidate_bytes: recover first, then publish unless there is nothing to publish. `start`
      is the disk after the recovery. */
  method PublishExact(dir: Directory, cands: seq<Candidate>)
    returns (r: Outcome, committing: bool, incomplete: bool, ghost start: Disk)
    requires dir.Valid()
    requires forall i, j :: 0 <= i < j < |cands| ==> cands[i].target != cands[j].target
    modifies dir`disk, dir`recent, dir`seen, dir`next, dir`log, dir`ops, dir`issued, dir`lost
    modifies dir`created, dir`recorded, dir`returned
    ensures dir.Valid() && dir.next >= old(dir.next)
    ensures r == Done || r == Raised || r == Died
    ensures Carries(start, old(dir.disk)) && (old(dir.disk).journal == None ==> start == old(dir.disk))
    ensures Calm(dir, old(dir.log)) && start.journal == None ==> IsRecovered(old(dir.disk), start)
    ensures forall s :: s in dir.recent ==>
      s in old(dir.recent) || Carries(s, old(dir.disk)) || Foreseen(dir.noisy, s, start, cands)
    ensures Carries(dir.disk, old(dir.disk)) || Foreseen(dir.noisy, dir.disk, start, cands)
    ensures incomplete && !r.Died? ==>
      && dir.disk.journal.Some? && dir.disk.journal.value.phase.Pending?
      && CopiesHeld(dir.disk, dir.disk.journal.value.entries)
    ensures var L := old(dir.disk).ledger; var u := UpdateOfCandidates(cands);
      && (dir.disk.ledger == L || dir.disk.ledger == L + [u])
      && (dir.disk.ledger == L + [u] ==> committing)
      && (r.Done? && cands != [] ==> dir.disk.ledger == L + [u] && dir.recent == [dir.disk])
      && (r.Done? ==> dir.disk.journal == None)
    ensures dir.disk.journal == None && dir.disk.ledger != old(dir.disk).ledger ==> AllHave(dir.recent, dir.disk.ledger)
    ensures start.journal.Some? ==> dir.disk == start
    ensures old(dir.disk).journal.Some? && start.journal == None ==>
      forall s :: s in dir.recent ==> s.ledger == start.ledger || s.ledger == start.ledger + [UpdateOfCandidates(cands)]
    ensures r.Done? ==> forall n :: n in dir.issued && n !in old(dir.issued) ==> n !in dir.disk.names
    ensures !dir.noisy && committing ==> ShowsCandidates(dir.disk, cands)
    ensures Later(old(dir.log), dir.log)
    ensures !dir.noisy && r.Raised? && !committing && start.journal == None ==>
      && (dir.disk.journal.Some? ==>
            Unrestored(dir.disk, dir.disk.journal.value.entries, 0) < dir.log.raises - old(dir.log).raises)
      && (Mild(old(dir.log), dir.log) ==> dir.disk.journal == None && AsBefore(start, dir.disk))
    ensures !dir.noisy && r.Raised? ==>
      || dir.Faulted(old(dir.log))
      || (old(dir.disk).journal.Some? && !Readable(old(dir.disk).journal.value))
      || Refused(start, cands) || TooLong(dir.oversize, cands)
  {
    hide Good;
    hide dir.Valid;
    hide Restartable;
    hide Readable;
    hide Unrestored;
    committing, incomplete := false, false;
    r := Recover(dir);
    start := dir.disk;
    if Calm(dir, old(dir.log)) { RecoveringMeans(old(dir.disk), start, dir.ops - old(dir.ops)); }
    if !r.Done? || cands == [] { return; }
    r, committing, incomplete := PublishLocked(dir, cands);
  }
}
