/** Which disks a restart can finish from, and what public set such a disk stands for. */
module Custody {
  import opened Disks

  // ---- Well-formed transactions ----

  function NamesOf(e: Entry): set<Name> {
    {e.target, e.temporary, e.displaced, e.failed}
    + match e.preimage case None => {} case Some(p) => {p.rollback}
  }

  predicate WellFormedEntry(e: Entry) {
    && !Private(e.target) && Private(e.temporary) && Private(e.displaced) && Private(e.failed)
    && e.temporary != e.displaced && e.temporary != e.failed && e.displaced != e.failed
    && match e.preimage
       case None => true
       case Some(p) =>
         && Private(p.rollback)
         && p.rollback != e.temporary && p.rollback != e.displaced && p.rollback != e.failed
  }

  /** The bindings tell original, copy and candidate apart, and the copy is a true one. */
  predicate WellBound(e: Entry) {
    match e.preimage
    case None => true
    case Some(p) =>
      && p.original.ino != p.copy.ino
      && p.original.ino != e.candidate.ino && p.copy.ino != e.candidate.ino
      && ContentOf(p.original.file) == ContentOf(p.copy.file)
  }

  /** The rollback copy shows what the original showed. */
  predicate TrueCopy(e: Entry) {
    e.preimage.Some? ==> ContentOf(e.preimage.value.original.file) == ContentOf(e.preimage.value.copy.file)
  }

  ghost predicate WellFormed(entries: seq<Entry>) {
    && (forall i :: 0 <= i < |entries| ==> WellFormedEntry(entries[i]) && TrueCopy(entries[i]))
    && (forall i, j :: 0 <= i < j < |entries| ==> NamesOf(entries[i]) !! NamesOf(entries[j]))
  }

  lemma TargetsAreDistinct(entries: seq<Entry>)
    requires WellFormed(entries)
    ensures TargetsDiffer(entries)
  {
    forall i, j | 0 <= i < j < |entries| ensures entries[i].target != entries[j].target {
      assert entries[i].target in NamesOf(entries[i]);
      assert entries[j].target in NamesOf(entries[j]);
    }
  }

  function InodesOf(e: Entry): set<Ino> {
    {e.candidate.ino} + match e.preimage case None => {} case Some(p) => {p.original.ino, p.copy.ino}
  }

  // ---- Recoverable disks ----

  ghost predicate Bound(d: Disk) {
    forall n :: n in d.names ==> d.names[n] in d.files
  }

  predicate Only(d: Disk, n: Name, i: Ino) {
    At(d, n) == None || At(d, n) == Some(i)
  }

  /** Every alias of the entry is gone or still holds what the record binds to it. */
  predicate AliasesIntact(d: Disk, e: Entry) {
    && WellBound(e)
    && Stored(d, e.candidate)
    && Only(d, e.temporary, e.candidate.ino)
    && Only(d, e.failed, e.candidate.ino)
    && match e.preimage
       case None => At(d, e.displaced) == None
       case Some(p) =>
         && Stored(d, p.original) && Stored(d, p.copy)
         && Only(d, e.displaced, p.original.ino)
         && Only(d, p.rollback, p.copy.ino)
  }

  /** The target shows its original content again (or is absent again). */
  predicate Restored(d: Disk, e: Entry) {
    match e.preimage
    case None => At(d, e.target) == None
    case Some(p) => At(d, e.target) == Some(p.original.ino) || At(d, e.target) == Some(p.copy.ino)
  }

  /** The target is on the way: its candidate or nothing, with what is needed to put the original back. */
  predicate UnderWay(d: Disk, e: Entry) {
    && Only(d, e.target, e.candidate.ino)
    && match e.preimage
       case None => true
       case Some(p) =>
         && At(d, p.rollback) == Some(p.copy.ino)
         && (At(d, e.target) != None || At(d, e.displaced) != None || At(d, e.failed) != None)
  }

  predicate Safe(d: Disk, e: Entry) {
    AliasesIntact(d, e) && (Restored(d, e) || UnderWay(d, e))
  }

  ghost predicate Recoverable(d: Disk) {
    && Bound(d)
    && match d.journal
       case None => true
       case Some(r) =>
         && WellFormed(r.entries)
         && forall i :: 0 <= i < |r.entries| ==>
              if r.phase.Pending? then Safe(d, r.entries[i]) else AliasesIntact(d, r.entries[i])
  }

  // ---- What a disk stands for ----

  function OriginalContent(e: Entry): Option<Content> {
    match e.preimage case None => None case Some(p) => Some(ContentOf(p.original.file))
  }

  /** The disk stands for the public set `base` updated by its ledger: a pending record stands for the
      original contents of its targets, every other name stands for what it shows. */
  ghost predicate Denotes(base: map<Name, Content>, d: Disk) {
    if d.journal.Some? && d.journal.value.phase.Pending? then
      var entries := d.journal.value.entries;
      && (forall n :: !Private(n) && !IsTarget(entries, n) ==> Shown(d, n) == Replay(base, d.ledger, n))
      && (forall i :: 0 <= i < |entries| ==>
            OriginalContent(entries[i]) == Replay(base, d.ledger, entries[i].target))
    else
      forall n :: !Private(n) ==> Shown(d, n) == Replay(base, d.ledger, n)
  }

  ghost predicate Good(base: map<Name, Content>, d: Disk) {
    Recoverable(d) && Denotes(base, d)
  }

  // ---- Frames ----

  /** From a to b only the given names changed (others may also have changed public names), no inode was
      rewritten, and neither the record nor the ledger moved. */
  ghost predicate Frame(noisy: bool, names: set<Name>, a: Disk, b: Disk) {
    && (forall n :: n !in names && (Private(n) || !noisy) ==> At(a, n) == At(b, n))
    && (forall i :: i in a.files ==> i in b.files && b.files[i] == a.files[i])
    && a.journal == b.journal && a.ledger == b.ledger
  }

  lemma AliasesFramed(S: set<Name>, a: Disk, b: Disk, e: Entry)
    requires Frame(false, S, a, b) && NamesOf(e) !! S
    ensures AliasesIntact(a, e) ==> AliasesIntact(b, e)
    ensures Safe(a, e) ==> Safe(b, e)
    ensures Restored(a, e) <==> Restored(b, e)
    ensures forall n :: n in NamesOf(e) ==> At(a, n) == At(b, n)
  {
    assert forall n :: n in NamesOf(e) ==> At(a, n) == At(b, n);
    assert e.target in NamesOf(e) && e.temporary in NamesOf(e) && e.displaced in NamesOf(e) && e.failed in NamesOf(e);
    if e.preimage.Some? { assert e.preimage.value.rollback in NamesOf(e); }
  }

  /** A public name outside the changed ones shows what it showed. */
  lemma ShownFramed(S: set<Name>, a: Disk, b: Disk, n: Name)
    requires Frame(false, S, a, b) && Bound(a) && n !in S
    ensures Shown(a, n) == Shown(b, n)
  {
    assert At(a, n) == At(b, n);
  }

  /** The step rule of the whole protocol: while a record is in force, moving names of one entry only,
      and leaving that entry safe, keeps the disk good. */
  lemma EntryStep(base: map<Name, Content>, a: Disk, b: Disk, i: nat)
    requires Good(base, a) && a.journal.Some? && i < |a.journal.value.entries|
    requires Frame(false, NamesOf(a.journal.value.entries[i]), a, b) && Bound(b)
    requires if a.journal.value.phase.Pending? then Safe(b, a.journal.value.entries[i])
             else AliasesIntact(b, a.journal.value.entries[i])
                  && At(b, a.journal.value.entries[i].target) == At(a, a.journal.value.entries[i].target)
    ensures Good(base, b)
  {
    var entries := a.journal.value.entries;
    var S := NamesOf(entries[i]);
    forall j | 0 <= j < |entries| && j != i
      ensures NamesOf(entries[j]) !! S
    {
      if j < i { assert NamesOf(entries[j]) !! NamesOf(entries[i]); }
      else { assert NamesOf(entries[i]) !! NamesOf(entries[j]); }
    }
    forall j | 0 <= j < |entries|
      ensures if a.journal.value.phase.Pending? then Safe(b, entries[j]) else AliasesIntact(b, entries[j])
    {
      if j != i { AliasesFramed(S, a, b, entries[j]); }
    }
    forall n | !Private(n) && (a.journal.value.phase.Pending? ==> !IsTarget(entries, n))
      ensures Shown(a, n) == Shown(b, n)
    {
      if n in S {
        assert n == entries[i].target;
        assert a.journal.value.phase.Committed?;
      } else {
        ShownFramed(S, a, b, n);
      }
    }
  }

  /** Without a record, private names may come and go. */
  lemma PrivateStep(base: map<Name, Content>, S: set<Name>, a: Disk, b: Disk)
    requires Good(base, a) && a.journal.None?
    requires Frame(false, S, a, b) && Bound(b) && forall n :: n in S ==> Private(n)
    ensures Good(base, b)
  {
    forall n | !Private(n) ensures Shown(a, n) == Shown(b, n) {
      ShownFramed(S, a, b, n);
    }
  }

  /** Retiring a record is harmless once every target of a pending one is restored. */
  lemma RetireStep(base: map<Name, Content>, d: Disk)
    requires Good(base, d) && d.journal.Some?
    requires d.journal.value.phase.Pending? ==>
      forall i :: 0 <= i < |d.journal.value.entries| ==> Restored(d, d.journal.value.entries[i])
    ensures Good(base, Retired(d))
  {
    var entries := d.journal.value.entries;
    if d.journal.value.phase.Pending? {
      forall n | !Private(n) ensures Shown(d, n) == Replay(base, d.ledger, n) {
        if IsTarget(entries, n) {
          var i :| 0 <= i < |entries| && entries[i].target == n;
          assert Restored(d, entries[i]) && Safe(d, entries[i]) && WellFormedEntry(entries[i]);
        }
      }
    }
    forall n | !Private(n) ensures Shown(Retired(d), n) == Replay(base, d.ledger, n) {}
  }

  /** Writing the pending record over untouched targets keeps what the disk stands for. */
  lemma PendingStep(base: map<Name, Content>, d: Disk, entries: seq<Entry>)
    requires Good(base, d) && d.journal.None? && WellFormed(entries)
    requires forall i :: 0 <= i < |entries| ==> Safe(d, entries[i]) && Restored(d, entries[i])
    ensures Good(base, Journaled(d, Record(Pending, entries)))
  {
    var b := Journaled(d, Record(Pending, entries));
    forall i | 0 <= i < |entries|
      ensures Safe(b, entries[i]) && OriginalContent(entries[i]) == Replay(base, d.ledger, entries[i].target)
    {
      assert Safe(d, entries[i]) && Restored(d, entries[i]) && WellFormedEntry(entries[i]);
    }
    forall n | !Private(n) ensures Shown(b, n) == Replay(base, d.ledger, n) {}
  }

  lemma CommittedShows(d: Disk, i: nat)
    requires Recoverable(d) && d.journal.Some? && d.journal.value.phase.Pending? && i < |d.journal.value.entries|
    requires At(d, d.journal.value.entries[i].target) == Some(d.journal.value.entries[i].candidate.ino)
    ensures
      var e := d.journal.value.entries[i];
      AliasesIntact(d, e) && Shown(d, e.target) == Some(ContentOf(e.candidate.file))
  {
    assert Safe(d, d.journal.value.entries[i]);
  }

  lemma SameShown(a: Disk, b: Disk, n: Name)
    requires a.names == b.names && a.files == b.files
    ensures Shown(a, n) == Shown(b, n)
  {
  }

  lemma SameAliases(a: Disk, b: Disk, e: Entry)
    requires a.names == b.names && a.files == b.files
    ensures AliasesIntact(a, e) <==> AliasesIntact(b, e)
  {
  }

  /** The one step that changes the public set: every target's candidate takes effect at once. */
  lemma CommitStep(base: map<Name, Content>, d: Disk)
    requires Good(base, d) && d.journal.Some? && d.journal.value.phase.Pending?
    requires forall i :: 0 <= i < |d.journal.value.entries| ==>
      At(d, d.journal.value.entries[i].target) == Some(d.journal.value.entries[i].candidate.ino)
    ensures Good(base, Journaled(d, Record(Committed, d.journal.value.entries)))
  {
    hide Safe;
    hide AliasesIntact;
    hide Shown;
    var entries := d.journal.value.entries;
    var u := UpdateOf(entries);
    var b := Journaled(d, Record(Committed, entries));
    TargetsAreDistinct(entries);
    UpdateOfTargets(entries);
    forall n | !Private(n) ensures Shown(b, n) == Replay(base, b.ledger, n) {
      ReplayAppend(base, d.ledger, u, n);
      SameShown(d, b, n);
      if IsTarget(entries, n) {
        var i :| 0 <= i < |entries| && entries[i].target == n;
        CommittedShows(d, i);
      }
    }
    forall i | 0 <= i < |entries| ensures AliasesIntact(b, entries[i]) {
      CommittedShows(d, i);
      SameAliases(d, b, entries[i]);
    }
  }

  /** Custody of preimages: under a pending record an originally present target is restored, or its
      bytes lie under the rollback name while target, displaced and failed are not all gone. */
  lemma PreimageHeld(d: Disk, i: nat)
    requires Recoverable(d) && d.journal.Some? && d.journal.value.phase.Pending?
    requires i < |d.journal.value.entries| && d.journal.value.entries[i].preimage.Some?
    ensures
      var e := d.journal.value.entries[i];
      var p := e.preimage.value;
      var original := Some(ContentOf(p.original.file));
      && (Shown(d, e.target) == original || Shown(d, e.displaced) == original || Shown(d, p.rollback) == original)
      && !(At(d, e.target) == None && At(d, e.displaced) == None && At(d, e.failed) == None)
  {
    assert Safe(d, d.journal.value.entries[i]) && WellFormedEntry(d.journal.value.entries[i]);
  }
}
