/** What an undisturbed recovery makes of a disk, and how far it still has to go. */
module Restart {
  import opened Disks
  import opened Custody

  /** The inode a target ends with: the one it already shows when that is an original or its copy, else
      the displaced original when it is still there, else the rollback copy. A committed record leaves
      the target alone. */
  function Fate(d: Disk, phase: Phase, e: Entry): Option<Ino> {
    if phase.Committed? then At(d, e.target) else
    match e.preimage
    case None => None
    case Some(p) =>
      if Restored(d, e) then At(d, e.target)
      else if At(d, e.displaced) == Some(p.original.ino) then Some(p.original.ino)
      else Some(p.copy.ino)
  }

  ghost predicate Recorded(entries: seq<Entry>, n: Name) {
    exists i :: 0 <= i < |entries| && n in NamesOf(entries[i])
  }

  /** b is the finished recovery of a. */
  ghost predicate IsRecovered(a: Disk, b: Disk) {
    match a.journal
    case None => b == a
    case Some(r) =>
      && b.journal == None && b.files == a.files && b.ledger == a.ledger
      && (forall i :: 0 <= i < |r.entries| ==>
            At(b, r.entries[i].target) == Fate(a, r.phase, r.entries[i]))
      && (forall i, n :: 0 <= i < |r.entries| && n in NamesOf(r.entries[i]) && n != r.entries[i].target ==>
            At(b, n) == None)
      && (forall n :: !Recorded(r.entries, n) ==> At(b, n) == At(a, n))
  }

  /** A recovery cut short: the record still stands and every target still has the same fate. */
  ghost predicate SameFate(a: Disk, b: Disk) {
    && a.journal.Some? && b.journal == a.journal && b.files == a.files && b.ledger == a.ledger
    && (forall i :: 0 <= i < |a.journal.value.entries| ==>
          Fate(b, a.journal.value.phase, a.journal.value.entries[i])
          == Fate(a, a.journal.value.phase, a.journal.value.entries[i]))
    && (forall n :: !Recorded(a.journal.value.entries, n) ==> At(b, n) == At(a, n))
  }

  lemma SameNames(b: Disk, c: Disk)
    requires forall n :: At(b, n) == At(c, n)
    ensures b.names == c.names
  {
    forall n ensures n in b.names <==> n in c.names {
      assert At(b, n) == At(c, n);
    }
    forall n | n in b.names ensures b.names[n] == c.names[n] {
      assert At(b, n) == At(c, n);
    }
  }

  /** Recovery is a function of the disk. */
  lemma RecoveredIsUnique(a: Disk, b: Disk, c: Disk)
    requires Recoverable(a) && IsRecovered(a, b) && IsRecovered(a, c)
    ensures b == c
  {
    if a.journal.Some? {
      var entries := a.journal.value.entries;
      forall n ensures At(b, n) == At(c, n) {
        if Recorded(entries, n) {
          var i :| 0 <= i < |entries| && n in NamesOf(entries[i]);
          if n == entries[i].target { assert At(b, entries[i].target) == At(c, entries[i].target); }
        }
      }
      SameNames(b, c);
    }
  }

  /** Stopping a recovery anywhere and starting again ends where one uninterrupted run would have. */
  lemma RestartIsConfluent(a: Disk, b: Disk, c: Disk)
    requires SameFate(a, b) && IsRecovered(b, c)
    ensures IsRecovered(a, c)
  {
    var r := a.journal.value;
    forall i | 0 <= i < |r.entries| ensures At(c, r.entries[i].target) == Fate(a, r.phase, r.entries[i]) {
      assert Fate(b, r.phase, r.entries[i]) == Fate(a, r.phase, r.entries[i]);
    }
    forall n | !Recorded(r.entries, n) ensures At(c, n) == At(a, n) {
      assert At(b, n) == At(a, n);
    }
  }

  /** A finished recovery of a good disk shows every target's original content under a pending record,
      and leaves every public name alone under a committed one. */
  lemma RecoveredShows(base: map<Name, Content>, a: Disk, b: Disk, i: nat)
    requires Good(base, a) && a.journal.Some? && i < |a.journal.value.entries| && IsRecovered(a, b)
    ensures
      var e := a.journal.value.entries[i];
      Shown(b, e.target) == if a.journal.value.phase.Pending? then OriginalContent(e) else Shown(a, e.target)
  {
    var r := a.journal.value;
    var e := r.entries[i];
    assert At(b, e.target) == Fate(a, r.phase, e);
    assert WellFormedEntry(e);
    if r.phase.Pending? { assert Safe(a, e); }
  }

  // ---- The distance to a finished recovery ----

  function Count(d: Disk, n: Name): nat {
    if n in d.names then 1 else 0
  }

  function Aliases(d: Disk, e: Entry): nat {
    Count(d, e.temporary) + Count(d, e.displaced) + Count(d, e.failed)
    + match e.preimage case None => 0 case Some(p) => Count(d, p.rollback)
  }

  function Standing(d: Disk, e: Entry): nat {
    if Restored(d, e) then 0
    else if At(d, e.target) == None then 1
    else if At(d, e.failed) == None then 2
    else 3
  }

  /** How many effective steps the entry can still cost a recovery. */
  function EntryRank(d: Disk, phase: Phase, e: Entry): nat {
    Aliases(d, e) + if phase.Pending? then 2 * Standing(d, e) else 0
  }

  function RankOf(d: Disk, phase: Phase, entries: seq<Entry>): nat {
    if entries == [] then 0
    else RankOf(d, phase, entries[..|entries| - 1]) + EntryRank(d, phase, entries[|entries| - 1])
  }

  function Rank(d: Disk): nat {
    match d.journal case None => 0 case Some(r) => 1 + RankOf(d, r.phase, r.entries)
  }

  /** No entry of the record a began with is further from its end than it was. */
  ghost predicate NoEntryRises(a: Disk, b: Disk) {
    a.journal.Some? ==> forall i :: 0 <= i < |a.journal.value.entries| ==>
      EntryRank(b, a.journal.value.phase, a.journal.value.entries[i])
      <= EntryRank(a, a.journal.value.phase, a.journal.value.entries[i])
  }

  lemma EntryRankFramed(S: set<Name>, a: Disk, b: Disk, phase: Phase, e: Entry)
    requires Frame(false, S, a, b) && NamesOf(e) !! S
    ensures EntryRank(a, phase, e) == EntryRank(b, phase, e)
  {
    AliasesFramed(S, a, b, e);
    assert forall n :: n in NamesOf(e) ==> At(a, n) == At(b, n) && Count(a, n) == Count(b, n);
    assert e.target in NamesOf(e) && e.temporary in NamesOf(e) && e.displaced in NamesOf(e) && e.failed in NamesOf(e);
    if e.preimage.Some? { assert e.preimage.value.rollback in NamesOf(e); }
  }

  /** A step on one entry moves the whole rank by exactly what it moves that entry's rank. */
  lemma {:induction false} RankStep(a: Disk, b: Disk, phase: Phase, entries: seq<Entry>, i: nat)
    requires WellFormed(entries) && i < |entries|
    requires Frame(false, NamesOf(entries[i]), a, b)
    ensures RankOf(b, phase, entries) + EntryRank(a, phase, entries[i])
         == RankOf(a, phase, entries) + EntryRank(b, phase, entries[i])
  {
    var k := |entries| - 1;
    if i == k {
      RanksFramed(NamesOf(entries[i]), a, b, phase, entries[..k]);
    } else {
      EntryRankFramed(NamesOf(entries[i]), a, b, phase, entries[k]);
      RankStep(a, b, phase, entries[..k], i);
    }
  }

  lemma {:induction false} RanksFramed(S: set<Name>, a: Disk, b: Disk, phase: Phase, entries: seq<Entry>)
    requires Frame(false, S, a, b)
    requires forall j :: 0 <= j < |entries| ==> NamesOf(entries[j]) !! S
    ensures RankOf(a, phase, entries) == RankOf(b, phase, entries)
  {
    if entries != [] {
      RanksFramed(S, a, b, phase, entries[..|entries| - 1]);
      EntryRankFramed(S, a, b, phase, entries[|entries| - 1]);
    }
  }

  /** A step that does not take its own entry further away takes none further away. */
  lemma NoEntryRisesStep(a: Disk, b: Disk, i: nat)
    requires a.journal.Some? && i < |a.journal.value.entries| && WellFormed(a.journal.value.entries)
    requires Frame(false, NamesOf(a.journal.value.entries[i]), a, b)
    requires EntryRank(b, a.journal.value.phase, a.journal.value.entries[i])
          <= EntryRank(a, a.journal.value.phase, a.journal.value.entries[i])
    ensures NoEntryRises(a, b)
  {
    hide EntryRank;
    hide NamesOf;
    var r := a.journal.value;
    forall j | 0 <= j < |r.entries|
      ensures EntryRank(b, r.phase, r.entries[j]) <= EntryRank(a, r.phase, r.entries[j])
    {
      if j != i {
        assert NamesOf(r.entries[j]) !! NamesOf(r.entries[i]) by {
          if j < i { assert NamesOf(r.entries[j]) !! NamesOf(r.entries[i]); }
          else { assert NamesOf(r.entries[i]) !! NamesOf(r.entries[j]); }
        }
        EntryRankFramed(NamesOf(r.entries[i]), a, b, r.phase, r.entries[j]);
      }
    }
  }

  /** A recovery step on one entry that keeps the entry's fate keeps the fate of all. */
  lemma FateStep(a: Disk, b: Disk, i: nat)
    requires a.journal.Some? && i < |a.journal.value.entries| && WellFormed(a.journal.value.entries)
    requires Frame(false, NamesOf(a.journal.value.entries[i]), a, b) && a.files == b.files
    requires Fate(b, a.journal.value.phase, a.journal.value.entries[i])
          == Fate(a, a.journal.value.phase, a.journal.value.entries[i])
    ensures SameFate(a, b)
  {
    var r := a.journal.value;
    var S := NamesOf(r.entries[i]);
    forall j | 0 <= j < |r.entries| ensures Fate(b, r.phase, r.entries[j]) == Fate(a, r.phase, r.entries[j]) {
      if j != i {
        if j < i { assert NamesOf(r.entries[j]) !! NamesOf(r.entries[i]); }
        AliasesFramed(S, a, b, r.entries[j]);
        assert r.entries[j].target in NamesOf(r.entries[j]) && r.entries[j].displaced in NamesOf(r.entries[j]);
      }
    }
    forall n | !Recorded(r.entries, n) ensures At(b, n) == At(a, n) {
      assert n !in S;
    }
  }
}
