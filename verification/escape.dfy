/** What the one call that is taken not to raise is worth: the unlink that ends the rollback of a target. */
module Escape {
  import opened Disks
  import opened Custody

  /** The publication would not have changed what the target shows. */
  predicate Unchanged(e: Entry) {
    OriginalContent(e) == Some(ContentOf(e.candidate.file))
  }

  ghost predicate Shows(base: map<Name, Content>, ledger: seq<Update>, d: Disk) {
    forall n :: !Private(n) ==> Shown(d, n) == Replay(base, ledger, n)
  }

  predicate Published(d: Disk, e: Entry) {
    At(d, e.target) == Some(e.candidate.ino)
  }

  lemma EntryShows(base: map<Name, Content>, d: Disk, j: nat)
    requires Good(base, d) && d.journal.Some? && d.journal.value.phase.Pending? && j < |d.journal.value.entries|
    ensures
      var e := d.journal.value.entries[j];
      && !Private(e.target)
      && Replay(base, d.ledger, e.target) == OriginalContent(e)
      && Replay(base, d.ledger + [UpdateOf(d.journal.value.entries)], e.target) == Some(ContentOf(e.candidate.file))
      && (Shown(Retired(d), e.target) == OriginalContent(e) <==> Restored(d, e) || (Published(d, e) && Unchanged(e)))
      && (Shown(Retired(d), e.target) == Some(ContentOf(e.candidate.file)) <==>
            Published(d, e) || (Restored(d, e) && Unchanged(e)))
  {
    var entries := d.journal.value.entries;
    TargetShows(d, entries[j], base, entries, j);
    TargetsAreDistinct(entries);
    UpdateOfTargets(entries);
    ReplayAppend(base, d.ledger, UpdateOf(entries), entries[j].target);
  }

  lemma TargetShows(d: Disk, e: Entry, base: map<Name, Content>, entries: seq<Entry>, j: nat)
    requires Good(base, d) && d.journal == Some(Record(Pending, entries)) && j < |entries| && e == entries[j]
    ensures !Private(e.target)
    ensures Shown(Retired(d), e.target) == OriginalContent(e) <==> Restored(d, e) || (Published(d, e) && Unchanged(e))
    ensures Shown(Retired(d), e.target) == Some(ContentOf(e.candidate.file)) <==>
      Published(d, e) || (Restored(d, e) && Unchanged(e))
  {
    assert WellFormedEntry(entries[j]) && Safe(d, entries[j]);
  }

  /** If that unlink raised, the exception would leave the rollback and the record would be retired over
      whatever state the targets are in; every state a rollback passes through is good. The public set
      would then be the old one exactly when every target is restored or still shows a candidate that
      changes nothing, and the new one exactly when every target is published or restored to contents
      that its candidate has as well. */
  lemma EscapeIsUniformIff(base: map<Name, Content>, d: Disk)
    requires Good(base, d) && d.journal.Some? && d.journal.value.phase.Pending?
    ensures
      var entries := d.journal.value.entries;
      && (Shows(base, d.ledger, Retired(d)) <==>
            forall j :: 0 <= j < |entries| ==>
              Restored(d, entries[j]) || (Published(d, entries[j]) && Unchanged(entries[j])))
      && (Shows(base, d.ledger + [UpdateOf(entries)], Retired(d)) <==>
            forall j :: 0 <= j < |entries| ==>
              Published(d, entries[j]) || (Restored(d, entries[j]) && Unchanged(entries[j])))
  {
    hide Restored;
    hide Published;
    hide Unchanged;
    hide Recoverable;
    hide Shown;
    hide OriginalContent;
    var entries := d.journal.value.entries;
    var b, u := Retired(d), UpdateOf(entries);
    forall j | 0 <= j < |entries|
      ensures !Private(entries[j].target)
      ensures Shown(b, entries[j].target) == Replay(base, d.ledger, entries[j].target) <==>
        Restored(d, entries[j]) || (Published(d, entries[j]) && Unchanged(entries[j]))
      ensures Shown(b, entries[j].target) == Replay(base, d.ledger + [u], entries[j].target) <==>
        Published(d, entries[j]) || (Restored(d, entries[j]) && Unchanged(entries[j]))
    {
      EntryShows(base, d, j);
    }
    forall n | !Private(n) && !IsTarget(entries, n)
      ensures Shown(b, n) == Replay(base, d.ledger, n) == Replay(base, d.ledger + [u], n)
    {
      OthersShow(base, d, n);
    }
  }

  lemma OthersShow(base: map<Name, Content>, d: Disk, n: Name)
    requires Good(base, d) && d.journal.Some? && d.journal.value.phase.Pending?
    requires !Private(n) && !IsTarget(d.journal.value.entries, n)
    ensures Shown(Retired(d), n) == Replay(base, d.ledger, n)
         == Replay(base, d.ledger + [UpdateOf(d.journal.value.entries)], n)
  {
    var entries := d.journal.value.entries;
    TargetsAreDistinct(entries);
    UpdateOfTargets(entries);
    ReplayAppend(base, d.ledger, UpdateOf(entries), n);
  }

  /** So a publication that changes at most one target is safe even then: wherever the rollback stopped
      with every target published or restored, the outcome is the old set or the new one. */
  lemma OneChangeIsUniform(base: map<Name, Content>, d: Disk, c: nat)
    requires Good(base, d) && d.journal.Some? && d.journal.value.phase.Pending?
    requires var entries := d.journal.value.entries;
      forall j :: 0 <= j < |entries| ==>
        (Restored(d, entries[j]) || Published(d, entries[j])) && (j != c ==> Unchanged(entries[j]))
    ensures Shows(base, d.ledger, Retired(d)) || Shows(base, d.ledger + [UpdateOf(d.journal.value.entries)], Retired(d))
  {
    hide Restored;
    hide Published;
    hide Unchanged;
    hide Shows;
    hide Good;
    EscapeIsUniformIff(base, d);
  }

  /** And whenever one changed target is still published while another changed one has been restored, the
      outcome is neither set. */
  lemma TwoChangesMix(base: map<Name, Content>, d: Disk, i: nat, j: nat)
    requires Good(base, d) && d.journal.Some? && d.journal.value.phase.Pending?
    requires i < |d.journal.value.entries| && j < |d.journal.value.entries|
    requires var e := d.journal.value.entries[i]; Published(d, e) && !Restored(d, e) && !Unchanged(e)
    requires var e := d.journal.value.entries[j]; Restored(d, e) && !Published(d, e) && !Unchanged(e)
    ensures !Shows(base, d.ledger, Retired(d))
    ensures !Shows(base, d.ledger + [UpdateOf(d.journal.value.entries)], Retired(d))
  {
    hide Restored;
    hide Published;
    hide Unchanged;
    hide Shows;
    hide Good;
    EscapeIsUniformIff(base, d);
  }

  /** Such a state: two new files, of which only the second was taken back, up to the alias that the raising
      unlink leaves. */
  lemma HalfTakenBack() returns (d: Disk)
    ensures Good(map[], d) && d.journal.Some? && d.journal.value.phase.Pending? && |d.journal.value.entries| == 2
    ensures var e := d.journal.value.entries[0]; Published(d, e) && !Restored(d, e) && !Unchanged(e)
    ensures var e := d.journal.value.entries[1]; Restored(d, e) && !Published(d, e) && !Unchanged(e)
    ensures var e := d.journal.value.entries[1]; At(d, e.failed) == Some(e.candidate.ino)
  {
    var f := File([1], CANDIDATE_MODE, 0);
    var a := Entry("a", ".a.tmp", ".a.displaced", ".a.failed", Binding(0, f), None);
    var b := Entry("b", ".b.tmp", ".b.displaced", ".b.failed", Binding(1, f), None);
    d := Disk(map["a" := 0, ".b.failed" := 1], map[0 := f, 1 := f], Some(Record(Pending, [a, b])), []);
    assert Safe(d, a) && Safe(d, b);
    assert IsTarget([a, b], "a") by { assert [a, b][0].target == "a"; }
    assert Private(".b.failed");
    assert forall n :: Replay(map[], [], n) == None;
  }

  /** So a publication of two changed targets can end in a mixture. */
  lemma EscapeMixesGenerations()
    ensures exists d: Disk ::
      && Good(map[], d) && d.journal.Some? && d.journal.value.phase.Pending?
      && !Shows(map[], d.ledger, Retired(d))
      && !Shows(map[], d.ledger + [UpdateOf(d.journal.value.entries)], Retired(d))
  {
    hide Good;
    hide Shows;
    hide Restored;
    hide Published;
    hide Unchanged;
    var d := HalfTakenBack();
    TwoChangesMix(map[], d, 0, 1);
  }
}
