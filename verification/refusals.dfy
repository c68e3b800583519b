/** Publications that the publisher carries out and a restart refuses to recover. */
module Refusals {
  import opened Disks
  import opened Custody
  import opened Names
  import opened Staging
  import opened Publication
  import opened Records

  /** On a good disk everything is staged as the publisher stages it, putting the record in force keeps the
      disk good, and the reader rejects that record. */
  ghost predicate Stuck(base: map<Name, Content>, d: Disk, issued: set<Name>, entries: seq<Entry>,
                        cands: seq<Candidate>, root: Root, transaction: string, digest: Bytes -> string)
  {
    && Good(base, d) && d.journal == None && |entries| == |cands|
    && EntriesReady(false, d, issued, entries, cands)
    && Good(base, Journaled(d, Record(Pending, entries)))
    && !Restartable(d, cands)
    && Read(Write(WireRecordOf(Record(Pending, entries), root, transaction, digest)), root) == None
  }

  lemma Refused(base: map<Name, Content>, d: Disk, issued: set<Name>, entries: seq<Entry>, cands: seq<Candidate>,
                root: Root, transaction: string, digest: Bytes -> string)
    requires Good(base, d) && d.journal == None && |entries| == |cands| &&
      EntriesReady(false, d, issued, entries, cands)
    requires !Restartable(d, cands)
    requires
      || (exists k :: 0 <= k < |cands| && '\\' in cands[k].target)
      || (exists k :: 0 <= k < |entries| && !Dated(entries[k]))
    requires LowerHex(transaction, 48) && forall b: Bytes :: LowerHex(digest(b), 64)
    ensures Stuck(base, d, issued, entries, cands, root, transaction, digest)
  {
    hide Good;
    hide EntriesReady;
    hide Restartable;
    BeforeRecord(base, false, d, issued, entries, cands);
    ReadyIsReadable(false, d, issued, Pending, entries, cands);
    ReadableMeansRead(Record(Pending, entries), root, transaction, digest);
  }

  lemma Aliases(target: Name, e: Entry)
    requires Direct(target) && e.target == target
    requires e.temporary == "." + target + "." + "x" + ".tmp" && e.displaced == "." + target + "." + "x" + ".displaced"
    requires e.failed == "." + target + "." + "x" + ".failed"
    requires e.preimage.Some? ==> e.preimage.value.rollback == "." + target + "." + "x" + ".rollback"
    ensures Shaped(e) && WellFormedEntry(e)
  {
    assert Plain("x");
    assert AliasShape(e.temporary, target, ".tmp") && AliasShape(e.displaced, target, ".displaced")
        && AliasShape(e.failed, target, ".failed");
    if e.preimage.Some? { assert AliasShape(e.preimage.value.rollback, target, ".rollback"); }
    ShapedIsWellFormed(e);
  }

  function Alias(target: Name, suffix: string): Name {
    "." + target + "." + "x" + suffix
  }

  /** One new file whose name has a backslash in it. */
  lemma BackslashIsRefused(root: Root, transaction: string, digest: Bytes -> string)
    requires LowerHex(transaction, 48) && forall b: Bytes :: LowerHex(digest(b), 64)
    ensures exists d, issued, entries :: Stuck(map[], d, issued, entries, [Candidate("a\\b", [])],
      root, transaction, digest)
  {
    hide Stuck;
    hide AliasShape;
    var t, f := "a\\b", File([], CANDIDATE_MODE, 0);
    var e := Entry(t, Alias(t, ".tmp"), Alias(t, ".displaced"), Alias(t, ".failed"), Binding(0, f), None);
    var cands := [Candidate(t, [])];
    Aliases(t, e);
    var d := Disk(map[e.temporary := 0], map[0 := f], None, []);
    assert EntryReady(false, d, e, cands[0]);
    assert cands[0].target[1] == '\\';
    Refused(map[], d, {e.displaced, e.failed}, [e], cands, root, transaction, digest);
  }

  /** One file to be replaced that is dated before the epoch. */
  lemma EarlyDateIsRefused(root: Root, transaction: string, digest: Bytes -> string)
    requires LowerHex(transaction, 48) && forall b: Bytes :: LowerHex(digest(b), 64)
    ensures exists base, d, issued, entries ::
      Stuck(base, d, issued, entries, [Candidate("a", [1])], root, transaction, digest)
  {
    hide Stuck;
    hide AliasShape;
    var t := "a";
    var was, copy, next := File([], 420, -1), File([], 420, 0), File([1], CANDIDATE_MODE, 0);
    var e := Entry(t, Alias(t, ".tmp"), Alias(t, ".displaced"), Alias(t, ".failed"), Binding(0, next),
                   Some(Preimage(Binding(1, was), Alias(t, ".rollback"), Binding(2, copy))));
    var cands := [Candidate(t, [1])];
    Aliases(t, e);
    var d := Disk(map[e.temporary := 0, t := 1, e.preimage.value.rollback := 2], map[0 := next, 1 := was, 2 := copy],
      None, []);
    var base: map<Name, Content> := map[t := ContentOf(was)];
    assert EntryReady(false, d, e, cands[0]);
    assert !DatedTarget(d, cands[0].target) && !Dated([e][0]);
    Refused(base, d, {e.displaced, e.failed}, [e], cands, root, transaction, digest);
  }
}
