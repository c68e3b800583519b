/** The directory a publication works in, as a value: names bound to inodes, inode contents, the
    recovery record, and the public set that the completed work of all processes adds up to. */
module Disks {
  type Name = string
  type Ino = nat
  type byte = x: int | 0 <= x < 256
  type Bytes = seq<byte>

  /** The most bytes an artifact may have to be read back at all. */
  const MAX_ARTIFACT_BYTES := 64_000_000

  /** The mode given to every candidate: octal 644. */
  const CANDIDATE_MODE: nat := 420

  datatype Option<+T> = None | Some(value: T)

  datatype File = File(data: Bytes, mode: nat, mtime: int)

  /** What a reader of a public file sees. */
  datatype Content = Content(data: Bytes, mode: nat)

  /** One inode and everything the record binds about it; the digest stands for the bytes. */
  datatype Binding = Binding(ino: Ino, file: File)

  /** An originally present target: its own inode, and the copy kept under the rollback name. */
  datatype Preimage = Preimage(original: Binding, rollback: Name, copy: Binding)

  datatype Entry = Entry(
    target: Name, temporary: Name, displaced: Name, failed: Name,
    candidate: Binding, preimage: Option<Preimage>)

  datatype Phase = Pending | Committed

  datatype Record = Record(phase: Phase, entries: seq<Entry>)

  /** A change of the public set made at one moment; None removes the name. */
  type Update = map<Name, Option<Content>>

  /** `journal` is the record under its fixed name: that file is only ever replaced whole or removed.
      `ledger` is a history variable that no code reads: the updates that took effect, oldest first. */
  datatype Disk = Disk(
    names: map<Name, Ino>, files: map<Ino, File>, journal: Option<Record>, ledger: seq<Update>)

  /** Aliases, rollback copies and the record start with a dot; targets must not. */
  predicate Private(n: Name) {
    |n| > 0 && n[0] == '.'
  }

  function At(d: Disk, n: Name): Option<Ino> {
    if n in d.names then Some(d.names[n]) else None
  }

  function ContentOf(f: File): Content {
    Content(f.data, f.mode)
  }

  function Shown(d: Disk, n: Name): Option<Content> {
    if n in d.names && d.names[n] in d.files then Some(ContentOf(d.files[d.names[n]])) else None
  }

  predicate Stored(d: Disk, b: Binding) {
    b.ino in d.files && d.files[b.ino] == b.file && |b.file.data| <= MAX_ARTIFACT_BYTES
  }

  /** What _artifact_matches answers for a present binding. */
  predicate Holds(d: Disk, n: Name, b: Binding) {
    At(d, n) == Some(b.ino) && Stored(d, b)
  }

  // ---- The effects of the system calls ----

  function Unlinked(d: Disk, n: Name): Disk {
    d.(names := d.names - {n})
  }

  function Linked(d: Disk, src: Name, dst: Name): Disk
    requires src in d.names
  {
    d.(names := d.names[dst := d.names[src]])
  }

  /** POSIX rename: replaces the destination, and does nothing between two names of one inode. */
  function Renamed(d: Disk, src: Name, dst: Name): Disk
    requires src in d.names
  {
    if dst in d.names && d.names[dst] == d.names[src] then d
    else d.(names := d.names[dst := d.names[src]] - {src})
  }

  function Journaled(d: Disk, r: Record): Disk {
    d.(journal := Some(r), ledger := if r.phase.Committed? then d.ledger + [UpdateOf(r.entries)] else d.ledger)
  }

  function Retired(d: Disk): Disk {
    d.(journal := None)
  }

  // ---- The public set that a history denotes ----

  function UpdateOf(entries: seq<Entry>): Update {
    if entries == [] then map[]
    else
      var last := entries[|entries| - 1];
      UpdateOf(entries[..|entries| - 1])[last.target := Some(ContentOf(last.candidate.file))]
  }

  /** What name n shows once all of `ledger` has been applied to the initial set `base`. */
  function Replay(base: map<Name, Content>, ledger: seq<Update>, n: Name): Option<Content> {
    if ledger == [] then if n in base then Some(base[n]) else None
    else
      var last := ledger[|ledger| - 1];
      if n in last then last[n] else Replay(base, ledger[..|ledger| - 1], n)
  }

  lemma ReplayAppend(base: map<Name, Content>, ledger: seq<Update>, u: Update, n: Name)
    ensures Replay(base, ledger + [u], n) == if n in u then u[n] else Replay(base, ledger, n)
  {
    assert (ledger + [u])[..|ledger|] == ledger;
  }

  predicate IsTarget(entries: seq<Entry>, n: Name) {
    exists i :: 0 <= i < |entries| && entries[i].target == n
  }

  predicate TargetsDiffer(entries: seq<Entry>) {
    forall i, j :: 0 <= i < j < |entries| ==> entries[i].target != entries[j].target
  }

  lemma {:induction false} UpdateOfTargets(entries: seq<Entry>)
    requires TargetsDiffer(entries)
    ensures forall n :: n in UpdateOf(entries) <==> IsTarget(entries, n)
    ensures forall i :: 0 <= i < |entries| ==>
      entries[i].target in UpdateOf(entries)
      && UpdateOf(entries)[entries[i].target] == Some(ContentOf(entries[i].candidate.file))
  {
    if entries != [] {
      var k := |entries| - 1;
      UpdateOfTargets(entries[..k]);
      forall n ensures n in UpdateOf(entries) <==> IsTarget(entries, n) {
        if n in UpdateOf(entries) {
          if n == entries[k].target {
          } else {
            assert n in UpdateOf(entries[..k]);
            var i :| 0 <= i < k && entries[..k][i].target == n;
            assert entries[i].target == n;
          }
        }
        if IsTarget(entries, n) {
          var i :| 0 <= i < |entries| && entries[i].target == n;
          if i < k { assert entries[..k][i].target == n; assert IsTarget(entries[..k], n); }
        }
      }
      forall i | 0 <= i < |entries|
        ensures entries[i].target in UpdateOf(entries)
        ensures UpdateOf(entries)[entries[i].target] == Some(ContentOf(entries[i].candidate.file))
      {
        if i < k {
          assert entries[..k][i] == entries[i];
          assert entries[i].target != entries[k].target;
        }
      }
    }
  }
}
