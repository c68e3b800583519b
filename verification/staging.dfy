/** Everything a publication prepares before its record: temporaries, rollback copies, and the entries
    that bind them. No public name moves here. */
module Staging {
  import opened Disks
  import opened Custody
  import opened Names
  import opened Directories
  import opened Recovery
  import opened Installation

  datatype Candidate = Candidate(target: Name, data: Bytes)

  /** A direct public artifact of the directory. */
  predicate Direct(t: Name) {
    t != "" && '/' !in t && !Private(t)
  }

  predicate Distinct(names: seq<Name>) {
    forall i, j :: 0 <= i < j < |names| ==> names[i] != names[j]
  }

  /** From a to b only private names that were neither there nor handed out before came about. */
  ghost predicate Grew(noisy: bool, issued: set<Name>, a: Disk, b: Disk) {
    && (forall n :: Private(n) && (n in a.names || n in issued) ==> At(a, n) == At(b, n))
    && (!noisy ==> forall n :: !Private(n) ==> At(a, n) == At(b, n))
    && (forall i :: i in a.files ==> i in b.files && b.files[i] == a.files[i])
    && a.journal == b.journal && a.ledger == b.ledger
  }

  lemma GrewTrans(noisy: bool, I: set<Name>, J: set<Name>, a: Disk, b: Disk, c: Disk)
    requires Grew(noisy, I, a, b) && Grew(noisy, J, b, c) && I <= J
    ensures Grew(noisy, I, a, c) && c.journal == b.journal == a.journal && c.ledger == b.ledger == a.ledger
  {
    forall n | Private(n) && (n in a.names || n in I) ensures At(a, n) == At(c, n) {
      assert At(a, n) == At(b, n);
    }
    if !noisy {
      forall n | !Private(n) ensures At(a, n) == At(c, n) { assert At(a, n) == At(b, n); }
    }
  }

  lemma OthersGrew(noisy: bool, I: set<Name>, a: Disk, b: Disk)
    requires Frame(noisy, {}, a, b)
    ensures Grew(noisy, I, a, b)
  {
  }

  /** The aliases are private, handed out, and whatever they hold the protocol has made. */
  ghost predicate Owned(d: Disk, issued: set<Name>, created: set<Ino>, names: seq<Name>) {
    forall k :: 0 <= k < |names| ==>
      && Private(names[k]) && names[k] in issued
      && (names[k] in d.names ==> d.names[names[k]] in created)
  }

  /** The alias holds a file of the wanted contents whose inode was not there before. */
  ghost predicate Holding(d: Disk, n: Name, c: Content, before: Disk) {
    && n in d.names && d.names[n] in d.files && d.names[n] !in before.files
    && ContentOf(d.files[d.names[n]]) == c
  }

  lemma HoldingGrew(noisy: bool, I: set<Name>, a: Disk, b: Disk, n: Name, c: Content, before: Disk)
    requires Grew(noisy, I, a, b) && Private(n) && Holding(a, n, c, before)
    ensures Holding(b, n, c, before)
  {
    assert At(a, n) == At(b, n);
  }

  lemma MadeGrew(noisy: bool, issued: set<Name>, a: Disk, seen: Disk, n: Name, i: Ino, f: File)
    requires Frame(noisy, {}, a, seen) && Private(n)
    requires n !in issued && n !in seen.names && i !in seen.files
    ensures Grew(noisy, issued, a, Directory.Made(seen, n, i, f))
  {
    var b := Directory.Made(seen, n, i, f);
    forall m | Private(m) && (m in a.names || m in issued) ensures At(a, m) == At(b, m) {
      assert At(a, m) == At(seen, m);
      assert m != n;
    }
    if !noisy {
      forall m | !Private(m) ensures At(a, m) == At(b, m) { assert At(a, m) == At(seen, m); }
    }
  }

  function Only(n: Option<Name>): set<Name> {
    if n.Some? then {n.value} else {}
  }

  function Members(names: seq<Name>): set<Name> {
    set n | n in names
  }

  lemma MembersMore(names: seq<Name>, n: Name)
    ensures Members(names + [n]) == Members(names) + {n}
  {
    assert forall m :: m in names + [n] <==> m in names || m == n;
  }

  /** mkstemp with contents, seen from a caller who keeps track of what grew. */
  method Make(dir: Directory, target: Name, suffix: string, data: Bytes, mode: nat)
    returns (r: Outcome, made: Option<Name>)
    requires dir.Valid() && dir.disk.journal == None
    modifies dir`disk, dir`recent, dir`seen, dir`next, dir`log, dir`ops, dir`issued, dir`created
    ensures dir.Valid() && dir.next >= old(dir.next) && dir.Trail(old(dir.recent), old(dir.disk))
    ensures Later(old(dir.log), dir.log)
    ensures r == Done || r == Died || (r == Raised && dir.Faulted(old(dir.log)))
    ensures dir.issued >= old(dir.issued) && dir.created >= old(dir.created)
    ensures Grew(dir.noisy, old(dir.issued), old(dir.disk), dir.disk)
    ensures dir.issued == old(dir.issued) + Only(made)
    ensures r.Done? ==> made.Some?
    ensures made.Some? ==>
      && made.value !in old(dir.issued) && AliasShape(made.value, target, suffix)
      && Owned(dir.disk, dir.issued, dir.created, [made.value])
      && made.value in dir.disk.names && dir.disk.names[made.value] in dir.disk.files
    ensures r.Done? ==> Holding(dir.disk, made.value, Content(data, mode), old(dir.disk))
  {
    ghost var d0 := dir.disk;
    r, made := dir.Create(target, suffix, data, mode);
    if made.Some? {
      MadeGrew(dir.noisy, old(dir.issued), d0, dir.seen, made.value, dir.disk.names[made.value],
               dir.disk.files[dir.disk.names[made.value]]);
    }
  }

  /** _unused_artifact_transaction_path: a name that mkstemp made and that was removed again. */
  method Reserve(dir: Directory, target: Name, suffix: string) returns (r: Outcome, name: Name)
    requires dir.Valid() && dir.disk.journal == None
    modifies dir`disk, dir`recent, dir`seen, dir`next, dir`log, dir`ops, dir`issued, dir`created, dir`lost
    ensures dir.Valid() && dir.next >= old(dir.next) && dir.Trail(old(dir.recent), old(dir.disk))
    ensures Later(old(dir.log), dir.log)
    ensures r == Done || r == Died || (r == Raised && dir.Faulted(old(dir.log)))
    ensures dir.issued >= old(dir.issued) && dir.created >= old(dir.created)
    ensures Grew(dir.noisy, old(dir.issued), old(dir.disk), dir.disk)
    ensures r.Done? ==> dir.issued == old(dir.issued) + {name}
    ensures r.Done? ==>
      && name !in old(dir.issued) && name in dir.issued && name !in dir.disk.names
      && AliasShape(name, target, suffix) && Private(name)
  {
    ghost var d0, issued0 := dir.disk, dir.issued;
    var made;
    r, made := Make(dir, target, suffix, [], 384);
    name := if made.Some? then made.value else "";
    if !r.Done? { return; }
    ghost var d1 := dir.disk;
    if !dir.noisy { PrivateStep(dir.base, {name}, d1, Unlinked(d1, name)); }
    assert Owned(dir.disk, dir.issued, dir.created, [name]) && [name][0] == name;
    r := dir.Unlink(name);
    UnlinkGrew(dir.noisy, issued0, d0, d1, dir.seen, dir.disk, name);
  }

  lemma UnlinkGrew(noisy: bool, issued: set<Name>, a: Disk, b: Disk, seen: Disk, c: Disk, n: Name)
    requires Grew(noisy, issued, a, b) && Frame(noisy, {}, b, seen) && (c == seen || c == Unlinked(seen, n))
    requires Private(n) && n !in issued && (n in b.names ==> At(a, n) == None)
    ensures Grew(noisy, issued, a, c)
  {
    forall m | Private(m) && (m in a.names || m in issued) ensures At(a, m) == At(c, m) {
      assert At(a, m) == At(b, m) == At(seen, m);
    }
    if !noisy {
      forall m | !Private(m) ensures At(a, m) == At(c, m) { assert At(a, m) == At(b, m) == At(seen, m); }
    }
  }

  // ---- Temporaries ----

  ghost predicate TemporariesReady(d: Disk, cands: seq<Candidate>, temps: seq<Name>, before: Disk) {
    && |temps| <= |cands| && Distinct(temps)
    && forall k :: 0 <= k < |temps| ==>
         && Direct(cands[k].target) && AliasShape(temps[k], cands[k].target, ".tmp")
         && Private(temps[k]) && Holding(d, temps[k], Content(cands[k].data, CANDIDATE_MODE), before)
  }

  lemma TemporariesGrew(noisy: bool, I: set<Name>, a: Disk, b: Disk, cands: seq<Candidate>, temps: seq<Name>,
                        before: Disk)
    requires Grew(noisy, I, a, b) && TemporariesReady(a, cands, temps, before)
    ensures TemporariesReady(b, cands, temps, before)
  {
    forall k | 0 <= k < |temps| ensures Holding(b, temps[k], Content(cands[k].data, CANDIDATE_MODE), before) {
      HoldingGrew(noisy, I, a, b, temps[k], Content(cands[k].data, CANDIDATE_MODE), before);
    }
  }

  /** The aliases stay owned while only fresh names come about. */
  lemma OwnedGrew(noisy: bool, a: Disk, I: set<Name>, C: set<Ino>, b: Disk, J: set<Name>, D: set<Ino>, names: seq<Name>)
    requires Owned(a, I, C, names) && Grew(noisy, I, a, b) && I <= J && C <= D
    ensures Owned(b, J, D, names)
  {
    forall k | 0 <= k < |names| ensures At(a, names[k]) == At(b, names[k]) {}
  }

  method StageTemporaries(dir: Directory, cands: seq<Candidate>) returns (r: Outcome, temps: seq<Name>)
    requires dir.Valid() && dir.disk.journal == None
    modifies dir`disk, dir`recent, dir`seen, dir`next, dir`log, dir`ops, dir`issued, dir`created
    ensures dir.Valid() && dir.next >= old(dir.next) && dir.Trail(old(dir.recent), old(dir.disk))
    ensures Later(old(dir.log), dir.log)
    ensures r == Done || r == Raised || r == Died
    ensures dir.issued >= old(dir.issued) && dir.created >= old(dir.created)
    ensures Grew(dir.noisy, old(dir.issued), old(dir.disk), dir.disk)
    ensures dir.issued <= old(dir.issued) + Members(temps)
    ensures Owned(dir.disk, dir.issued, dir.created, temps)
    ensures r.Done? ==> |temps| == |cands| && TemporariesReady(dir.disk, cands, temps, old(dir.disk))
    ensures !dir.noisy && r.Raised? ==>
      dir.Faulted(old(dir.log)) || exists k :: 0 <= k < |cands| && !Direct(cands[k].target)
  {
    hide Good;
    hide WellFormed;
    hide dir.Valid;
    ghost var d0, issued0 := dir.disk, dir.issued;
    temps, r := [], Done;
    while |temps| < |cands|
      invariant dir.Valid() && dir.next >= old(dir.next) && dir.Trail(old(dir.recent), d0)
      invariant Later(old(dir.log), dir.log)
      invariant dir.issued >= issued0 && dir.created >= old(dir.created) && r.Done?
      invariant Grew(dir.noisy, issued0, d0, dir.disk) && dir.issued <= issued0 + Members(temps)
      invariant Owned(dir.disk, dir.issued, dir.created, temps) && TemporariesReady(dir.disk, cands, temps, d0)
      decreases |cands| - |temps|
    {
      var c := cands[|temps|];
      if !Direct(c.target) { r := Raised; return; }
      ghost var d, issued, created := dir.disk, dir.issued, dir.created;
      var made;
      r, made := Make(dir, c.target, ".tmp", c.data, CANDIDATE_MODE);
      GrewTrans(dir.noisy, issued0, issued, d0, d, dir.disk);
      OwnedGrew(dir.noisy, d, issued, created, dir.disk, dir.issued, dir.created, temps);
      TemporariesGrew(dir.noisy, issued, d, dir.disk, cands, temps, d0);
      if made.Some? {
        assert Owned(dir.disk, dir.issued, dir.created, [made.value]) && [made.value][0] == made.value;
        forall k | 0 <= k < |temps| ensures temps[k] != made.value {
          assert temps[k] in issued;
        }
        MembersMore(temps, made.value);
        temps := temps + [made.value];
      }
      if !r.Done? { return; }
    }
  }

  // ---- Rollback copies ----

  /** What is known of the targets so far: the staged identity and the name of the copy, or absence. */
  ghost predicate CopiesReady(noisy: bool, d: Disk, cands: seq<Candidate>, statuses: seq<Option<Binding>>,
                              rolls: seq<Option<Name>>, before: Disk)
  {
    && |rolls| == |statuses| <= |cands|
    && (forall i, j :: 0 <= i < j < |rolls| && rolls[i].Some? && rolls[j].Some? ==> rolls[i] != rolls[j])
    && forall k :: 0 <= k < |rolls| ==> CopyReady(noisy, d, cands[k].target, statuses[k], rolls[k], before)
  }

  ghost predicate CopyReady(noisy: bool, d: Disk, target: Name, status: Option<Binding>, roll: Option<Name>,
                            before: Disk) {
    match status
    case None => roll.None? && (!noisy ==> At(d, target) == None)
    case Some(b) =>
      && roll.Some? && Private(roll.value) && AliasShape(roll.value, target, ".rollback")
      && Stored(d, b) && Holding(d, roll.value, ContentOf(b.file), before)
      && (!noisy ==> At(d, target) == Some(b.ino) && b.ino in before.files)
  }

  lemma CopiesGrew(noisy: bool, I: set<Name>, a: Disk, b: Disk, cands: seq<Candidate>,
                   statuses: seq<Option<Binding>>, rolls: seq<Option<Name>>, before: Disk)
    requires Grew(noisy, I, a, b) && CopiesReady(noisy, a, cands, statuses, rolls, before)
    requires forall k :: 0 <= k < |cands| ==> !Private(cands[k].target)
    ensures CopiesReady(noisy, b, cands, statuses, rolls, before)
  {
    forall k | 0 <= k < |rolls| ensures CopyReady(noisy, b, cands[k].target, statuses[k], rolls[k], before) {
      assert CopyReady(noisy, a, cands[k].target, statuses[k], rolls[k], before);
      if statuses[k].Some? {
        HoldingGrew(noisy, I, a, b, rolls[k].value, ContentOf(statuses[k].value.file), before);
      }
    }
  }

  /** The names among the optional ones. */
  function Given(rolls: seq<Option<Name>>): seq<Name> {
    if rolls == [] then []
    else Given(rolls[..|rolls| - 1]) + match rolls[|rolls| - 1] case None => [] case Some(n) => [n]
  }

  lemma {:induction false} GivenMembers(rolls: seq<Option<Name>>)
    ensures forall k :: 0 <= k < |rolls| && rolls[k].Some? ==> rolls[k].value in Given(rolls)
    ensures forall n :: n in Given(rolls) ==> Some(n) in rolls
  {
    if rolls != [] {
      var rest := rolls[..|rolls| - 1];
      GivenMembers(rest);
      forall k | 0 <= k < |rolls| && rolls[k].Some? ensures rolls[k].value in Given(rolls) {
        if k < |rest| { assert rest[k] == rolls[k]; }
      }
      forall n | n in Given(rolls) ensures Some(n) in rolls {
        if n in Given(rest) { assert Some(n) in rest; } else { assert rolls[|rolls| - 1] == Some(n); }
      }
    }
  }

  lemma GivenMore(rolls: seq<Option<Name>>, roll: Option<Name>)
    ensures Members(Given(rolls + [roll])) == Members(Given(rolls)) + Only(roll)
  {
    assert (rolls + [roll])[..|rolls|] == rolls;
    if roll.Some? {
      MembersMore(Given(rolls), roll.value);
    } else {
      assert Given(rolls) + [] == Given(rolls);
    }
  }

  method StageCopies(dir: Directory, cands: seq<Candidate>)
    returns (r: Outcome, statuses: seq<Option<Binding>>, rolls: seq<Option<Name>>)
    requires dir.Valid() && dir.disk.journal == None
    requires forall k :: 0 <= k < |cands| ==> !Private(cands[k].target)
    modifies dir`disk, dir`recent, dir`seen, dir`next, dir`log, dir`ops, dir`issued, dir`created
    ensures dir.Valid() && dir.next >= old(dir.next) && dir.Trail(old(dir.recent), old(dir.disk))
    ensures Later(old(dir.log), dir.log)
    ensures r == Done || r == Raised || r == Died
    ensures dir.issued >= old(dir.issued) && dir.created >= old(dir.created)
    ensures Grew(dir.noisy, old(dir.issued), old(dir.disk), dir.disk)
    ensures dir.issued <= old(dir.issued) + Members(Given(rolls))
    ensures Owned(dir.disk, dir.issued, dir.created, Given(rolls))
    ensures r.Done? ==> |rolls| == |cands| && CopiesReady(dir.noisy, dir.disk, cands, statuses, rolls, old(dir.disk))
    ensures !dir.noisy && r.Raised? ==>
      dir.Faulted(old(dir.log)) || exists k :: 0 <= k < |cands| && Directory.Oversized(old(dir.disk), cands[k].target)
  {
    ghost var d0, issued0 := dir.disk, dir.issued;
    statuses, rolls, r := [], [], Done;
    while |rolls| < |cands|
      invariant dir.Valid() && dir.next >= old(dir.next) && dir.Trail(old(dir.recent), d0)
      invariant Later(old(dir.log), dir.log)
      invariant dir.issued >= issued0 && dir.created >= old(dir.created) && r.Done?
      invariant Grew(dir.noisy, issued0, d0, dir.disk) && Owned(dir.disk, dir.issued, dir.created, Given(rolls))
      invariant dir.issued <= issued0 + Members(Given(rolls))
      invariant CopiesReady(dir.noisy, dir.disk, cands, statuses, rolls, d0)
      decreases |cands| - |rolls|
    {
      var target := cands[|rolls|].target;
      ghost var d, issued, created, before := dir.disk, dir.issued, dir.created, rolls;
      var status, roll;
      r, status, roll := StageCopy(dir, target);
      GrewTrans(dir.noisy, issued0, issued, d0, d, dir.disk);
      OwnedGrew(dir.noisy, d, issued, created, dir.disk, dir.issued, dir.created, Given(rolls));
      CopiesGrew(dir.noisy, issued, d, dir.disk, cands, statuses, rolls, d0);
      assert forall k :: 0 <= k < |Given(rolls)| ==> Given(rolls)[k] in issued;
      if !dir.noisy && r.Raised? && !dir.Faulted(old(dir.log)) { StillOversized(d0, d, issued0, target); }
      if roll.Some? || r.Done? {
        GivenMore(rolls, roll);
        AppendOwned(dir.disk, dir.issued, dir.created, rolls, roll);
        if r.Done? {
          AppendCopy(dir.noisy, issued0, issued, d0, d, dir.disk, cands, statuses, rolls, status, roll);
        }
        rolls, statuses := rolls + [roll], statuses + [status];
      }
      if !r.Done? { return; }
    }
  }

  lemma StillOversized(a: Disk, b: Disk, I: set<Name>, target: Name)
    requires Grew(false, I, a, b) && Directory.Oversized(b, target) && !Private(target) && Bound(a)
    ensures Directory.Oversized(a, target)
  {
    assert At(a, target) == At(b, target);
  }

  lemma AppendOwned(d: Disk, I: set<Name>, C: set<Ino>, rolls: seq<Option<Name>>, roll: Option<Name>)
    requires Owned(d, I, C, Given(rolls)) && (roll.Some? ==> Owned(d, I, C, [roll.value]))
    ensures Owned(d, I, C, Given(rolls + [roll]))
  {
    assert (rolls + [roll])[..|rolls|] == rolls;
    if roll.Some? {
      assert [roll.value][0] == roll.value;
      assert Given(rolls + [roll]) == Given(rolls) + [roll.value];
    }
  }

  /** Appending what was found out about one more target, whose staging began at b. */
  lemma AppendCopy(noisy: bool, I: set<Name>, J: set<Name>, a: Disk, b: Disk, c: Disk, cands: seq<Candidate>,
                   statuses: seq<Option<Binding>>, rolls: seq<Option<Name>>,
                   status: Option<Binding>, roll: Option<Name>)
    requires |rolls| < |cands| && CopiesReady(noisy, c, cands, statuses, rolls, a) && Bound(a)
    requires Grew(noisy, I, a, b) && CopyReady(noisy, c, cands[|rolls|].target, status, roll, b)
    requires forall k :: 0 <= k < |Given(rolls)| ==> Given(rolls)[k] in J
    requires roll.Some? ==> roll.value !in J
    requires !noisy ==> At(b, cands[|rolls|].target) == At(c, cands[|rolls|].target) && !Private(cands[|rolls|].target)
    ensures CopiesReady(noisy, c, cands, statuses + [status], rolls + [roll], a)
  {
    GivenMembers(rolls);
    forall k | 0 <= k < |rolls| && rolls[k].Some? && roll.Some? ensures rolls[k] != roll {
      assert rolls[k].value in Given(rolls);
    }
    var target := cands[|rolls|].target;
    if !noisy { assert At(a, target) == At(b, target); }
    assert CopyReady(noisy, c, target, status, roll, a);
    forall k | 0 <= k < |rolls| + 1
      ensures CopyReady(noisy, c, cands[k].target, (statuses + [status])[k], (rolls + [roll])[k], a)
    {
      if k < |rolls| { assert CopyReady(noisy, c, cands[k].target, statuses[k], rolls[k], a); }
    }
  }

  /** One target: its identity and a copy of what it shows, or nothing when it is absent. */
  method StageCopy(dir: Directory, target: Name) returns (r: Outcome, status: Option<Binding>, roll: Option<Name>)
    requires dir.Valid() && dir.disk.journal == None && !Private(target)
    modifies dir`disk, dir`recent, dir`seen, dir`next, dir`log, dir`ops, dir`issued, dir`created
    ensures dir.Valid() && dir.next >= old(dir.next) && dir.Trail(old(dir.recent), old(dir.disk))
    ensures Later(old(dir.log), dir.log)
    ensures r == Done || r == Raised || r == Died
    ensures dir.issued >= old(dir.issued) && dir.created >= old(dir.created)
    ensures Grew(dir.noisy, old(dir.issued), old(dir.disk), dir.disk)
    ensures dir.issued == old(dir.issued) + Only(roll)
    ensures roll.Some? ==> roll.value !in old(dir.issued) && Owned(dir.disk, dir.issued, dir.created, [roll.value])
    ensures r.Done? ==> CopyReady(dir.noisy, dir.disk, target, status, roll, old(dir.disk))
    ensures !dir.noisy ==> At(old(dir.disk), target) == At(dir.disk, target)
    ensures !dir.noisy && r.Raised? ==>
      dir.Faulted(old(dir.log)) || Directory.Oversized(old(dir.disk), target)
  {
    ghost var d0, issued0 := dir.disk, dir.issued;
    status, roll := None, None;
    var initial;
    r, initial := dir.Bind(target);
    OthersGrew(dir.noisy, issued0, d0, dir.disk);
    if r.Missing? { r := Done; return; }
    if !r.Done? { return; }
    ghost var d1 := dir.disk;
    status := Some(initial);
    r, roll := Make(dir, target, ".rollback", initial.file.data, initial.file.mode);
    GrewTrans(dir.noisy, issued0, issued0, d0, d1, dir.disk);
    if !dir.noisy { assert At(d1, target) == At(dir.disk, target); }
  }

  // ---- Entries ----

  ghost predicate Shaped(e: Entry) {
    && Direct(e.target)
    && AliasShape(e.temporary, e.target, ".tmp")
    && AliasShape(e.displaced, e.target, ".displaced")
    && AliasShape(e.failed, e.target, ".failed")
    && match e.preimage case None => true case Some(p) => AliasShape(p.rollback, e.target, ".rollback")
  }

  ghost predicate SameRolesDiffer(a: Entry, b: Entry) {
    && a.target != b.target && a.temporary != b.temporary && a.displaced != b.displaced && a.failed != b.failed
    && (a.preimage.Some? && b.preimage.Some? ==> a.preimage.value.rollback != b.preimage.value.rollback)
  }

  lemma RoleReadable(n: Name, target: Name, suffix: string)
    requires AliasShape(n, target, suffix) && Plain(suffix) && '/' !in target
    ensures Private(n) && EndsWith(n, suffix) && (ReadableAlias(n, target, suffix) <==> '\\' !in target)
  {
    AliasIsPrivate(n, target, suffix);
    ShapeIsReadable(n, target, suffix);
  }

  /** Each alias of the entry with the suffix of its role. */
  lemma Roles(e: Entry)
    requires Shaped(e)
    ensures Private(e.temporary) && EndsWith(e.temporary, ".tmp")
    ensures Private(e.displaced) && EndsWith(e.displaced, ".displaced")
    ensures Private(e.failed) && EndsWith(e.failed, ".failed")
    ensures e.preimage.Some? ==> Private(e.preimage.value.rollback) && EndsWith(e.preimage.value.rollback, ".rollback")
    ensures ReadableEntry(e) <==> '\\' !in e.target && Dated(e)
  {
    hide ReadableAlias;
    hide AliasShape;
    RoleReadable(e.temporary, e.target, ".tmp");
    RoleReadable(e.displaced, e.target, ".displaced");
    RoleReadable(e.failed, e.target, ".failed");
    if e.preimage.Some? { RoleReadable(e.preimage.value.rollback, e.target, ".rollback"); }
    assert StartsWith(e.target, ".") <==> Private(e.target);
  }

  lemma RolesApart(e: Entry, f: Entry)
    requires Shaped(e) && Shaped(f)
    ensures e.temporary != f.displaced && e.temporary != f.failed && e.displaced != f.failed
    ensures e.preimage.Some? ==>
      var r := e.preimage.value.rollback; r != f.temporary && r != f.displaced && r != f.failed
  {
    Roles(e);
    Roles(f);
    SuffixesApart(e.temporary);
    SuffixesApart(e.displaced);
    if e.preimage.Some? { SuffixesApart(e.preimage.value.rollback); }
  }

  lemma ShapedIsWellFormed(e: Entry)
    requires Shaped(e)
    ensures WellFormedEntry(e)
  {
    Roles(e);
    RolesApart(e, e);
  }

  lemma ShapedApart(e: Entry, f: Entry)
    requires Shaped(e) && Shaped(f) && SameRolesDiffer(e, f)
    ensures NamesOf(e) !! NamesOf(f)
  {
    RolesApart(e, f);
    RolesApart(f, e);
    ShapedIsWellFormed(e);
    ShapedIsWellFormed(f);
  }

  /** An entry as the publisher binds it, still true of the disk. */
  ghost predicate EntryReady(noisy: bool, d: Disk, e: Entry, c: Candidate) {
    && Shaped(e) && WellFormedEntry(e) && TrueCopy(e) && e.target == c.target
    && Holds(d, e.temporary, e.candidate) && ContentOf(e.candidate.file) == Content(c.data, CANDIDATE_MODE)
    && At(d, e.displaced) == None && At(d, e.failed) == None
    && match e.preimage
       case None => !noisy ==> At(d, e.target) == None
       case Some(p) =>
         && Stored(d, p.original) && Holds(d, p.rollback, p.copy)
         && (!noisy ==> WellBound(e) && At(d, e.target) == Some(p.original.ino))
  }

  lemma EntryReadyGrew(noisy: bool, I: set<Name>, a: Disk, b: Disk, e: Entry, c: Candidate)
    requires Grew(noisy, I, a, b) && EntryReady(noisy, a, e, c) && e.displaced in I && e.failed in I
    ensures EntryReady(noisy, b, e, c)
  {
    assert At(a, e.temporary) == At(b, e.temporary) && At(a, e.displaced) == At(b, e.displaced)
        && At(a, e.failed) == At(b, e.failed);
    if e.preimage.Some? { assert At(a, e.preimage.value.rollback) == At(b, e.preimage.value.rollback); }
    if !noisy { assert At(a, e.target) == At(b, e.target); }
  }

  ghost predicate EntriesReady(noisy: bool, d: Disk, issued: set<Name>, entries: seq<Entry>, cands: seq<Candidate>) {
    && |entries| <= |cands|
    && (forall k :: 0 <= k < |entries| ==> EntryReady(noisy, d, entries[k], cands[k]))
    && (forall k :: 0 <= k < |entries| ==> entries[k].displaced in issued && entries[k].failed in issued)
    && (forall i, j :: 0 <= i < j < |entries| ==> SameRolesDiffer(entries[i], entries[j]))
  }

  lemma EntriesReadyGrew(noisy: bool, I: set<Name>, J: set<Name>, a: Disk, b: Disk, entries: seq<Entry>,
                         cands: seq<Candidate>)
    requires Grew(noisy, I, a, b) && EntriesReady(noisy, a, I, entries, cands) && I <= J
    ensures EntriesReady(noisy, b, J, entries, cands)
  {
    forall k | 0 <= k < |entries| ensures EntryReady(noisy, b, entries[k], cands[k]) {
      EntryReadyGrew(noisy, I, a, b, entries[k], cands[k]);
    }
  }

  /** Entries that are ready make a well-formed record over untouched targets. */
  lemma ReadyIsStaged(noisy: bool, d: Disk, issued: set<Name>, entries: seq<Entry>, cands: seq<Candidate>)
    requires EntriesReady(noisy, d, issued, entries, cands)
    ensures WellFormed(entries) && Staged(noisy, d, entries)
    ensures !noisy ==> forall k :: 0 <= k < |entries| ==> Safe(d, entries[k]) && Restored(d, entries[k])
  {
    forall k | 0 <= k < |entries|
      ensures WellFormedEntry(entries[k]) && StagedEntry(noisy, d, entries[k])
      ensures !noisy ==> Safe(d, entries[k]) && Restored(d, entries[k])
    {
      assert EntryReady(noisy, d, entries[k], cands[k]);
    }
    forall i, j | 0 <= i < j < |entries| ensures NamesOf(entries[i]) !! NamesOf(entries[j]) {
      assert EntryReady(noisy, d, entries[i], cands[i]) && EntryReady(noisy, d, entries[j], cands[j]);
      ShapedApart(entries[i], entries[j]);
    }
  }

  /** The candidate's inode is newer than the original's, the copy's newer than both. */
  lemma InodesApart(a: Disk, b: Disk, d: Disk, e: Entry)
    requires Bound(a) && Bound(b) && e.preimage.Some?
    requires At(a, e.target) == Some(e.preimage.value.original.ino)
    requires forall i :: i in a.files ==> i in b.files
    requires At(b, e.temporary) == Some(e.candidate.ino) && e.candidate.ino !in a.files
    requires e.preimage.value.copy.ino !in b.files
    requires ContentOf(e.preimage.value.original.file) == ContentOf(e.preimage.value.copy.file)
    ensures WellBound(e)
  {
  }

  /** Bind one entry. `a` is the disk before any staging, `b` the one after the temporaries. */
  method BuildEntry(dir: Directory, c: Candidate, temp: Name, status: Option<Binding>, roll: Option<Name>,
                    ghost a: Disk, ghost b: Disk)
    returns (r: Outcome, e: Entry)
    requires dir.Valid() && dir.disk.journal == None && Direct(c.target)
    requires AliasShape(temp, c.target, ".tmp") && Private(temp) && temp in b.names
    requires Holding(dir.disk, temp, Content(c.data, CANDIDATE_MODE), a) && At(b, temp) == At(dir.disk, temp)
    requires CopyReady(dir.noisy, dir.disk, c.target, status, roll, b)
    requires Bound(a) && Bound(b) && (forall i :: i in a.files ==> i in b.files)
    requires !dir.noisy ==> At(a, c.target) == At(dir.disk, c.target)
    modifies dir`disk, dir`recent, dir`seen, dir`next, dir`log, dir`ops, dir`issued, dir`created, dir`lost
    ensures dir.Valid() && dir.next >= old(dir.next) && dir.Trail(old(dir.recent), old(dir.disk))
    ensures Later(old(dir.log), dir.log)
    ensures r == Done || r == Raised || r == Died
    ensures dir.issued >= old(dir.issued) && dir.created >= old(dir.created)
    ensures Grew(dir.noisy, old(dir.issued), old(dir.disk), dir.disk)
    ensures r.Done? ==>
      && EntryReady(dir.noisy, dir.disk, e, c) && e.temporary == temp
      && dir.issued == old(dir.issued) + {e.displaced, e.failed}
      && e.displaced !in old(dir.issued) && e.failed !in old(dir.issued)
      && e.displaced in dir.issued && e.failed in dir.issued
      && (e.preimage.Some? <==> roll.Some?) && (roll.Some? ==> e.preimage.value.rollback == roll.value)
    ensures !dir.noisy && r.Raised? ==>
      dir.Faulted(old(dir.log)) || |c.data| > MAX_ARTIFACT_BYTES
  {
    hide Grew;
    hide Good;
    hide WellFormed;
    hide dir.Valid;
    ghost var d0, I0 := dir.disk, dir.issued;
    var blank := Binding(0, File([], 0, 0));
    e := Entry(c.target, temp, "", "", blank, None);
    var displaced, failed;
    r, displaced := Reserve(dir, c.target, ".displaced");
    if !r.Done? { return; }
    ghost var d1, I1 := dir.disk, dir.issued;
    r, failed := Reserve(dir, c.target, ".failed");
    GrewTrans(dir.noisy, I0, I1, d0, d1, dir.disk);
    if !r.Done? { return; }
    ghost var d2 := dir.disk;
    assert At(d1, displaced) == At(d2, displaced);
    var candidate, preimage;
    r, candidate, preimage := BindAll(dir, c.target, temp, status, roll);
    FrameGrew(dir.noisy, I0, d0, d2, dir.disk);
    if !r.Done? {
      if !dir.noisy {
        assert At(d0, temp) == At(d2, temp);
        assert d2.files[d2.names[temp]] == d0.files[d0.names[temp]];
        if status.Some? { CopyStays(dir.noisy, I0, d0, d2, c.target, status, roll, b); }
      }
      return;
    }
    assert At(d2, displaced) == At(dir.disk, displaced) && At(d2, failed) == At(dir.disk, failed);
    e := Entry(c.target, temp, displaced, failed, candidate, preimage);
    assert Shaped(e);
    ShapedIsWellFormed(e);
    BindingsReady(dir.noisy, I0, a, b, d0, d2, dir.disk, c, status, roll, e);
  }

  lemma FrameGrew(noisy: bool, I: set<Name>, a: Disk, b: Disk, c: Disk)
    requires Grew(noisy, I, a, b) && Frame(noisy, {}, b, c)
    ensures Grew(noisy, I, a, c)
  {
    OthersGrew(noisy, I, b, c);
    GrewTrans(noisy, I, I, a, b, c);
  }

  lemma CopyStays(noisy: bool, I: set<Name>, a: Disk, b: Disk, target: Name, status: Option<Binding>,
                  roll: Option<Name>, before: Disk)
    requires Grew(noisy, I, a, b) && CopyReady(noisy, a, target, status, roll, before) && !Private(target)
    ensures CopyReady(noisy, b, target, status, roll, before)
  {
    if status.Some? { HoldingGrew(noisy, I, a, b, roll.value, ContentOf(status.value.file), before); }
    if !noisy { assert At(a, target) == At(b, target); }
  }

  /** The three bindings of an entry, and the check that nothing changed since the copy was made. */
  method BindAll(dir: Directory, target: Name, temp: Name, status: Option<Binding>, roll: Option<Name>)
    returns (r: Outcome, candidate: Binding, preimage: Option<Preimage>)
    requires dir.Valid() && Private(temp) && (status.Some? <==> roll.Some?) && (roll.Some? ==> Private(roll.value))
    modifies dir`disk, dir`recent, dir`seen, dir`next, dir`log
    ensures dir.Valid() && dir.next >= old(dir.next) && dir.Trail(old(dir.recent), old(dir.disk))
    ensures Later(old(dir.log), dir.log)
    ensures dir.Others(old(dir.disk), dir.disk)
    ensures r == Done || r == Raised
    ensures r.Done? ==> Holds(dir.disk, temp, candidate)
    ensures r.Done? ==> (preimage.Some? <==> roll.Some?)
    ensures r.Done? && roll.Some? ==>
      var p := preimage.value;
      && p.rollback == roll.value && Holds(dir.disk, p.rollback, p.copy)
      && Stored(dir.disk, p.original) && (!dir.noisy ==> At(dir.disk, target) == Some(p.original.ino))
      && SameIdentity(p.original, status.value) && p.original.file.data == p.copy.file.data
    ensures !dir.noisy && r.Raised? ==>
      || dir.Faulted(old(dir.log)) || temp !in dir.disk.names || Directory.Oversized(dir.disk, temp)
      || (status.Some? && !(Holds(dir.disk, target, status.value) && roll.value in dir.disk.names
            && dir.disk.names[roll.value] in dir.disk.files
            && dir.disk.files[dir.disk.names[roll.value]].data == status.value.file.data))
  {
    ghost var d0 := dir.disk;
    candidate, preimage := Binding(0, File([], 0, 0)), None;
    var original := candidate;
    if roll.Some? {
      r, original := dir.Bind(target);
      if !r.Done? { r := Raised; return; }
    }
    ghost var d1 := dir.disk;
    r, candidate := dir.Bind(temp);
    FrameTrans(dir.noisy, {}, d0, d1, dir.disk);
    if !r.Done? { r := Raised; return; }
    if roll.None? { return; }
    ghost var d2 := dir.disk;
    var copy;
    r, copy := dir.Bind(roll.value);
    FrameTrans(dir.noisy, {}, d0, d2, dir.disk);
    assert At(d2, temp) == At(dir.disk, temp);
    if !r.Done? || !SameIdentity(original, status.value) || original.file.data != copy.file.data {
      r := Raised;
      return;
    }
    preimage := Some(Preimage(original, roll.value, copy));
  }

  lemma BindingsReady(noisy: bool, I: set<Name>, a: Disk, b: Disk, d0: Disk, d2: Disk, d: Disk, c: Candidate,
                      status: Option<Binding>, roll: Option<Name>, e: Entry)
    requires Grew(noisy, I, d0, d) && Direct(c.target)
    requires e.target == c.target && Shaped(e) && WellFormedEntry(e)
    requires Bound(a) && Bound(b) && (forall i :: i in a.files ==> i in b.files)
    requires Holding(d0, e.temporary, Content(c.data, CANDIDATE_MODE), a)
    requires e.temporary in b.names && At(b, e.temporary) == At(d0, e.temporary)
    requires !noisy ==> At(a, c.target) == At(d0, c.target)
    requires CopyReady(noisy, d0, c.target, status, roll, b)
    requires Holds(d, e.temporary, e.candidate) && At(d, e.displaced) == None && At(d, e.failed) == None
    requires e.preimage.Some? <==> roll.Some?
    requires e.preimage.Some? ==>
      var p := e.preimage.value;
      && p.rollback == roll.value && Holds(d, p.rollback, p.copy)
      && Stored(d, p.original) && (!noisy ==> At(d, c.target) == Some(p.original.ino))
      && SameIdentity(p.original, status.value) && p.original.file.data == p.copy.file.data
    ensures EntryReady(noisy, d, e, c)
  {
    assert At(d0, e.temporary) == At(d, e.temporary);
    CopyStays(noisy, I, d0, d, c.target, status, roll, b);
    if !noisy {
      assert At(d0, c.target) == At(d, c.target);
      if e.preimage.Some? { InodesApart(a, b, d, e); }
    }
  }

  lemma AppendEntry(noisy: bool, d: Disk, I: set<Name>, J: set<Name>, entries: seq<Entry>, cands: seq<Candidate>,
                    e: Entry)
    requires |entries| < |cands| && EntriesReady(noisy, d, I, entries, cands) && I <= J
    requires EntryReady(noisy, d, e, cands[|entries|])
    requires e.displaced !in I && e.failed !in I && e.displaced in J && e.failed in J
    requires forall j :: 0 <= j < |entries| ==> entries[j].target != e.target && entries[j].temporary != e.temporary
    requires forall j :: 0 <= j < |entries| && entries[j].preimage.Some? && e.preimage.Some? ==>
      entries[j].preimage.value.rollback != e.preimage.value.rollback
    ensures EntriesReady(noisy, d, J, entries + [e], cands)
  {
    forall k | 0 <= k < |entries| + 1 ensures EntryReady(noisy, d, (entries + [e])[k], cands[k]) {
      if k < |entries| { assert EntryReady(noisy, d, entries[k], cands[k]); }
    }
    forall i, j | 0 <= i < j < |entries| + 1 ensures SameRolesDiffer((entries + [e])[i], (entries + [e])[j]) {
      if j < |entries| { assert SameRolesDiffer(entries[i], entries[j]); }
    }
  }

  ghost predicate EntriesUse(entries: seq<Entry>, temps: seq<Name>, rolls: seq<Option<Name>>) {
    && |entries| <= |temps| && |entries| <= |rolls|
    && forall k :: 0 <= k < |entries| ==>
         && entries[k].temporary == temps[k]
         && (entries[k].preimage.Some? <==> rolls[k].Some?)
         && (rolls[k].Some? ==> entries[k].preimage.value.rollback == rolls[k].value)
  }

  function Reserved(entries: seq<Entry>): set<Name> {
    (set e | e in entries :: e.displaced) + (set e | e in entries :: e.failed)
  }

  lemma ReservedMore(entries: seq<Entry>, e: Entry)
    ensures Reserved(entries + [e]) == Reserved(entries) + {e.displaced, e.failed}
  {
    var all := entries + [e];
    assert forall x :: x in all <==> x in entries || x == e;
  }

  method BuildEntries(dir: Directory, cands: seq<Candidate>, temps: seq<Name>, statuses: seq<Option<Binding>>,
                      rolls: seq<Option<Name>>, ghost a: Disk, ghost b: Disk)
    returns (r: Outcome, entries: seq<Entry>)
    requires dir.Valid() && dir.disk.journal == None
    requires forall i, j :: 0 <= i < j < |cands| ==> cands[i].target != cands[j].target
    requires |temps| == |rolls| == |cands|
    requires TemporariesReady(b, cands, temps, a) && TemporariesReady(dir.disk, cands, temps, a)
    requires CopiesReady(dir.noisy, dir.disk, cands, statuses, rolls, b)
    requires forall k :: 0 <= k < |temps| ==> At(b, temps[k]) == At(dir.disk, temps[k])
    requires Bound(a) && Bound(b) && (forall i :: i in a.files ==> i in b.files)
    requires !dir.noisy ==> SamePublic(a, dir.disk)
    modifies dir`disk, dir`recent, dir`seen, dir`next, dir`log, dir`ops, dir`issued, dir`created, dir`lost
    ensures dir.Valid() && dir.next >= old(dir.next) && dir.Trail(old(dir.recent), old(dir.disk))
    ensures Later(old(dir.log), dir.log)
    ensures r == Done || r == Raised || r == Died
    ensures dir.issued >= old(dir.issued) && dir.created >= old(dir.created)
    ensures Grew(dir.noisy, old(dir.issued), old(dir.disk), dir.disk)
    ensures r.Done? ==>
      && |entries| == |cands| && dir.issued <= old(dir.issued) + Reserved(entries)
      && EntriesReady(dir.noisy, dir.disk, dir.issued, entries, cands) && EntriesUse(entries, temps, rolls)
    ensures !dir.noisy && r.Raised? ==>
      dir.Faulted(old(dir.log)) || exists k :: 0 <= k < |cands| && |cands[k].data| > MAX_ARTIFACT_BYTES
  {
    hide CopyReady;
    hide Holding;
    hide Reserved;
    hide EntryReady;
    hide EntriesReady;
    hide EntriesUse;
    hide Grew;
    hide Good;
    hide WellFormed;
    hide dir.Valid;
    ghost var d0, issued0 := dir.disk, dir.issued;
    entries, r := [], Done;
    NothingBuilt(dir.noisy, d0, issued0, cands, temps, rolls);
    while |entries| < |cands|
      invariant dir.Valid() && dir.next >= old(dir.next) && dir.Trail(old(dir.recent), d0)
      invariant Later(old(dir.log), dir.log)
      invariant dir.issued >= issued0 && dir.created >= old(dir.created) && r.Done? && |entries| <= |cands|
      invariant dir.disk.journal == None && dir.disk.ledger == d0.ledger
      invariant Grew(dir.noisy, issued0, d0, dir.disk) && dir.issued <= issued0 + Reserved(entries)
      invariant EntriesReady(dir.noisy, dir.disk, dir.issued, entries, cands) && EntriesUse(entries, temps, rolls)
      decreases |cands| - |entries|
    {
      var k := |entries|;
      ghost var d, issued := dir.disk, dir.issued;
      StillReady(dir.noisy, issued0, a, b, d0, d, cands, temps, statuses, rolls, k);
      var e;
      r, e := BuildEntry(dir, cands[k], temps[k], statuses[k], rolls[k], a, b);
      GrewTrans(dir.noisy, issued0, issued, d0, d, dir.disk);
      if !r.Done? { return; }
      NextEntry(dir.noisy, d, dir.disk, issued, dir.issued, entries, cands, temps, rolls, e);
      entries := entries + [e];
    }
  }

  lemma NothingBuilt(noisy: bool, d: Disk, I: set<Name>, cands: seq<Candidate>, temps: seq<Name>,
                     rolls: seq<Option<Name>>)
    ensures Grew(noisy, I, d, d) && EntriesReady(noisy, d, I, [], cands) && EntriesUse([], temps, rolls)
  {
  }

  lemma NextEntry(noisy: bool, d: Disk, f: Disk, I: set<Name>, J: set<Name>, entries: seq<Entry>, cands: seq<Candidate>,
                  temps: seq<Name>, rolls: seq<Option<Name>>, e: Entry)
    requires Grew(noisy, I, d, f) && EntriesReady(noisy, d, I, entries, cands) && EntriesUse(entries, temps, rolls)
    requires |entries| < |cands| == |temps| == |rolls| && Distinct(temps) && I <= J
    requires forall i, j :: 0 <= i < j < |cands| ==> cands[i].target != cands[j].target
    requires forall i, j :: 0 <= i < j < |rolls| && rolls[i].Some? && rolls[j].Some? ==> rolls[i] != rolls[j]
    requires EntryReady(noisy, f, e, cands[|entries|]) && e.temporary == temps[|entries|]
    requires e.displaced !in I && e.failed !in I && e.displaced in J && e.failed in J
    requires (e.preimage.Some? <==> rolls[|entries|].Some?)
      && (e.preimage.Some? ==> e.preimage.value.rollback == rolls[|entries|].value)
    ensures EntriesReady(noisy, f, J, entries + [e], cands) && EntriesUse(entries + [e], temps, rolls)
    ensures Reserved(entries + [e]) == Reserved(entries) + {e.displaced, e.failed}
  {
    hide EntryReady;
    hide EntriesReady;
    hide Grew;
    EntriesReadyGrew(noisy, I, I, d, f, entries, cands);
    RolesSoFar(noisy, f, I, entries, cands, temps, rolls, e);
    AppendEntry(noisy, f, I, J, entries, cands, e);
    ReservedMore(entries, e);
  }

  lemma RolesSoFar(noisy: bool, d: Disk, I: set<Name>, entries: seq<Entry>, cands: seq<Candidate>, temps: seq<Name>,
                   rolls: seq<Option<Name>>, e: Entry)
    requires EntriesReady(noisy, d, I, entries, cands) && EntriesUse(entries, temps, rolls) && |entries| < |cands|
    requires |temps| == |rolls| == |cands| && Distinct(temps)
    requires forall i, j :: 0 <= i < j < |cands| ==> cands[i].target != cands[j].target
    requires forall i, j :: 0 <= i < j < |rolls| && rolls[i].Some? && rolls[j].Some? ==> rolls[i] != rolls[j]
    requires EntryReady(noisy, d, e, cands[|entries|]) && e.temporary == temps[|entries|]
    requires (e.preimage.Some? <==> rolls[|entries|].Some?)
      && (e.preimage.Some? ==> e.preimage.value.rollback == rolls[|entries|].value)
    ensures forall j :: 0 <= j < |entries| ==> entries[j].target != e.target && entries[j].temporary != e.temporary
    ensures forall j :: 0 <= j < |entries| && entries[j].preimage.Some? && e.preimage.Some? ==>
      entries[j].preimage.value.rollback != e.preimage.value.rollback
  {
    forall j | 0 <= j < |entries| ensures entries[j].target != e.target {
      assert EntryReady(noisy, d, entries[j], cands[j]);
    }
  }

  lemma StillReady(noisy: bool, I: set<Name>, a: Disk, b: Disk, d0: Disk, d: Disk, cands: seq<Candidate>,
                   temps: seq<Name>, statuses: seq<Option<Binding>>, rolls: seq<Option<Name>>, k: nat)
    requires Grew(noisy, I, d0, d) && k < |cands| == |temps| == |rolls|
    requires TemporariesReady(b, cands, temps, a) && TemporariesReady(d0, cands, temps, a)
    requires CopiesReady(noisy, d0, cands, statuses, rolls, b)
    requires At(b, temps[k]) == At(d0, temps[k])
    requires !noisy ==> SamePublic(a, d0)
    ensures Holding(d, temps[k], Content(cands[k].data, CANDIDATE_MODE), a) && At(b, temps[k]) == At(d, temps[k])
    ensures CopyReady(noisy, d, cands[k].target, statuses[k], rolls[k], b)
    ensures !noisy ==> At(a, cands[k].target) == At(d, cands[k].target)
  {
    HoldingGrew(noisy, I, d0, d, temps[k], Content(cands[k].data, CANDIDATE_MODE), a);
    assert At(d0, temps[k]) == At(d, temps[k]);
    CopyStays(noisy, I, d0, d, cands[k].target, statuses[k], rolls[k], b);
    if !noisy { assert At(d0, cands[k].target) == At(d, cands[k].target); }
  }

  /** Why a calm staging can stop: a target that is not a direct artifact, or contents over the limit. */
  ghost predicate Refused(d: Disk, cands: seq<Candidate>) {
    exists k :: 0 <= k < |cands| &&
      (!Direct(cands[k].target) || |cands[k].data| > MAX_ARTIFACT_BYTES || Directory.Oversized(d, cands[k].target))
  }

  /** All of staging. Whatever happens, `temps` and `rolls` name everything there is to clean up. */
  method Stage(dir: Directory, cands: seq<Candidate>)
    returns (r: Outcome, temps: seq<Name>, rolls: seq<Option<Name>>, entries: seq<Entry>)
    requires dir.Valid() && dir.disk.journal == None
    requires forall i, j :: 0 <= i < j < |cands| ==> cands[i].target != cands[j].target
    modifies dir`disk, dir`recent, dir`seen, dir`next, dir`log, dir`ops, dir`issued, dir`created, dir`lost
    ensures dir.Valid() && dir.next >= old(dir.next) && dir.Trail(old(dir.recent), old(dir.disk))
    ensures Later(old(dir.log), dir.log)
    ensures r == Done || r == Raised || r == Died
    ensures dir.issued >= old(dir.issued) && dir.created >= old(dir.created)
    ensures Grew(dir.noisy, old(dir.issued), old(dir.disk), dir.disk)
    ensures Owned(dir.disk, dir.issued, dir.created, temps)
    ensures Owned(dir.disk, dir.issued, dir.created, Given(rolls))
    ensures r.Done? ==>
      && |temps| == |rolls| == |entries| == |cands|
      && dir.issued <= old(dir.issued) + Members(temps) + Members(Given(rolls)) + Reserved(entries)
      && EntriesReady(dir.noisy, dir.disk, dir.issued, entries, cands) && EntriesUse(entries, temps, rolls)
    ensures !dir.noisy && r.Raised? ==>
      dir.Faulted(old(dir.log)) || Refused(old(dir.disk), cands)
  {
    hide Good;
    hide WellFormed;
    hide Grew;
    hide Owned;
    hide TemporariesReady;
    hide CopiesReady;
    hide EntriesReady;
    hide EntriesUse;
    hide Reserved;
    hide Refused;
    ghost var a, Ia := dir.disk, dir.issued;
    entries := [];
    var statuses;
    ghost var b;
    r, temps, statuses, rolls, b := StageFiles(dir, cands);
    if !r.Done? { return; }
    ghost var d, Id, Cd := dir.disk, dir.issued, dir.created;
    r, entries := BuildEntries(dir, cands, temps, statuses, rolls, a, b);
    GrewTrans(dir.noisy, Ia, Id, a, d, dir.disk);
    OwnedGrew(dir.noisy, d, Id, Cd, dir.disk, dir.issued, dir.created, temps);
    OwnedGrew(dir.noisy, d, Id, Cd, dir.disk, dir.issued, dir.created, Given(rolls));
    if !dir.noisy && r.Raised? && !dir.Faulted(old(dir.log)) { TooBig(a, cands); }
  }

  lemma TooBig(d: Disk, cands: seq<Candidate>)
    requires exists k :: 0 <= k < |cands| && |cands[k].data| > MAX_ARTIFACT_BYTES
    ensures Refused(d, cands)
  {
  }

  /** The temporaries, then the copies; b is the disk in between. */
  method StageFiles(dir: Directory, cands: seq<Candidate>)
    returns (r: Outcome, temps: seq<Name>, statuses: seq<Option<Binding>>, rolls: seq<Option<Name>>, ghost b: Disk)
    requires dir.Valid() && dir.disk.journal == None
    modifies dir`disk, dir`recent, dir`seen, dir`next, dir`log, dir`ops, dir`issued, dir`created
    ensures dir.Valid() && dir.next >= old(dir.next) && dir.Trail(old(dir.recent), old(dir.disk))
    ensures Later(old(dir.log), dir.log)
    ensures r == Done || r == Raised || r == Died
    ensures dir.issued >= old(dir.issued) && dir.created >= old(dir.created)
    ensures dir.issued <= old(dir.issued) + Members(temps) + Members(Given(rolls))
    ensures Grew(dir.noisy, old(dir.issued), old(dir.disk), dir.disk)
    ensures dir.disk.journal == None && dir.disk.ledger == old(dir.disk).ledger
    ensures Owned(dir.disk, dir.issued, dir.created, temps) && Owned(dir.disk, dir.issued, dir.created, Given(rolls))
    ensures r.Done? ==>
      && |temps| == |rolls| == |cands| && Bound(old(dir.disk)) && Bound(b)
      && TemporariesReady(b, cands, temps, old(dir.disk)) && TemporariesReady(dir.disk, cands, temps, old(dir.disk))
      && CopiesReady(dir.noisy, dir.disk, cands, statuses, rolls, b)
      && (forall k :: 0 <= k < |temps| ==> At(b, temps[k]) == At(dir.disk, temps[k]))
      && (forall i :: i in old(dir.disk).files ==> i in b.files)
      && (!dir.noisy ==> SamePublic(old(dir.disk), dir.disk))
    ensures !dir.noisy && r.Raised? ==>
      dir.Faulted(old(dir.log)) || Refused(old(dir.disk), cands)
  {
    hide Good;
    hide WellFormed;
    hide dir.Valid;
    hide CopiesReady;
    hide Holding;
    dir.Now();
    ghost var a, Ia := dir.disk, dir.issued;
    statuses, rolls := [], [];
    r, temps := StageTemporaries(dir, cands);
    b := dir.disk;
    if !r.Done? { return; }
    dir.Now();
    ghost var Ib, Cb, recent := dir.issued, dir.created, dir.recent;
    assert b.ledger == a.ledger && b.journal == None;
    ReadyArePublic(b, cands, temps, a);
    r, statuses, rolls := StageCopies(dir, cands);
    GrewTrans(dir.noisy, Ia, Ib, a, b, dir.disk);
    OwnedGrew(dir.noisy, b, Ib, Cb, dir.disk, dir.issued, dir.created, temps);
    TemporariesGrew(dir.noisy, Ib, b, dir.disk, cands, temps, a);
    if !dir.noisy && r.Raised? && !dir.Faulted(old(dir.log)) {
      var k :| 0 <= k < |cands| && Directory.Oversized(b, cands[k].target);
      StillOversized(a, b, Ia, cands[k].target);
    }
    TempsStay(dir.noisy, Ib, b, dir.disk, temps);
    TrailOn(dir, old(dir.recent), recent, a, b);
  }

  lemma TrailOn(dir: Directory, before: seq<Disk>, middle: seq<Disk>, a: Disk, b: Disk)
    requires dir.Trail(middle, b) && b.ledger == a.ledger && (b.journal == a.journal || b.journal == None)
    requires forall s :: s in middle ==>
      s in before || (s.ledger == a.ledger && (s.journal == a.journal || s.journal == None))
    ensures dir.Trail(before, a)
  {
  }

  lemma ReadyArePublic(d: Disk, cands: seq<Candidate>, temps: seq<Name>, before: Disk)
    requires TemporariesReady(d, cands, temps, before) && |temps| == |cands|
    ensures forall k :: 0 <= k < |cands| ==> !Private(cands[k].target)
  {
  }

  lemma TempsStay(noisy: bool, I: set<Name>, a: Disk, b: Disk, temps: seq<Name>)
    requires Grew(noisy, I, a, b) && forall k :: 0 <= k < |temps| ==> Private(temps[k]) && temps[k] in I
    ensures forall k :: 0 <= k < |temps| ==> At(a, temps[k]) == At(b, temps[k])
  {
  }
}
