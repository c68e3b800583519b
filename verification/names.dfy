/** File names: how aliases are shaped and which names a recovery record may use. */
module Names {
  import opened Disks

  predicate StartsWith(s: string, p: string) {
    |p| <= |s| && s[..|p|] == p
  }

  predicate EndsWith(s: string, p: string) {
    |p| <= |s| && s[|s| - |p|..] == p
  }

  /** A single path component without separators of either kind. */
  predicate Plain(s: string) {
    '/' !in s && '\\' !in s
  }

  /** What mkstemp makes of prefix "." + target + "." and a suffix. */
  ghost predicate AliasShape(n: Name, target: Name, suffix: string) {
    exists m: string :: Plain(m) && n == "." + target + "." + m + suffix
  }

  /** The reader's test of one alias against its target and the suffix of its role. */
  predicate ReadableAlias(n: Name, target: Name, suffix: string) {
    StartsWith(n, "." + target + ".") && EndsWith(n, suffix) && Plain(n)
  }

  predicate ReadableTarget(t: Name) {
    t != "" && !StartsWith(t, ".") && Plain(t)
  }

  /** The reader takes no negative number: everything bound is dated after the epoch. */
  predicate Dated(e: Entry) {
    && e.candidate.file.mtime >= 0
    && (e.preimage.Some? ==> e.preimage.value.original.file.mtime >= 0 && e.preimage.value.copy.file.mtime >= 0)
  }

  predicate ReadableEntry(e: Entry) {
    && ReadableTarget(e.target) && Dated(e)
    && ReadableAlias(e.temporary, e.target, ".tmp")
    && ReadableAlias(e.displaced, e.target, ".displaced")
    && ReadableAlias(e.failed, e.target, ".failed")
    && match e.preimage
       case None => true
       case Some(p) => ReadableAlias(p.rollback, e.target, ".rollback")
  }

  const MAX_ENTRIES := 64

  /** The records a restart accepts. */
  predicate Readable(r: Record) {
    && 1 <= |r.entries| <= MAX_ENTRIES
    && TargetsDiffer(r.entries)
    && forall i :: 0 <= i < |r.entries| ==> ReadableEntry(r.entries[i])
  }

  /** The roles' suffixes tell the roles apart. */
  lemma SuffixesApart(n: string)
    ensures !(EndsWith(n, ".tmp") && (EndsWith(n, ".rollback") || EndsWith(n, ".displaced") || EndsWith(n, ".failed")))
    ensures !(EndsWith(n, ".rollback") && (EndsWith(n, ".displaced") || EndsWith(n, ".failed")))
    ensures !(EndsWith(n, ".displaced") && EndsWith(n, ".failed"))
  {
    if EndsWith(n, ".tmp") { assert n[|n| - 4..][3] == 'p'; assert n[|n| - 1] == 'p'; }
    if EndsWith(n, ".rollback") { assert n[|n| - 9..][8] == 'k'; assert n[|n| - 1] == 'k'; }
    if EndsWith(n, ".displaced") {
      assert n[|n| - 10..][9] == 'd' && n[|n| - 10..][7] == 'c';
      assert n[|n| - 1] == 'd' && n[|n| - 3] == 'c';
    }
    if EndsWith(n, ".failed") {
      assert n[|n| - 7..][6] == 'd' && n[|n| - 7..][4] == 'l';
      assert n[|n| - 1] == 'd' && n[|n| - 3] == 'l';
    }
  }

  lemma AliasIsPrivate(n: Name, target: Name, suffix: string)
    requires AliasShape(n, target, suffix)
    ensures Private(n)
  {
    var m: string :| Plain(m) && n == "." + target + "." + m + suffix;
    assert n[0] == '.';
  }

  lemma ShapeIsReadable(n: Name, target: Name, suffix: string)
    requires AliasShape(n, target, suffix) && Plain(suffix)
    ensures StartsWith(n, "." + target + ".") && EndsWith(n, suffix)
    ensures Plain(n) <==> Plain(target)
  {
    var m :| Plain(m) && n == "." + target + "." + m + suffix;
    assert n[..|"." + target + "."|] == "." + target + ".";
    assert n[|n| - |suffix|..] == suffix;
    assert forall c :: c in n <==> c in "." || c in target || c in "." || c in m || c in suffix;
  }

  lemma {:induction false} LengthBound(used: set<Name>) returns (bound: nat)
    ensures forall n :: n in used ==> |n| <= bound
  {
    if used == {} {
      bound := 0;
    } else {
      var x :| x in used;
      var rest := LengthBound(used - {x});
      bound := if rest < |x| then |x| else rest;
      assert forall n :: n in used ==> n == x || n in used - {x};
    }
  }

  /** mkstemp can always find an unused name. */
  lemma FreshNameExists(target: Name, suffix: string, used: set<Name>)
    ensures exists n: Name :: AliasShape(n, target, suffix) && n !in used
  {
    var bound := LengthBound(used);
    var m: string := seq(bound + 1, i => 'x');
    var n := "." + target + "." + m + suffix;
    assert Plain(m) && n == "." + target + "." + m + suffix;
    assert |n| > bound;
  }
}
