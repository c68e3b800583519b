/** What an atomic unit is about: its tags and file references as one set, and the text its fingerprint is
    made of. `lower` stands for the lower-casing of one string. */
module Domains {
  type Lower = string -> string

  // ---- Sets ----

  function Tag(t: string): string { "tag:" + t }

  function Ref(f: string): string { "ref:" + f }

  function Tags(tags: seq<string>, lower: Lower): set<string> {
    set t | t in tags :: lower(t)
  }

  function Elements(items: seq<string>): set<string> {
    set x | x in items
  }

  function DomainSet(tags: seq<string>, refs: seq<string>, lower: Lower): set<string> {
    (set t | t in tags :: Tag(lower(t))) + (set f | f in refs :: Ref(f))
  }

  method BuildDomainSet(tags: seq<string>, refs: seq<string>, lower: Lower) returns (items: set<string>)
    ensures items == DomainSet(tags, refs, lower)
  {
    items := {};
    var i := 0;
    while i < |tags|
      invariant 0 <= i <= |tags| && items == DomainSet(tags[..i], [], lower)
    {
      items := items + {Tag(lower(tags[i]))};
      assert tags[..i + 1] == tags[..i] + [tags[i]];
      i := i + 1;
    }
    assert tags[..i] == tags;
    var j := 0;
    while j < |refs|
      invariant 0 <= j <= |refs| && items == DomainSet(tags, refs[..j], lower)
    {
      items := items + {Ref(refs[j])};
      assert refs[..j + 1] == refs[..j] + [refs[j]];
      j := j + 1;
    }
    assert refs[..j] == refs;
  }

  /** The prefixes keep tags and references apart and can be taken off again. */
  lemma PrefixesApart(a: string, b: string)
    ensures Tag(a) != Ref(b)
    ensures Tag(a) == Tag(b) ==> a == b
    ensures Ref(a) == Ref(b) ==> a == b
  {
    assert Tag(a)[0] == 't' && Ref(b)[0] == 'r';
    assert Tag(a)[4..] == a && Tag(b)[4..] == b && Ref(a)[4..] == a && Ref(b)[4..] == b;
  }

  lemma Members(tags: seq<string>, refs: seq<string>, lower: Lower)
    ensures forall x :: Tag(x) in DomainSet(tags, refs, lower) <==> x in Tags(tags, lower)
    ensures forall x :: Ref(x) in DomainSet(tags, refs, lower) <==> x in refs
  {
    forall x ensures Tag(x) in DomainSet(tags, refs, lower) <==> x in Tags(tags, lower) {
      if Tag(x) in DomainSet(tags, refs, lower) {
        forall f ensures Tag(x) != Ref(f) { PrefixesApart(x, f); }
        var t :| t in tags && Tag(x) == Tag(lower(t));
        PrefixesApart(x, lower(t));
      }
    }
    forall x ensures Ref(x) in DomainSet(tags, refs, lower) <==> x in refs {
      if Ref(x) in DomainSet(tags, refs, lower) {
        forall t ensures Ref(x) != Tag(t) { PrefixesApart(t, x); }
        var f :| f in refs && Ref(x) == Ref(f);
        PrefixesApart(x, f);
      }
    }
  }

  /** A domain set is its tags and its references, no more and no less. */
  lemma SameDomainIff(tags: seq<string>, refs: seq<string>, tags2: seq<string>, refs2: seq<string>, lower: Lower)
    ensures DomainSet(tags, refs, lower) == DomainSet(tags2, refs2, lower) <==>
      Tags(tags, lower) == Tags(tags2, lower) && Elements(refs) == Elements(refs2)
  {
    Members(tags, refs, lower);
    Members(tags2, refs2, lower);
    if DomainSet(tags, refs, lower) == DomainSet(tags2, refs2, lower) {
      forall x ensures x in Tags(tags, lower) <==> x in Tags(tags2, lower) {
        assert Tag(x) in DomainSet(tags, refs, lower) <==> Tag(x) in DomainSet(tags2, refs2, lower);
      }
      forall x ensures x in refs <==> x in refs2 {
        assert Ref(x) in DomainSet(tags, refs, lower) <==> Ref(x) in DomainSet(tags2, refs2, lower);
      }
    }
    if Tags(tags, lower) == Tags(tags2, lower) && Elements(refs) == Elements(refs2) {
      DomainIncluded(tags, refs, tags2, refs2, lower);
      DomainIncluded(tags2, refs2, tags, refs, lower);
    }
  }

  lemma DomainIncluded(tags: seq<string>, refs: seq<string>, tags2: seq<string>, refs2: seq<string>, lower: Lower)
    requires Tags(tags, lower) <= Tags(tags2, lower) && Elements(refs) <= Elements(refs2)
    ensures DomainSet(tags, refs, lower) <= DomainSet(tags2, refs2, lower)
  {
    forall t | t in tags ensures Tag(lower(t)) in DomainSet(tags2, refs2, lower) {
      assert lower(t) in Tags(tags2, lower);
    }
    forall f | f in refs ensures Ref(f) in DomainSet(tags2, refs2, lower) {
      assert f in Elements(refs2);
    }
  }

  // ---- Sorting ----

  /** Strings compare by code points, a prefix before what it starts. */
  predicate Less(a: string, b: string) {
    if b == "" then false
    else if a == "" then true
    else a[0] < b[0] || (a[0] == b[0] && Less(a[1..], b[1..]))
  }

  lemma {:induction false} LessTrans(a: string, b: string, c: string)
    requires Less(a, b) && Less(b, c)
    ensures Less(a, c)
  {
    if a != "" && a[0] == b[0] && b[0] == c[0] { LessTrans(a[1..], b[1..], c[1..]); }
  }

  lemma {:induction false} LessTotal(a: string, b: string)
    ensures Less(a, b) || Less(b, a) || a == b
    ensures !(Less(a, b) && Less(b, a)) && !Less(a, a)
  {
    if a != "" && b != "" {
      LessTotal(a[1..], b[1..]);
      LessTotal(a[1..], a[1..]);
      if a[0] == b[0] && a[1..] == b[1..] { assert a == [a[0]] + a[1..] && b == [b[0]] + b[1..]; }
    } else if a != "" {
      LessTotal(a[1..], a[1..]);
    }
  }

  predicate Ascending(xs: seq<string>) {
    forall i, j :: 0 <= i < j < |xs| ==> Less(xs[i], xs[j])
  }

  function Insert(x: string, xs: seq<string>): seq<string> {
    if xs == [] then [x]
    else if xs[0] == x then xs
    else if Less(x, xs[0]) then [x] + xs
    else [xs[0]] + Insert(x, xs[1..])
  }

  /** sorted(set(xs)). */
  function SortedSet(xs: seq<string>): seq<string> {
    if xs == [] then [] else Insert(xs[0], SortedSet(xs[1..]))
  }

  lemma ElementsOfCons(x: string, xs: seq<string>)
    ensures Elements([x] + xs) == Elements(xs) + {x}
  {
    forall y ensures y in Elements([x] + xs) <==> y in Elements(xs) + {x} {
      assert y in [x] + xs <==> y == x || y in xs;
    }
  }

  lemma AscendingFirst(x: string, xs: seq<string>)
    requires Ascending(xs) && forall y :: y in Elements(xs) ==> Less(x, y)
    ensures Ascending([x] + xs)
  {
    hide Less;
    forall j | 0 <= j < |xs| ensures Less(x, xs[j]) { assert xs[j] in Elements(xs); }
  }

  lemma AscendingRest(xs: seq<string>)
    requires Ascending(xs) && xs != []
    ensures Ascending(xs[1..]) && forall y :: y in Elements(xs[1..]) ==> Less(xs[0], y)
  {
    hide Less;
    forall y | y in xs[1..] ensures Less(xs[0], y) {
      var j :| 0 <= j < |xs| - 1 && xs[1..][j] == y;
      assert xs[j + 1] == y;
    }
  }

  lemma {:induction false} InsertKeeps(x: string, xs: seq<string>)
    requires Ascending(xs)
    ensures Ascending(Insert(x, xs)) && Elements(Insert(x, xs)) == Elements(xs) + {x}
  {
    hide Less;
    hide Ascending;
    hide Elements;
    if xs == [] {
      AscendingOne(x);
    } else {
      AscendingRest(xs);
      assert xs == [xs[0]] + xs[1..];
      ElementsOfCons(xs[0], xs[1..]);
      LessTotal(x, xs[0]);
      if Less(x, xs[0]) {
        forall y | y in Elements(xs) ensures Less(x, y) {
          if y != xs[0] { LessTrans(x, xs[0], y); }
        }
        AscendingFirst(x, xs);
        ElementsOfCons(x, xs);
      } else if xs[0] != x {
        InsertKeeps(x, xs[1..]);
        AscendingFirst(xs[0], Insert(x, xs[1..]));
        ElementsOfCons(xs[0], Insert(x, xs[1..]));
      }
    }
  }

  lemma AscendingOne(x: string)
    ensures Ascending([x]) && Elements([x]) == Elements([]) + {x}
  {
  }

  lemma {:induction false} SortedSetSorts(xs: seq<string>)
    ensures Ascending(SortedSet(xs)) && Elements(SortedSet(xs)) == Elements(xs)
  {
    if xs != [] {
      SortedSetSorts(xs[1..]);
      InsertKeeps(xs[0], SortedSet(xs[1..]));
      assert xs == [xs[0]] + xs[1..];
    }
  }

  /** Only one list is ascending and has given elements. */
  lemma {:induction false} AscendingIsUnique(xs: seq<string>, ys: seq<string>)
    requires Ascending(xs) && Ascending(ys) && Elements(xs) == Elements(ys)
    ensures xs == ys
  {
    assert xs != [] ==> xs[0] in Elements(xs);
    assert ys != [] ==> ys[0] in Elements(ys);
    if xs != [] && ys != [] {
      LessTotal(xs[0], ys[0]);
      assert xs[0] == ys[0];
      forall x ensures x in Elements(xs[1..]) <==> x in Elements(xs) && x != xs[0] { TailElements(xs, x); }
      forall y ensures y in Elements(ys[1..]) <==> y in Elements(ys) && y != ys[0] { TailElements(ys, y); }
      AscendingIsUnique(xs[1..], ys[1..]);
      assert xs == [xs[0]] + xs[1..] && ys == [ys[0]] + ys[1..];
    }
  }

  lemma TailElements(xs: seq<string>, x: string)
    requires Ascending(xs) && xs != []
    ensures x in Elements(xs[1..]) <==> x in Elements(xs) && x != xs[0]
  {
    LessTotal(xs[0], xs[0]);
    if x in xs[1..] { assert Less(xs[0], x); }
    assert xs == [xs[0]] + xs[1..];
  }

  lemma {:induction false} AscendingSize(xs: seq<string>)
    requires Ascending(xs)
    ensures |xs| == |Elements(xs)|
  {
    if xs != [] {
      AscendingSize(xs[1..]);
      forall x ensures x in Elements(xs[1..]) <==> x in Elements(xs) && x != xs[0] { TailElements(xs, x); }
      assert Elements(xs) == Elements(xs[1..]) + {xs[0]};
    }
  }

  lemma SortedSetOfSame(xs: seq<string>, ys: seq<string>)
    requires Elements(xs) == Elements(ys)
    ensures SortedSet(xs) == SortedSet(ys)
  {
    SortedSetSorts(xs);
    SortedSetSorts(ys);
    AscendingIsUnique(SortedSet(xs), SortedSet(ys));
  }

  // ---- Fingerprints ----

  function Lowered(tags: seq<string>, lower: Lower): (r: seq<string>)
    ensures |r| == |tags| && forall k :: 0 <= k < |r| ==> r[k] == lower(tags[k])
  {
    seq(|tags|, k requires 0 <= k < |tags| => lower(tags[k]))
  }

  function Joined(items: seq<string>): string {
    if items == [] then "" else if |items| == 1 then items[0]
    else items[0] + "|" + Joined(items[1..])
  }

  /** The items of a fingerprint: the tags in order, then the references in order. */
  function Items(tags: seq<string>, refs: seq<string>, lower: Lower): seq<string> {
    SortedSet(Lowered(tags, lower)) + SortedSet(refs)
  }

  /** The text that domain_fingerprint hashes. */
  function FingerprintText(tags: seq<string>, refs: seq<string>, lower: Lower): string {
    Joined(Items(tags, refs, lower))
  }

  /** Units with the same domain set have the same fingerprint, whatever the order, the repetition and the
      case of their tags. */
  lemma SameDomainSameFingerprint(tags: seq<string>, refs: seq<string>, tags2: seq<string>, refs2: seq<string>,
                                  lower: Lower)
    requires DomainSet(tags, refs, lower) == DomainSet(tags2, refs2, lower)
    ensures FingerprintText(tags, refs, lower) == FingerprintText(tags2, refs2, lower)
  {
    SameDomainIff(tags, refs, tags2, refs2, lower);
    LoweredElements(tags, lower);
    LoweredElements(tags2, lower);
    SortedSetOfSame(Lowered(tags, lower), Lowered(tags2, lower));
    SortedSetOfSame(refs, refs2);
  }

  lemma LoweredElements(tags: seq<string>, lower: Lower)
    ensures Elements(Lowered(tags, lower)) == Tags(tags, lower)
  {
    forall t | t in tags ensures lower(t) in Lowered(tags, lower) {
      var k :| 0 <= k < |tags| && tags[k] == t;
      assert Lowered(tags, lower)[k] == lower(t);
    }
  }

  /** The hashed text is the lowered tags in ascending order, then the references in ascending order, with
      bars in between. */
  lemma TagsComeFirst(tags: seq<string>, refs: seq<string>, lower: Lower)
    ensures exists ts, rs ::
      && FingerprintText(tags, refs, lower) == Joined(ts + rs)
      && Ascending(ts) && Elements(ts) == Tags(tags, lower)
      && Ascending(rs) && Elements(rs) == Elements(refs)
  {
    var ts, rs := SortedSet(Lowered(tags, lower)), SortedSet(refs);
    SortedSetSorts(Lowered(tags, lower));
    SortedSetSorts(refs);
    LoweredElements(tags, lower);
    assert FingerprintText(tags, refs, lower) == Joined(ts + rs);
  }

  // ---- When a fingerprint tells domains apart ----

  /** The items alone do not say where the tags end; with their number they say everything. */
  lemma SameItemsIff(tags: seq<string>, refs: seq<string>, tags2: seq<string>, refs2: seq<string>, lower: Lower)
    ensures DomainSet(tags, refs, lower) == DomainSet(tags2, refs2, lower) <==>
      && Items(tags, refs, lower) == Items(tags2, refs2, lower) && |Tags(tags, lower)| == |Tags(tags2, lower)|
  {
    SameDomainIff(tags, refs, tags2, refs2, lower);
    var a, b := SortedSet(Lowered(tags, lower)), SortedSet(refs);
    var c, d := SortedSet(Lowered(tags2, lower)), SortedSet(refs2);
    TagList(tags, lower);
    TagList(tags2, lower);
    SortedSetSorts(refs);
    SortedSetSorts(refs2);
    if DomainSet(tags, refs, lower) == DomainSet(tags2, refs2, lower) {
      AscendingIsUnique(a, c);
      AscendingIsUnique(b, d);
    }
    if a + b == c + d && |a| == |c| {
      assert a == (a + b)[..|a|] && c == (c + d)[..|c|];
      assert b == (a + b)[|a|..] && d == (c + d)[|c|..];
    }
  }

  lemma TagList(tags: seq<string>, lower: Lower)
    ensures
      var a := SortedSet(Lowered(tags, lower));
      Ascending(a) && Elements(a) == Tags(tags, lower) && |a| == |Tags(tags, lower)|
  {
    SortedSetSorts(Lowered(tags, lower));
    LoweredElements(tags, lower);
    AscendingSize(SortedSet(Lowered(tags, lower)));
  }

  /** Items that the separator cannot blur. */
  predicate Clear(items: seq<string>) {
    forall k :: 0 <= k < |items| ==> items[k] != "" && '|' !in items[k]
  }

  function BeforeBar(text: string): string {
    if text == "" || text[0] == '|' then "" else [text[0]] + BeforeBar(text[1..])
  }

  lemma {:induction false} BeforeBarOf(item: string, rest: string)
    requires '|' !in item && (rest == "" || rest[0] == '|')
    ensures BeforeBar(item + rest) == item
  {
    if item == "" {
      assert item + rest == rest;
    } else {
      BeforeBarOf(item[1..], rest);
      assert (item + rest)[1..] == item[1..] + rest && item == [item[0]] + item[1..];
    }
  }

  /** What follows the first item. */
  function Tail(items: seq<string>): string
    requires items != []
  {
    if |items| == 1 then "" else "|" + Joined(items[1..])
  }

  lemma JoinedParts(items: seq<string>)
    requires Clear(items) && items != []
    ensures Joined(items) == items[0] + Tail(items) && BeforeBar(Joined(items)) == items[0] && Joined(items) != ""
  {
    assert Tail(items) == "" || Tail(items)[0] == '|';
    BeforeBarOf(items[0], Tail(items));
    assert |items| == 1 ==> items[0] + "" == items[0];
    assert |items| > 1 ==> items[0] + Tail(items) == items[0] + "|" + Joined(items[1..]);
  }

  /** Joining can be undone when no item is empty or has the separator in it. */
  lemma {:induction false} JoinedIsInjective(xs: seq<string>, ys: seq<string>)
    requires Clear(xs) && Clear(ys) && Joined(xs) == Joined(ys)
    ensures xs == ys
  {
    hide Joined;
    hide Tail;
    hide BeforeBar;
    NothingJoined();
    if xs != [] { JoinedParts(xs); }
    if ys != [] { JoinedParts(ys); }
    if xs != [] && ys != [] {
      SameRest(xs[0], Tail(xs), Tail(ys));
      SameTail(xs, ys);
      if |xs| > 1 { JoinedIsInjective(xs[1..], ys[1..]); }
      FirstAndRest(xs);
      FirstAndRest(ys);
    }
  }

  lemma NothingJoined()
    ensures Joined([]) == ""
  {
  }

  lemma FirstAndRest(xs: seq<string>)
    requires xs != []
    ensures xs == [xs[0]] + xs[1..] && (|xs| == 1 ==> xs[1..] == [])
  {
  }

  lemma SameTail(xs: seq<string>, ys: seq<string>)
    requires xs != [] && ys != [] && Tail(xs) == Tail(ys)
    ensures |xs| == 1 <==> |ys| == 1
    ensures |xs| > 1 ==> Joined(xs[1..]) == Joined(ys[1..])
  {
    if |xs| > 1 && |ys| > 1 { assert Tail(xs)[1..] == Joined(xs[1..]) && Tail(ys)[1..] == Joined(ys[1..]); }
  }

  lemma SameRest(a: string, b: string, c: string)
    requires a + b == a + c
    ensures b == c
  {
    assert (a + b)[|a|..] == b && (a + c)[|a|..] == c;
  }

  /** When no lowered tag and no reference is empty or has a bar in it, units have the same domain set
      exactly when their fingerprints agree and they have equally many different tags. */
  lemma FingerprintDecides(tags: seq<string>, refs: seq<string>, tags2: seq<string>, refs2: seq<string>, lower: Lower)
    requires Clear(Lowered(tags, lower)) && Clear(refs) && Clear(Lowered(tags2, lower)) && Clear(refs2)
    ensures DomainSet(tags, refs, lower) == DomainSet(tags2, refs2, lower) <==>
      && FingerprintText(tags, refs, lower) == FingerprintText(tags2, refs2, lower)
      && |Tags(tags, lower)| == |Tags(tags2, lower)|
  {
    SameItemsIff(tags, refs, tags2, refs2, lower);
    ItemsAreClear(tags, refs, lower);
    ItemsAreClear(tags2, refs2, lower);
    if FingerprintText(tags, refs, lower) == FingerprintText(tags2, refs2, lower) {
      JoinedIsInjective(Items(tags, refs, lower), Items(tags2, refs2, lower));
    }
  }

  lemma ItemsAreClear(tags: seq<string>, refs: seq<string>, lower: Lower)
    requires Clear(Lowered(tags, lower)) && Clear(refs)
    ensures Clear(Items(tags, refs, lower))
  {
    SortedIsClear(Lowered(tags, lower));
    SortedIsClear(refs);
  }

  lemma SortedIsClear(xs: seq<string>)
    requires Clear(xs)
    ensures Clear(SortedSet(xs))
  {
    SortedSetSorts(xs);
    forall k | 0 <= k < |SortedSet(xs)| ensures SortedSet(xs)[k] != "" && '|' !in SortedSet(xs)[k] {
      assert SortedSet(xs)[k] in Elements(xs);
    }
  }

  /** None of the conditions can be spared. The text has no prefixes, so a tag and a reference of one name
      look alike; a bar in a tag looks like the separator; and an empty item leaves no trace. */
  lemma FingerprintsCollide(lower: Lower)
    requires lower("setup.py") == "setup.py"
    ensures FingerprintText(["setup.py"], [], lower) == FingerprintText([], ["setup.py"], lower)
    ensures DomainSet(["setup.py"], [], lower) != DomainSet([], ["setup.py"], lower)
  {
    var t := "setup.py";
    assert Lowered([t], lower) == [t] && Lowered([], lower) == [];
    assert [t][1..] == [] && SortedSet([t]) == [t] && SortedSet([]) == [];
    assert [t] + [] == [] + [t];
    Members([t], [], lower);
    Members([], [t], lower);
    assert Ref(t) in DomainSet([], [t], lower) && Ref(t) !in DomainSet([t], [], lower);
  }

  lemma SeparatorsCollide(lower: Lower)
    requires lower("a|b") == "a|b" && lower("a") == "a" && lower("b") == "b"
    ensures FingerprintText(["a|b"], [], lower) == FingerprintText(["a", "b"], [], lower)
    ensures DomainSet(["a|b"], [], lower) != DomainSet(["a", "b"], [], lower)
  {
    assert Lowered(["a|b"], lower) == ["a|b"] && Lowered(["a", "b"], lower) == ["a", "b"];
    assert ["a|b"][1..] == [] && ["a", "b"][1..] == ["b"] && ["b"][1..] == [];
    assert SortedSet([]) == [] && SortedSet(["a|b"]) == ["a|b"] && SortedSet(["b"]) == ["b"];
    assert Less("a", "b") && SortedSet(["a", "b"]) == ["a", "b"];
    assert Items(["a|b"], [], lower) == ["a|b"] && Items(["a", "b"], [], lower) == ["a", "b"];
    assert Joined(["b"]) == "b" && Joined(["a", "b"]) == "a" + "|" + "b" == "a|b";
    Members(["a|b"], [], lower);
    Members(["a", "b"], [], lower);
    assert Tag("a|b") in DomainSet(["a|b"], [], lower);
    assert "a|b" !in Tags(["a", "b"], lower);
  }

  lemma EmptiesCollide(lower: Lower)
    ensures FingerprintText([], [""], lower) == FingerprintText([], [], lower)
    ensures DomainSet([], [""], lower) != DomainSet([], [], lower)
  {
    assert Lowered([], lower) == [] && SortedSet([]) == [] && [""][1..] == [] && SortedSet([""]) == [""];
    assert Items([], [""], lower) == [""] && Items([], [], lower) == [];
    assert Ref("") in DomainSet([], [""], lower);
  }
}
