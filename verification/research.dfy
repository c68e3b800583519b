/** Extracting directives from a research document: one forward scan with a few variables, against a
    definition that looks back from each line. A line comes already taken apart by the scanner's patterns. */
module Research {
  import opened Disks

  datatype Bold = Bold(phrase: string, title: string)

  /** How many # a heading has. */
  type Depth = d: int | 1 <= d <= 6 witness 1

  /** The pattern matches of one line. `Text` is any line that is neither a fence nor a heading. */
  datatype Line =
    | Fence
    | Heading(depth: Depth, actionable: bool, title: string)
    | Text(stripped: string, checkbox: Option<Box>, numbered: Option<string>, bolds: seq<Bold>, arrow: Option<string>)

  datatype Box = Box(open: bool, text: string)

  datatype Directive = Directive(title: string, body: string, line: nat, section: string, kind: string,
                                 confidence: real)

  /** The scanner's variables about sections. */
  datatype Section = Section(active: bool, title: string, depth: nat)

  function Start(): Section {
    Section(false, "", 0)
  }

  function Short(text: string): string {
    if |text| > 120 then text[..120] else text
  }

  // ---- The definition ----

  function Fences(lines: seq<Line>): nat {
    if lines == [] then 0 else Fences(lines[..|lines| - 1]) + if lines[|lines| - 1].Fence? then 1 else 0
  }

  /** The line behind these lines stands inside a code block. */
  predicate Fenced(lines: seq<Line>) {
    Fences(lines) % 2 == 1
  }

  predicate AllHeadings(hs: seq<Line>) {
    forall k :: 0 <= k < |hs| ==> hs[k].Heading?
  }

  /** The headings outside code blocks. */
  function Headings(lines: seq<Line>): (hs: seq<Line>)
    ensures AllHeadings(hs)
  {
    if lines == [] then [] else
    var front, last := lines[..|lines| - 1], lines[|lines| - 1];
    if last.Heading? && !Fenced(front) then Headings(front) + [last] else Headings(front)
  }

  predicate LastActionable(hs: seq<Line>, a: nat)
    requires AllHeadings(hs)
  {
    a < |hs| && hs[a].actionable && forall k :: a < k < |hs| ==> !hs[k].actionable
  }

  predicate Found(hs: seq<Line>, a: nat, c: nat, s: Section)
    requires AllHeadings(hs)
  {
    && c < |hs| && LastActionable(hs, a) && Shallowest(hs, a, c)
    && s == Section(a == c, hs[c].title, hs[c].depth)
  }

  /** Looking back: without an actionable heading nothing has begun. With a last one at a, the section in
      force is the last heading since then that is nowhere deeper than those from a on, and the scanner is
      in an actionable section exactly when that is still a itself. */
  ghost predicate InForce(hs: seq<Line>, s: Section)
    requires AllHeadings(hs)
  {
    if forall k :: 0 <= k < |hs| ==> !hs[k].actionable then s == Start()
    else exists a: nat, c: nat :: Found(hs, a, c, s)
  }

  predicate Shallowest(hs: seq<Line>, a: nat, c: nat)
    requires AllHeadings(hs)
  {
    && a <= c < |hs|
    && (forall k :: a <= k < c ==> hs[c].depth <= hs[k].depth)
    && (forall k :: c < k < |hs| ==> hs[c].depth < hs[k].depth)
  }

  // ---- The scan ----

  function Entered(s: Section, h: Line): Section
    requires h.Heading?
  {
    if h.actionable then Section(true, h.title, h.depth)
    else if h.depth <= s.depth then Section(false, h.title, h.depth)
    else s
  }

  function Scanned(hs: seq<Line>): Section
    requires AllHeadings(hs)
  {
    if hs == [] then Start() else Entered(Scanned(hs[..|hs| - 1]), hs[|hs| - 1])
  }

  lemma LastGrows(hs: seq<Line>, h: Line, a: nat)
    requires AllHeadings(hs) && h.Heading? && !h.actionable && LastActionable(hs, a)
    ensures LastActionable(hs + [h], a)
  {
  }

  lemma ShallowestStays(hs: seq<Line>, h: Line, a: nat, c: nat)
    requires AllHeadings(hs) && h.Heading? && Shallowest(hs, a, c) && hs[c].depth < h.depth
    ensures Shallowest(hs + [h], a, c)
  {
  }

  lemma ShallowestMoves(hs: seq<Line>, h: Line, a: nat, c: nat)
    requires AllHeadings(hs) && h.Heading? && Shallowest(hs, a, c) && h.depth <= hs[c].depth
    ensures Shallowest(hs + [h], a, |hs|)
  {
    forall k | a <= k < |hs| ensures h.depth <= hs[k].depth {
      assert hs[c].depth <= hs[k].depth;
    }
  }

  lemma InForceStep(hs: seq<Line>, s: Section, h: Line)
    requires AllHeadings(hs) && h.Heading? && InForce(hs, s)
    ensures AllHeadings(hs + [h]) && InForce(hs + [h], Entered(s, h))
  {
    hide LastActionable;
    hide Shallowest;
    var all, t := hs + [h], Entered(s, h);
    if h.actionable {
      Newest(hs, h);
      assert all[|hs|].actionable && Found(all, |hs|, |hs|, t);
    } else if k :| 0 <= k < |hs| && hs[k].actionable {
      var a: nat, c: nat :| Found(hs, a, c, s);
      InRange(hs, a, c);
      LastGrows(hs, h, a);
      if h.depth <= s.depth { ShallowestMoves(hs, h, a, c); } else { ShallowestStays(hs, h, a, c); }
      assert all[k].actionable && Found(all, a, if h.depth <= s.depth then |hs| else c, t);
    }
  }

  lemma Newest(hs: seq<Line>, h: Line)
    requires AllHeadings(hs) && h.Heading? && h.actionable
    ensures LastActionable(hs + [h], |hs|) && Shallowest(hs + [h], |hs|, |hs|)
  {
  }

  lemma InRange(hs: seq<Line>, a: nat, c: nat)
    requires AllHeadings(hs) && Shallowest(hs, a, c)
    ensures a <= c < |hs|
  {
  }

  /** The forward scan computes what looking back defines. */
  lemma {:induction false} ScannedIsInForce(hs: seq<Line>)
    requires AllHeadings(hs)
    ensures InForce(hs, Scanned(hs))
  {
    if hs != [] {
      var n := |hs| - 1;
      ScannedIsInForce(hs[..n]);
      InForceStep(hs[..n], Scanned(hs[..n]), hs[n]);
      assert hs[..n] + [hs[n]] == hs;
    }
  }

  /** Looking back has one answer. */
  lemma InForceIsUnique(hs: seq<Line>, s: Section, t: Section)
    requires AllHeadings(hs)
    requires InForce(hs, s) && InForce(hs, t)
    ensures s == t
  {
    if exists k :: 0 <= k < |hs| && hs[k].actionable {
      var a: nat, c: nat :| Found(hs, a, c, s);
      var b: nat, d: nat :| Found(hs, b, d, t);
      assert a == b;
      assert c == d;
    }
  }

  ghost predicate Actionable(hs: seq<Line>)
    requires AllHeadings(hs)
  {
    exists a: nat :: LastActionable(hs, a) && forall k :: a < k < |hs| ==> hs[k].depth > hs[a].depth
  }

  /** In an actionable section: there is a last actionable heading, and no heading since is as shallow. */
  lemma ActiveIff(hs: seq<Line>, s: Section)
    requires AllHeadings(hs) && InForce(hs, s)
    ensures s.active <==> Actionable(hs)
  {
    if exists k :: 0 <= k < |hs| && hs[k].actionable {
      var a: nat, c: nat :| Found(hs, a, c, s);
      if b: nat :| LastActionable(hs, b) && forall k :: b < k < |hs| ==> hs[k].depth > hs[b].depth {
        assert a == b;
      }
    }
  }

  // ---- What a line yields ----

  function BoldDirectives(bolds: seq<Bold>, stripped: string, line: nat, section: string,
                          classify: (string, string) -> string)
    : (ds: seq<Directive>)
    ensures |ds| == |bolds| && forall k :: 0 <= k < |ds| ==> ds[k].line == line && ds[k].section == section
  {
    if bolds == [] then []
    else
      var b := bolds[|bolds| - 1];
      BoldDirectives(bolds[..|bolds| - 1], stripped, line, section, classify)
      + [Directive(b.title, stripped, line, section, classify(b.phrase, section), 0.7)]
  }

  /** What an ordinary line outside code blocks yields when s is in force. */
  function Yield(t: Line, line: nat, s: Section, classify: (string, string) -> string): (ds: seq<Directive>)
    requires t.Text?
    ensures forall k :: 0 <= k < |ds| ==> ds[k].line == line && ds[k].section == s.title
  {
    if t.checkbox.Some? then
      var box := t.checkbox.value;
      if |box.text| > 15
      then [Directive(Short(box.text), box.text, line, s.title, "action_item", if box.open then 0.8 else 0.3)] else []
    else if s.active && t.numbered.Some? then
      var text := t.numbered.value;
      if |text| > 15 then [Directive(Short(text), text, line, s.title, classify(text, s.title), 0.6)] else []
    else
      BoldDirectives(t.bolds, t.stripped, line, s.title, classify)
      + match t.arrow
        case None => []
        case Some(text) => [Directive(Short(text), text, line, s.title, "proposal", 0.5)]
  }

  /** What the line behind `front` yields. */
  function YieldAfter(front: seq<Line>, t: Line, classify: (string, string) -> string): (ds: seq<Directive>)
    ensures forall k :: 0 <= k < |ds| ==> ds[k].line == |front| + 1
  {
    if t.Text? && !Fenced(front) then Yield(t, |front| + 1, Scanned(Headings(front)), classify) else []
  }

  function Directives(lines: seq<Line>, classify: (string, string) -> string): seq<Directive> {
    if lines == [] then []
    else Directives(lines[..|lines| - 1], classify) + YieldAfter(lines[..|lines| - 1], lines[|lines| - 1], classify)
  }

  lemma Nothing(classify: (string, string) -> string)
    ensures !Fenced([]) && Scanned(Headings([])) == Start() && Directives([], classify) == []
  {
  }

  lemma OneMore(front: seq<Line>, t: Line, classify: (string, string) -> string)
    ensures Fenced(front + [t]) <==> (Fenced(front) != t.Fence?)
    ensures Scanned(Headings(front + [t])) ==
      if t.Heading? && !Fenced(front) then Entered(Scanned(Headings(front)), t) else Scanned(Headings(front))
    ensures Directives(front + [t], classify) == Directives(front, classify) + YieldAfter(front, t, classify)
  {
    hide Fenced;
    hide Headings;
    hide Scanned;
    hide Directives;
    hide YieldAfter;
    OneMoreFence(front, t);
    OneMoreHeading(front, t);
    if t.Heading? && !Fenced(front) { ScannedFurther(Headings(front), t); }
    OneMoreYield(front, t, classify);
  }

  lemma OneMoreFence(front: seq<Line>, t: Line)
    ensures Fenced(front + [t]) <==> (Fenced(front) != t.Fence?)
  {
    assert (front + [t])[..|front|] == front;
  }

  lemma OneMoreHeading(front: seq<Line>, t: Line)
    ensures Headings(front + [t]) == if t.Heading? && !Fenced(front) then Headings(front) + [t] else Headings(front)
  {
    hide Fenced;
    assert (front + [t])[..|front|] == front;
  }

  lemma ScannedFurther(hs: seq<Line>, h: Line)
    requires AllHeadings(hs) && h.Heading?
    ensures AllHeadings(hs + [h]) && Scanned(hs + [h]) == Entered(Scanned(hs), h)
  {
    hide Entered;
    assert (hs + [h])[..|hs|] == hs;
  }

  lemma OneMoreYield(front: seq<Line>, t: Line, classify: (string, string) -> string)
    ensures Directives(front + [t], classify) == Directives(front, classify) + YieldAfter(front, t, classify)
  {
    hide YieldAfter;
    assert (front + [t])[..|front|] == front;
  }

  /** The part of the loop that appends. */
  method Emit(t: Line, i: nat, active: bool, section: string, ghost depth: nat, classify: (string, string) -> string)
    returns (directives: seq<Directive>)
    requires t.Text?
    ensures directives == Yield(t, i, Section(active, section, depth), classify)
  {
    directives := [];
    if t.checkbox.Some? {
      var text := t.checkbox.value.text;
      if |text| > 15 {
        directives := [Directive(
          Short(text), text, i, section, "action_item", if t.checkbox.value.open then 0.8 else 0.3)];
      }
      return;
    }
    if active && t.numbered.Some? {
      var text := t.numbered.value;
      if |text| > 15 {
        directives := [Directive(Short(text), text, i, section, classify(text, section), 0.6)];
      }
      return;
    }
    var b := 0;
    while b < |t.bolds|
      invariant 0 <= b <= |t.bolds|
      invariant directives == BoldDirectives(t.bolds[..b], t.stripped, i, section, classify)
    {
      assert t.bolds[..b + 1][..b] == t.bolds[..b];
      directives := directives + [Directive(
        t.bolds[b].title, t.stripped, i, section, classify(t.bolds[b].phrase, section), 0.7)];
      b := b + 1;
    }
    assert t.bolds[..b] == t.bolds;
    if t.arrow.Some? {
      directives := directives + [Directive(Short(t.arrow.value), t.arrow.value, i, section, "proposal", 0.5)];
    }
  }

  /** extract_directives: one pass with five variables. */
  method ExtractDirectives(lines: seq<Line>, classify: (string, string) -> string) returns (directives: seq<Directive>)
    ensures directives == Directives(lines, classify)
  {
    hide Fenced;
    hide Headings;
    hide Scanned;
    hide Directives;
    hide Yield;
    directives := [];
    var active, section, depth, fenced := false, "", 0, false;
    Nothing(classify);
    assert lines[..0] == [];
    var i := 0;
    while i < |lines|
      invariant 0 <= i <= |lines| && directives == Directives(lines[..i], classify)
      invariant fenced == Fenced(lines[..i]) && Section(active, section, depth) == Scanned(Headings(lines[..i]))
    {
      var line := lines[i];
      OneMore(lines[..i], line, classify);
      assert lines[..i + 1] == lines[..i] + [line];
      i := i + 1;
      match line
      case Fence => fenced := !fenced;
      case Heading(d, actionable, title) =>
        if !fenced {
          if actionable {
            active, section, depth := true, title, d;
          } else if d <= depth {
            active, section, depth := false, title, d;
          }
        }
      case Text(stripped, checkbox, numbered, bolds, arrow) =>
        if !fenced {
          var more := Emit(line, i, active, section, depth, classify);
          directives := directives + more;
        }
    }
    assert lines[..i] == lines;
  }

  // ---- What the definition promises ----

  /** The directives of one line. */
  function OnLine(ds: seq<Directive>, line: nat): seq<Directive> {
    if ds == [] then []
    else OnLine(ds[..|ds| - 1], line) + if ds[|ds| - 1].line == line then [ds[|ds| - 1]] else []
  }

  lemma {:induction false} OnLineOfSum(ds: seq<Directive>, es: seq<Directive>, line: nat)
    ensures OnLine(ds + es, line) == OnLine(ds, line) + OnLine(es, line)
  {
    if es == [] {
      assert ds + es == ds;
    } else {
      assert (ds + es)[..|ds + es| - 1] == ds + es[..|es| - 1];
      OnLineOfSum(ds, es[..|es| - 1], line);
    }
  }

  lemma {:induction false} OnLineOfOne(ds: seq<Directive>, at: nat, line: nat)
    requires forall k :: 0 <= k < |ds| ==> ds[k].line == at
    ensures OnLine(ds, line) == if at == line then ds else []
  {
    if ds != [] { OnLineOfOne(ds[..|ds| - 1], at, line); }
  }

  /** Line by line the result is exactly what the line yields under the fences and headings before it, so
      nothing comes from a fenced line, a fence or a heading, and nothing else is missing; and directives
      come out in the order of their lines. */
  lemma {:induction false} DirectivesByLine(lines: seq<Line>, classify: (string, string) -> string)
    ensures forall l :: 1 <= l <= |lines| ==>
      OnLine(Directives(lines, classify), l) == YieldAfter(lines[..l - 1], lines[l - 1], classify)
    ensures forall k :: 0 <= k < |Directives(lines, classify)| ==> 1 <= Directives(lines, classify)[k].line <= |lines|
    ensures forall j, k :: 0 <= j < k < |Directives(lines, classify)| ==>
      Directives(lines, classify)[j].line <= Directives(lines, classify)[k].line
  {
    hide YieldAfter;
    hide OnLine;
    if lines != [] {
      var n := |lines| - 1;
      var front, last := lines[..n], YieldAfter(lines[..n], lines[n], classify);
      DirectivesByLine(front, classify);
      forall l | 1 <= l <= |lines|
        ensures OnLine(Directives(lines, classify), l) == YieldAfter(lines[..l - 1], lines[l - 1], classify)
      {
        OnLineOfSum(Directives(front, classify), last, l);
        OnLineOfOne(last, |lines|, l);
        if l <= n {
          assert front[..l - 1] == lines[..l - 1];
        } else {
          NoneOnLine(Directives(front, classify), l);
        }
      }
    }
  }

  lemma {:induction false} NoneOnLine(ds: seq<Directive>, line: nat)
    requires forall k :: 0 <= k < |ds| ==> ds[k].line != line
    ensures OnLine(ds, line) == []
  {
    if ds != [] { NoneOnLine(ds[..|ds| - 1], line); }
  }

  lemma {:induction false} BoldDirectivesAre(bolds: seq<Bold>, stripped: string, line: nat, section: string,
                                             classify: (string, string) -> string)
    ensures forall k :: 0 <= k < |bolds| ==>
      BoldDirectives(bolds, stripped, line, section, classify)[k] ==
      Directive(bolds[k].title, stripped, line, section, classify(bolds[k].phrase, section), 0.7)
  {
    if bolds != [] { BoldDirectivesAre(bolds[..|bolds| - 1], stripped, line, section, classify); }
  }

  /** An item of its own: nothing unless it has more than 15 characters; the title is cut at 120. */
  predicate Item(ds: seq<Directive>, text: string, line: nat, section: string, kind: string, confidence: real) {
    if |text| <= 15 then ds == []
    else ds == [Directive(if |text| > 120 then text[..120] else text, text, line, section, kind, confidence)]
  }

  /** What a line without checkbox and without a numbered item that counts yields: one directive for each
      bold phrase, in order, and one for the arrow. */
  predicate Signals(ds: seq<Directive>, t: Line, line: nat, section: string, classify: (string, string) -> string)
    requires t.Text?
  {
    && |ds| == |t.bolds| + (if t.arrow.Some? then 1 else 0)
    && (forall k :: 0 <= k < |t.bolds| ==>
          ds[k] == Directive(t.bolds[k].title, t.stripped, line, section, classify(t.bolds[k].phrase, section), 0.7))
    && (t.arrow.Some? ==>
          var text := t.arrow.value;
          ds[|t.bolds|] == Directive(if |text| > 120 then text[..120] else text, text, line, section, "proposal", 0.5))
  }

  /** What comes out for each line, told from the headings before it and nothing else: a checkbox counts
      anywhere, a numbered item only in an actionable section, where it hides bold phrases and arrow. */
  lemma LineYields(lines: seq<Line>, l: nat, s: Section, classify: (string, string) -> string)
    requires 1 <= l <= |lines| && InForce(Headings(lines[..l - 1]), s)
    ensures
      var front, t, ds := lines[..l - 1], lines[l - 1], OnLine(Directives(lines, classify), l);
      if !t.Text? || Fenced(front) then ds == []
      else if t.checkbox.Some? then
        var box := t.checkbox.value;
        Item(ds, box.text, l, s.title, "action_item", if box.open then 0.8 else 0.3)
      else if t.numbered.Some? && Actionable(Headings(front)) then
        Item(ds, t.numbered.value, l, s.title, classify(t.numbered.value, s.title), 0.6)
      else Signals(ds, t, l, s.title, classify)
  {
    hide Fenced;
    hide Headings;
    hide InForce;
    hide Scanned;
    hide Actionable;
    hide Directives;
    hide OnLine;
    hide BoldDirectives;
    var front, t := lines[..l - 1], lines[l - 1];
    DirectivesByLine(lines, classify);
    ScannedIsInForce(Headings(front));
    InForceIsUnique(Headings(front), Scanned(Headings(front)), s);
    ActiveIff(Headings(front), s);
    if t.Text? { BoldDirectivesAre(t.bolds, t.stripped, l, s.title, classify); }
  }

  /** A numbered item alone makes a directive exactly in an actionable section and when it is long enough. */
  lemma NumberedAloneIff(lines: seq<Line>, l: nat, classify: (string, string) -> string)
    requires 1 <= l <= |lines| && lines[l - 1].Text? && !Fenced(lines[..l - 1])
    requires var t := lines[l - 1]; t.checkbox.None? && t.bolds == [] && t.arrow.None?
    ensures OnLine(Directives(lines, classify), l) != [] <==>
      var t := lines[l - 1];
      t.numbered.Some? && |t.numbered.value| > 15 && Actionable(Headings(lines[..l - 1]))
  {
    hide Fenced;
    hide Headings;
    hide Actionable;
    hide Directives;
    hide OnLine;
    var hs := Headings(lines[..l - 1]);
    ScannedIsInForce(hs);
    LineYields(lines, l, Scanned(hs), classify);
  }

  /** The fences counted. */
  lemma {:induction false} FencesAreCounted(lines: seq<Line>)
    ensures Fences(lines) == |set i | 0 <= i < |lines| && lines[i].Fence?|
  {
    var all := set i | 0 <= i < |lines| && lines[i].Fence?;
    if lines == [] {
      assert all == {};
    } else {
      var n := |lines| - 1;
      FencesAreCounted(lines[..n]);
      var before := set i | 0 <= i < n && lines[..n][i].Fence?;
      assert all == if lines[n].Fence? then before + {n} else before;
    }
  }

  /** Line i is a heading outside code blocks. */
  predicate OpenHeading(lines: seq<Line>, i: nat) {
    i < |lines| && lines[i].Heading? && !Fenced(lines[..i])
  }

  lemma OpenHeadingMore(front: seq<Line>, t: Line, i: nat)
    ensures OpenHeading(front + [t], i) <==>
      OpenHeading(front, i) || (i == |front| && t.Heading? && !Fenced(front))
  {
    hide Fenced;
    var all := front + [t];
    if i < |front| { assert all[i] == front[i] && all[..i] == front[..i]; }
    if i == |front| { assert all[..i] == front; }
  }

  /** The positions of the headings outside code blocks, ascending. */
  ghost predicate HeadingsAt(lines: seq<Line>, at: seq<nat>) {
    && (forall j, k :: 0 <= j < k < |at| ==> at[j] < at[k])
    && (forall i: nat :: i in at <==> OpenHeading(lines, i))
    && |Headings(lines)| == |at|
    && forall j :: 0 <= j < |at| ==> at[j] < |lines| && Headings(lines)[j] == lines[at[j]]
  }

  /** Headings outside code blocks are found, all of them and in order. */
  lemma {:induction false} HeadingsAreFound(lines: seq<Line>)
    ensures exists at: seq<nat> :: HeadingsAt(lines, at)
  {
    if lines == [] {
      var none: seq<nat> := [];
      assert HeadingsAt(lines, none);
    } else {
      var front, t := lines[..|lines| - 1], lines[|lines| - 1];
      HeadingsAreFound(front);
      var at: seq<nat> :| HeadingsAt(front, at);
      assert lines == front + [t];
      HeadingsAtMore(front, t, at);
    }
  }

  lemma HeadingsAtMore(front: seq<Line>, t: Line, at: seq<nat>)
    requires HeadingsAt(front, at)
    ensures var n: nat := |front|; HeadingsAt(front + [t], if t.Heading? && !Fenced(front) then at + [n] else at)
  {
    hide Fenced;
    hide Headings;
    hide OpenHeading;
    var n: nat := |front|;
    var longer: seq<nat> := if t.Heading? && !Fenced(front) then at + [n] else at;
    OneMoreHeading(front, t);
    forall i: nat ensures i in longer <==> OpenHeading(front + [t], i) {
      OpenHeadingMore(front, t, i);
      assert i in longer <==> i in at || (i == n && t.Heading? && !Fenced(front));
    }
    forall j | 0 <= j < |at| ensures at[j] < n { assert at[j] in at; }
  }
}
