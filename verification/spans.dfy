/** Blanking spans of a text in place of cutting them out, and the offsets that rows and columns stand for. */
module Spans {
  datatype Span = Span(start: nat, end: nat)

  predicate Fits(s: Span, length: nat) {
    s.start <= s.end <= length
  }

  function Spaces(n: nat): (r: string)
    ensures |r| == n && forall k :: 0 <= k < n ==> r[k] == ' '
  {
    seq(n, k => ' ')
  }

  ghost predicate Covered(spans: seq<Span>, k: nat) {
    exists i :: 0 <= i < |spans| && spans[i].start <= k < spans[i].end
  }

  /** Replace one span after the other. In whatever order, nested or overlapping: the length stays, a
      position becomes a space exactly when some span covers it, and every other one keeps its character. */
  method Blank(text: string, spans: seq<Span>) returns (payload: string)
    requires forall i :: 0 <= i < |spans| ==> Fits(spans[i], |text|)
    ensures |payload| == |text|
    ensures forall k :: 0 <= k < |text| ==> payload[k] == if Covered(spans, k) then ' ' else text[k]
  {
    payload := text;
    var i := 0;
    while i < |spans|
      invariant 0 <= i <= |spans| && |payload| == |text|
      invariant forall k :: 0 <= k < |text| ==> payload[k] == if Covered(spans[..i], k) then ' ' else text[k]
    {
      var s, before := spans[i], payload;
      payload := before[..s.start] + Spaces(s.end - s.start) + before[s.end..];
      forall k | 0 <= k < |text| ensures payload[k] == if Covered(spans[..i + 1], k) then ' ' else text[k] {
        CoveredMore(spans, i, k);
      }
      i := i + 1;
    }
    assert spans[..i] == spans;
  }

  lemma CoveredMore(spans: seq<Span>, i: nat, k: nat)
    requires i < |spans|
    ensures Covered(spans[..i + 1], k) <==> Covered(spans[..i], k) || spans[i].start <= k < spans[i].end
  {
    if Covered(spans[..i], k) {
      var j :| 0 <= j < i && spans[..i][j].start <= k < spans[..i][j].end;
      assert spans[..i + 1][j] == spans[..i][j];
    }
    if spans[i].start <= k < spans[i].end { assert spans[..i + 1][i] == spans[i]; }
    if Covered(spans[..i + 1], k) && !(spans[i].start <= k < spans[i].end) {
      var j :| 0 <= j < i + 1 && spans[..i + 1][j].start <= k < spans[..i + 1][j].end;
      assert spans[..i][j] == spans[..i + 1][j];
    }
  }

  // ---- Rows and columns ----

  /** The text as lines without their newlines. */
  function Lines(text: string): (r: seq<string>)
    ensures r != [] && forall k :: 0 <= k < |r| ==> '\n' !in r[k]
  {
    if text == [] then [""] else Extended(Lines(text[..|text| - 1]), text[|text| - 1])
  }

  /** One more character: a newline begins a line, any other one continues the last. */
  function Extended(lines: seq<string>, c: char): (r: seq<string>)
    requires lines != [] && forall k :: 0 <= k < |lines| ==> '\n' !in lines[k]
    ensures r != [] && forall k :: 0 <= k < |r| ==> '\n' !in r[k]
  {
    if c == '\n' then lines + [""] else lines[..|lines| - 1] + [lines[|lines| - 1] + [c]]
  }

  function Joined(lines: seq<string>): string {
    if lines == [] then "" else if |lines| == 1 then lines[0]
    else Joined(lines[..|lines| - 1]) + "\n" + lines[|lines| - 1]
  }

  lemma {:induction false} JoinedLines(text: string)
    ensures Joined(Lines(text)) == text
  {
    if text != [] {
      var n := |text| - 1;
      var r := Lines(text[..n]);
      JoinedLines(text[..n]);
      assert text == text[..n] + [text[n]];
      var lines := Lines(text);
      if text[n] == '\n' {
        assert lines[..|lines| - 1] == r;
      } else {
        assert lines[..|lines| - 1] == r[..|r| - 1];
        if |r| > 1 {
          assert Joined(r) == Joined(r[..|r| - 1]) + "\n" + r[|r| - 1];
        }
      }
    }
  }

  /** Where the lines begin: at 0 and behind every newline. */
  method LineOffsets(fragment: string) returns (offsets: seq<nat>)
    ensures offsets == Starts(fragment)
  {
    offsets := [0];
    var k := 0;
    while k < |fragment|
      invariant 0 <= k <= |fragment| && offsets == Starts(fragment[..k])
    {
      assert fragment[..k + 1][..k] == fragment[..k];
      if fragment[k] == '\n' { offsets := offsets + [k + 1]; }
      k := k + 1;
    }
    assert fragment[..k] == fragment;
  }

  function Starts(text: string): seq<nat> {
    if text == [] then [0]
    else
      var before := Starts(text[..|text| - 1]);
      if text[|text| - 1] == '\n' then before + [|text|] else before
  }

  method OffsetFor(fragment: string, row: nat, column: nat) returns (offset: nat)
    requires 1 <= row <= |Lines(fragment)|
    ensures offset == |Joined(Lines(fragment)[..row - 1])| + (if row > 1 then 1 else 0) + column
    ensures column <= |Lines(fragment)[row - 1]| ==>
      && offset <= |fragment|
      && Lines(fragment[..offset]) == Lines(fragment)[..row - 1] + [Lines(fragment)[row - 1][..column]]
  {
    StartsAreLines(fragment);
    var offsets := LineOffsets(fragment);
    offset := offsets[row - 1] + column;
    if column <= |Lines(fragment)[row - 1]| { PrefixLines(fragment, row, column); }
  }

  lemma {:induction false} StartsAreLines(text: string)
    ensures |Starts(text)| == |Lines(text)|
    ensures forall r :: 0 <= r < |Lines(text)| ==>
      Starts(text)[r] == |Joined(Lines(text)[..r])| + if r > 0 then 1 else 0
  {
    if text != [] {
      var n := |text| - 1;
      StartsAreLines(text[..n]);
      var before, lines := Lines(text[..n]), Lines(text);
      forall r | 0 <= r < |before| ensures lines[..r] == before[..r] {}
      if text[n] == '\n' {
        JoinedLines(text[..n]);
        assert lines[..|before|] == before;
      }
    }
  }

  lemma LinesBefore(text: string, row: nat, column: nat)
    requires text != [] && 1 <= row <= |Lines(text)| && column <= |Lines(text)[row - 1]|
    requires row < |Lines(text)| || column < |Lines(text)[row - 1]|
    ensures
      var before := Lines(text[..|text| - 1]);
      && row <= |before| && column <= |before[row - 1]|
      && Lines(text)[..row - 1] == before[..row - 1] && Lines(text)[row - 1][..column] == before[row - 1][..column]
  {
    hide Extended;
    Longer(Lines(text[..|text| - 1]), text[|text| - 1], Lines(text), row, column);
  }

  lemma Longer(before: seq<string>, c: char, lines: seq<string>, row: nat, column: nat)
    requires before != [] && (forall k :: 0 <= k < |before| ==> '\n' !in before[k]) && lines == Extended(before, c)
    requires 1 <= row <= |lines| && column <= |lines[row - 1]| && (row < |lines| || column < |lines[row - 1]|)
    ensures row <= |before| && column <= |before[row - 1]|
    ensures lines[..row - 1] == before[..row - 1] && lines[row - 1][..column] == before[row - 1][..column]
  {
  }

  lemma WholeText(text: string, column: nat)
    requires column == |Lines(text)[|Lines(text)| - 1]|
    ensures
      var lines := Lines(text);
      var last := |lines| - 1;
      && |Joined(lines[..last])| + (if last > 0 then 1 else 0) + column == |text|
      && Lines(text[..|text|]) == lines[..last] + [lines[last][..column]]
  {
    JoinedLines(text);
    var lines := Lines(text);
    var last := |lines| - 1;
    assert text[..|text|] == text;
    assert lines[last][..column] == lines[last];
    assert lines == lines[..last] + [lines[last]];
  }

  /** Cutting the text where a row and column point leaves exactly the lines before and that much of the
      row: the conversion inverts the splitting. */
  lemma {:induction false} PrefixLines(text: string, row: nat, column: nat)
    requires 1 <= row <= |Lines(text)| && column <= |Lines(text)[row - 1]|
    ensures
      var offset := |Joined(Lines(text)[..row - 1])| + (if row > 1 then 1 else 0) + column;
      && offset <= |text|
      && Lines(text[..offset]) == Lines(text)[..row - 1] + [Lines(text)[row - 1][..column]]
  {
    hide Joined;
    hide Lines;
    if text != [] {
      var n, lines := |text| - 1, Lines(text);
      var last := |lines| - 1;
      if row - 1 == last && column == |lines[last]| {
        WholeText(text, column);
      } else {
        LinesBefore(text, row, column);
        PrefixLines(text[..n], row, column);
        var offset := |Joined(lines[..row - 1])| + (if row > 1 then 1 else 0) + column;
        assert text[..n][..offset] == text[..offset];
      }
    } else {
      NoText();
      WholeText(text, column);
    }
  }

  lemma NoText()
    ensures Lines("") == [""]
  {
  }
}
