/**
 Content lines of iCalendar files (packages/domain/src/services.ts, unfoldIcsLines):
 unfolding against the folding of section 3.1 of RFC 5545.
 */
module IcsLines {

  /** White space as `trimEnd` understands it, left open. */
  type Space = char -> bool

  predicate IsBlank(c: char) {
    c == ' ' || c == '\t'
  }

  // Lines of a text

  function IndexOf(text: string, c: char): (i: nat)
    ensures i <= |text|
    ensures c !in text[..i]
    ensures i < |text| ==> text[i] == c
  {
    if text == [] || text[0] == c then 0 else 1 + IndexOf(text[1..], c)
  }

  function DropCr(line: string): string {
    if line != [] && line[|line| - 1] == '\r' then line[..|line| - 1] else line
  }

  /** `split(/\r?\n/)` */
  function SplitLines(text: string): seq<string>
    decreases |text|
  {
    var i := IndexOf(text, '\n');
    if i == |text| then [text] else [DropCr(text[..i])] + SplitLines(text[i + 1..])
  }

  function TrimEnd(space: Space, line: string): string {
    if line != [] && space(line[|line| - 1]) then TrimEnd(space, line[..|line| - 1]) else line
  }

  // Unfolding

  function Extend(space: Space, unfolded: seq<string>, line: string): seq<string> {
    if line != [] && IsBlank(line[0]) && unfolded != []
    then unfolded[|unfolded| - 1 := unfolded[|unfolded| - 1] + line[1..]]
    else unfolded + [TrimEnd(space, line)]
  }

  function Unfold(space: Space, lines: seq<string>): seq<string> {
    if lines == [] then [] else Extend(space, Unfold(space, lines[..|lines| - 1]), lines[|lines| - 1])
  }

  method UnfoldIcsLines(space: Space, contents: string) returns (unfolded: seq<string>)
    ensures unfolded == Unfold(space, SplitLines(contents))
  {
    unfolded := [];
    var lines := SplitLines(contents);
    for k := 0 to |lines|
      invariant unfolded == Unfold(space, lines[..k])
    {
      var line := lines[k];
      assert lines[..k + 1][..k] == lines[..k];
      if line != [] && IsBlank(line[0]) && |unfolded| > 0 {
        unfolded := unfolded[|unfolded| - 1 := unfolded[|unfolded| - 1] + line[1..]];
        continue;
      }
      unfolded := unfolded + [TrimEnd(space, line)];
    }
    assert lines[..|lines|] == lines;
  }

  // Folding

  /** A continuation: the blank that marks it, and its text. */
  datatype Piece = Piece(blank: char, text: string)

  /** A content line cut into pieces. */
  datatype Folding = Folding(first: string, rest: seq<Piece>)

  function Whole(folding: Folding): string {
    folding.first + RestOf(folding.rest)
  }

  function RestOf(rest: seq<Piece>): string {
    if rest == [] then "" else RestOf(rest[..|rest| - 1]) + rest[|rest| - 1].text
  }

  function Continuations(rest: seq<Piece>): seq<string> {
    if rest == [] then [] else Continuations(rest[..|rest| - 1]) + [[rest[|rest| - 1].blank] + rest[|rest| - 1].text]
  }

  /** The physical lines of a document. */
  function PhysicalLines(doc: seq<Folding>): seq<string> {
    if doc == [] then []
    else PhysicalLines(doc[..|doc| - 1]) + [doc[|doc| - 1].first] + Continuations(doc[|doc| - 1].rest)
  }

  function JoinLines(lines: seq<string>, breaks: seq<string>): string
    requires |lines| == |breaks| + 1
  {
    if breaks == [] then lines[0] else lines[0] + breaks[0] + JoinLines(lines[1..], breaks[1..])
  }

  /** Lines end in a line feed, with a return before it or not; a line's own return would be taken for one. */
  predicate AreBreaks(lines: seq<string>, breaks: seq<string>) {
    && |lines| == |breaks| + 1
    && forall i | 0 <= i < |breaks| ::
         breaks[i] == "\r\n" || (breaks[i] == "\n" && (lines[i] == [] || lines[i][|lines[i]| - 1] != '\r'))
  }

  function WholeLines(doc: seq<Folding>): seq<string> {
    seq(|doc|, i requires 0 <= i < |doc| => Whole(doc[i]))
  }

  /** Pieces hold no line feed, continuations start with a space or a tab, first pieces do not. */
  ghost predicate IsFolding(folding: Folding) {
    && '\n' !in folding.first && (folding.first == [] || folding.first[0] !in {' ', '\t'})
    && forall i :: 0 <= i < |folding.rest| ==> folding.rest[i].blank in {' ', '\t'} && '\n' !in folding.rest[i].text
  }

  ghost predicate IsDocument(doc: seq<Folding>) {
    doc != [] && forall i :: 0 <= i < |doc| ==> IsFolding(doc[i])
  }

  // Splitting undoes joining

  lemma {:induction false} IndexOfMark(before: string, c: char, after: string)
    requires c !in before
    ensures IndexOf(before + [c] + after, c) == |before|
  {
    if before != [] {
      IndexOfMark(before[1..], c, after);
      assert (before + [c] + after)[1..] == before[1..] + [c] + after;
    }
  }

  lemma {:induction false} NoMark(text: string, c: char)
    requires c !in text
    ensures IndexOf(text, c) == |text|
  {}

  lemma SplitFirst(line: string, rest: string)
    requires '\n' !in line
    ensures SplitLines(line + "\r\n" + rest) == [line] + SplitLines(rest)
    ensures line == [] || line[|line| - 1] != '\r' ==> SplitLines(line + "\n" + rest) == [line] + SplitLines(rest)
  {
    var text := (line + "\r") + ['\n'] + rest;
    assert line + "\r\n" + rest == text;
    IndexOfMark(line + "\r", '\n', rest);
    assert text[..|line| + 1] == line + "\r" && text[|line| + 2..] == rest;
    var bare := line + ['\n'] + rest;
    assert line + "\n" + rest == bare;
    IndexOfMark(line, '\n', rest);
    assert bare[..|line|] == line && bare[|line| + 1..] == rest;
  }

  lemma {:induction false} SplitUndoesJoin(lines: seq<string>, breaks: seq<string>)
    requires AreBreaks(lines, breaks) && forall i :: 0 <= i < |lines| ==> '\n' !in lines[i]
    ensures SplitLines(JoinLines(lines, breaks)) == lines
    decreases |breaks|
  {
    if breaks == [] {
      NoMark(lines[0], '\n');
    } else {
      SplitFirst(lines[0], JoinLines(lines[1..], breaks[1..]));
      SplitUndoesJoin(lines[1..], breaks[1..]);
      assert lines == [lines[0]] + lines[1..];
    }
  }

  lemma {:induction false} PhysicalLinesAreLines(doc: seq<Folding>)
    requires forall i :: 0 <= i < |doc| ==> IsFolding(doc[i])
    ensures forall line :: line in PhysicalLines(doc) ==> '\n' !in line
    ensures doc != [] ==> PhysicalLines(doc) != []
  {
    if doc != [] {
      PhysicalLinesAreLines(doc[..|doc| - 1]);
      assert IsFolding(doc[|doc| - 1]);
      ContinuationsAreLines(doc[|doc| - 1].rest);
    }
  }

  lemma {:induction false} ContinuationsAreLines(rest: seq<Piece>)
    requires forall i :: 0 <= i < |rest| ==> IsBlank(rest[i].blank) && '\n' !in rest[i].text
    ensures forall line :: line in Continuations(rest) ==> '\n' !in line && line != [] && IsBlank(line[0])
  {
    if rest != [] {
      ContinuationsAreLines(rest[..|rest| - 1]);
    }
  }

  // Unfolding undoes folding

  lemma UnfoldOneMore(space: Space, lines: seq<string>, line: string)
    ensures Unfold(space, lines + [line]) == Extend(space, Unfold(space, lines), line)
  {}

  lemma {:induction false} UnfoldContinuations(space: Space, lines: seq<string>, done: seq<string>, last: string, rest: seq<Piece>)
    requires Unfold(space, lines) == done + [last]
    requires forall i :: 0 <= i < |rest| ==> IsBlank(rest[i].blank)
    ensures Unfold(space, lines + Continuations(rest)) == done + [last + RestOf(rest)]
  {
    if rest == [] {
      assert lines + Continuations(rest) == lines && last + RestOf(rest) == last;
    } else {
      var front, piece := rest[..|rest| - 1], rest[|rest| - 1];
      UnfoldContinuations(space, lines, done, last, front);
      assert lines + Continuations(rest) == lines + Continuations(front) + [[piece.blank] + piece.text];
      UnfoldOneMore(space, lines + Continuations(front), [piece.blank] + piece.text);
      assert ([piece.blank] + piece.text)[1..] == piece.text;
      assert last + RestOf(rest) == last + RestOf(front) + piece.text;
    }
  }

  /** What unfolding makes of any folded document: the first pieces lose their trailing white space, nothing else changes. */
  function Trimmed(space: Space, doc: seq<Folding>): seq<string> {
    seq(|doc|, i requires 0 <= i < |doc| => TrimEnd(space, doc[i].first) + RestOf(doc[i].rest))
  }

  lemma {:induction false} UnfoldDocument(space: Space, doc: seq<Folding>)
    requires forall i :: 0 <= i < |doc| ==> IsFolding(doc[i])
    ensures Unfold(space, PhysicalLines(doc)) == Trimmed(space, doc)
  {
    if doc != [] {
      var front, last := doc[..|doc| - 1], doc[|doc| - 1];
      UnfoldDocument(space, front);
      assert IsFolding(last);
      UnfoldOneMore(space, PhysicalLines(front), last.first);
      UnfoldContinuations(space, PhysicalLines(front) + [last.first], Trimmed(space, front), TrimEnd(space, last.first), last.rest);
      assert Trimmed(space, doc) == Trimmed(space, front) + [TrimEnd(space, last.first) + RestOf(last.rest)];
    }
  }

  predicate EndsInSpace(space: Space, line: string) {
    line != [] && space(line[|line| - 1])
  }

  lemma {:induction false} TrimShortens(space: Space, line: string)
    ensures |TrimEnd(space, line)| <= |line|
    ensures EndsInSpace(space, line) ==> |TrimEnd(space, line)| < |line|
  {
    if EndsInSpace(space, line) {
      TrimShortens(space, line[..|line| - 1]);
    }
  }

  /** Splitting and unfolding give back the content lines of any folding exactly when no first piece ends in white space. */
  lemma {:induction false} UnfoldUndoesFolding(space: Space, doc: seq<Folding>, breaks: seq<string>)
    requires IsDocument(doc) && AreBreaks(PhysicalLines(doc), breaks)
    ensures Unfold(space, SplitLines(JoinLines(PhysicalLines(doc), breaks))) == WholeLines(doc)
       <==> forall i :: 0 <= i < |doc| ==> !EndsInSpace(space, doc[i].first)
  {
    PhysicalLinesAreLines(doc);
    SplitUndoesJoin(PhysicalLines(doc), breaks);
    UnfoldDocument(space, doc);
    forall i | 0 <= i < |doc|
      ensures Trimmed(space, doc)[i] == WholeLines(doc)[i] <==> !EndsInSpace(space, doc[i].first)
    {
      TrimShortens(space, doc[i].first);
    }
    if Trimmed(space, doc) == WholeLines(doc) {
      forall i | 0 <= i < |doc|
        ensures !EndsInSpace(space, doc[i].first)
      {
        assert Trimmed(space, doc)[i] == WholeLines(doc)[i];
      }
    }
  }
}
