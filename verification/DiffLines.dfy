// What the differ takes for the lines of a text.
module DiffLines {
  import opened Text

  function SplitLines(text: string): seq<string> {
    if text == "" then []
    else
      var lines := BareAll(Split(text));
      if lines[|lines| - 1] == "" then lines[..|lines| - 1] else lines
  }

  lemma {:induction false} BareAllOneLine(lines: seq<string>)
    requires AllOneLine(lines)
    ensures AllOneLine(BareAll(lines))
  {
    if |lines| > 1 {
      BareAllOneLine(lines[1..]);
    }
  }

  lemma SplitLinesOneLine(text: string)
    ensures AllOneLine(SplitLines(text))
  {
    JoinSplit(text);
    BareAllOneLine(Split(text));
  }

  // Lines as a file holds them

  function LineEnd(crlf: bool): string {
    if crlf then "\r\n" else "\n"
  }

  /** The lines with a line end after each, of either kind, the last one's only where the file has it. */
  function Written(lines: seq<string>, crlf: seq<bool>, ended: bool): string
    requires |crlf| == |lines|
  {
    if lines == [] then ""
    else if |lines| == 1 then lines[0] + if ended then LineEnd(crlf[0]) else ""
    else lines[0] + LineEnd(crlf[0]) + Written(lines[1..], crlf[1..], ended)
  }

  predicate PlainLine(line: string) {
    '\n' !in line && '\r' !in line
  }

  /** The text is a file of these lines, however each is ended; with no end of its own the last is not empty. */
  ghost predicate Holds(text: string, lines: seq<string>) {
    && (forall k :: 0 <= k < |lines| ==> PlainLine(lines[k]))
    && exists crlf: seq<bool>, ended: bool ::
         |crlf| == |lines| && text == Written(lines, crlf, ended)
         && (ended || lines == [] || lines[|lines| - 1] != "")
  }

  lemma EndSplit(line: string, crlf: bool, rest: string)
    requires PlainLine(line)
    ensures Split(line + LineEnd(crlf) + rest) == [if crlf then line + "\r" else line] + Split(rest)
    ensures Bare(if crlf then line + "\r" else line) == line
  {
    var own := if crlf then line + "\r" else line;
    assert line + LineEnd(crlf) + rest == own + "\n" + rest;
    SplitPrefix(own, rest);
  }

  lemma LastSplit(line: string, crlf: bool, ended: bool)
    requires PlainLine(line)
    ensures BareAll(Split(line + if ended then LineEnd(crlf) else "")) == [line] + if ended then [""] else []
  {
    hide LineEnd;
    if ended {
      EndSplit(line, crlf, "");
      assert line + LineEnd(crlf) + "" == line + LineEnd(crlf);
      hide Split;
      BareCons(if crlf then line + "\r" else line, [""]);
    } else {
      SplitOneLine(line);
      assert line + "" == line;
    }
  }

  lemma {:induction false} WrittenSplit(lines: seq<string>, crlf: seq<bool>, ended: bool)
    requires |crlf| == |lines| && lines != [] && forall k :: 0 <= k < |lines| ==> PlainLine(lines[k])
    ensures BareAll(Split(Written(lines, crlf, ended))) == lines + if ended then [""] else []
  {
    hide Split;
    hide LineEnd;
    hide BareAll;
    hide PlainLine;
    var first := lines[0];
    if |lines| > 1 {
      var rest := Written(lines[1..], crlf[1..], ended);
      WrittenSplit(lines[1..], crlf[1..], ended);
      EndSplit(first, crlf[0], rest);
      BareCons(if crlf[0] then first + "\r" else first, Split(rest));
      hide Bare;
      hide Written;
      assert lines == [first] + lines[1..];
    } else {
      LastSplit(first, crlf[0], ended);
      assert lines == [first];
    }
  }

  lemma BareCons(line: string, more: seq<string>)
    requires more != []
    ensures BareAll([line] + more) == [Bare(line)] + BareAll(more)
  {
    assert ([line] + more)[1..] == more;
  }

  lemma WrittenNotEmpty(lines: seq<string>, crlf: seq<bool>, ended: bool)
    requires |crlf| == |lines| && lines != [] && (ended || lines[|lines| - 1] != "")
    ensures Written(lines, crlf, ended) != ""
  {
  }

  /** A file of some lines, with ends of either kind and with or without a last one, is taken for exactly those. */
  lemma LinesOf(text: string, lines: seq<string>)
    requires Holds(text, lines)
    ensures SplitLines(text) == lines
  {
    var crlf: seq<bool>, ended: bool :| |crlf| == |lines| && text == Written(lines, crlf, ended)
                                        && (ended || lines == [] || lines[|lines| - 1] != "");
    if lines != [] {
      WrittenSplit(lines, crlf, ended);
      WrittenNotEmpty(lines, crlf, ended);
      assert lines + [] == lines;
      assert (lines + [""])[..|lines|] == lines;
    }
  }

  // When two texts have the same lines

  /** The first text is the second with its last line ended. */
  predicate EndedOnce(x: string, y: string) {
    y != "" && y[|y| - 1] != '\n' && x == y + "\n"
  }

  lemma {:induction false} NothingBare(lines: seq<string>)
    requires forall k :: 0 <= k < |lines| ==> '\r' !in lines[k]
    ensures BareAll(lines) == lines
  {
    if |lines| > 1 {
      NothingBare(lines[1..]);
    }
  }

  /** The text without a last line end. */
  function Open(text: string): string {
    if text != "" && text[|text| - 1] == '\n' then text[..|text| - 1] else text
  }

  lemma SplitOpen(text: string)
    requires '\r' !in text && text != ""
    ensures SplitLines(text) == Split(Open(text))
  {
    NoReturns(text);
    NothingBare(Split(text));
    LastPiece(text);
    if text[|text| - 1] == '\n' {
      var x := text[..|text| - 1];
      EndOfLine(x);
      assert text == x + "\n";
      assert (Split(x) + [""])[..|Split(x)|] == Split(x);
    }
    hide Split;
  }

  lemma SameOpen(x: string, y: string)
    requires x != "" && y != ""
    ensures Open(x) == Open(y) <==> x == y || EndedOnce(x, y) || EndedOnce(y, x)
  {
    assert x == Open(x) || x == Open(x) + "\n";
    assert y == Open(y) || y == Open(y) + "\n";
  }

  /** Without carriage returns, two texts have the same lines exactly when they agree up to the end of a last line. */
  lemma SameLines(x: string, y: string)
    requires '\r' !in x && '\r' !in y
    ensures SplitLines(x) == SplitLines(y) <==> x == y || EndedOnce(x, y) || EndedOnce(y, x)
  {
    if x != "" && y != "" {
      SplitOpen(x);
      SplitOpen(y);
      JoinSplit(Open(x));
      JoinSplit(Open(y));
      SameOpen(x, y);
      hide SplitLines;
      hide Split;
      hide Join;
      hide Open;
      hide EndedOnce;
    } else if x != "" {
      SplitOpen(x);
    } else if y != "" {
      SplitOpen(y);
    }
  }
}
