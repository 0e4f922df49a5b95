// What `src/discussions/parse.ts` writes: headings, entries and whole files.
module DiscussionWrite {
  import opened Strings
  import opened Options
  import opened Space
  import opened Text
  import opened DiscussionText

  // Headings

  function Title(kind: Kind): string {
    match kind
    case Note => "Note"
    case Idea => "Idea"
    case Question => "Question"
    case Decision => "Decision"
  }

  const SEPARATOR := " \U{B7} "

  function JoinParts(parts: seq<string>): string {
    if |parts| == 0 then ""
    else if |parts| == 1 then parts[0]
    else parts[0] + (SEPARATOR + JoinParts(parts[1..]))
  }

  function Segments(h: Heading): seq<string> {
    [Title(h.kind)] + (if h.state.Some? then [StateWord(h.state.value)] else []) + [h.date, h.author]
  }

  function FormatHeading(h: Heading): string {
    "## " + (JoinParts(Segments(h)) + if h.id.Some? then " ^" + h.id.value else "")
  }

  predicate IsMark(c: char) {
    c == DOT || c == '^' || c == '\r' || c == '\n'
  }

  function MarkLength(s: string): (n: nat)
    ensures n <= |s|
    ensures s != "" && IsMark(s[0]) ==> n > 0
  {
    if s == "" || !IsMark(s[0]) then 0 else 1 + MarkLength(s[1..])
  }

  function SpaceMarks(s: string): string {
    if s == "" then ""
    else if IsMark(s[0]) then " " + SpaceMarks(s[MarkLength(s)..])
    else [s[0]] + SpaceMarks(s[1..])
  }

  function SpaceRuns(s: string): string {
    if s == "" then ""
    else if IsSpace(s[0]) then " " + SpaceRuns(s[SpaceLength(s)..])
    else [s[0]] + SpaceRuns(s[1..])
  }

  function CleanAuthor(author: string): string {
    Trimmed(SpaceRuns(SpaceMarks(author)))
  }

  // Bodies

  function CrLfToLf(s: string): string {
    if s == "" then ""
    else if "\r\n" <= s then "\n" + CrLfToLf(s[2..])
    else [s[0]] + CrLfToLf(s[1..])
  }

  /** The lines with headings outside fences escaped, and a fence left open closed. */
  function CleanLines(fence: Option<char>, lines: seq<string>): (r: seq<string>)
    ensures lines != [] ==> r != []
    decreases |lines|
  {
    if lines == [] then if fence.None? then [] else [[fence.value, fence.value, fence.value]]
    else
      [if Starts(fence, lines[0]) then "\\" + lines[0] else lines[0]]
      + CleanLines(NextFence(fence, lines[0]), lines[1..])
  }

  /** The lines of a body as the cleaner takes it. */
  function BodyLines(body: string): (lines: seq<string>)
    ensures lines != []
  {
    Split(Trimmed(CrLfToLf(body)))
  }

  function CleanBody(body: string): string {
    Join(CleanLines(None, BodyLines(body)))
  }

  lemma CleanStep(done: seq<string>, fence: Option<char>, lines: seq<string>, i: nat)
    requires i < |lines|
    ensures done + CleanLines(fence, lines[i..])
         == (done + [if Starts(fence, lines[i]) then "\\" + lines[i] else lines[i]])
            + CleanLines(NextFence(fence, lines[i]), lines[i + 1..])
  {
    hide Starts;
    hide NextFence;
    assert lines[i..][1..] == lines[i + 1..];
  }

  method CleanBodyLoop(body: string) returns (clean: string)
    ensures clean == CleanBody(body)
  {
    hide FenceOf;
    hide HeadingText;
    hide CleanLines;
    var lines := BodyLines(body);
    var out: seq<string> := [];
    var fence: Option<char> := None;
    CleanFrom(lines);
    for i := 0 to |lines|
      invariant out + CleanLines(fence, lines[i..]) == CleanLines(None, lines)
    {
      var line := lines[i];
      var mark := FenceOf(line);
      CleanStep(out, fence, lines, i);
      if mark.Some? {
        if fence.None? {
          fence := mark;
        } else if mark == fence {
          fence := None;
        }
        out := out + [line];
      } else {
        out := out + [if fence.None? && HeadingText(line).Some? then "\\" + line else line];
      }
    }
    CleanEnd(fence, lines[|lines|..]);
    assert out + [] == out;
    if fence.Some? {
      out := out + [[fence.value, fence.value, fence.value]];
    }
    return Join(out);
  }

  lemma CleanFrom(lines: seq<string>)
    ensures [] + CleanLines(None, lines[0..]) == CleanLines(None, lines)
  {
    assert lines[0..] == lines;
  }

  lemma CleanEnd(fence: Option<char>, none: seq<string>)
    requires none == []
    ensures CleanLines(fence, none) == if fence.None? then [] else [[fence.value, fence.value, fence.value]]
  {
  }

  function FormatEntry(h: Heading, body: string): string {
    FormatHeading(h) + "\n\n" + CleanBody(body) + "\n"
  }

  // Files

  predicate HasCrLf(text: string) {
    exists k :: 0 <= k < |text| - 1 && text[k] == '\r' && text[k + 1] == '\n'
  }

  function LfToCrLf(s: string): string {
    if s == "" then "" else (if s[0] == '\n' then "\r\n" else [s[0]]) + LfToCrLf(s[1..])
  }

  predicate EndsWith(s: string, tail: string) {
    |tail| <= |s| && s[|s| - |tail|..] == tail
  }

  function AppendBlock(text: string, block: string): string {
    var eol := if HasCrLf(text) then "\r\n" else "\n";
    var own := if HasCrLf(text) then LfToCrLf(block) else block;
    if Trimmed(text) == "" then text + own
    else
      var ended := if EndsWith(text, eol) then text else text + eol;
      if EndsWith(ended, eol + eol) then ended + own else ended + eol + own
  }

  /** Every line is ended by a carriage return and a newline. */
  predicate AllCrLf(s: string) {
    forall k :: 0 <= k < |s| && s[k] == '\n' ==> k > 0 && s[k - 1] == '\r'
  }

  /** Appending keeps a file's line ends, of either kind. */
  lemma EndsKept(text: string, block: string)
    requires '\r' !in block
    ensures '\r' !in text ==> '\r' !in AppendBlock(text, block)
    ensures AllCrLf(text) && '\n' in text ==> AllCrLf(AppendBlock(text, block))
  {
    if AllCrLf(text) && '\n' in text {
      var k :| 0 <= k < |text| && text[k] == '\n';
      assert text[k - 1] == '\r' && text[k - 1 + 1] == '\n';
      AllMadeCrLf(block);
      var own := LfToCrLf(block);
      CrLfOn(text, own);
      CrLfOn(text, "\r\n");
      CrLfOn(text + "\r\n", own);
      CrLfOn(text + "\r\n", "\r\n");
      CrLfOn(text + "\r\n" + "\r\n", own);
    }
  }

  lemma CrLfOn(s: string, t: string)
    requires AllCrLf(s) && AllCrLf(t)
    ensures AllCrLf(s + t)
  {
    forall k | 0 <= k < |s + t| && (s + t)[k] == '\n' ensures k > 0 && (s + t)[k - 1] == '\r' {
      if k >= |s| {
        assert t[k - |s|] == '\n';
      }
    }
  }

  lemma {:induction false} AllMadeCrLf(s: string)
    ensures AllCrLf(LfToCrLf(s))
  {
    if s != "" {
      AllMadeCrLf(s[1..]);
      CrLfOn(if s[0] == '\n' then "\r\n" else [s[0]], LfToCrLf(s[1..]));
    }
  }

  // Reading a heading back

  /** A heading the writer may be given: a state its kind has, a date, and a cleaned author. */
  predicate GoodHeading(h: Heading) {
    && (h.state.None? <==> States(h.kind) == {}) && (h.state.Some? ==> h.state.value in States(h.kind))
    && IsDate(h.date) && GoodAuthor(h.author) && (h.id.Some? ==> IsId(h.id.value))
    && (h.id.None? ==> '^' !in h.author)
  }

  predicate GoodAuthor(author: string) {
    author != "" && !IsSpace(author[0]) && !IsSpace(author[|author| - 1]) && DOT !in author && Unbroken(author)
  }

  lemma {:induction false} NoMarksLeft(s: string)
    ensures forall k :: 0 <= k < |SpaceMarks(s)| ==> !IsMark(SpaceMarks(s)[k])
  {
    if s != "" {
      NoMarksLeft(if IsMark(s[0]) then s[MarkLength(s)..] else s[1..]);
    }
  }

  lemma {:induction false} RunsSingle(s: string)
    requires forall k :: 0 <= k < |s| ==> !IsMark(s[k])
    ensures forall k :: 0 <= k < |SpaceRuns(s)| ==> !IsMark(SpaceRuns(s)[k]) && !IsTerminator(SpaceRuns(s)[k])
  {
    if s != "" {
      RunsSingle(if IsSpace(s[0]) then s[SpaceLength(s)..] else s[1..]);
    }
  }

  /** A cleaned author is empty or one the heading can hold, with or without an id. */
  lemma CleanAuthorGood(author: string)
    ensures var c := CleanAuthor(author); c == "" || (GoodAuthor(c) && '^' !in c)
  {
    NoMarksLeft(author);
    RunsSingle(SpaceMarks(author));
    var s := SpaceRuns(SpaceMarks(author));
    TrimEnds(s, |s|);
    hide TrimBack;
  }

  lemma {:induction false} TrimEnds(s: string, n: nat)
    requires n <= |s|
    ensures TrimBack(s, n) > 0 ==> !IsSpace(s[TrimBack(s, n) - 1])
  {
    if n > 0 && IsSpace(s[n - 1]) {
      TrimEnds(s, n - 1);
    }
  }

  lemma TrimmedWhole(s: string)
    requires s != "" && !IsSpace(s[0]) && !IsSpace(s[|s| - 1])
    ensures Trimmed(s) == s
  {
    assert s[..|s|] == s && s[0..] == s;
  }

  lemma {:induction false} TrimBackAfter(s: string, spaces: string)
    requires Spaces(spaces)
    ensures TrimBack(s + spaces, |s + spaces|) == TrimBack(s, |s|)
    decreases |spaces|
  {
    var t := s + spaces;
    if spaces == "" {
      assert t == s;
    } else {
      var n := |spaces| - 1;
      assert t[|t| - 1] == spaces[n];
      assert t[..|t| - 1] == s + spaces[..n];
      TrimBackAfter(s, spaces[..n]);
      TrimBackSlice(t, |t| - 1);
    }
  }

  lemma {:induction false} TrimBackSlice(t: string, n: nat)
    requires n <= |t|
    ensures TrimBack(t, n) == TrimBack(t[..n], n)
    decreases n
  {
    if n > 0 {
      assert t[..n][n - 1] == t[n - 1];
      assert t[..n][..n - 1] == t[..n - 1];
      TrimBackSlice(t, n - 1);
      TrimBackSlice(t[..n], n - 1);
    }
  }

  lemma {:induction false} SpaceBefore(spaces: string, s: string)
    requires Spaces(spaces)
    ensures SpaceLength(spaces + s) == |spaces| + SpaceLength(s)
  {
    if spaces == "" {
      assert spaces + s == s;
    } else {
      assert (spaces + s)[1..] == spaces[1..] + s;
      SpaceBefore(spaces[1..], s);
    }
  }

  lemma TrimmedPadded(before: string, s: string, after: string)
    requires s != "" && !IsSpace(s[0]) && !IsSpace(s[|s| - 1]) && Spaces(before) && Spaces(after)
    ensures Trimmed(before + s + after) == s
  {
    var t := before + s;
    TrimBackAfter(t, after);
    assert t[|t| - 1] == s[|s| - 1];
    assert (t + after)[..|t|] == t;
    SpaceBefore(before, s);
    assert t[|before|..] == s;
    hide TrimBack;
  }

  lemma {:induction false} DotAfter(p: string, rest: string)
    requires DOT !in p
    ensures DotAt(p + rest) == |p| + DotAt(rest)
  {
    if p == "" {
      assert p + rest == rest;
    } else {
      assert (p + rest)[1..] == p[1..] + rest;
      DotAfter(p[1..], rest);
    }
  }

  /** A part of a heading: text with nothing to trim and no dot. */
  predicate IsPart(p: string) {
    p != "" && !IsSpace(p[0]) && !IsSpace(p[|p| - 1]) && DOT !in p
  }

  lemma PartsAtDot(a: string, x: string)
    requires DOT !in a
    ensures Parts(a + ([DOT] + x)) == [Trimmed(a)] + Parts(x)
  {
    var s := a + ([DOT] + x);
    DotAfter(a, [DOT] + x);
    assert DotAt(s) == |a|;
    hide DotAt;
    hide Trimmed;
    assert s[..|a|] == a && s[|a| + 1..] == x;
  }

  lemma PartsNoDot(s: string)
    requires DOT !in s
    ensures Parts(s) == [Trimmed(s)]
  {
    DotAfter(s, "");
    assert s + "" == s;
    hide Trimmed;
  }

  lemma SplitSeparator(before: string, p: string, rest: string)
    ensures before + (p + (SEPARATOR + rest)) == (before + p + " ") + ([DOT] + (" " + rest))
  {
    assert SEPARATOR == " " + ([DOT] + " ");
    Assoc(" ", [DOT] + " ", rest);
    Assoc([DOT], " ", rest);
    Assoc(before, p, " " + ([DOT] + (" " + rest)));
    Assoc(before + p, " ", [DOT] + (" " + rest));
  }

  lemma {:induction false} PartsJoined(before: string, parts: seq<string>)
    requires Spaces(before) && DOT !in before && parts != []
    requires forall k :: 0 <= k < |parts| ==> IsPart(parts[k])
    ensures Parts(before + JoinParts(parts)) == parts
    decreases |parts|
  {
    var p := parts[0];
    hide Parts;
    hide Trimmed;
    if |parts| == 1 {
      TrimmedPadded(before, p, "");
      assert before + p + "" == before + p;
      PartsNoDot(before + p);
    } else {
      SplitSeparator(before, p, JoinParts(parts[1..]));
      TrimmedPadded(before, p, " ");
      PartsAtDot(before + p + " ", " " + JoinParts(parts[1..]));
      PartsJoined(" ", parts[1..]);
      assert parts == [p] + parts[1..];
    }
  }

  lemma {:induction false} LowerFixed(s: string)
    requires forall k :: 0 <= k < |s| ==> 'a' <= s[k] <= 'z'
    ensures Lower(s) == s
  {
    if s != "" {
      LowerFixed(s[1..]);
    }
  }

  lemma LowerTitle(first: char, rest: string)
    requires forall k :: 0 <= k < |rest| ==> 'a' <= rest[k] <= 'z'
    ensures Lower([first] + rest) == [LowerChar(first)] + rest
  {
    LowerFixed(rest);
    assert ([first] + rest)[1..] == rest;
  }

  lemma TitleRead(kind: Kind)
    ensures KindOf(Lower(Title(kind))) == Some(kind)
  {
    hide Lower;
    match kind {
      case Note =>
        assert ['n'] + "ote" == "note" && ['N'] + "ote" == "Note";
        LowerTitle('N', "ote");
      case Idea =>
        assert ['i'] + "dea" == "idea" && ['I'] + "dea" == "Idea";
        LowerTitle('I', "dea");
      case Question =>
        assert ['q'] + "uestion" == "question" && ['Q'] + "uestion" == "Question";
        LowerTitle('Q', "uestion");
      case Decision =>
        assert ['d'] + "ecision" == "decision" && ['D'] + "ecision" == "Decision";
        LowerTitle('D', "ecision");
    }
  }

  lemma TitlePart(kind: Kind)
    ensures IsPart(Title(kind))
  {
  }

  lemma StateRead(state: State)
    ensures StateOf(Lower(StateWord(state))) == Some(state) && IsPart(StateWord(state))
  {
    LowerFixed(StateWord(state));
  }

  lemma DatePart(date: string)
    requires IsDate(date)
    ensures IsPart(date)
  {
    assert IsDigit(date[0]) && IsDigit(date[9]);
    assert forall k :: 0 <= k < 10 ==> date[k] == '-' || IsDigit(date[k]);
  }

  lemma SegmentParts(h: Heading)
    requires GoodHeading(h)
    ensures forall k :: 0 <= k < |Segments(h)| ==> IsPart(Segments(h)[k])
  {
    hide IsDate;
    hide Title;
    hide StateWord;
    hide Lower;
    hide States;
    assert IsPart(h.author);
    hide IsPart;
    TitlePart(h.kind);
    DatePart(h.date);
    if h.state.Some? {
      StateRead(h.state.value);
    }
  }

  lemma SegmentsRead(h: Heading)
    requires GoodHeading(h)
    ensures Parts(JoinParts(Segments(h))) == Segments(h)
    ensures HeadingOf(Segments(h), h.id) == Some(h)
  {
    TitleRead(h.kind);
    if h.state.Some? {
      StateRead(h.state.value);
    }
    SegmentParts(h);
    hide IsDate;
    hide IsPart;
    hide Title;
    hide StateWord;
    hide Lower;
    hide Parts;
    PartsJoined("", Segments(h));
    assert "" + JoinParts(Segments(h)) == JoinParts(Segments(h));
  }

  // The heading's id

  lemma {:induction false} IdStartAt(s: string, id: string)
    requires forall k :: 0 <= k < |id| ==> IsIdChar(id[k])
    requires s != "" && !IsIdChar(s[|s| - 1])
    ensures IdStart(s + id, |s + id|) == |s|
    decreases |id|
  {
    var t := s + id;
    if id == "" {
      assert t == s;
    } else {
      var n := |id| - 1;
      assert t[|t| - 1] == id[n];
      assert t[..|t| - 1] == s + id[..n];
      IdStartAt(s, id[..n]);
      IdStartSlice(t, |t| - 1);
    }
  }

  lemma {:induction false} IdStartSlice(t: string, n: nat)
    requires n <= |t|
    ensures IdStart(t, n) == IdStart(t[..n], n)
    decreases n
  {
    if n > 0 {
      assert t[..n][n - 1] == t[n - 1];
      assert t[..n][..n - 1] == t[..n - 1];
      IdStartSlice(t, n - 1);
      IdStartSlice(t[..n], n - 1);
    }
  }

  lemma IdEnds(id: string)
    requires IsId(id)
    ensures !IsSpace(id[|id| - 1]) && !IsSpace('^') && !IsIdChar('^') && IsSpace(' ')
  {
    assert IsIdChar(id[|id| - 1]);
  }

  lemma CaretPlace(s: string, id: string)
    ensures var t := s + " ^" + id;
            && |t| == |s| + 2 + |id| && t[|s| + 1] == '^' && t[|s| + 2..|t|] == id && t[..|s| + 1] == s + " "
  {
    var front := s + " ^";
    assert front[|s| + 1] == '^' && front[..|s| + 1] == s + " ";
    assert (front + id)[..|s| + 1] == front[..|s| + 1];
  }

  /** A caret and an id after text that does not end in whitespace: the id is found, and where the text ends. */
  lemma IdFound(s: string, id: string)
    requires s != "" && !IsSpace(s[|s| - 1]) && IsId(id)
    ensures TrailingId(s + " ^" + id) == Some((|s|, id))
  {
    IdEnds(id);
    CaretPlace(s, id);
    var front := s + " ^";
    var t := front + id;
    assert front[|front| - 1] == '^';
    assert t[|t| - 1] == id[|id| - 1];
    assert TrimBack(t, |t|) == |t|;
    IdStartAt(front, id);
    TrimBackSlice(t, |s| + 1);
    TrimBackAfter(s, " ");
    assert TrimBack(s, |s|) == |s|;
    hide IdStart;
    hide TrimBack;
  }

  lemma NoIdFound(s: string)
    requires '^' !in s
    ensures TrailingId(s).None?
  {
  }

  // A heading and its entry

  /** A heading's text, after the hashes. */
  function HeadingBody(h: Heading): string {
    JoinParts(Segments(h)) + if h.id.Some? then " ^" + h.id.value else ""
  }

  lemma {:induction false} JoinedEnds(parts: seq<string>)
    requires parts != [] && forall k :: 0 <= k < |parts| ==> IsPart(parts[k])
    ensures var s := JoinParts(parts); s != "" && !IsSpace(s[0]) && !IsSpace(s[|s| - 1])
  {
    var p := parts[0];
    if |parts| > 1 {
      JoinedEnds(parts[1..]);
      var rest := JoinParts(parts[1..]);
      var s := p + (SEPARATOR + rest);
      assert s[0] == p[0];
      assert (SEPARATOR + rest)[|SEPARATOR + rest| - 1] == rest[|rest| - 1];
    }
  }

  lemma {:induction false} NoCaret(parts: seq<string>)
    requires forall k :: 0 <= k < |parts| ==> '^' !in parts[k]
    ensures '^' !in JoinParts(parts)
  {
    if |parts| > 1 {
      NoCaret(parts[1..]);
    }
  }

  lemma {:induction false} JoinedUnbroken(parts: seq<string>)
    requires forall k :: 0 <= k < |parts| ==> Unbroken(parts[k])
    ensures Unbroken(JoinParts(parts))
  {
    if |parts| > 1 {
      JoinedUnbroken(parts[1..]);
    }
  }

  lemma PlainDate(date: string)
    requires IsDate(date)
    ensures '^' !in date && Unbroken(date)
  {
    assert forall k :: 0 <= k < 10 ==> date[k] == '-' || IsDigit(date[k]);
  }

  lemma PlainSegments(h: Heading)
    requires GoodHeading(h)
    ensures forall k :: 0 <= k < |Segments(h)| ==> Unbroken(Segments(h)[k])
    ensures h.id.None? ==> forall k :: 0 <= k < |Segments(h)| ==> '^' !in Segments(h)[k]
  {
    PlainDate(h.date);
    hide IsDate;
  }

  lemma IdTaken(core: string, id: string)
    requires core != "" && !IsSpace(core[0]) && !IsSpace(core[|core| - 1]) && IsId(id)
    ensures WithoutId(core + " ^" + id) == (core, Some(id))
  {
    IdEnds(id);
    var text := core + " ^" + id;
    assert text[0] == core[0] && text[|text| - 1] == id[|id| - 1];
    TrimmedWhole(text);
    var padded := " " + core;
    Assoc(" ", core, " ^");
    Assoc(" ", core + " ^", id);
    assert padded[|padded| - 1] == core[|core| - 1];
    IdFound(padded, id);
    assert (padded + " ^" + id)[..|padded|] == padded by { Assoc(padded, " ^", id); }
    TrimmedPadded(" ", core, "");
    assert " " + core + "" == padded;
    hide Trimmed;
    hide TrailingId;
  }

  lemma NoIdTaken(core: string)
    requires core != "" && !IsSpace(core[0]) && !IsSpace(core[|core| - 1]) && '^' !in core
    ensures WithoutId(core) == (core, None)
  {
    TrimmedWhole(core);
    NoIdFound(" " + core);
    hide Trimmed;
    hide TrailingId;
  }

  /** A written heading reads back as the heading that was written. */
  lemma HeadingRead(h: Heading)
    requires GoodHeading(h)
    ensures ParseHeading(HeadingBody(h)) == Some(h)
  {
    SegmentsRead(h);
    SegmentParts(h);
    PlainSegments(h);
    hide IsDate;
    hide Segments;
    hide Parts;
    hide HeadingOf;
    hide WithoutId;
    JoinedEnds(Segments(h));
    var core := JoinParts(Segments(h));
    if h.id.Some? {
      Assoc(core, " ^", h.id.value);
      IdTaken(core, h.id.value);
    } else {
      NoCaret(Segments(h));
      assert core + "" == core;
      NoIdTaken(core);
    }
  }

  lemma IdAfter(core: string, id: string)
    requires core != "" && !IsSpace(core[0]) && Unbroken(core) && IsId(id)
    ensures var s := core + (" ^" + id);
            s != "" && !IsSpace(s[0]) && !IsSpace(s[|s| - 1]) && Unbroken(s)
  {
    IdEnds(id);
    assert forall k :: 0 <= k < |id| ==> IsIdChar(id[k]) && !IsTerminator(id[k]);
    var tail := " ^" + id;
    assert tail[|tail| - 1] == id[|id| - 1];
  }

  lemma BodyEnds(h: Heading)
    requires GoodHeading(h)
    ensures var s := HeadingBody(h);
            s != "" && !IsSpace(s[0]) && !IsSpace(s[|s| - 1]) && Unbroken(s)
  {
    hide IsDate;
    hide Segments;
    hide Parts;
    hide HeadingOf;
    hide JoinParts;
    SegmentsRead(h);
    SegmentParts(h);
    PlainSegments(h);
    JoinedEnds(Segments(h));
    JoinedUnbroken(Segments(h));
    hide IsPart;
    var core := JoinParts(Segments(h));
    if h.id.Some? {
      IdAfter(core, h.id.value);
    } else {
      assert core + "" == core;
    }
  }

  lemma HashLine(text: string)
    requires text != "" && !IsSpace(text[0]) && Unbroken(text)
    ensures HeadingText("## " + text) == Some(text) && Starts(None, "## " + text)
    ensures Bare("## " + text) == "## " + text && OneLine("## " + text)
  {
    var line := "## " + text;
    assert line[2..] == " " + text && (" " + text)[1..] == text;
    assert TabLength(text) == 0;
    assert TabLength(" " + text) == 1;
    assert line[3..] == text;
    assert line[0] == '#' && SpaceLength(line) == 0;
    assert line[|line| - 1] == text[|text| - 1];
    hide TabLength;
    hide SpaceLength;
  }

  /** A written heading's line starts an entry, and the entry says what was written. */
  lemma EntryRead(h: Heading, body: seq<string>)
    requires GoodHeading(h)
    ensures Starts(None, FormatHeading(h)) && Bare(FormatHeading(h)) == FormatHeading(h) && OneLine(FormatHeading(h))
    ensures var e := EntryOf(FormatHeading(h), body);
            var (said, answer) := if h.kind == Question then SplitAnswer(body) else (Trimmed(Join(body)), None);
            e == Entry(h.kind, h.state, Some(h.date), Some(h.author), h.id, HeadingBody(h), said, answer,
                       if h.kind == Decision then Supersedes(said) else [], false)
  {
    HeadingRead(h);
    BodyEnds(h);
    TrimmedWhole(HeadingBody(h));
    HashLine(HeadingBody(h));
    assert FormatHeading(h) == "## " + HeadingBody(h);
    hide HeadingBody;
    hide FormatHeading;
    hide ParseHeading;
    hide HeadingText;
    hide Trimmed;
    hide SplitAnswer;
    hide Starts;
  }
}
