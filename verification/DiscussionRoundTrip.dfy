// An appended entry reads back: the old entries as they were, then exactly that entry.
module DiscussionRoundTrip {
  import opened Strings
  import opened Options
  import opened Space
  import opened Text
  import opened DiscussionText
  import opened DiscussionLines
  import opened DiscussionWrite
  import opened DiscussionAppend
  import opened DiscussionTorn

  function FileLines(text: string): (lines: seq<string>)
    ensures lines != []
  {
    BareLines(Split(text))
  }

  /** The lines of a body as the file's reader sees them. */
  function StoredLines(body: string, crlf: bool): (lines: seq<string>)
    ensures lines != []
  {
    if crlf then CleanedLines(body) else BareLines(CleanedLines(body))
  }

  function OwnBody(body: string, crlf: bool): seq<string> {
    [""] + StoredLines(body, crlf) + [""]
  }

  function Own(h: Heading, body: string, crlf: bool): string {
    if crlf then LfToCrLf(FormatEntry(h, body)) else FormatEntry(h, body)
  }

  lemma OwnRead(h: Heading, body: string, crlf: bool)
    requires GoodHeading(h)
    ensures BareLines(Split(Own(h, body, crlf))) == [FormatHeading(h)] + OwnBody(body, crlf)
  {
    hide GoodHeading;
    hide EntryOf;
    hide Starts;
    WrittenLines(h, body);
    EntryRead(h, []);
    var head, clean := FormatHeading(h), CleanedLines(body);
    var lines := [head] + ([""] + clean + [""]);
    hide FormatHeading;
    hide FormatEntry;
    hide CleanedLines;
    if crlf {
      CrLfSplit(FormatEntry(h, body));
      BareWithCr(lines);
      assert lines[..|lines| - 1] + [Bare(lines[|lines| - 1])] == lines;
    } else {
      BareOwn(head, clean);
    }
  }

  lemma BareOwn(head: string, clean: seq<string>)
    requires Bare(head) == head
    ensures BareLines([head] + ([""] + clean + [""])) == [head] + ([""] + BareLines(clean) + [""])
  {
    BareJoined([head], [""] + clean + [""]);
    BareJoined([""] + clean, [""]);
    BareJoined([""], clean);
    assert BareLines([""]) == [""] && BareLines([head]) == [head];
  }

  // Where the new entry's lines go

  predicate TornEnd(text: string) {
    HasCrLf(text) && text != "" && text[|text| - 1] == '\r'
  }

  /** The file's text with the blank line that comes before a new entry. */
  function Base(text: string): string {
    var eol := if HasCrLf(text) then "\r\n" else "\n";
    if Trimmed(text) == "" then text
    else
      var ended := if EndsWith(text, eol) then text else text + eol;
      if EndsWith(ended, eol + eol) then ended else ended + eol
  }

  lemma AppendToBase(text: string, h: Heading, body: string)
    ensures AppendBlock(text, FormatEntry(h, body)) == Base(text) + Own(h, body, HasCrLf(text))
  {
    hide FormatEntry;
    hide LfToCrLf;
  }

  /** Whether some lines are a file's, give or take a blank line at the end. */
  ghost predicate Same(a: seq<string>, file: seq<string>) {
    a == file || a == file + [""] || file == a + [""]
  }

  lemma {:induction false} LastChar(s: string)
    ensures var x := Split(s); x[|x| - 1] != "" ==> s != "" && x[|x| - 1][|x[|x| - 1]| - 1] == s[|s| - 1]
  {
    if s != "" {
      LastChar(s[1..]);
    }
  }

  lemma CrAtEnd(s: string)
    ensures var x := Split(s); Split(s + "\r") == x[..|x| - 1] + [x[|x| - 1] + "\r"]
  {
    SplitOneLine("\r");
    SplitGlue(s, "\r");
    hide Split;
    var x := Split(s);
    assert ["\r"][1..] == [];
    assert [x[|x| - 1] + "\r"] + [] == [x[|x| - 1] + "\r"];
  }

  lemma CrLfEnd(s: string)
    ensures var x := Split(s); Split(s + "\r\n") == x[..|x| - 1] + [x[|x| - 1] + "\r"] + [""]
  {
    hide Split;
    CrAtEnd(s);
    EndOfLine(s + "\r");
    assert "\r\n" == "\r" + "\n";
    Assoc(s, "\r", "\n");
  }

  lemma DropEnd(s: string)
    requires s != "" && s[|s| - 1] == '\n'
    ensures s == s[..|s| - 1] + "\n" && Split(s) == Split(s[..|s| - 1]) + [""]
  {
    hide Split;
    var x := s[..|s| - 1];
    assert s == x + "\n";
    EndOfLine(x);
  }

  lemma BarePlus(a: seq<string>, line: string)
    ensures BareLines(a + [line]) == BareLines(a) + [Bare(line)]
  {
    BareJoined(a, [line]);
    assert BareLines([line]) == [Bare(line)];
  }

  lemma LfBase(text: string) returns (a: seq<string>)
    requires !HasCrLf(text) && Trimmed(text) != ""
    ensures Split(Base(text)) == a + [""] && Same(BareLines(a), FileLines(text))
  {
    hide Split;
    hide Trimmed;
    hide HasCrLf;
    hide BareLines;
    if EndsWith(text, "\n" + "\n") {
      assert text[|text| - 2..][1] == text[|text| - 1];
      assert text[|text| - 1..] == "\n";
      DropEnd(text);
      a := Split(text[..|text| - 1]);
      BarePlus(a, "");
    } else if EndsWith(text, "\n") {
      a := Split(text);
      EndOfLine(text);
    } else {
      a := Split(text) + [""];
      EndOfLine(text);
      EndOfLine(text + "\n");
      BarePlus(Split(text), "");
      NotDoubled(text);
    }
  }

  lemma NotDoubled(text: string)
    ensures EndsWith(text + "\n", "\n" + "\n") ==> EndsWith(text, "\n")
  {
    var t := text + "\n";
    if EndsWith(t, "\n\n") {
      assert t[|t| - 2..][0] == t[|t| - 2] == text[|text| - 1];
      assert text[|text| - 1..] == "\n";
    }
  }

  lemma CrLfNotDoubled(text: string)
    ensures EndsWith(text + "\r\n", "\r\n" + "\r\n") ==> EndsWith(text, "\r\n")
  {
    var t := text + "\r\n";
    if EndsWith(t, "\r\n\r\n") {
      var tail := t[|t| - 4..];
      assert tail[0] == t[|t| - 4] && tail[1] == t[|t| - 3];
      assert text[|text| - 2..] == "\r\n";
    }
  }

  lemma LastTwo(s: string, tail: string)
    requires EndsWith(s, tail) && |tail| >= 2 && tail[|tail| - 1] == '\n' && tail[|tail| - 2] == '\r'
    ensures |s| >= 2 && s[|s| - 1] == '\n' && s[|s| - 2..] == "\r\n"
  {
    var k := |s| - |tail|;
    assert s[k..][|tail| - 1] == s[|s| - 1] && s[k..][|tail| - 2] == s[|s| - 2];
  }

  /** A text whose last line is blank but for its own carriage return. */
  lemma CrLfOnce(text: string) returns (a: seq<string>)
    requires text != "" && text[|text| - 1] == '\n'
    ensures Split(text + "\r\n") == a + [""] && BareLines(a) == FileLines(text)
  {
    hide Split;
    hide BareLines;
    DropEnd(text);
    CrLfEnd(text);
    var front := Split(text[..|text| - 1]);
    assert Split(text)[..|front|] == front;
    a := front + ["" + "\r"];
    BarePlus(front, "" + "\r");
    BarePlus(front, "");
    BareCr("");
  }

  lemma CrLfTwice(text: string) returns (a: seq<string>)
    requires text == "" || text[|text| - 1] != '\r'
    ensures Split(text + "\r\n" + "\r\n") == a + [""] && BareLines(a) == FileLines(text) + [""]
  {
    hide Split;
    hide BareLines;
    var x := Split(text);
    var n := |x| - 1;
    assert x == x[..n] + [x[n]];
    CrLfEnd(text);
    var front := x[..n] + [x[n] + "\r"];
    CrLfEnd(text + "\r\n");
    assert (front + [""])[..|front|] == front;
    a := front + ["" + "\r"];
    BarePlus(front, "" + "\r");
    BarePlus(x[..n], x[n] + "\r");
    BarePlus(x[..n], x[n]);
    LastChar(text);
    BareCr(x[n]);
    BareCr("");
  }

  lemma CrLfBase(text: string) returns (a: seq<string>)
    requires HasCrLf(text) && Trimmed(text) != "" && !TornEnd(text)
    ensures Split(Base(text)) == a + [""] && Same(BareLines(a), FileLines(text))
  {
    hide Split;
    hide Trimmed;
    hide HasCrLf;
    hide BareLines;
    hide EndsWith;
    if EndsWith(text, "\r\n" + "\r\n") {
      LastTwo(text, "\r\n" + "\r\n");
      EndsTwo(text);
      DropEnd(text);
      a := Split(text[..|text| - 1]);
      BarePlus(a, "");
      BareCr("");
    } else if EndsWith(text, "\r\n") {
      LastTwo(text, "\r\n");
      a := CrLfOnce(text);
    } else {
      CrLfNotDoubled(text);
      a := CrLfTwice(text);
    }
  }

  /** A torn file's lines once its last line is ended: the last has one carriage return more. */
  lemma TornBase(text: string) returns (a: seq<string>)
    requires TornEnd(text) && Trimmed(text) != ""
    ensures Split(Base(text)) == a + [""] && BareLines(a) == Torn(FileLines(text)) + [""]
  {
    hide Split;
    hide Trimmed;
    hide BareLines;
    TornTwice(text);
    hide Base;
    var x := Split(text);
    var n := |x| - 1;
    assert x == x[..n] + [x[n]];
    LastChar(text);
    LastLine(text);
    CrLfEnd(text);
    var front := x[..n] + [x[n] + "\r"];
    CrLfEnd(text + "\r\n");
    assert (front + [""])[..|front|] == front;
    a := front + ["" + "\r"];
    BarePlus(front, "" + "\r");
    BarePlus(x[..n], x[n] + "\r");
    BarePlus(x[..n], x[n]);
    TornBare(x[n]);
    BareCr("");
    TornLast(BareLines(x[..n]), Bare(x[n]));
  }

  lemma TornTwice(text: string)
    requires TornEnd(text) && Trimmed(text) != ""
    ensures Base(text) == text + "\r\n" + "\r\n"
  {
    hide Trimmed;
    hide HasCrLf;
    assert !EndsWith(text, "\r\n");
    CrLfNotDoubled(text);
  }

  lemma TornBare(line: string)
    requires line != "" && line[|line| - 1] == '\r'
    ensures Bare(line + "\r") == line == Bare(line) + "\r"
  {
  }

  lemma TornLast(front: seq<string>, last: string)
    ensures Torn(front + [last]) == front + [last + "\r"]
  {
  }

  /** The file's own lines as they stand with an entry after them. */
  function Ended(text: string): (lines: seq<string>)
    ensures lines != []
  {
    if TornEnd(text) then Torn(FileLines(text)) else FileLines(text)
  }

  lemma EndedShape(text: string)
    ensures FenceAtEnd(Ended(text)) == FenceAtEnd(FileLines(text))
        && FrontLeftOpen(Ended(text)) == FrontLeftOpen(FileLines(text))
    ensures EntriesOf(Ended(text)) == Entries(text) <==> (TornEnd(text) ==> KeptFile(FileLines(text)))
  {
    hide TornEnd;
    hide Torn;
    hide KeptFile;
    hide FenceAtEnd;
    hide FrontLeftOpen;
    hide EntriesOf;
    FileTorn(FileLines(text));
  }

  lemma EndsTwo(s: string)
    requires |s| >= 2 && s[|s| - 2..] == "\r\n"
    ensures EndsWith(s, "\r\n")
  {
  }

  lemma BareCr(line: string)
    ensures Bare(line + "\r") == line && (line == "" || line[|line| - 1] != '\r' ==> Bare(line) == line)
  {
  }

  // What is read from the lines put together

  function BlocksOf(lines: seq<string>): seq<Block> {
    BlocksIn(None, lines[BodyStart(lines)..], BodyStart(lines))
  }

  /** Whether lines put after a file's own, of which the first is a heading, are one entry of their own. */
  ghost predicate ReadAlone(file: seq<string>, own: seq<string>)
    requires own != []
  {
    && FenceAtEnd(file) == None
    && !(FrontLeftOpen(file) && CloseAt(own) < |own|)
    && UntilStart(None, own[1..]) == |own| - 1
  }

  lemma HeadingFirst(h: string, b: seq<string>)
    requires !Closes(h)
    ensures !FrontOpened([h] + b)
  {
    assert ([h] + b)[0] == h;
  }

  /** Lines after a file's own are one block of their own exactly when they are read alone. */
  lemma OwnBlock(file: seq<string>, h: string, b: seq<string>)
    requires Starts(None, h) && !Closes(h)
    ensures Block(|file|, |file| + 1 + |b|) in BlocksOf(file + ([h] + b)) <==> ReadAlone(file, [h] + b)
    ensures ReadAlone(file, [h] + b) ==> EntriesOf(file + ([h] + b)) == EntriesOf(file) + [EntryOf(h, b)]
  {
    hide BodyStart;
    hide UntilStart;
    hide CloseAt;
    hide BlocksIn;
    hide EntriesIn;
    hide EntryOf;
    hide FenceAfter;
    hide Closes;
    hide Starts;
    hide FrontOpened;
    var own := [h] + b;
    var all := file + own;
    assert own[1..] == b;
    HeadingFirst(h, b);
    BodyStartJoined(file, own);
    var start := BodyStart(file);
    if FrontLeftOpen(file) && CloseAt(own) < |own| {
      var later := BodyStart(all);
      var block := Block(|file|, |file| + 1 + |b|);
      if block in BlocksOf(all) {
        BlocksAfter(None, all[later..], later, block);
      }
    } else {
      var head := file[start..];
      assert all[start..] == head + own;
      BlockAmong(None, head, h, b, start);
      StartsWhen(FenceAfter(None, head), h);
      if ReadAlone(file, own) {
        EntryAlone(head, h, b);
      }
    }
  }

  lemma StartsWhen(fence: Option<char>, h: string)
    requires Starts(None, h)
    ensures Starts(fence, h) <==> fence == None
  {
  }

  lemma EntryAlone(head: seq<string>, h: string, b: seq<string>)
    requires FenceAfter(None, head) == None && Starts(None, h) && UntilStart(None, b) == |b|
    ensures EntriesIn(None, head + ([h] + b)) == EntriesIn(None, head) + [EntryOf(h, b)]
  {
    hide EntryOf;
    hide Starts;
    EntryAmong(None, head, h, b, []);
    assert [h] + b + [] == [h] + b;
    assert EntriesIn(None, []) == [];
    hide EntriesIn;
    var x := EntriesIn(None, head) + [EntryOf(h, b)];
    assert x + [] == x;
  }

  lemma SameRead(a: seq<string>, file: seq<string>)
    requires Same(a, file)
    ensures EntriesOf(a) == EntriesOf(file) && FenceAtEnd(a) == FenceAtEnd(file)
        && FrontLeftOpen(a) == FrontLeftOpen(file)
  {
    hide EntriesOf;
    hide FenceAtEnd;
    hide FrontLeftOpen;
    FileBlank(a);
    FileBlank(file);
  }

  // Blank files

  lemma {:induction false} SpacesSplit(s: string)
    requires Spaces(s)
    ensures forall k :: 0 <= k < |Split(s)| ==> Spaces(Split(s)[k])
  {
    if s != "" {
      SpacesSplit(s[1..]);
    }
  }

  lemma {:induction false} TrimBackAll(s: string, n: nat)
    requires n <= |s| && TrimBack(s, n) == 0
    ensures Spaces(s[..n])
  {
    if n > 0 {
      TrimBackAll(s, n - 1);
      assert s[..n] == s[..n - 1] + [s[n - 1]];
    }
  }

  lemma SpaceStops(t: string)
    ensures t != "" && !IsSpace(t[|t| - 1]) ==> SpaceLength(t) < |t|
  {
    var n := SpaceLength(t);
    assert n == |t| ==> t[..n] == t;
  }

  lemma BlankSpaces(s: string)
    requires Trimmed(s) == ""
    ensures Spaces(s)
  {
    TrimEnds(s, |s|);
    var t := s[..TrimBack(s, |s|)];
    assert SpaceLength(t) == |t|;
    SpaceStops(t);
    TrimBackAll(s, |s|);
    assert s[..|s|] == s;
  }

  lemma SpaceLine(line: string)
    requires Spaces(line)
    ensures !Starts(None, line) && NextFence(None, line) == None && Trimmed(line) == "" && Spaces(Bare(line))
  {
    SpaceBefore(line, "");
    assert line + "" == line;
    TrimBackAfter("", line);
    assert "" + line == line;
    assert line != "" ==> IsSpace(line[0]);
  }

  lemma {:induction false} SpaceLines(lines: seq<string>)
    requires forall k :: 0 <= k < |lines| ==> Spaces(lines[k])
    ensures UntilStart(None, lines) == |lines| && FenceAfter(None, lines) == None
    decreases |lines|
  {
    if lines != [] {
      SpaceLine(lines[0]);
      SpaceLines(lines[1..]);
      hide Starts;
      hide NextFence;
    }
  }

  /** A blank file has no entries, no fence and no front matter. */
  lemma BlankFile(lines: seq<string>)
    requires forall k :: 0 <= k < |lines| ==> Spaces(lines[k])
    ensures EntriesOf(lines) == [] && FenceAtEnd(lines) == None && !FrontOpened(lines) && BodyStart(lines) == 0
  {
    if lines != [] {
      SpaceLine(lines[0]);
    }
    SpaceLines(lines);
    assert lines[0..] == lines;
    NoneStart(None, lines, 0);
    hide UntilStart;
    hide FenceAfter;
    hide EntriesIn;
    hide Trimmed;
  }

  // The entry as it is read

  /** The entry a heading and the stored lines of its body make. */
  function Written(h: Heading, stored: seq<string>): Entry {
    var (said, answer) := if h.kind == Question then SplitAnswer(stored) else (Trimmed(Join(stored)), None);
    Entry(h.kind, h.state, Some(h.date), Some(h.author), h.id, HeadingBody(h), said, answer,
          if h.kind == Decision then Supersedes(said) else [], false)
  }

  lemma BlankAhead(lines: seq<string>)
    ensures Trimmed(Join([""] + lines)) == Trimmed(Join(lines))
  {
    assert ([""] + lines)[1..] == lines;
    if lines != [] {
      var s := Join(lines);
      hide Join;
      NewlineAhead(s);
      assert "" + "\n" + s == "\n" + s;
    } else {
      assert [""] + lines == [""];
    }
  }

  lemma NewlineAhead(s: string)
    ensures Trimmed("\n" + s) == Trimmed(s)
  {
    TrimBackPast(s, |s|);
    var n := TrimBack(s, |s|);
    var t := "\n" + s;
    if n == 0 {
      assert TrimBack(t, |t|) <= 1;
      assert t[..1] == "\n" && t[..0] == "";
      SpaceBefore("\n", "");
      assert "\n" + "" == "\n";
    } else {
      assert t[..n + 1] == "\n" + s[..n];
      SpaceBefore("\n", s[..n]);
      assert ("\n" + s[..n])[1 + SpaceLength(s[..n])..] == s[..n][SpaceLength(s[..n])..];
    }
  }

  lemma {:induction false} TrimBackPast(s: string, n: nat)
    requires n <= |s|
    ensures TrimBack(s, n) > 0 ==> TrimBack("\n" + s, n + 1) == TrimBack(s, n) + 1
    ensures TrimBack(s, n) == 0 ==> TrimBack("\n" + s, n + 1) == 0
  {
    if n > 0 {
      assert ("\n" + s)[n] == s[n - 1];
      TrimBackPast(s, n - 1);
    }
  }

  lemma SplitAhead(lines: seq<string>)
    ensures SplitAnswer([""] + lines) == SplitAnswer(lines)
  {
    var all := [""] + lines;
    assert all[0] == "" && all[1..] == lines;
    assert AnswerText("").None? && FenceOf("").None?;
    var n := AnswerAt(false, lines);
    assert AnswerAt(false, all) == n + 1;
    hide AnswerAt;
    hide AnswerText;
    BlankAhead(lines);
    BlankAhead(lines[..n]);
    hide Trimmed;
    hide Join;
    if n < |lines| {
      assert all[..n + 1] == [""] + lines[..n];
      assert all[n + 1] == lines[n] && all[n + 2..] == lines[n + 1..];
    }
  }

  lemma OwnEntry(h: Heading, body: string, crlf: bool)
    requires GoodHeading(h)
    ensures EntryOf(FormatHeading(h), OwnBody(body, crlf)) == Written(h, StoredLines(body, crlf))
  {
    hide GoodHeading;
    hide FormatHeading;
    hide StoredLines;
    hide EntryOf;
    hide HeadingBody;
    hide SplitAnswer;
    hide Trimmed;
    hide Join;
    hide Starts;
    hide Supersedes;
    var stored := StoredLines(body, crlf);
    EntryBlank(FormatHeading(h), [""] + stored);
    EntryRead(h, [""] + stored);
    SplitAhead(stored);
    BlankAhead(stored);
  }

  // The theorem

  predicate LineEnded(text: string) {
    Trimmed(text) == "" ==> text == "" || text[|text| - 1] == '\n'
  }

  /** What has to hold of a file and a body for an entry appended to it to be read back. */
  predicate Ready(text: string, body: string) {
    var stored := StoredLines(body, HasCrLf(text));
    && LineEnded(text)
    && FenceAtEnd(FileLines(text)) == None
    && !(FrontLeftOpen(FileLines(text)) && CloseAt(stored) < |stored|)
    && (HasCrLf(text) || !Hides(None, BodyLines(body)))
  }

  lemma OwnShape(h: Heading, body: string, crlf: bool)
    requires GoodHeading(h)
    ensures var stored, own := StoredLines(body, crlf), [FormatHeading(h)] + OwnBody(body, crlf);
            && own[1..] == OwnBody(body, crlf)
            && (UntilStart(None, own[1..]) == |own| - 1 <==> crlf || !Hides(None, BodyLines(body)))
            && (CloseAt(own) < |own| <==> CloseAt(stored) < |stored|)
            && Starts(None, FormatHeading(h)) && !Closes(FormatHeading(h))
  {
    var stored := StoredLines(body, crlf);
    EntryRead(h, []);
    NotAFront(h);
    CleanedShape(None, BodyLines(body));
    assert UntilStart(None, stored) == |stored| <==> crlf || !Hides(None, BodyLines(body));
    var own := [FormatHeading(h)] + OwnBody(body, crlf);
    assert own[1..] == OwnBody(body, crlf);
    hide StoredLines;
    hide CleanLines;
    hide GoodHeading;
    hide FormatHeading;
    hide Hides;
    hide EntryOf;
    UntilOwn(stored);
    CloseOwn(FormatHeading(h), stored);
    hide Closes;
    hide CloseAt;
    hide UntilStart;
    hide Starts;
  }

  lemma UntilOwn(stored: seq<string>)
    ensures UntilStart(None, [""] + stored + [""]) == |stored| + 2 <==> UntilStart(None, stored) == |stored|
  {
    BlankIsPlain(None);
    UntilBlank(None, [""] + stored);
    assert ([""] + stored)[0] == "" && ([""] + stored)[1..] == stored;
    assert UntilStart(None, [""] + stored) == 1 + UntilStart(None, stored);
  }

  lemma CloseOwn(h: string, stored: seq<string>)
    requires !Closes(h)
    ensures var own := [h] + ([""] + stored + [""]); CloseAt(own) < |own| <==> CloseAt(stored) < |stored|
  {
    BlankCloses();
    CloseJoined([""] + stored, [""]);
    CloseJoined([""], stored);
    var own := [h] + ([""] + stored + [""]);
    assert own[0] == h && own[1..] == [""] + stored + [""];
    hide Closes;
  }

  lemma NotAFront(h: Heading)
    requires GoodHeading(h)
    ensures !Closes(FormatHeading(h))
  {
    BodyEnds(h);
    var body := HeadingBody(h);
    var line := FormatHeading(h);
    assert line == "## " + body;
    hide HeadingBody;
    hide FormatHeading;
    hide GoodHeading;
    assert line[0] == '#' && line[|line| - 1] == body[|body| - 1];
    TrimmedWhole(line);
    hide Trimmed;
  }

  /** Where the appended block's lines start, and the file's lines before them. */
  lemma AppendedLines(text: string, h: Heading, body: string) returns (file: seq<string>)
    requires GoodHeading(h) && LineEnded(text)
    ensures Same(file, Ended(text))
    ensures FileLines(AppendBlock(text, FormatEntry(h, body)))
        == file + ([FormatHeading(h)] + OwnBody(body, HasCrLf(text)))
  {
    var crlf := HasCrLf(text);
    AppendToBase(text, h, body);
    OwnRead(h, body, crlf);
    var a;
    if Trimmed(text) == "" {
      a := BlankBase(text);
      assert !TornEnd(text);
    } else if TornEnd(text) {
      a := TornBase(text);
    } else if crlf {
      a := CrLfBase(text);
    } else {
      a := LfBase(text);
    }
    hide TornEnd;
    hide Base;
    hide Own;
    hide OwnBody;
    hide GoodHeading;
    hide FormatHeading;
    hide FormatEntry;
    hide AppendBlock;
    hide Split;
    hide LineEnded;
    file := BareLines(a);
    GlueLines(Base(text), Own(h, body, crlf), a);
    BareJoined(a, Split(Own(h, body, crlf)));
    hide BareLines;
    hide HasCrLf;
  }

  lemma BlankBase(text: string) returns (a: seq<string>)
    requires Trimmed(text) == "" && LineEnded(text)
    ensures Split(Base(text)) == a + [""] && Same(BareLines(a), FileLines(text))
  {
    hide Trimmed;
    if text == "" {
      a := [];
      assert [""] == [] + [""];
    } else {
      DropEnd(text);
      a := Split(text[..|text| - 1]);
      hide Split;
    }
    BarePlus(a, "");
  }

  lemma GlueLines(base: string, own: string, a: seq<string>)
    requires Split(base) == a + [""]
    ensures Split(base + own) == a + Split(own)
  {
    SplitGlue(base, own);
    hide Split;
    var y := Split(own);
    assert (a + [""])[..|a|] == a && "" + y[0] == y[0];
    assert [y[0]] + y[1..] == y;
  }

  /**
   * An entry appended to a file that is ready for it reads back, last of all. The entries before it are the old ones,
   * except that a torn last line must start none of them and have no answer read from it.
   */
  lemma AppendReadsBack(text: string, h: Heading, body: string)
    requires GoodHeading(h) && Ready(text, body)
    ensures var now, own := Entries(AppendBlock(text, FormatEntry(h, body))),
                             Written(h, StoredLines(body, HasCrLf(text)));
            now != [] && now[|now| - 1] == own
            && (now == Entries(text) + [own] <==> (TornEnd(text) ==> KeptFile(FileLines(text))))
  {
    var crlf := HasCrLf(text);
    hide GoodHeading;
    hide FormatHeading;
    hide FormatEntry;
    hide AppendBlock;
    hide HasCrLf;
    hide TornEnd;
    hide Ended;
    hide KeptFile;
    hide LineEnded;
    hide Hides;
    hide Same;
    hide Written;
    hide EntryOf;
    hide StoredLines;
    hide EntriesOf;
    hide FenceAtEnd;
    hide FrontLeftOpen;
    hide CloseAt;
    hide BlocksOf;
    var file := AppendedLines(text, h, body);
    SameRead(file, Ended(text));
    EndedShape(text);
    OwnShape(h, body, crlf);
    OwnBlock(file, FormatHeading(h), OwnBody(body, crlf));
    OwnEntry(h, body, crlf);
    LastSame(EntriesOf(Ended(text)), Entries(text), Written(h, StoredLines(body, crlf)));
  }

  lemma LastSame<T>(a: seq<T>, b: seq<T>, x: T)
    ensures a + [x] == b + [x] <==> a == b
  {
    assert (a + [x])[..|a + [x]| - 1] == a && (b + [x])[..|b + [x]| - 1] == b;
  }

  lemma IndentedHeading(w: string, h: Heading)
    requires GoodHeading(h) && w != "" && Spaces(w)
    ensures !Starts(None, w + FormatHeading(h)) && !FrontOpened([w + FormatHeading(h)])
        && Bare(w + FormatHeading(h)) == w + FormatHeading(h)
  {
    BodyEnds(h);
    var line := FormatHeading(h);
    assert line == "## " + HeadingBody(h);
    hide FormatHeading;
    hide HeadingBody;
    hide GoodHeading;
    assert line[0] == '#' && !IsSpace(line[|line| - 1]);
    TrimmedPadded(w, line, "");
    assert w + line + "" == w + line;
    assert (w + line)[0] == w[0] && IsSpace(w[0]);
    assert (w + line)[|w + line| - 1] == line[|line| - 1];
    hide Trimmed;
  }

  /** The bare lines of two texts put together, where the first does not end its last line. */
  lemma BareGlue(base: string, own: string, head: string, b: seq<string>)
    requires BareLines(Split(own)) == [head] + b && head != ""
    ensures var x := Split(base);
            BareLines(Split(base + own)) == BareLines(x[..|x| - 1]) + ([x[|x| - 1] + head] + b)
  {
    SplitGlue(base, own);
    var x, y := Split(base), Split(own);
    hide Split;
    var n := |x| - 1;
    BareJoined(x[..n], [x[n] + y[0]] + y[1..]);
    BareHead(y, head, b);
    BareHead([x[n] + y[0]] + y[1..], Bare(x[n] + y[0]), BareLines(y[1..]));
    BareAfter(x[n], y[0]);
    assert ([x[n] + y[0]] + y[1..])[1..] == y[1..];
  }

  lemma BareHead(y: seq<string>, head: string, b: seq<string>)
    requires y != []
    ensures BareLines(y) == [Bare(y[0])] + BareLines(y[1..])
    ensures BareLines(y) == [head] + b ==> Bare(y[0]) == head && BareLines(y[1..]) == b
  {
    var z := BareLines(y);
    hide Bare;
    assert z[0] == Bare(y[0]) && z[1..] == BareLines(y[1..]);
    assert ([head] + b)[0] == head && ([head] + b)[1..] == b;
  }

  lemma BareSpaces(lines: seq<string>)
    requires forall k :: 0 <= k < |lines| ==> Spaces(lines[k])
    ensures forall k :: 0 <= k < |lines| ==> Spaces(BareLines(lines)[k])
  {
    forall k | 0 <= k < |lines| ensures Spaces(BareLines(lines)[k]) {
      SpaceLine(lines[k]);
    }
  }

  /** A blank file that does not end its last line puts that line's blanks before the heading. */
  lemma IndentedLines(text: string, h: Heading, body: string) returns (file: seq<string>, w: string)
    requires GoodHeading(h) && !LineEnded(text)
    ensures w != "" && Spaces(w) && forall k :: 0 <= k < |file| ==> Spaces(file[k])
    ensures FileLines(AppendBlock(text, FormatEntry(h, body)))
         == file + ([w + FormatHeading(h)] + OwnBody(body, HasCrLf(text)))
  {
    hide Own;
    hide Split;
    hide HasCrLf;
    hide AppendBlock;
    hide FormatEntry;
    hide OwnBody;
    hide Trimmed;
    hide Spaces;
    hide FormatHeading;
    hide GoodHeading;
    hide BareLines;
    var crlf := HasCrLf(text);
    AppendToBase(text, h, body);
    OwnRead(h, body, crlf);
    BlankSpaces(text);
    SpacesSplit(text);
    LastLine(text);
    var x := Split(text);
    w := x[|x| - 1];
    file := BareLines(x[..|x| - 1]);
    BareSpaces(x[..|x| - 1]);
    HeadingNotEmpty(h);
    BareGlue(text, Own(h, body, crlf), FormatHeading(h), OwnBody(body, crlf));
  }

  lemma HeadingNotEmpty(h: Heading)
    ensures FormatHeading(h) != ""
  {
  }

  lemma BareAfter(w: string, s: string)
    requires Bare(s) != ""
    ensures Bare(w + s) == w + Bare(s)
  {
    assert (w + s)[|w + s| - 1] == s[|s| - 1];
    assert (w + s)[..|w + s| - 1] == w + s[..|s| - 1];
  }

  lemma {:induction false} LastLine(s: string)
    ensures var x := Split(s); x[|x| - 1] == "" <==> s == "" || s[|s| - 1] == '\n'
  {
    if s != "" {
      LastLine(s[1..]);
    }
  }

  lemma NotFrontAhead(file: seq<string>, line: string, b: seq<string>)
    requires !FrontOpened(file) && !FrontOpened([line])
    ensures BodyStart(file + ([line] + b)) == 0
  {
    hide CloseAt;
    hide Trimmed;
    var all := file + ([line] + b);
    assert all[0] == (if file == [] then line else file[0]);
  }

  lemma IndentedAlone(file: seq<string>, line: string, b: seq<string>)
    requires forall k :: 0 <= k < |file| ==> Spaces(file[k])
    requires !Starts(None, line) && !FrontOpened([line])
    ensures Block(|file|, |file| + 1 + |b|) !in BlocksOf(file + ([line] + b))
  {
    hide Starts;
    hide BlocksIn;
    hide FrontOpened;
    hide FenceAfter;
    hide UntilStart;
    hide BodyStart;
    hide EntriesIn;
    BlankFile(file);
    hide Spaces;
    NotFrontAhead(file, line, b);
    var all := file + ([line] + b);
    assert all[0..] == all;
    assert file[0..] == file;
    BlockAmong(None, file, line, b, 0);
  }

  ghost predicate IsOneBlock(text: string, h: Heading, body: string) {
    var lines := FileLines(AppendBlock(text, FormatEntry(h, body)));
    var own := |Split(FormatEntry(h, body))|;
    own <= |lines| && Block(|lines| - own, |lines|) in BlocksOf(lines)
  }

  lemma EndedBlock(text: string, h: Heading, body: string)
    requires GoodHeading(h) && LineEnded(text)
    ensures IsOneBlock(text, h, body) <==> Ready(text, body)
  {
    var crlf := HasCrLf(text);
    hide Starts;
    hide Closes;
    hide EntriesOf;
    hide UntilStart;
    hide FenceAfter;
    hide BodyStart;
    hide FrontOpened;
    hide GoodHeading;
    hide FormatHeading;
    hide FormatEntry;
    hide AppendBlock;
    hide HasCrLf;
    hide TornEnd;
    hide Ended;
    hide KeptFile;
    hide LineEnded;
    hide Hides;
    hide Same;
    hide EntryOf;
    hide StoredLines;
    hide OwnBody;
    hide FenceAtEnd;
    hide FrontLeftOpen;
    hide CloseAt;
    hide BlocksOf;
    hide FileLines;
    hide Split;
    OwnLength(h, body, crlf);
    var file := AppendedLines(text, h, body);
    SameRead(file, Ended(text));
    EndedShape(text);
    OwnShape(h, body, crlf);
    OwnBlock(file, FormatHeading(h), OwnBody(body, crlf));
  }

  lemma IndentedBlock(text: string, h: Heading, body: string)
    requires GoodHeading(h) && !LineEnded(text)
    ensures !IsOneBlock(text, h, body)
  {
    var crlf := HasCrLf(text);
    hide GoodHeading;
    hide FormatHeading;
    hide FormatEntry;
    hide AppendBlock;
    hide HasCrLf;
    hide TornEnd;
    hide Ended;
    hide KeptFile;
    hide LineEnded;
    hide Hides;
    hide Same;
    hide EntryOf;
    hide StoredLines;
    hide OwnBody;
    hide FenceAtEnd;
    hide FrontLeftOpen;
    hide CloseAt;
    hide BlocksOf;
    hide FileLines;
    hide Split;
    OwnLength(h, body, crlf);
    var file, w := IndentedLines(text, h, body);
    IndentedHeading(w, h);
    IndentedAlone(file, w + FormatHeading(h), OwnBody(body, crlf));
  }

  /** The appended block is one entry of its own exactly when the file and the body are ready for it. */
  lemma AppendIsOneBlock(text: string, h: Heading, body: string)
    requires GoodHeading(h)
    ensures IsOneBlock(text, h, body) <==> Ready(text, body)
  {
    hide IsOneBlock;
    if LineEnded(text) {
      EndedBlock(text, h, body);
    } else {
      IndentedBlock(text, h, body);
    }
  }

  lemma OwnLength(h: Heading, body: string, crlf: bool)
    requires GoodHeading(h)
    ensures |Split(FormatEntry(h, body))| == 1 + |OwnBody(body, crlf)|
  {
    WrittenLines(h, body);
    hide FormatEntry;
    hide Split;
  }

  // What the body reads as

  lemma {:induction false} JoinEnds(lines: seq<string>)
    requires lines != [] && lines[0] != "" && !IsSpace(lines[0][0])
    requires var last := lines[|lines| - 1]; last != "" && !IsSpace(last[|last| - 1])
    ensures var s := Join(lines); s != "" && !IsSpace(s[0]) && !IsSpace(s[|s| - 1])
  {
    if |lines| > 1 {
      JoinLast(lines[..|lines| - 1], lines[|lines| - 1]);
      assert lines == lines[..|lines| - 1] + [lines[|lines| - 1]];
      var last := lines[|lines| - 1];
      var s := Join(lines[..|lines| - 1]) + "\n" + last;
      assert s[|s| - 1] == last[|last| - 1];
      assert Join(lines) == lines[0] + "\n" + Join(lines[1..]);
    }
  }

  lemma {:induction false} FirstChar(s: string)
    requires s != "" && s[0] != '\n'
    ensures Split(s)[0] != "" && Split(s)[0][0] == s[0]
  {
  }

  predicate EndsInText(line: string) {
    line != "" && !IsSpace(line[|line| - 1])
  }

  lemma EscapedEnds(line: string)
    requires EndsInText(line)
    ensures EndsInText("\\" + line)
  {
    hide IsSpace;
  }

  lemma {:induction false} CleanLast(fence: Option<char>, lines: seq<string>)
    requires lines != [] && IsFence(fence) && EndsInText(lines[|lines| - 1])
    ensures var clean := CleanLines(fence, lines); EndsInText(clean[|clean| - 1])
    decreases |lines|
  {
    hide Starts;
    hide NextFence;
    hide IsFence;
    hide EndsInText;
    CleanCons(fence, lines);
    FenceStays(fence, lines[0]);
    var next := NextFence(fence, lines[0]);
    if |lines| == 1 {
      assert lines[1..] == [];
      EscapedEnds(lines[0]);
      EmptyCleaned(next);
    } else {
      hide CleanLines;
      CleanLast(next, lines[1..]);
    }
  }

  lemma EmptyCleaned(fence: Option<char>)
    requires IsFence(fence)
    ensures fence.None? ==> CleanLines(fence, []) == []
    ensures fence.Some? ==> |CleanLines(fence, [])| == 1 && EndsInText(CleanLines(fence, [])[0])
  {
  }

  lemma TrimmedEnds(s: string)
    ensures var t := Trimmed(s); t == "" || (!IsSpace(t[0]) && !IsSpace(t[|t| - 1]))
  {
    TrimEnds(s, |s|);
  }

  /** Cleaning leaves nothing to trim. */
  lemma EscapedStarts(line: string)
    requires line != "" && !IsSpace(line[0])
    ensures var escaped := "\\" + line; escaped != "" && !IsSpace(escaped[0])
  {
  }

  lemma CleanTrimmed(body: string)
    ensures Trimmed(CleanBody(body)) == CleanBody(body)
  {
    var s := Trimmed(CrLfToLf(body));
    TrimmedEnds(CrLfToLf(body));
    assert IsSpace('\n');
    hide Trimmed;
    hide CrLfToLf;
    hide IsSpace;
    hide Starts;
    hide NextFence;
    hide CleanLines;
    var lines := BodyLines(body);
    if s == "" {
      assert lines == [""];
      EmptyClean();
    } else {
      FirstChar(s);
      LastChar(s);
      LastLine(s);
      hide Split;
      hide Join;
      CleanLast(None, lines);
      CleanCons(None, lines);
      EscapedStarts(lines[0]);
      var clean := CleanLines(None, lines);
      assert clean[0] == lines[0] || clean[0] == "\\" + lines[0];
      JoinEnds(clean);
      TrimmedWhole(Join(clean));
    }
  }

  lemma EmptyClean()
    ensures Trimmed(Join(CleanLines(None, [""]))) == Join(CleanLines(None, [""]))
  {
    BlankIsPlain(None);
    CleanCons(None, [""]);
    assert [""][1..] == [];
    assert CleanLines(None, []) == [];
    assert CleanLines(None, [""]) == [""];
  }

  /** No line of a body ends in a carriage return once its line endings are normalized. */
  predicate NoStrayReturns(lines: seq<string>) {
    forall k :: 0 <= k < |lines| ==> Bare(lines[k]) == lines[k]
  }

  lemma BareEscaped(line: string)
    requires Bare(line) == line
    ensures Bare("\\" + line) == "\\" + line
  {
  }

  lemma {:induction false} CleanNoReturns(fence: Option<char>, lines: seq<string>)
    requires NoStrayReturns(lines) && IsFence(fence)
    ensures NoStrayReturns(CleanLines(fence, lines)) && !Hides(fence, lines)
    decreases |lines|
  {
    hide Starts;
    hide NextFence;
    if lines == [] {
      if fence.Some? {
        FenceCloses(fence.value);
      }
    } else {
      hide Bare;
      hide CleanLines;
      CleanCons(fence, lines);
      FenceStays(fence, lines[0]);
      CleanNoReturns(NextFence(fence, lines[0]), lines[1..]);
      assert Bare(lines[0]) == lines[0];
      BareEscaped(lines[0]);
    }
  }

  lemma {:induction false} BareSame(lines: seq<string>)
    requires NoStrayReturns(lines)
    ensures BareLines(lines) == lines
  {
    if lines != [] {
      assert Bare(lines[0]) == lines[0];
      BareSame(lines[1..]);
    }
  }

  /** No line of a body reads `Answer:`. */
  predicate NoAnswers(lines: seq<string>) {
    forall k :: 0 <= k < |lines| ==> AnswerText(lines[k]).None?
  }

  lemma {:induction false} CleanNoAnswers(fence: Option<char>, lines: seq<string>)
    requires NoAnswers(lines) && IsFence(fence)
    ensures NoAnswers(CleanLines(fence, lines))
    decreases |lines|
  {
    if lines != [] {
      CleanCons(fence, lines);
      FenceStays(fence, lines[0]);
      CleanNoAnswers(NextFence(fence, lines[0]), lines[1..]);
      EscapedPlain(lines[0]);
      assert AnswerText(lines[0]).None?;
      hide Starts;
      hide NextFence;
      hide CleanLines;
      hide AnswerText;
    } else if fence.Some? {
      var c := fence.value;
      assert [c, c, c][0] != 'A';
    }
  }

  lemma {:induction false} NoneAnswered(fenced: bool, lines: seq<string>)
    requires NoAnswers(lines)
    ensures AnswerAt(fenced, lines) == |lines|
    decreases |lines|
  {
    if lines != [] {
      assert AnswerText(lines[0]).None?;
      hide AnswerText;
      hide FenceOf;
      NoneAnswered(if FenceOf(lines[0]).Some? then !fenced else fenced, lines[1..]);
    }
  }

  /**
   * With no stray carriage returns and, in a question, no `Answer:` line, the entry's body is the cleaned body,
   * whole.
   */
  lemma WrittenBody(h: Heading, body: string, crlf: bool)
    requires NoStrayReturns(BodyLines(body))
    requires h.kind == Question ==> NoAnswers(BodyLines(body))
    ensures Written(h, StoredLines(body, crlf)).body == CleanBody(body)
    ensures Written(h, StoredLines(body, crlf)).answer.None?
    ensures !Hides(None, BodyLines(body))
  {
    CleanNoReturns(None, BodyLines(body));
    BareSame(CleanedLines(body));
    CleanTrimmed(body);
    if h.kind == Question {
      CleanNoAnswers(None, BodyLines(body));
      NoneAnswered(false, CleanedLines(body));
    }
    hide CleanLines;
    hide Trimmed;
    hide Join;
    hide Hides;
    hide AnswerAt;
    hide HeadingBody;
    hide Supersedes;
  }

  lemma {:induction false} ShorterFrom(s: string, n: nat, m: nat)
    requires n < m <= |s| && !IsSpace(s[n])
    ensures n < TrimBack(s, m)
    decreases m
  {
    if IsSpace(s[m - 1]) {
      ShorterFrom(s, n, m - 1);
    }
  }

  // A torn end

  /** Two lines, the first ended as `\r\n` files end one and the second torn. */
  lemma TornFile(a: string, b: string)
    requires OneLine(a) && OneLine(b) && Bare(a) == a
    ensures var text := a + "\r\n" + b + "\r"; TornEnd(text) && FileLines(text) == [a, b]
  {
    var text := a + "\r\n" + b + "\r";
    assert text == (a + "\r") + "\n" + (b + "\r");
    assert text[|a|..][..2] == "\r\n";
    hide Split;
    SplitNewline(a + "\r", b + "\r");
    SplitOneLine(a + "\r");
    SplitOneLine(b + "\r");
    BareCr(a);
    BareCr(b);
    assert [a + "\r"] + [b + "\r"] == [a + "\r", b + "\r"];
    hide Bare;
    CrLfAt(text, |a|);
  }

  lemma {:induction false} CrLfAt(text: string, i: nat)
    requires i + 1 < |text| && text[i] == '\r' && text[i + 1] == '\n'
    ensures HasCrLf(text)
  {
    if i > 0 {
      CrLfAt(text[1..], i - 1);
    }
  }

  lemma KeptPair(a: string, b: string)
    requires Trimmed(a) != "---"
    ensures KeptFile([a, b]) <==>
            if Starts(None, a) then !Starts(None, b) && AnswerKept(a, [b]) else !Starts(NextFence(None, a), b)
  {
    hide Trimmed;
    hide Starts;
    hide NextFence;
    hide AnswerKept;
    var two := [a, b];
    assert two[0..] == two && two[1..] == [b];
    UntilOne(None, b);
    UntilOne(NextFence(None, a), b);
    assert UntilStart(None, two) == if Starts(None, a) then 0 else 1 + UntilStart(NextFence(None, a), [b]);
    assert BodyStart(two) == 0 && KeptFile(two) == Kept(None, two);
    hide UntilStart;
    if Starts(None, a) && Starts(None, b) {
      LastStarts(None, [b]);
    }
    var n := UntilStart(None, two);
    assert n < 1 ==> two[n + 1..] == [b];
  }

  lemma TornHeading(head: string)
    requires Starts(None, head)
    ensures !KeptFile(["", head]) && KeptFile(["```", head])
  {
    hide HeadingText;
    hide KeptFile;
    assert FenceOf("") == None && FenceOf("```") == Some('`');
    hide FenceOf;
    assert Trimmed("") == "";
    TrimmedWhole("```");
    hide Trimmed;
    KeptPair("", head);
    KeptPair("```", head);
  }

  lemma TornAnswer(head: string)
    requires Starts(None, head) && !Closes(head) && EntryOf(head, []).kind == Question
    ensures !KeptFile([head, "Answer: yes"])
  {
    hide KeptFile;
    hide Starts;
    hide Trimmed;
    hide EntryOf;
    KeptPair(head, "Answer: yes");
    YesAnswers();
    AnswersAlone("Answer: yes");
    hide AnswerText;
    hide FenceOf;
    hide AnswerAt;
  }

  lemma AnswersAlone(line: string)
    requires AnswerText(line).Some? && FenceOf(line).None?
    ensures AnswerAt(false, [line]) == 0
  {
    hide AnswerText;
    hide FenceOf;
  }

  lemma YesAnswers()
    ensures AnswerText("Answer: yes") == Some("yes") && FenceOf("Answer: yes").None?
  {
    var answer := "Answer: yes";
    assert answer[0] == 'A' && SpaceLength(answer) == 0 && answer[0..] == answer;
    assert answer[..7] == "Answer:" && answer[7..] == " yes";
    assert " yes"[1..] == "yes" && SpaceLength("yes") == 0 && SpaceLength(" yes") == 1;
  }

  /** A torn heading is lost, and so is a torn answer; a heading inside a fence is none to lose. */
  lemma TornExamples(h: Heading)
    requires GoodHeading(h) && h.kind == Question
    ensures var head := FormatHeading(h);
            && !KeptFile(FileLines("" + "\r\n" + head + "\r"))
            && !KeptFile(FileLines(head + "\r\n" + "Answer: yes" + "\r"))
            && KeptFile(FileLines("```" + "\r\n" + head + "\r"))
  {
    var head := FormatHeading(h);
    EntryRead(h, []);
    NotAFront(h);
    hide FormatHeading;
    hide GoodHeading;
    hide EntryOf;
    hide FileLines;
    hide KeptFile;
    hide Starts;
    hide Closes;
    hide Bare;
    BareFences();
    TornFile("", head);
    TornFile(head, "Answer: yes");
    TornFile("```", head);
    TornHeading(head);
    TornAnswer(head);
  }

  lemma BareFences()
    ensures Bare("") == "" && Bare("```") == "```" && OneLine("") && OneLine("```") && OneLine("Answer: yes")
  {
  }
}
