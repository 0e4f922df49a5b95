// What becomes of a body that is written to a discussion file: every line of it is there, and is read back.
module DiscussionBody {
  import opened Strings
  import opened Options
  import opened Space
  import opened Text
  import opened DiscussionText
  import opened DiscussionLines
  import opened DiscussionWrite
  import opened DiscussionAppend
  import opened DiscussionRoundTrip
  import opened DiscussionIds
  import opened DiscussionRestate

  // Every line is kept

  lemma BareAllCons(line: string, more: seq<string>)
    requires more != []
    ensures BareAll([line] + more) == [Bare(line)] + BareAll(more)
  {
    assert ([line] + more)[1..] == more;
  }

  lemma BareFront(c: char, line: string)
    requires line == "" ==> c != '\r'
    ensures Bare([c] + line) == [c] + Bare(line)
  {
    var all := [c] + line;
    if line != "" {
      assert all[|all| - 1] == line[|line| - 1];
      assert all[..|all| - 1] == [c] + line[..|line| - 1];
    }
  }

  lemma BareOn(c: char, lines: seq<string>)
    requires lines != [] && (|lines| > 1 && lines[0] == "" ==> c != '\r')
    ensures var b := BareAll(lines); BareAll([[c] + lines[0]] + lines[1..]) == [[c] + b[0]] + b[1..]
  {
    hide Bare;
    if |lines| == 1 {
      assert lines == [lines[0]] && lines[1..] == [];
      LastAlone(lines[0]);
      LastAlone([c] + lines[0]);
    } else {
      hide BareAll;
      assert lines == [lines[0]] + lines[1..];
      BareAllCons(lines[0], lines[1..]);
      BareAllCons([c] + lines[0], lines[1..]);
      BareFront(c, lines[0]);
    }
  }

  /** Taking the carriage returns out of line ends takes one from every line but the last that ends in one. */
  lemma {:induction false} LfLines(s: string)
    ensures Split(CrLfToLf(s)) == BareAll(Split(s))
    decreases |s|
  {
    hide BareAll;
    hide Bare;
    if s == "" {
      LastAlone("");
    } else if "\r\n" <= s {
      LfLines(s[2..]);
      assert s == "\r\n" + s[2..];
      CrLfTwo(s[2..]);
      BareAllCons("\r", Split(s[2..]));
      BareReturn();
      assert ("\n" + CrLfToLf(s[2..]))[1..] == CrLfToLf(s[2..]);
    } else if s[0] == '\n' {
      LfLines(s[1..]);
      BareAllCons("", Split(s[1..]));
      BareReturn();
      assert ([s[0]] + CrLfToLf(s[1..]))[1..] == CrLfToLf(s[1..]);
    } else {
      LfLines(s[1..]);
      FirstPiece(s[1..]);
      BareOn(s[0], Split(s[1..]));
      assert ([s[0]] + CrLfToLf(s[1..]))[1..] == CrLfToLf(s[1..]);
    }
  }

  lemma LastAlone(line: string)
    ensures BareAll([line]) == [line]
  {
  }

  lemma BareReturn()
    ensures Bare("\r") == "" && Bare("") == ""
  {
  }

  lemma FirstPiece(s: string)
    ensures |Split(s)| > 1 && Split(s)[0] == "" ==> s != "" && s[0] == '\n'
  {
  }

  /** Which line the cleaner leaves alone, which it escapes, and when it adds one. */
  lemma {:induction false} CleanedAt(fence: Option<char>, lines: seq<string>)
    requires IsFence(fence)
    ensures var clean, last := CleanLines(fence, lines), FenceAfter(fence, lines);
            && |clean| == |lines| + (if last.Some? then 1 else 0)
            && (last.Some? ==> clean[|lines|] == [last.value, last.value, last.value])
            && forall k :: 0 <= k < |lines| ==>
                 clean[k] == if Starts(FenceAfter(fence, lines[..k]), lines[k]) then "\\" + lines[k] else lines[k]
    decreases |lines|
  {
    hide Starts;
    hide NextFence;
    if lines != [] {
      var next := NextFence(fence, lines[0]);
      FenceStays(fence, lines[0]);
      CleanedAt(next, lines[1..]);
      CleanCons(fence, lines);
      var clean, more := CleanLines(fence, lines), CleanLines(next, lines[1..]);
      hide CleanLines;
      forall k | 0 < k < |lines|
        ensures clean[k] == if Starts(FenceAfter(fence, lines[..k]), lines[k]) then "\\" + lines[k] else lines[k] {
        assert lines[..k][1..] == lines[1..][..k - 1] && lines[..k][0] == lines[0];
        assert clean[k] == more[k - 1];
      }
      assert clean[1..] == more;
      assert lines[..0] == [];
    }
  }

  /** The text without the whitespace around it. */
  ghost predicate Within(whole: string, before: string, text: string, after: string) {
    && whole == before + text + after && Spaces(before) && Spaces(after)
    && (text == "" || (!IsSpace(text[0]) && !IsSpace(text[|text| - 1])))
  }

  /**
   * A cleaned body is the body, line for line: its text with `\r\n` line ends made `\n` and the whitespace around it
   * dropped, a backslash before each heading outside its fences, and a fence left open closed.
   */
  lemma BodyKept(body: string) returns (before: string, text: string, after: string)
    ensures Within(Join(BareAll(Split(body))), before, text, after)
    ensures var lines, clean := Split(text), Split(CleanBody(body));
            var last := FenceAfter(None, lines);
            && |clean| == |lines| + (if last.Some? then 1 else 0)
            && (last.Some? ==> clean[|lines|] == [last.value, last.value, last.value])
            && forall k :: 0 <= k < |lines| ==>
                 clean[k] == if Starts(FenceAfter(None, lines[..k]), lines[k]) then "\\" + lines[k] else lines[k]
  {
    hide Split;
    hide Join;
    hide BareAll;
    hide CrLfToLf;
    hide FenceAfter;
    hide CleanLines;
    hide Starts;
    LfLines(body);
    JoinSplit(CrLfToLf(body));
    text := Trimmed(CrLfToLf(body));
    before, after := TrimmedParts(CrLfToLf(body));
    TrimmedEnds(CrLfToLf(body));
    hide Trimmed;
    CleanedAt(None, Split(text));
    CleanedOneLine(body);
    AllTail(CleanedLines(body));
    SplitJoin(CleanedLines(body));
  }

  lemma AllTail(lines: seq<string>)
    requires AllOneLine([""] + lines)
    ensures AllOneLine(lines)
  {
    forall k | 0 <= k < |lines| ensures OneLine(lines[k]) {
      assert ([""] + lines)[k + 1] == lines[k];
    }
  }

  // A body that needs no cleaning

  /** No carriage return, nothing to trim, no heading outside a fence, and no fence left open. */
  predicate PlainBody(body: string) {
    && '\r' !in body && (body == "" || (!IsSpace(body[0]) && !IsSpace(body[|body| - 1])))
    && UntilStart(None, Split(body)) == |Split(body)| && FenceAfter(None, Split(body)) == None
  }

  lemma {:induction false} NothingToLf(s: string)
    requires '\r' !in s
    ensures CrLfToLf(s) == s
    decreases |s|
  {
    if s != "" {
      NothingToLf(s[1..]);
      assert s == [s[0]] + s[1..];
      assert s[0] in s;
    }
  }

  lemma {:induction false} NothingToClean(fence: Option<char>, lines: seq<string>)
    requires UntilStart(fence, lines) == |lines| && FenceAfter(fence, lines) == None
    ensures CleanLines(fence, lines) == lines
    decreases |lines|
  {
    hide Starts;
    hide NextFence;
    if lines != [] {
      NothingToClean(NextFence(fence, lines[0]), lines[1..]);
      assert lines == [lines[0]] + lines[1..];
    }
  }

  lemma {:induction false} NoneReturned(s: string)
    requires '\r' !in s
    ensures NoStrayReturns(Split(s))
  {
    if s != "" {
      NoneReturned(s[1..]);
      hide Bare;
      var x := Split(s[1..]);
      if s[0] != '\n' {
        FirstReturned(s);
      } else {
        BareReturn();
      }
    }
  }

  lemma {:induction false} FirstReturned(s: string)
    requires '\r' !in s
    ensures '\r' !in Split(s)[0] && Bare(Split(s)[0]) == Split(s)[0]
  {
    if s != "" {
      FirstReturned(s[1..]);
    }
  }

  lemma PlainLines(body: string)
    requires PlainBody(body)
    ensures BodyLines(body) == CleanedLines(body) == Split(body) && CleanBody(body) == body
    ensures NoStrayReturns(Split(body)) && BareLines(Split(body)) == Split(body)
  {
    NothingToLf(body);
    if body == "" {
      EmptyTrimmed();
    } else {
      TrimmedWhole(body);
    }
    hide Trimmed;
    hide CrLfToLf;
    NothingToClean(None, Split(body));
    NoneReturned(body);
    BareSame(Split(body));
    JoinSplit(body);
    hide Split;
    hide Join;
    hide CleanLines;
  }

  /** Appended to a file that leaves nothing open, a plain body is the body of the entry read back, whole. */
  lemma PlainReadsBack(text: string, h: Heading, body: string)
    requires GoodHeading(h) && PlainBody(body) && (h.kind == Question ==> NoAnswers(Split(body)))
    requires LineEnded(text) && FenceAtEnd(FileLines(text)) == None
    requires FrontLeftOpen(FileLines(text)) ==> CloseAt(Split(body)) == |Split(body)|
    ensures var now := Entries(AppendBlock(text, FormatEntry(h, body)));
            && now != []
            && now[|now| - 1] == Entry(h.kind, h.state, Some(h.date), Some(h.author), h.id, HeadingBody(h), body, None,
                                       if h.kind == Decision then Supersedes(body) else [], false)
  {
    PlainLines(body);
    hide Split;
    hide GoodHeading;
    hide FormatEntry;
    hide AppendBlock;
    hide LineEnded;
    hide FenceAtEnd;
    hide FrontLeftOpen;
    hide CloseAt;
    hide Entries;
    hide CleanBody;
    hide BodyLines;
    hide CleanedLines;
    hide PlainBody;
    hide HasCrLf;
    hide HeadingBody;
    hide Supersedes;
    WrittenBody(h, body, HasCrLf(text));
    AppendReadsBack(text, h, body);
    WrittenSays(h, StoredLines(body, HasCrLf(text)));
    hide Written;
  }

  lemma WrittenSays(h: Heading, stored: seq<string>)
    ensures var e := Written(h, stored);
            e == Entry(h.kind, h.state, Some(h.date), Some(h.author), h.id, HeadingBody(h), e.body, e.answer,
                       if h.kind == Decision then Supersedes(e.body) else [], false)
  {
    hide SplitAnswer;
    hide Trimmed;
    hide Join;
    hide Supersedes;
    hide HeadingBody;
  }

  /** Restated with a plain text that fits, an entry that is no question ends in that text, its own body before it. */
  lemma PlainRestated(text: string, id: string, state: State, appended: string) returns (p: Around, gap: string)
    requires PlainBody(appended) && appended != ""
    requires ById(Entries(text), id) < |Entries(text)|
    requires var e := Entries(text)[ById(Entries(text), id)];
             !e.unreadable && state in States(e.kind) && e.kind != Question
    requires FrontLeftOpen(FileLines(text)) ==> CloseAt(Split(appended)) == |Split(appended)|
    ensures FoundAt(None, EntryLines(text), id, p) && Spaces(gap)
    ensures RestateEntry(text, id, state, Some(appended)).Some?
    ensures var es, now := Entries(text), Entries(RestateEntry(text, id, state, Some(appended)).value);
            var i := ById(es, id);
            Fits(BareLines(p.b), Split(appended)) ==>
              && |now| == |es| && now[i].body == es[i].body + gap + appended && now[i].state == Some(state)
              && forall k :: 0 <= k < |es| && k != i ==> now[k] == es[k]
  {
    hide Split;
    hide Entries;
    hide RestateEntry;
    hide CleanedLines;
    hide PlainBody;
    hide FoundAt;
    hide EntryLines;
    hide FrontLeftOpen;
    hide CloseAt;
    hide AddedTo;
    hide EntryOf;
    hide FormatHeading;
    hide Trimmed;
    hide Join;
    hide Fits;
    hide AllFit;
    hide ReadBody;
    hide ClosesFront;
    hide BareLines;
    hide Bare;
    hide Return;
    PlainFront(text, appended);
    p := RestateReads(text, id, state, Some(appended));
    var es, b := Entries(text), BareLines(p.b);
    PlainFits(b, appended, Return(p.h));
    JoinSplit(appended);
    TrimmedPlain(appended);
    gap := BelowBody(b, Split(appended));
    FoundStarts(text, id, p);
    RestatedSays(Bare(p.h), b, state, id, AddedTo(b, Split(appended)));
  }

  lemma PlainFront(text: string, appended: string)
    requires PlainBody(appended)
    ensures ClosesFront(text, appended) <==>
            FrontLeftOpen(FileLines(text)) && CloseAt(Split(appended)) < |Split(appended)|
  {
    PlainLines(appended);
    hide FrontLeftOpen;
    hide CloseAt;
  }

  lemma PlainFits(b: seq<string>, appended: string, cr: string)
    requires PlainBody(appended)
    ensures AllFit(b, Some(appended), cr) <==> Fits(b, Split(appended))
    ensures ReadBody(b, Some(appended), cr) == AddedTo(b, Split(appended))
  {
    PlainLines(appended);
    hide Fits;
    hide AddedTo;
  }

  lemma RestatedSays(line: string, b: seq<string>, state: State, id: string, body: seq<string>)
    requires Starts(None, line)
    requires var e := EntryOf(line, b);
             !e.unreadable && e.id == Some(id) && state in States(e.kind) && e.kind != Question
    ensures var e := EntryOf(line, b);
            && e.date.Some? && e.author.Some? && e.body == Trimmed(Join(b))
            && var now := EntryOf(FormatHeading(NewHeading(e, state, id)), body);
            now.body == Trimmed(Join(body)) && now.state == Some(state)
  {
    hide EntryOf;
    hide FormatHeading;
    hide GoodHeading;
    hide Trimmed;
    hide Join;
    hide SplitAnswer;
    hide Starts;
    NewHeadingGood(line, b, state, id);
    var h := NewHeading(EntryOf(line, b), state, id);
    SaidPlainly(line, b);
    EntryRead(h, body);
    SaidPlainly(FormatHeading(h), body);
  }

  lemma TrimmedPlain(s: string)
    requires PlainBody(s)
    ensures Trimmed(s) == s
  {
    if s == "" {
      EmptyTrimmed();
    } else {
      TrimmedWhole(s);
    }
    hide Trimmed;
  }

  lemma FoundStarts(text: string, id: string, p: Around)
    requires FoundAt(None, EntryLines(text), id, p)
    ensures Starts(None, Bare(p.h))
  {
    hide Starts;
    hide EntryOf;
    hide EntriesIn;
  }

  lemma SaidPlainly(line: string, b: seq<string>)
    requires EntryOf(line, b).kind != Question
    ensures EntryOf(line, b).body == Trimmed(Join(b))
  {
    hide Trimmed;
    hide Join;
    hide ParseHeading;
    hide HeadingText;
    hide TrailingId;
    hide SplitAnswer;
    hide Supersedes;
  }
}
