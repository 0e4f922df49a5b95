// Appending an entry to a discussion file: what is read back, and exactly when.
module DiscussionAppend {
  import opened Strings
  import opened Options
  import opened Space
  import opened Text
  import opened DiscussionText
  import opened DiscussionWrite

  // Lines of concatenated text

  lemma {:induction false} SplitGlue(a: string, b: string)
    ensures var x, y := Split(a), Split(b);
            Split(a + b) == x[..|x| - 1] + ([x[|x| - 1] + y[0]] + y[1..])
  {
    var x, y := Split(a), Split(b);
    if a == "" {
      assert "" + b == b && "" + y[0] == y[0];
      assert y == [y[0]] + y[1..];
    } else {
      assert (a + b)[1..] == a[1..] + b && (a + b)[0] == a[0];
      SplitGlue(a[1..], b);
      var z := Split(a[1..]);
      var n := |z| - 1;
      if a[0] == '\n' {
        assert x == [""] + z;
        GlueNew(z, y);
      } else {
        assert x == [[a[0]] + z[0]] + z[1..];
        GlueOn([a[0]], z, y);
      }
    }
  }

  lemma GlueNew(z: seq<string>, y: seq<string>)
    requires z != [] && y != []
    ensures var x := [""] + z;
            [""] + (z[..|z| - 1] + ([z[|z| - 1] + y[0]] + y[1..])) == x[..|x| - 1] + ([x[|x| - 1] + y[0]] + y[1..])
  {
    assert ([""] + z)[..|z|] == [""] + z[..|z| - 1];
  }

  lemma GlueOn(c: string, z: seq<string>, y: seq<string>)
    requires z != [] && y != []
    ensures var x := [c + z[0]] + z[1..];
            var g := z[..|z| - 1] + ([z[|z| - 1] + y[0]] + y[1..]);
            [c + g[0]] + g[1..] == x[..|x| - 1] + ([x[|x| - 1] + y[0]] + y[1..])
  {
    Assoc(c, z[0], y[0]);
    if |z| > 1 {
      var x := [c + z[0]] + z[1..];
      assert x[..|x| - 1] == [c + z[0]] + z[1..|z| - 1];
      assert z[..|z| - 1] == [z[0]] + z[1..|z| - 1];
    }
  }

  lemma SplitNewline(a: string, b: string)
    ensures Split(a + "\n" + b) == Split(a) + Split(b)
  {
    Assoc(a, "\n", b);
    assert ("\n" + b)[1..] == b;
    SplitGlue(a, "\n" + b);
    var x := Split(a);
    assert x[|x| - 1] + "" == x[|x| - 1];
    assert x == x[..|x| - 1] + [x[|x| - 1]];
    assert ([""] + Split(b))[1..] == Split(b);
  }

  lemma {:induction false} BareJoined(a: seq<string>, b: seq<string>)
    ensures BareLines(a + b) == BareLines(a) + BareLines(b)
  {
    if a == [] {
      assert a + b == b;
    } else {
      assert (a + b)[1..] == a[1..] + b;
      BareJoined(a[1..], b);
    }
  }

  // The lines of a written entry

  /** Fences are told by the same lines with and without their carriage return. */
  lemma BareFence(line: string)
    ensures FenceOf(Bare(line)) == FenceOf(line)
  {
    if Bare(line) != line {
      var bare := Bare(line);
      assert line == bare + "\r";
      SpaceOr(bare);
      var n := SpaceLength(bare);
      hide SpaceLength;
      if n < |bare| {
        assert line[n..] == bare[n..] + "\r";
        MarkPrefix("```", bare[n..]);
        MarkPrefix("~~~", bare[n..]);
      }
    }
  }

  lemma MarkPrefix(mark: string, rest: string)
    requires mark != "" && mark[|mark| - 1] != '\r'
    ensures mark <= rest + "\r" <==> mark <= rest
  {
    var t := rest + "\r";
    if mark <= t {
      assert t[|mark| - 1] == mark[|mark| - 1];
      assert |mark| <= |rest|;
      assert t[..|mark|] == rest[..|mark|];
    }
    if mark <= rest {
      assert t[..|mark|] == rest[..|mark|];
    }
  }

  lemma {:induction false} SpaceOr(s: string)
    ensures SpaceLength(s) < |s| ==> SpaceLength(s + "\r") == SpaceLength(s)
    ensures SpaceLength(s) == |s| ==> SpaceLength(s + "\r") == |s| + 1
  {
    if s == "" {
      assert s + "\r" == "\r" && "\r"[1..] == "";
    } else {
      assert (s + "\r")[1..] == s[1..] + "\r";
      SpaceOr(s[1..]);
    }
  }

  /**
   * A line outside fences that the cleaner takes for plain text, and the reader, its carriage return dropped, for a
   * heading.
   */
  predicate Hides(fence: Option<char>, lines: seq<string>)
    decreases |lines|
  {
    lines != []
    && ((Starts(fence, Bare(lines[0])) && !Starts(fence, lines[0])) || Hides(NextFence(fence, lines[0]), lines[1..]))
  }

  predicate IsFence(fence: Option<char>) {
    fence.None? || fence.value == '`' || fence.value == '~'
  }

  lemma EscapedPlain(line: string)
    ensures FenceOf("\\" + line) == None && HeadingText("\\" + line) == None && HeadingText(Bare("\\" + line)) == None
    ensures AnswerText("\\" + line) == None
  {
    var s := "\\" + line;
    assert s[0] == '\\' && SpaceLength(s) == 0;
    assert Bare(s)[0] == '\\';
  }

  lemma FenceCloses(c: char)
    requires c == '`' || c == '~'
    ensures FenceOf([c, c, c]) == Some(c) && Bare([c, c, c]) == [c, c, c]
  {
    var s := [c, c, c];
    assert SpaceLength(s) == 0 && s[0..] == s;
    assert s == "```" || s == "~~~";
  }

  lemma CleanedHead(fence: Option<char>, line: string)
    ensures var clean := if Starts(fence, line) then "\\" + line else line;
            && NextFence(fence, clean) == NextFence(fence, line) && !Starts(fence, clean)
            && NextFence(fence, Bare(clean)) == NextFence(fence, line)
            && (Starts(fence, Bare(clean)) <==> Starts(fence, Bare(line)) && !Starts(fence, line))
  {
    EscapedPlain(line);
    BareFence(line);
    BareFence("\\" + line);
    hide FenceOf;
    hide HeadingText;
    hide Bare;
  }

  /** Cleaned lines start no entry and leave no fence open; without carriage returns they do unless one is hidden. */
  lemma {:induction false} CleanedShape(fence: Option<char>, lines: seq<string>)
    requires IsFence(fence)
    ensures var clean := CleanLines(fence, lines);
            && UntilStart(fence, clean) == |clean| && FenceAfter(fence, clean) == None
            && (UntilStart(fence, BareLines(clean)) == |clean| <==> !Hides(fence, lines))
            && FenceAfter(fence, BareLines(clean)) == None
    decreases |lines|
  {
    var clean := CleanLines(fence, lines);
    if lines == [] {
      if fence.Some? {
        FenceCloses(fence.value);
        assert clean[1..] == [] && BareLines(clean) == [clean[0]];
        assert NextFence(fence, clean[0]) == None && !Starts(fence, clean[0]);
      }
    } else {
      var next := NextFence(fence, lines[0]);
      FenceStays(fence, lines[0]);
      CleanedHead(fence, lines[0]);
      CleanedShape(next, lines[1..]);
      hide NextFence;
      hide Starts;
      hide CleanLines;
      hide Bare;
      assert clean == [clean[0]] + CleanLines(next, lines[1..]) by { CleanCons(fence, lines); }
      assert clean[0] == (if Starts(fence, lines[0]) then "\\" + lines[0] else lines[0]) by { CleanCons(fence, lines); }
      assert clean[1..] == CleanLines(next, lines[1..]);
      assert BareLines(clean)[1..] == BareLines(clean[1..]);
    }
  }

  lemma CleanCons(fence: Option<char>, lines: seq<string>)
    requires lines != []
    ensures CleanLines(fence, lines)
         == [if Starts(fence, lines[0]) then "\\" + lines[0] else lines[0]]
            + CleanLines(NextFence(fence, lines[0]), lines[1..])
  {
    hide Starts;
    hide NextFence;
  }

  lemma FenceStays(fence: Option<char>, line: string)
    requires IsFence(fence)
    ensures IsFence(NextFence(fence, line))
  {
  }

  lemma {:induction false} CleanOneLine(fence: Option<char>, lines: seq<string>)
    requires AllOneLine(lines) && IsFence(fence)
    ensures AllOneLine(CleanLines(fence, lines))
    decreases |lines|
  {
    if lines != [] {
      FenceStays(fence, lines[0]);
      CleanOneLine(NextFence(fence, lines[0]), lines[1..]);
      CleanCons(fence, lines);
      hide Starts;
      hide NextFence;
      hide CleanLines;
      assert OneLine(lines[0]);
    }
  }

  function CleanedLines(body: string): (r: seq<string>)
    ensures r != []
  {
    CleanLines(None, BodyLines(body))
  }

  lemma ThreeBreaks(head: string, text: string)
    ensures head + "\n\n" + text + "\n" == head + "\n" + ("" + "\n" + (text + "\n" + ""))
  {
    assert "\n\n" == "\n" + "\n" && "" + "\n" == "\n" && text + "\n" + "" == text + "\n";
    Assoc(head, "\n", "\n");
    Assoc(head + "\n", "\n", text + "\n");
    Assoc(head + "\n\n", text, "\n");
  }

  lemma ThreeLines(head: string, text: string, clean: seq<string>)
    requires OneLine(head) && Split(text) == clean
    ensures Split(head + "\n\n" + text + "\n") == [head] + ([""] + clean + [""])
  {
    ThreeBreaks(head, text);
    hide Split;
    SplitOneLine(head);
    SplitOneLine("");
    SplitNewline(text, "");
    SplitNewline("", text + "\n" + "");
    SplitNewline(head, "" + "\n" + (text + "\n" + ""));
    assert [""] + (clean + [""]) == [""] + clean + [""];
  }

  /** A written entry's lines: the heading, a blank line, the cleaned body and the end of its last line. */
  lemma WrittenLines(h: Heading, body: string)
    requires GoodHeading(h)
    ensures Split(FormatEntry(h, body)) == [FormatHeading(h)] + ([""] + CleanedLines(body) + [""])
  {
    hide GoodHeading;
    hide FormatHeading;
    hide CleanLines;
    hide EntryOf;
    EntryRead(h, []);
    JoinSplit(Trimmed(CrLfToLf(body)));
    CleanOneLine(None, BodyLines(body));
    SplitJoin(CleanedLines(body));
    ThreeLines(FormatHeading(h), CleanBody(body), CleanedLines(body));
  }

  /** Every line but the last with a carriage return at its end. */
  function WithCr(lines: seq<string>): (r: seq<string>)
    ensures |r| == |lines|
  {
    if |lines| <= 1 then lines else [lines[0] + "\r"] + WithCr(lines[1..])
  }

  lemma {:induction false} CrLfSplit(s: string)
    ensures Split(LfToCrLf(s)) == WithCr(Split(s))
  {
    if s != "" {
      CrLfSplit(s[1..]);
      var rest, more := LfToCrLf(s[1..]), Split(s[1..]);
      if s[0] == '\n' {
        CrLfTwo(rest);
        assert ([""] + more)[1..] == more;
        assert "" + "\r" == "\r";
      } else {
        assert LfToCrLf(s) == [s[0]] + rest;
        assert ([s[0]] + rest)[1..] == rest;
        WithCrOn(s[0], more);
      }
    }
  }

  lemma CrLfTwo(rest: string)
    ensures Split("\r\n" + rest) == ["\r"] + Split(rest)
  {
    var s := "\r\n" + rest;
    assert s[1..] == "\n" + rest && s[1..][1..] == rest;
    assert Split(s[1..]) == [""] + Split(rest);
    assert ([""] + Split(rest))[1..] == Split(rest);
    assert ['\r'] + "" == "\r";
  }

  lemma WithCrOn(c: char, more: seq<string>)
    requires more != []
    ensures var x := WithCr(more);
            [[c] + x[0]] + x[1..] == WithCr([[c] + more[0]] + more[1..])
  {
    var lines := [[c] + more[0]] + more[1..];
    assert lines[1..] == more[1..];
    Assoc([c], more[0], "\r");
  }

  lemma {:induction false} BareWithCr(lines: seq<string>)
    requires lines != []
    ensures BareLines(WithCr(lines)) == lines[..|lines| - 1] + [Bare(lines[|lines| - 1])]
  {
    if |lines| == 1 {
      assert lines[1..] == [];
    } else {
      BareWithCr(lines[1..]);
      var first := lines[0] + "\r";
      assert Bare(first) == lines[0];
      assert ([first] + WithCr(lines[1..]))[1..] == WithCr(lines[1..]);
      assert lines[..|lines| - 1] == [lines[0]] + lines[1..][..|lines| - 2];
    }
  }
}
