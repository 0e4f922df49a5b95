// A file of `\r\n` lines that ends in a lone `\r`: what is read once that line has one carriage return more.
module DiscussionTorn {
  import opened Options
  import opened Space
  import opened Text
  import opened DiscussionText
  import opened DiscussionLines
  import opened DiscussionAppend

  /** The lines, the last with a carriage return at its end. */
  function Torn(lines: seq<string>): (r: seq<string>)
    requires lines != []
    ensures |r| == |lines|
  {
    lines[..|lines| - 1] + [lines[|lines| - 1] + "\r"]
  }

  /** The last line of a question's body is not the one its answer is read from, or has no more than `Answer:` on it. */
  predicate AnswerKept(h: string, body: seq<string>)
    requires body != []
  {
    EntryOf(h, []).kind == Question && AnswerAt(false, body) == |body| - 1 ==>
      AnswerText(body[|body| - 1]) == Some("")
  }

  /** The last line starts no entry, and no answer is read from it. */
  predicate Kept(fence: Option<char>, lines: seq<string>)
    decreases |lines|
  {
    var n := UntilStart(fence, lines);
    n == |lines| ||
    (n < |lines| - 1 &&
     var rest := lines[n + 1..];
     if UntilStart(None, rest) == |rest| then AnswerKept(lines[n], rest) else Kept(None, rest))
  }

  predicate KeptFile(lines: seq<string>) {
    Kept(None, lines[BodyStart(lines)..])
  }

  // One line

  lemma {:induction false} TabsPlain(s: string)
    ensures s != "" && s[|s| - 1] == '\r' ==> TabLength(s) < |s|
  {
    if |s| > 1 {
      TabsPlain(s[1..]);
    }
  }

  lemma TornLine(line: string)
    ensures HeadingText(line + "\r").None? && FenceOf(line + "\r") == FenceOf(line)
  {
    var torn := line + "\r";
    assert torn[|torn| - 1] == '\r';
    assert Bare(torn) == line;
    BareFence(torn);
    hide FenceOf;
    if |torn| > 2 {
      var n := TabLength(torn[2..]);
      TabsPlain(torn[2..]);
      if n < |torn[2..]| {
        var rest := torn[2 + n..];
        assert rest[|rest| - 1] == '\r' && IsTerminator(rest[|rest| - 1]);
      }
    }
  }

  lemma TrimmedCr(s: string)
    ensures Trimmed(s + "\r") == Trimmed(s)
  {
    assert (s + "\r")[..|s|] == s;
    TrimBackSame(s, s + "\r", |s|);
    assert TrimBack(s + "\r", |s| + 1) == TrimBack(s + "\r", |s|);
    assert (s + "\r")[..TrimBack(s, |s|)] == s[..TrimBack(s, |s|)];
  }

  lemma AnswerCr(line: string)
    ensures AnswerText(line + "\r") == if AnswerText(line) == Some("") then Some("") else None
  {
    var torn := line + "\r";
    MarkPrefix("Answer:", line);
    if "Answer:" <= line {
      var rest := line[7..];
      assert torn[7..] == rest + "\r";
      SpaceOr(rest);
      var n := SpaceLength(rest);
      hide SpaceLength;
      if n < |rest| {
        var said := (rest + "\r")[n..];
        assert said[|said| - 1] == '\r' && IsTerminator(said[|said| - 1]);
        assert |rest[n..]| > 0;
      } else {
        assert rest[n..] == "" && (rest + "\r")[n + 1..] == "";
      }
    }
  }

  // The lines of an entry

  lemma {:induction false} JoinTorn(lines: seq<string>)
    requires lines != []
    ensures Join(Torn(lines)) == Join(lines) + "\r"
  {
    if |lines| == 1 {
      assert Torn(lines) == [lines[0] + "\r"];
    } else {
      JoinTorn(lines[1..]);
      assert Torn(lines)[1..] == Torn(lines[1..]);
      JoinedOn(lines[0], Join(lines[1..]));
    }
  }

  lemma JoinedOn(a: string, b: string)
    ensures a + "\n" + (b + "\r") == (a + "\n" + b) + "\r"
  {
  }

  lemma {:induction false} AnswerTorn(fenced: bool, lines: seq<string>)
    requires lines != []
    ensures var n, last := AnswerAt(fenced, lines), AnswerText(lines[|lines| - 1]);
            AnswerAt(fenced, Torn(lines)) == if n == |lines| - 1 && last != Some("") then |lines| else n
    decreases |lines|
  {
    hide AnswerText;
    hide FenceOf;
    hide Torn;
    var first := lines[0];
    var inside := if FenceOf(first).Some? then !fenced else fenced;
    if |lines| == 1 {
      AnswerCr(first);
      TornLine(first);
      TornOne(first);
      assert lines == [first];
    } else {
      AnswerTorn(inside, lines[1..]);
      TornCons(lines);
      AnswerCons(fenced, Torn(lines));
      AnswerCons(fenced, lines);
      hide AnswerAt;
    }
  }

  lemma TornOne(line: string)
    ensures Torn([line]) == [line + "\r"] && [line][1..] == [] && [line + "\r"][1..] == []
  {
  }

  lemma TornCons(lines: seq<string>)
    requires |lines| > 1
    ensures Torn(lines)[0] == lines[0] && Torn(lines)[1..] == Torn(lines[1..])
  {
  }

  lemma AnswerCons(fenced: bool, lines: seq<string>)
    requires lines != []
    ensures var inside := if FenceOf(lines[0]).Some? then !fenced else fenced;
            AnswerAt(fenced, lines)
              == if !inside && AnswerText(lines[0]).Some? then 0 else 1 + AnswerAt(inside, lines[1..])
  {
  }

  lemma TornParts(lines: seq<string>, n: nat, first: string)
    requires n < |lines| - 1
    ensures Torn(lines)[..n] == lines[..n] && Torn(lines)[n] == lines[n]
    ensures [first] + Torn(lines)[n + 1..] == Torn([first] + lines[n + 1..])
  {
  }

  lemma SplitFound(b: seq<string>, n: nat)
    requires n == AnswerAt(false, b) < |b|
    ensures SplitAnswer(b) == (Trimmed(Join(b[..n])), Some(Trimmed(Join([AnswerText(b[n]).value] + b[n + 1..]))))
  {
    hide Trimmed;
    hide Join;
    hide AnswerAt;
    hide AnswerText;
  }

  lemma SplitEarly(b: seq<string>)
    requires AnswerAt(false, b) < |b| - 1
    ensures SplitAnswer(Torn(b)) == SplitAnswer(b)
  {
    hide AnswerText;
    hide AnswerAt;
    hide Join;
    hide Trimmed;
    hide Torn;
    hide SplitAnswer;
    var n := AnswerAt(false, b);
    AnswerTorn(false, b);
    SplitFound(b, n);
    SplitFound(Torn(b), n);
    var said := [AnswerText(b[n]).value] + b[n + 1..];
    TornParts(b, n, AnswerText(b[n]).value);
    JoinTorn(said);
    TrimmedCr(Join(said));
  }

  lemma SplitLate(b: seq<string>)
    requires b != [] && AnswerAt(false, b) == |b| - 1
    ensures SplitAnswer(Torn(b)) == SplitAnswer(b) <==> AnswerText(b[|b| - 1]) == Some("")
  {
    hide AnswerText;
    hide AnswerAt;
    hide Join;
    hide Trimmed;
    var n := |b| - 1;
    AnswerTorn(false, b);
    AnswerCr(b[n]);
    assert Torn(b)[..n] == b[..n] && Torn(b)[n] == b[n] + "\r";
    assert b[n + 1..] == [] && Torn(b)[n + 1..] == [];
    hide Torn;
  }

  lemma SplitTorn(b: seq<string>)
    requires b != []
    ensures SplitAnswer(Torn(b)) == SplitAnswer(b) <==>
            (AnswerAt(false, b) == |b| - 1 ==> AnswerText(b[|b| - 1]) == Some(""))
  {
    var n := AnswerAt(false, b);
    if n < |b| - 1 {
      SplitEarly(b);
    } else if n == |b| - 1 {
      SplitLate(b);
    } else {
      AnswerTorn(false, b);
      JoinTorn(b);
      TrimmedCr(Join(b));
      hide AnswerAt;
      hide AnswerText;
      hide Join;
      hide Trimmed;
      hide Torn;
    }
  }

  lemma EntryPlain(h: string, b: seq<string>, c: seq<string>)
    requires EntryOf(h, []).kind != Question && Trimmed(Join(b)) == Trimmed(Join(c))
    ensures EntryOf(h, b) == EntryOf(h, c)
  {
    hide Join;
    hide SplitAnswer;
    hide HeadingText;
    hide ParseHeading;
    hide Trimmed;
    hide TrailingId;
    hide Supersedes;
  }

  lemma EntryAsked(h: string, b: seq<string>, c: seq<string>)
    requires EntryOf(h, []).kind == Question
    ensures EntryOf(h, b) == EntryOf(h, c) <==> SplitAnswer(b) == SplitAnswer(c)
  {
    hide Join;
    hide SplitAnswer;
    hide HeadingText;
    hide ParseHeading;
    hide Trimmed;
    hide TrailingId;
    hide Supersedes;
  }

  lemma EntryTorn(h: string, b: seq<string>)
    requires b != []
    ensures EntryOf(h, Torn(b)) == EntryOf(h, b) <==> AnswerKept(h, b)
  {
    hide EntryOf;
    hide Join;
    hide Torn;
    hide SplitAnswer;
    hide AnswerAt;
    hide AnswerText;
    hide Trimmed;
    if EntryOf(h, []).kind == Question {
      SplitTorn(b);
      EntryAsked(h, Torn(b), b);
    } else {
      JoinTorn(b);
      TrimmedCr(Join(b));
      EntryPlain(h, Torn(b), b);
    }
  }

  // Lines and files

  lemma UntilTorn(fence: Option<char>, lines: seq<string>)
    requires lines != []
    ensures var n := UntilStart(fence, lines);
            UntilStart(fence, Torn(lines)) == if n == |lines| - 1 then |lines| else n
    ensures FenceAfter(fence, Torn(lines)) == FenceAfter(fence, lines)
  {
    var m := |lines| - 1;
    var front, last := lines[..m], lines[m];
    assert lines == front + [last];
    TornLine(last);
    UntilJoined(fence, front, [last]);
    UntilJoined(fence, front, [last + "\r"]);
    FenceJoined(fence, front, [last]);
    FenceJoined(fence, front, [last + "\r"]);
    var f := FenceAfter(fence, front);
    UntilOne(f, last);
    UntilOne(f, last + "\r");
    hide HeadingText;
    hide FenceOf;
    hide UntilStart;
    hide FenceAfter;
  }

  lemma UntilOne(fence: Option<char>, line: string)
    ensures UntilStart(fence, [line]) == if Starts(fence, line) then 0 else 1
    ensures FenceAfter(fence, [line]) == NextFence(fence, line)
  {
    hide Starts;
    hide NextFence;
    assert [line][1..] == [];
  }

  lemma TornFrom(lines: seq<string>, n: nat)
    requires n < |lines|
    ensures Torn(lines)[n..] == Torn(lines[n..]) && (n > 0 ==> Torn(lines)[n - 1] == lines[n - 1])
    ensures forall k :: 0 <= k < |lines| ==> Torn(lines)[..k] == lines[..k]
  {
  }

  /** Torn lines read as the same entries exactly when the last line starts none and no answer is read from it. */
  lemma {:induction false} EntriesTorn(fence: Option<char>, lines: seq<string>)
    requires lines != []
    ensures EntriesIn(fence, Torn(lines)) == EntriesIn(fence, lines) <==> Kept(fence, lines)
    decreases |lines|, 0
  {
    hide EntryOf;
    hide EntriesIn;
    hide UntilStart;
    hide AnswerKept;
    hide Torn;
    UntilTorn(fence, lines);
    var n := UntilStart(fence, lines);
    if n == |lines| {
      NoEntries(fence, lines);
      NoEntries(fence, Torn(lines));
    } else if n == |lines| - 1 {
      EntriesCons(fence, lines);
      NoEntries(fence, Torn(lines));
    } else {
      var rest := lines[n + 1..];
      TornFrom(lines, n + 1);
      EntriesCons(fence, lines);
      EntriesCons(fence, Torn(lines));
      RestTorn(lines[n], rest);
    }
  }

  lemma {:induction false} RestTorn(h: string, rest: seq<string>)
    requires rest != []
    ensures var k, j := UntilStart(None, rest), UntilStart(None, Torn(rest));
            [EntryOf(h, Torn(rest)[..j])] + EntriesIn(None, Torn(rest))
            == [EntryOf(h, rest[..k])] + EntriesIn(None, rest)
            <==> if k == |rest| then AnswerKept(h, rest) else Kept(None, rest)
    decreases |rest|, 1
  {
    hide EntryOf;
    hide EntriesIn;
    hide UntilStart;
    hide AnswerKept;
    hide Torn;
    hide Kept;
    UntilTorn(None, rest);
    var k, j := UntilStart(None, rest), UntilStart(None, Torn(rest));
    if k == |rest| {
      NoEntries(None, rest);
      NoEntries(None, Torn(rest));
      EntryTorn(h, rest);
      assert rest[..k] == rest && Torn(rest)[..j] == Torn(rest);
    } else {
      EntriesTorn(None, rest);
      if k == |rest| - 1 {
        EntriesCons(None, rest);
        NoEntries(None, Torn(rest));
        LastStarts(None, rest);
      } else {
        TornFrom(rest, 0);
      }
    }
    SameAfter(EntryOf(h, Torn(rest)[..j]), EntriesIn(None, Torn(rest)), EntryOf(h, rest[..k]), EntriesIn(None, rest));
  }

  lemma LastStarts(fence: Option<char>, lines: seq<string>)
    requires lines != [] && UntilStart(fence, lines) == |lines| - 1
    ensures !Kept(fence, lines)
  {
  }

  lemma SameAfter<T>(a: T, x: seq<T>, b: T, y: seq<T>)
    ensures [a] + x == [b] + y <==> a == b && x == y
  {
    assert ([a] + x)[0] == a && ([a] + x)[1..] == x;
    assert ([b] + y)[0] == b && ([b] + y)[1..] == y;
  }

  lemma ClosesTorn(line: string)
    ensures Closes(line + "\r") == Closes(line)
  {
    TrimmedCr(line);
  }

  lemma CloseTorn(lines: seq<string>)
    requires lines != []
    ensures CloseAt(Torn(lines)) == CloseAt(lines)
  {
    var m := |lines| - 1;
    var front, last := lines[..m], lines[m];
    assert lines == front + [last];
    ClosesTorn(last);
    CloseJoined(front, [last]);
    CloseJoined(front, [last + "\r"]);
    hide Closes;
    assert [last][1..] == [] && [last + "\r"][1..] == [];
  }

  lemma BodyStartTorn(lines: seq<string>)
    requires lines != []
    ensures BodyStart(Torn(lines)) == BodyStart(lines) && FrontOpened(Torn(lines)) == FrontOpened(lines)
  {
    if |lines| == 1 {
      TrimmedCr(lines[0]);
    } else {
      assert Torn(lines)[0] == lines[0] && Torn(lines)[1..] == Torn(lines[1..]);
      CloseTorn(lines[1..]);
    }
    hide Trimmed;
    hide CloseAt;
  }

  /** A torn file reads as the same entries exactly when its last line is kept; fence and front matter end the same. */
  lemma FileTorn(lines: seq<string>)
    requires lines != []
    ensures EntriesOf(Torn(lines)) == EntriesOf(lines) <==> KeptFile(lines)
    ensures FenceAtEnd(Torn(lines)) == FenceAtEnd(lines) && FrontLeftOpen(Torn(lines)) == FrontLeftOpen(lines)
  {
    BodyStartTorn(lines);
    var start := BodyStart(lines);
    hide BodyStart;
    hide FrontOpened;
    hide EntriesIn;
    hide Torn;
    if start < |lines| {
      TornFrom(lines, start);
      EntriesTorn(None, lines[start..]);
      UntilTorn(None, lines[start..]);
    } else {
      assert lines[start..] == [] && Torn(lines)[start..] == [];
    }
    hide UntilStart;
    hide FenceAfter;
  }
}
