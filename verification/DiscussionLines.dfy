// How a discussion's entries follow from its lines: what putting lines together does to them.
module DiscussionLines {
  import opened Options
  import opened Space
  import opened Text
  import opened DiscussionText

  lemma {:induction false} FenceJoined(fence: Option<char>, a: seq<string>, b: seq<string>)
    ensures FenceAfter(fence, a + b) == FenceAfter(FenceAfter(fence, a), b)
    decreases |a|
  {
    hide NextFence;
    if a == [] {
      assert a + b == b;
    } else {
      assert (a + b)[1..] == a[1..] + b;
      FenceJoined(NextFence(fence, a[0]), a[1..], b);
    }
  }

  lemma {:induction false} UntilJoined(fence: Option<char>, a: seq<string>, b: seq<string>)
    ensures UntilStart(fence, a) < |a| ==> UntilStart(fence, a + b) == UntilStart(fence, a)
    ensures UntilStart(fence, a) == |a| ==> UntilStart(fence, a + b) == |a| + UntilStart(FenceAfter(fence, a), b)
    decreases |a|
  {
    hide NextFence;
    hide Starts;
    if a == [] {
      assert a + b == b;
    } else {
      assert (a + b)[1..] == a[1..] + b;
      UntilJoined(NextFence(fence, a[0]), a[1..], b);
    }
  }

  lemma NoEntries(fence: Option<char>, lines: seq<string>)
    requires UntilStart(fence, lines) == |lines|
    ensures EntriesIn(fence, lines) == []
  {
    hide UntilStart;
  }

  lemma PastFirst(a: seq<string>, b: seq<string>, n: nat)
    requires n <= |b|
    ensures (a + b)[|a| + n..] == b[n..]
  {
  }

  /** Before the first line that starts an entry there is none, and the fence is what the lines leave. */
  lemma EntriesSkipped(fence: Option<char>, a: seq<string>, b: seq<string>)
    requires UntilStart(fence, a) == |a|
    ensures EntriesIn(fence, a + b) == EntriesIn(FenceAfter(fence, a), b)
  {
    hide UntilStart;
    hide EntryOf;
    hide EntriesIn;
    hide FenceAfter;
    UntilJoined(fence, a, b);
    var n := UntilStart(FenceAfter(fence, a), b);
    if n < |b| {
      PastFirst(a, b, n + 1);
      EntriesCons(fence, a + b);
      EntriesCons(FenceAfter(fence, a), b);
    } else {
      NoEntries(fence, a + b);
      NoEntries(FenceAfter(fence, a), b);
    }
  }

  /** At a line that starts an entry the fence is closed. */
  lemma {:induction false} FenceAtStart(fence: Option<char>, lines: seq<string>)
    requires UntilStart(fence, lines) < |lines|
    ensures Starts(None, lines[UntilStart(fence, lines)])
    ensures FenceAfter(fence, lines) == FenceAfter(None, lines[UntilStart(fence, lines) + 1..])
    ensures FenceAfter(fence, lines[..UntilStart(fence, lines)]) == None
    decreases |lines|
  {
    if !Starts(fence, lines[0]) {
      hide NextFence;
      hide Starts;
      var n := UntilStart(NextFence(fence, lines[0]), lines[1..]);
      FenceAtStart(NextFence(fence, lines[0]), lines[1..]);
      assert lines[1..][n + 1..] == lines[n + 2..];
      assert lines[1..][..n] == lines[..n + 1][1..];
    }
  }

  /** What may follow the lines of an entry: nothing, or the line that starts the next. */
  ghost predicate Ends(body: seq<string>, rest: seq<string>) {
    rest == [] || (FenceAfter(None, body) == None && Starts(None, rest[0]))
  }

  lemma EntryFirst(h: string, b: seq<string>, r: seq<string>)
    requires Starts(None, h) && UntilStart(None, b) == |b| && Ends(b, r)
    ensures EntriesIn(None, [h] + b + r) == [EntryOf(h, b)] + EntriesIn(None, r)
  {
    hide EntryOf;
    hide EntriesIn;
    hide Starts;
    hide UntilStart;
    hide FenceAfter;
    var all := [h] + b + r;
    assert all[0] == h && all[1..] == b + r;
    StartsNow(all);
    UntilJoined(None, b, r);
    EntriesSkipped(None, b, r);
    EntriesCons(None, all);
    assert (b + r)[..|b|] == b;
    if r == [] {
      NoEntries(None, r);
      NoEntries(FenceAfter(None, b), r);
    } else {
      StartsNow(r);
    }
  }

  /** Lines put after some that start an entry: the first entry is where it was. */
  lemma FirstCut(fence: Option<char>, a: seq<string>, tail: seq<string>)
    requires UntilStart(fence, a) < |a|
    ensures var n := UntilStart(fence, a);
            var rest := a[n + 1..] + tail;
            && UntilStart(fence, a + tail) == n < |a + tail| && (a + tail)[n] == a[n]
            && (a + tail)[n + 1..] == rest
  {
    hide UntilStart;
    UntilJoined(fence, a, tail);
  }

  lemma EntriesCut(fence: Option<char>, a: seq<string>, tail: seq<string>)
    requires UntilStart(fence, a) < |a|
    ensures var n := UntilStart(fence, a);
            var rest := a[n + 1..] + tail;
            EntriesIn(fence, a + tail) == [EntryOf(a[n], rest[..UntilStart(None, rest)])] + EntriesIn(None, rest)
  {
    hide UntilStart;
    hide EntryOf;
    hide EntriesIn;
    FirstCut(fence, a, tail);
    EntriesCons(fence, a + tail);
  }

  lemma BlocksCut(fence: Option<char>, a: seq<string>, tail: seq<string>, at: nat)
    requires UntilStart(fence, a) < |a|
    ensures var n := UntilStart(fence, a);
            var rest := a[n + 1..] + tail;
            BlocksIn(fence, a + tail, at)
              == [Block(at + n, at + n + 1 + UntilStart(None, rest))] + BlocksIn(None, rest, at + n + 1)
  {
    hide UntilStart;
    hide BlocksIn;
    FirstCut(fence, a, tail);
    BlocksCons(fence, a + tail, at);
  }

  /** Before a line that starts an entry, with the fence closed, another entry's lines end. */
  lemma UntilNext(lines: seq<string>, tail: seq<string>)
    requires FenceAfter(None, lines) == None && tail != [] && Starts(None, tail[0])
    ensures var k := UntilStart(None, lines);
            UntilStart(None, lines + tail) == k && (lines + tail)[..k] == lines[..k]
  {
    hide UntilStart;
    UntilJoined(None, lines, tail);
    StartsNow(tail);
  }

  /** One entry among others: the entries before it, the entry its own lines make, and the entries after it. */
  lemma {:induction false} EntryAmong(fence: Option<char>, a: seq<string>, h: string, b: seq<string>, r: seq<string>)
    requires FenceAfter(fence, a) == None && Starts(None, h) && UntilStart(None, b) == |b| && Ends(b, r)
    ensures EntriesIn(fence, a + ([h] + b + r)) == EntriesIn(fence, a) + [EntryOf(h, b)] + EntriesIn(None, r)
    decreases |a|
  {
    hide EntryOf;
    hide EntriesIn;
    hide UntilStart;
    hide Starts;
    hide FenceAfter;
    hide Ends;
    var tail := [h] + b + r;
    assert tail[0] == h;
    EntryFirst(h, b, r);
    var n := UntilStart(fence, a);
    if n == |a| {
      EntriesSkipped(fence, a, tail);
      NoneStart(fence, a, 0);
    } else {
      FenceAtStart(fence, a);
      var more := a[n + 1..];
      EntryAmong(None, more, h, b, r);
      EntriesCut(fence, a, tail);
      EntriesCons(fence, a);
      UntilNext(more, tail);
      AssocSeq([EntryOf(a[n], more[..UntilStart(None, more)])], EntriesIn(None, more), [EntryOf(h, b)],
        EntriesIn(None, r));
    }
  }

  lemma AssocSeq<T>(a: seq<T>, b: seq<T>, c: seq<T>, d: seq<T>)
    ensures a + (b + c + d) == (a + b) + c + d
  {
  }

  lemma StartsNow(lines: seq<string>)
    requires lines != [] && Starts(None, lines[0])
    ensures UntilStart(None, lines) == 0
  {
  }

  lemma InCons<T>(x: T, first: T, more: seq<T>)
    ensures x in [first] + more <==> x == first || x in more
  {
  }

  lemma {:induction false} BlocksAfter(fence: Option<char>, lines: seq<string>, at: nat, b: Block)
    requires b in BlocksIn(fence, lines, at)
    ensures at <= b.headingLine
    decreases |lines|
  {
    hide BlocksIn;
    hide UntilStart;
    var n := UntilStart(fence, lines);
    if n < |lines| {
      BlocksCons(fence, lines, at);
      var rest := lines[n + 1..];
      InCons(b, Block(at + n, at + n + 1 + UntilStart(None, rest)), BlocksIn(None, rest, at + n + 1));
      if b in BlocksIn(None, rest, at + n + 1) {
        BlocksAfter(None, rest, at + n + 1, b);
      }
    } else {
      NoneStart(fence, lines, at);
    }
  }

  lemma BlocksSkipped(fence: Option<char>, a: seq<string>, b: seq<string>, at: nat)
    requires UntilStart(fence, a) == |a|
    ensures BlocksIn(fence, a + b, at) == BlocksIn(FenceAfter(fence, a), b, at + |a|)
  {
    UntilJoined(fence, a, b);
    hide UntilStart;
    hide FenceAfter;
    var n := UntilStart(FenceAfter(fence, a), b);
    if n < |b| {
      assert (a + b)[|a| + n + 1..] == b[n + 1..];
    }
  }

  lemma BlockFirst(fence: Option<char>, h: string, b: seq<string>, at: nat)
    ensures Block(at, at + 1 + |b|) in BlocksIn(fence, [h] + b, at) <==> Starts(fence, h) && UntilStart(None, b) == |b|
  {
    hide BlocksIn;
    hide UntilStart;
    var tail := [h] + b;
    var own := Block(at, at + 1 + |b|);
    var n := UntilStart(fence, tail);
    StartsFirst(fence, h, b);
    if n == |tail| {
      NoneStart(fence, tail, at);
    } else {
      BlocksCons(fence, tail, at);
      var rest := tail[n + 1..];
      assert n == 0 ==> rest == b;
      InCons(own, Block(at + n, at + n + 1 + UntilStart(None, rest)), BlocksIn(None, rest, at + n + 1));
      if own in BlocksIn(None, rest, at + n + 1) {
        BlocksAfter(None, rest, at + n + 1, own);
      }
    }
  }

  lemma StartsFirst(fence: Option<char>, h: string, b: seq<string>)
    ensures UntilStart(fence, [h] + b) == 0 <==> Starts(fence, h)
  {
    assert ([h] + b)[0] == h;
  }

  /**
   * The block a line makes, all lines after it included, is among the blocks exactly when the line starts it and none
   * after does.
   */
  lemma {:induction false} BlockAmong(fence: Option<char>, a: seq<string>, h: string, b: seq<string>, at: nat)
    ensures Block(at + |a|, at + |a| + 1 + |b|) in BlocksIn(fence, a + ([h] + b), at)
       <==> Starts(FenceAfter(fence, a), h) && UntilStart(None, b) == |b|
    decreases |a|
  {
    hide BlocksIn;
    hide UntilStart;
    hide Starts;
    hide FenceAfter;
    var tail := [h] + b;
    var own := Block(at + |a|, at + |a| + 1 + |b|);
    var n := UntilStart(fence, a);
    if n == |a| {
      BlocksSkipped(fence, a, tail, at);
      BlockFirst(FenceAfter(fence, a), h, b, at + |a|);
    } else {
      FenceAtStart(fence, a);
      var more := a[n + 1..];
      BlockAmong(None, more, h, b, at + n + 1);
      BlocksCut(fence, a, tail, at);
      InCons(own, Block(at + n, at + n + 1 + UntilStart(None, more + tail)), BlocksIn(None, more + tail, at + n + 1));
    }
  }

  // Blank lines at the end

  lemma {:induction false} JoinLast(lines: seq<string>, line: string)
    requires lines != []
    ensures Join(lines + [line]) == Join(lines) + "\n" + line
  {
    if |lines| > 1 {
      assert (lines + [line])[1..] == lines[1..] + [line];
      JoinLast(lines[1..], line);
      Glue(lines[0], Join(lines[1..]), line);
    } else {
      assert (lines + [line])[1..] == [line];
    }
  }

  lemma Glue(a: string, b: string, c: string)
    ensures a + "\n" + (b + "\n" + c) == (a + "\n" + b) + "\n" + c
  {
  }

  lemma TrimmedNewline(s: string)
    ensures Trimmed(s + "\n") == Trimmed(s)
  {
    assert (s + "\n")[..|s|] == s;
    TrimBackSame(s, s + "\n", |s|);
    assert TrimBack(s + "\n", |s| + 1) == TrimBack(s + "\n", |s|);
    assert (s + "\n")[..TrimBack(s, |s|)] == s[..TrimBack(s, |s|)];
  }

  lemma {:induction false} TrimBackSame(s: string, t: string, n: nat)
    requires n <= |s| && n <= |t| && s[..n] == t[..n]
    ensures TrimBack(s, n) == TrimBack(t, n)
  {
    if n > 0 {
      assert s[..n][n - 1] == t[..n][n - 1];
      assert s[..n][..n - 1] == s[..n - 1] && t[..n][..n - 1] == t[..n - 1];
      TrimBackSame(s, t, n - 1);
    }
  }

  lemma TrimmedJoin(lines: seq<string>)
    ensures Trimmed(Join(lines + [""])) == Trimmed(Join(lines))
  {
    if lines == [] {
      assert lines + [""] == [""];
    } else {
      JoinLast(lines, "");
      assert Join(lines) + "\n" + "" == Join(lines) + "\n";
      TrimmedNewline(Join(lines));
    }
  }

  lemma {:induction false} AnswerBlank(fenced: bool, lines: seq<string>)
    ensures AnswerAt(fenced, lines) < |lines| ==> AnswerAt(fenced, lines + [""]) == AnswerAt(fenced, lines)
    ensures AnswerAt(fenced, lines) == |lines| ==> AnswerAt(fenced, lines + [""]) == |lines| + 1
    decreases |lines|
  {
    if lines == [] {
      assert lines + [""] == [""];
      assert AnswerText("").None?;
      assert [""][1..] == [];
    } else {
      hide AnswerText;
      hide FenceOf;
      assert (lines + [""])[1..] == lines[1..] + [""];
      AnswerBlank(if FenceOf(lines[0]).Some? then !fenced else fenced, lines[1..]);
    }
  }

  lemma AnswerTail(b: seq<string>, n: nat, first: string)
    requires n < |b|
    ensures (b + [""])[..n] == b[..n] && [first] + (b + [""])[n + 1..] == ([first] + b[n + 1..]) + [""]
  {
    assert (b + [""])[n + 1..] == b[n + 1..] + [""];
  }

  lemma SplitBlank(b: seq<string>)
    ensures SplitAnswer(b + [""]) == SplitAnswer(b)
  {
    hide Trimmed;
    hide AnswerText;
    hide Join;
    TrimmedJoin(b);
    AnswerBlank(false, b);
    hide AnswerAt;
    var n := AnswerAt(false, b);
    if n < |b| {
      AnswerTail(b, n, AnswerText(b[n]).value);
      TrimmedJoin([AnswerText(b[n]).value] + b[n + 1..]);
    }
  }

  /** A blank line at the end of an entry is not part of it. */
  lemma EntryBlank(h: string, b: seq<string>)
    ensures EntryOf(h, b + [""]) == EntryOf(h, b)
  {
    hide Trimmed;
    hide ParseHeading;
    hide HeadingText;
    hide TrailingId;
    hide Join;
    hide SplitAnswer;
    TrimmedJoin(b);
    SplitBlank(b);
  }

  lemma BlankIsPlain(fence: Option<char>)
    ensures !Starts(fence, "") && NextFence(fence, "") == fence
  {
  }

  lemma {:induction false} UntilBlank(fence: Option<char>, lines: seq<string>)
    ensures FenceAfter(fence, lines + [""]) == FenceAfter(fence, lines)
    ensures UntilStart(fence, lines) < |lines| ==> UntilStart(fence, lines + [""]) == UntilStart(fence, lines)
    ensures UntilStart(fence, lines) == |lines| ==> UntilStart(fence, lines + [""]) == |lines| + 1
  {
    UntilJoined(fence, lines, [""]);
    FenceJoined(fence, lines, [""]);
    var f := FenceAfter(fence, lines);
    BlankIsPlain(f);
    assert [""][1..] == [];
    assert UntilStart(f, [""]) == 1 && FenceAfter(f, [""]) == f;
  }

  lemma EntryLinesBlank(h: string, rest: seq<string>)
    ensures EntryOf(h, (rest + [""])[..UntilStart(None, rest + [""])]) == EntryOf(h, rest[..UntilStart(None, rest)])
  {
    hide EntryOf;
    UntilBlank(None, rest);
    hide UntilStart;
    var k := UntilStart(None, rest);
    if k < |rest| {
      assert (rest + [""])[..k] == rest[..k];
    } else {
      assert (rest + [""])[..k + 1] == rest + [""] && rest[..k] == rest;
      EntryBlank(h, rest);
    }
  }

  lemma {:induction false} EntriesBlank(fence: Option<char>, lines: seq<string>)
    ensures EntriesIn(fence, lines + [""]) == EntriesIn(fence, lines)
    decreases |lines|
  {
    hide EntryOf;
    hide EntriesIn;
    hide UntilStart;
    UntilBlank(fence, lines);
    var n := UntilStart(fence, lines);
    if n == |lines| {
      NoneStart(fence, lines, 0);
      NoneStart(fence, lines + [""], 0);
    } else {
      var rest := lines[n + 1..];
      EntriesBlank(None, rest);
      EntryLinesBlank(lines[n], rest);
      EntriesCons(fence, lines);
      EntriesCut(fence, lines, [""]);
    }
  }

  // Front matter

  lemma {:induction false} CloseJoined(a: seq<string>, b: seq<string>)
    ensures CloseAt(a) < |a| ==> CloseAt(a + b) == CloseAt(a)
    ensures CloseAt(a) == |a| ==> CloseAt(a + b) == |a| + CloseAt(b)
  {
    hide Closes;
    if a == [] {
      assert a + b == b;
    } else {
      assert (a + b)[1..] == a[1..] + b;
      CloseJoined(a[1..], b);
    }
  }

  /** Front matter was opened and is never closed. */
  predicate FrontLeftOpen(lines: seq<string>) {
    FrontOpened(lines) && BodyStart(lines) == 0
  }

  /** Lines after a file's own move where its entries start only if they close front matter it left open. */
  lemma BodyStartJoined(a: seq<string>, b: seq<string>)
    requires a != [] || !FrontOpened(b)
    ensures BodyStart(a + b) == if FrontLeftOpen(a) && CloseAt(b) < |b| then |a| + CloseAt(b) + 1 else BodyStart(a)
  {
    hide Trimmed;
    if a == [] {
      assert a + b == b;
    } else {
      assert (a + b)[0] == a[0] && (a + b)[1..] == a[1..] + b;
      CloseJoined(a[1..], b);
    }
  }

  lemma BlankCloses()
    ensures CloseAt([""]) == 1 && !FrontOpened([""])
  {
    assert Trimmed("") == "";
    assert [""][1..] == [];
  }

  /** The fence open at the end of a file. */
  function FenceAtEnd(lines: seq<string>): Option<char> {
    FenceAfter(None, lines[BodyStart(lines)..])
  }

  /** A blank line at the end of a file changes nothing that is read from it. */
  lemma FileBlank(lines: seq<string>)
    ensures EntriesOf(lines + [""]) == EntriesOf(lines)
    ensures FenceAtEnd(lines + [""]) == FenceAtEnd(lines)
    ensures FrontLeftOpen(lines + [""]) == FrontLeftOpen(lines)
  {
    BlankCloses();
    BodyStartJoined(lines, [""]);
    hide CloseAt;
    var start := BodyStart(lines);
    hide BodyStart;
    assert (lines + [""])[start..] == lines[start..] + [""];
    EntriesBlank(None, lines[start..]);
    UntilBlank(None, lines[start..]);
    hide EntriesIn;
    hide FenceAfter;
    assert lines != [] ==> (lines + [""])[0] == lines[0];
    hide Trimmed;
    assert lines == [] ==> lines + [""] == [""];
  }
}
