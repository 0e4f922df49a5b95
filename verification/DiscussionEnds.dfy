// The line ends of a discussion file, which naming and restating keep as appending does.
module DiscussionEnds {
  import opened Strings
  import opened Options
  import opened Space
  import opened Text
  import opened DiscussionText
  import opened DiscussionLines
  import opened DiscussionWrite
  import opened DiscussionAppend
  import opened DiscussionRoundTrip
  import opened DiscussionIds
  import opened DiscussionRestate
  import opened DiscussionReading
  import opened DiscussionBody

  predicate Cr(line: string) {
    line != "" && line[|line| - 1] == '\r'
  }

  /** The lines of a text that ends every one of them with a carriage return and a newline. */
  predicate CrLines(lines: seq<string>) {
    lines != [] && lines[|lines| - 1] == "" && forall k :: 0 <= k < |lines| - 1 ==> Cr(lines[k])
  }

  predicate NoCr(lines: seq<string>) {
    forall k :: 0 <= k < |lines| ==> '\r' !in lines[k]
  }

  /** A text of lines that all end in a carriage return and a newline. */
  predicate CrLfText(text: string) {
    AllCrLf(text) && (text == "" || text[|text| - 1] == '\n')
  }

  lemma CrLfFirst(line: string, rest: string)
    requires OneLine(line)
    ensures AllCrLf(line + "\n" + rest) <==> Cr(line) && AllCrLf(rest)
  {
    var text, n := line + "\n" + rest, |line|;
    assert text[n] == '\n' && (n > 0 ==> text[n - 1] == line[n - 1]);
    assert forall k :: 0 <= k < |rest| ==> text[n + 1 + k] == rest[k];
    assert forall k :: 0 <= k < n ==> text[k] == line[k];
    if AllCrLf(text) {
      forall k | 0 <= k < |rest| && rest[k] == '\n' ensures k > 0 && rest[k - 1] == '\r' {
        assert text[n + 1 + k - 1] == '\r';
      }
    }
    if Cr(line) && AllCrLf(rest) {
      forall k | 0 <= k < |text| && text[k] == '\n' ensures k > 0 && text[k - 1] == '\r' {
        if k > n {
          assert rest[k - n - 1] == '\n';
        }
      }
    }
  }

  lemma {:induction false} JoinCrLf(lines: seq<string>)
    requires lines != [] && AllOneLine(lines)
    ensures AllCrLf(Join(lines)) <==> forall k :: 0 <= k < |lines| - 1 ==> Cr(lines[k])
  {
    assert OneLine(lines[0]);
    if |lines| > 1 {
      JoinCrLf(lines[1..]);
      CrLfFirst(lines[0], Join(lines[1..]));
      assert forall k :: 0 < k < |lines| ==> lines[k] == lines[1..][k - 1];
    }
  }

  lemma TextLines(text: string)
    ensures CrLfText(text) <==> CrLines(Split(text))
    ensures '\r' !in text <==> NoCr(Split(text))
  {
    JoinSplit(text);
    JoinCrLf(Split(text));
    if text != "" {
      LastPiece(text);
    }
    hide AllCrLf;
    hide OneLine;
    if '\r' !in text {
      NoReturns(text);
    }
    if NoCr(Split(text)) {
      hide Split;
      JoinNoCr(Split(text));
    }
  }

  lemma {:induction false} JoinNoCr(lines: seq<string>)
    requires NoCr(lines)
    ensures '\r' !in Join(lines)
  {
    if |lines| > 1 {
      JoinNoCr(lines[1..]);
    }
  }

  // Naming

  /** A line that ends as another does, and is empty or free of carriage returns if that is. */
  predicate EndsLike(line: string, was: string) {
    && (Cr(line) <==> Cr(was)) && (was == "" ==> line == "") && ('\r' !in was ==> '\r' !in line)
  }

  lemma NamedEndsLike(line: string, id: string)
    requires IsId(id) && line != ""
    ensures EndsLike(WithId(line, id), line)
  {
    assert forall k :: 0 <= k < |id| ==> IsIdChar(id[k]) && id[k] != '\r';
    var front := TrimEnd(Bare(line)) + " ^" + id;
    assert front[|front| - 1] == id[|id| - 1];
    assert front + "" == front;
    hide TrimBack;
  }

  lemma {:induction false} NamedAllLike(fence: Option<char>, lines: seq<string>, mint: Mint, count: nat)
    requires MintsIds(mint)
    ensures forall k :: 0 <= k < |lines| ==> EndsLike(NamedIn(fence, lines, mint, count)[k], lines[k])
    decreases |lines|
  {
    hide EndsLike;
    hide UntilStart;
    hide BareLines;
    hide EntryAt;
    hide WithId;
    forall k | 0 <= k < |lines| ensures EndsLike(lines[k], lines[k]) {
      LikeItself(lines[k]);
    }
    var n := UntilStart(fence, BareLines(lines));
    if n < |lines| {
      var rest := lines[n + 1..];
      var e := EntryAt(lines[n], rest);
      NamedAllLike(None, rest, mint, Drawn(e, count));
      var named, line, more := NamedIn(fence, lines, mint, count), NamedLine(lines[n], e, mint, count),
                               NamedIn(None, rest, mint, Drawn(e, count));
      assert named == lines[..n] + ([line] + more);
      hide NamedIn;
      HeadNotEmpty(fence, lines);
      NamedEndsLike(lines[n], mint(e.kind, count));
      assert EndsLike(line, lines[n]);
      hide NamedLine;
      forall k | 0 <= k < |lines| ensures EndsLike(named[k], lines[k]) {
        if k > n {
          assert named[k] == more[k - n - 1] && lines[k] == rest[k - n - 1];
        }
      }
    }
  }

  lemma LikeItself(line: string)
    ensures EndsLike(line, line)
  {
  }

  lemma HeadNotEmpty(fence: Option<char>, lines: seq<string>)
    requires UntilStart(fence, BareLines(lines)) < |lines|
    ensures lines[UntilStart(fence, BareLines(lines))] != ""
  {
    UntilSays(fence, BareLines(lines));
    hide UntilStart;
    hide FenceOf;
    hide FenceAfter;
  }

  lemma AllLike(lines: seq<string>, was: seq<string>)
    requires |lines| == |was| && forall k :: 0 <= k < |was| ==> EndsLike(lines[k], was[k])
    ensures (CrLines(was) ==> CrLines(lines)) && (NoCr(was) ==> NoCr(lines))
  {
  }

  lemma NamedLike(lines: seq<string>, mint: Mint)
    requires MintsIds(mint)
    ensures |NamedLines(lines, mint)| == |lines|
    ensures forall k :: 0 <= k < |lines| ==> EndsLike(NamedLines(lines, mint)[k], lines[k])
  {
    hide EndsLike;
    hide NamedIn;
    hide BodyStart;
    hide BareLines;
    var start := BodyStart(BareLines(lines));
    var rest, named := lines[start..], NamedLines(lines, mint);
    var more := NamedIn(None, rest, mint, 0);
    NamedAllLike(None, rest, mint, 0);
    assert named == lines[..start] + more;
    hide NamedLines;
    forall k | 0 <= k < |lines| ensures EndsLike(named[k], lines[k]) {
      LikeItself(lines[k]);
      if k >= start {
        assert lines[k] == rest[k - start] && named[k] == more[k - start];
      }
    }
  }

  /** Naming keeps a file's line ends, of either kind. */
  lemma NamingKeepsEnds(text: string, mint: Mint)
    requires MintsIds(mint)
    ensures CrLfText(text) ==> CrLfText(WithMissingIds(text, mint))
    ensures '\r' !in text ==> '\r' !in WithMissingIds(text, mint)
  {
    hide CrLfText;
    hide EndsLike;
    hide CrLines;
    hide NoCr;
    hide NamedLines;
    TextLines(text);
    TextLines(WithMissingIds(text, mint));
    NamedSplit(text, mint);
    NamedLike(Split(text), mint);
    hide WithMissingIds;
    hide Split;
    AllLike(NamedLines(Split(text), mint), Split(text));
  }

  // Restating

  lemma {:induction false} SplitFree(text: string)
    requires '\r' !in text
    ensures NoCr(Split(text))
  {
    NoReturns(text);
  }

  lemma NoCrLf(s: string)
    requires s != "" && s[0] != '\r'
    ensures !("\r\n" <= s)
  {
    assert s[0] != "\r\n"[0];
  }

  lemma {:induction false} LfFree(s: string)
    requires '\r' !in s
    ensures '\r' !in CrLfToLf(s)
  {
    if s != "" {
      NoCrLf(s);
      LfFree(s[1..]);
    }
  }

  lemma CleanedFree(appended: string)
    requires '\r' !in appended
    ensures NoCr(CleanedLines(appended))
  {
    var lf := CrLfToLf(appended);
    LfFree(appended);
    TrimmedFree(lf);
    hide CrLfToLf;
    SplitFree(Trimmed(lf));
    hide Trimmed;
    hide Split;
    CleanFree(Split(Trimmed(lf)));
    hide CleanLines;
    hide NoCr;
  }

  lemma CleanFree(lines: seq<string>)
    requires NoCr(lines)
    ensures NoCr(CleanLines(None, lines))
  {
    CleanedAt(None, lines);
    FenceIs(None, lines);
    hide CleanLines;
    hide Starts;
    hide FenceAfter;
    var clean := CleanLines(None, lines);
    forall k | 0 <= k < |clean| ensures '\r' !in clean[k] {
      if k < |lines| {
        assert '\r' !in lines[k];
      }
    }
  }

  lemma TrimmedFree(s: string)
    requires '\r' !in s
    ensures '\r' !in Trimmed(s)
  {
  }

  lemma {:induction false} FenceIs(fence: Option<char>, lines: seq<string>)
    requires IsFence(fence)
    ensures IsFence(FenceAfter(fence, lines))
    decreases |lines|
  {
    if lines != [] {
      FenceStays(fence, lines[0]);
      FenceIs(NextFence(fence, lines[0]), lines[1..]);
    }
  }

  lemma {:induction false} ReturnedAt(lines: seq<string>, cr: string)
    ensures forall k :: 0 <= k < |lines| ==> Returned(lines, cr)[k] == lines[k] + cr
  {
    if lines != [] {
      ReturnedAt(lines[1..], cr);
    }
  }

  /** What is written into a file of either kind has its line ends: each line a carriage return, or none has one. */
  predicate Fitting(lines: seq<string>, cr: string) {
    if cr == "\r" then forall k :: 0 <= k < |lines| ==> Cr(lines[k]) else NoCr(lines)
  }

  lemma HeadingFitting(h: Heading, cr: string)
    requires GoodHeading(h) && cr in {"", "\r"}
    ensures Fitting([FormatHeading(h) + cr], cr)
  {
    BodyEnds(h);
    FormatIs(h);
    hide GoodHeading;
    hide HeadingBody;
    hide FormatHeading;
    var line := FormatHeading(h) + cr;
    assert cr == "\r" ==> line[|line| - 1] == '\r';
    assert forall k :: 3 <= k < |FormatHeading(h)| ==> FormatHeading(h)[k] == HeadingBody(h)[k - 3];
    assert FormatHeading(h)[..3] == "## ";
    assert forall k :: 0 <= k < 3 ==> FormatHeading(h)[k] == FormatHeading(h)[..3][k];
  }

  lemma FormatIs(h: Heading)
    ensures FormatHeading(h) == "## " + HeadingBody(h)
  {
  }

  lemma AddedFitting(appended: string, cr: string)
    requires '\r' !in appended && cr in {"", "\r"}
    ensures Fitting(Returned([""] + CleanedLines(appended), cr), cr)
  {
    var lines := [""] + CleanedLines(appended);
    CleanedFree(appended);
    hide CleanedLines;
    ReturnedAt(lines, cr);
    var all := Returned(lines, cr);
    hide Returned;
    if cr == "\r" {
      forall k | 0 <= k < |all| ensures Cr(all[k]) {
        assert all[k] == lines[k] + cr;
      }
    } else {
      forall k | 0 <= k < |all| ensures '\r' !in all[k] {
        assert all[k] == lines[k] + "" == lines[k];
      }
    }
  }

  predicate AllCr(lines: seq<string>) {
    forall k :: 0 <= k < |lines| ==> Cr(lines[k])
  }

  lemma NoCrJoined(a: seq<string>, b: seq<string>)
    ensures NoCr(a + b) <==> NoCr(a) && NoCr(b)
  {
    assert forall k :: 0 <= k < |a| ==> (a + b)[k] == a[k];
    assert forall k :: 0 <= k < |b| ==> (a + b)[|a| + k] == b[k];
  }

  lemma AllCrJoined(a: seq<string>, b: seq<string>)
    ensures AllCr(a + b) <==> AllCr(a) && AllCr(b)
  {
    assert forall k :: 0 <= k < |a| ==> (a + b)[k] == a[k];
    assert forall k :: 0 <= k < |b| ==> (a + b)[|a| + k] == b[k];
  }

  lemma CrLinesJoined(a: seq<string>, b: seq<string>)
    requires b != []
    ensures CrLines(a + b) <==> AllCr(a) && CrLines(b)
  {
    assert forall k :: 0 <= k < |a| ==> (a + b)[k] == a[k];
    assert forall k :: 0 <= k < |b| ==> (a + b)[|a| + k] == b[k];
  }

  /** Lines put in between lines keep their ends, where the last line is not among those replaced. */
  lemma PutBetween(a: seq<string>, mid: seq<string>, put: seq<string>, c: seq<string>, cr: string)
    requires Fitting(put, cr) && cr in {"", "\r"}
    ensures NoCr(a + mid + c) && cr == "" ==> NoCr(a + put + c)
    ensures CrLines(a + mid + c) && cr == "\r" && c != [] ==> CrLines(a + put + c)
  {
    assert cr == "\r" ==> AllCr(put);
    assert cr == "" ==> NoCr(put);
    hide Fitting;
    hide AllCr;
    hide NoCr;
    hide CrLines;
    NoCrJoined(a, mid);
    NoCrJoined(a + mid, c);
    NoCrJoined(a, put);
    NoCrJoined(a + put, c);
    if c != [] {
      CrLinesJoined(a + mid, c);
      CrLinesJoined(a + put, c);
      AllCrJoined(a, mid);
      AllCrJoined(a, put);
    }
  }

  lemma HeadSwapped(a: seq<string>, h: string, c: seq<string>, line: string, cr: string)
    requires h != "" && cr == Return(h) && Fitting([line], cr)
    ensures CrLines(a + ([h] + c)) ==> CrLines(a + ([line] + c)) && cr == "\r" && c != [] && c[|c| - 1] == ""
    ensures NoCr(a + ([h] + c)) ==> NoCr(a + ([line] + c)) && cr == ""
  {
    var was := a + ([h] + c);
    assert was == a + [h] + c && a + ([line] + c) == a + [line] + c;
    assert was[|a|] == h;
    assert c == [] ==> was[|was| - 1] == h;
    assert c != [] ==> was[|was| - 1] == c[|c| - 1];
    PutBetween(a, [h], [line], c, cr);
    hide Fitting;
  }

  lemma AddedIn(front: seq<string>, b: seq<string>, r: seq<string>, added: seq<string>, cr: string)
    requires Fitting(added, cr) && cr in {"", "\r"}
    ensures var k := KeepLength(BareLines(b));
            var was, now := front + (b + r), front + (b[..k] + added + b[k..] + r);
            && (CrLines(was) && b + r != [] && (b + r)[|b + r| - 1] == "" && cr == "\r" ==> CrLines(now))
            && (NoCr(was) && cr == "" ==> NoCr(now))
  {
    hide BareLines;
    hide KeepLength;
    hide CrLines;
    hide NoCr;
    hide Fitting;
    var k := KeepLength(BareLines(b));
    var x, y := b[..k], b[k..];
    assert b == x + y;
    if b + r != [] && (b + r)[|b + r| - 1] == "" {
      LastBlank(b, r);
    }
    Regroup(front, x, y, r, added);
    PutBetween(front + x, [], added, y + r, cr);
  }

  lemma Regroup(front: seq<string>, x: seq<string>, y: seq<string>, r: seq<string>, added: seq<string>)
    ensures front + (x + y + r) == (front + x) + [] + (y + r)
    ensures front + (x + added + y + r) == (front + x) + added + (y + r)
  {
  }

  lemma LastBlank(b: seq<string>, r: seq<string>)
    requires b + r != [] && (b + r)[|b + r| - 1] == ""
    ensures b[KeepLength(BareLines(b))..] + r != []
  {
    if r == [] {
      assert b + r == b;
      assert Trimmed("") == "";
    }
  }

  /** Restating keeps a file's line ends, of either kind: what is written ends as the entry's heading does. */
  lemma RestatingKeepsEnds(text: string, id: string, state: State, appended: Option<string>)
    requires ById(Entries(text), id) < |Entries(text)|
    requires var e := Entries(text)[ById(Entries(text), id)]; !e.unreadable && state in States(e.kind)
    requires appended.Some? ==> '\r' !in appended.value
    ensures RestateEntry(text, id, state, appended).Some?
    ensures var now := RestateEntry(text, id, state, appended).value;
            (CrLfText(text) ==> CrLfText(now)) && ('\r' !in text ==> '\r' !in now)
  {
    hide BodyStart;
    hide Starts;
    hide Bare;
    hide BareLines;
    hide EntriesIn;
    hide EntryOf;
    hide NewBody;
    hide FormatHeading;
    hide GoodHeading;
    hide CleanedLines;
    hide UntilStart;
    hide FenceAfter;
    hide RestatedIn;
    hide Split;
    hide Join;
    hide Return;
    hide OneLine;
    hide Entries;
    hide Whole;
    hide CrLfText;
    hide CrLines;
    hide NoCr;
    var lines := Split(text);
    var start := BodyStart(BareLines(lines));
    var rest := lines[start..];
    EntriesAt(text);
    var p := FindAround(None, rest, id, state, appended);
    var e, cr := EntryOf(Bare(p.h), BareLines(p.b)), Return(p.h);
    NewHeadingGood(Bare(p.h), BareLines(p.b), state, id);
    var h := NewHeading(e, state, id);
    var more := p.a + ([FormatHeading(h) + cr] + NewBody(p.b, appended, cr) + p.r);
    assert RestatedIn(None, rest, id, state, appended) == Some(more);
    assert lines[..start] + Whole(p) == lines;
    JoinSplit(text);
    AllFrom(lines, start);
    NewLinesOneLine(p, h, appended);
    TextLines(text);
    NewLinesKeep(lines[..start], p, h, appended);
    AllJoined(lines[..start], more);
    hide AllOneLine;
    SplitJoin(lines[..start] + more);
    TextLines(Join(lines[..start] + more));
  }

  lemma ReturnIs(line: string)
    ensures Return(line) in {"", "\r"}
  {
  }

  lemma StartNotEmpty(line: string)
    requires Starts(None, Bare(line))
    ensures line != ""
  {
    hide FenceOf;
  }

  lemma NewLinesKeep(front: seq<string>, p: Around, h: Heading, appended: Option<string>)
    requires GoodHeading(h) && Starts(None, Bare(p.h)) && (appended.Some? ==> '\r' !in appended.value)
    ensures var cr := Return(p.h);
            var was := front + Whole(p);
            var now := front + (p.a + ([FormatHeading(h) + cr] + NewBody(p.b, appended, cr) + p.r));
            (CrLines(was) ==> CrLines(now)) && (NoCr(was) ==> NoCr(now))
  {
    hide Starts;
    hide Bare;
    hide GoodHeading;
    hide FormatHeading;
    hide CrLines;
    hide NoCr;
    hide Fitting;
    var cr := Return(p.h);
    var line := FormatHeading(h) + cr;
    ReturnIs(p.h);
    StartNotEmpty(p.h);
    HeadingFitting(h, cr);
    hide Return;
    var a, c := front + p.a, p.b + p.r;
    HeadSwapped(a, p.h, c, line, cr);
    EntryPlaced(front, p.a, p.h, p.b, p.r);
    EntryPlaced(front, p.a, line, p.b, p.r);
    if appended.Some? {
      AddedKept(front, p, line, appended.value, cr);
    }
  }

  lemma EntryPlaced(front: seq<string>, a: seq<string>, h: string, b: seq<string>, r: seq<string>)
    ensures front + (a + ([h] + b + r)) == (front + a) + ([h] + (b + r))
    ensures front + (a + ([h] + b + r)) == (front + a + [h]) + (b + r)
  {
  }

  lemma AddedKept(front: seq<string>, p: Around, line: string, appended: string, cr: string)
    requires '\r' !in appended && cr in {"", "\r"}
    ensures var was := front + (p.a + ([line] + p.b + p.r));
            var now := front + (p.a + ([line] + NewBody(p.b, Some(appended), cr) + p.r));
            && (CrLines(was) && cr == "\r" && p.b + p.r != [] && (p.b + p.r)[|p.b + p.r| - 1] == "" ==> CrLines(now))
            && (NoCr(was) && cr == "" ==> NoCr(now))
  {
    hide CrLines;
    hide NoCr;
    hide Fitting;
    hide CleanedLines;
    hide Returned;
    hide BareLines;
    hide KeepLength;
    var added := Returned([""] + CleanedLines(appended), cr);
    AddedFitting(appended, cr);
    AddedIn(front + p.a + [line], p.b, p.r, added, cr);
    EntryPlaced(front, p.a, line, p.b, p.r);
    EntryPlaced(front, p.a, line, NewBody(p.b, Some(appended), cr), p.r);
  }
}
