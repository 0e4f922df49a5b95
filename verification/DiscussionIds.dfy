// Naming the entries of a discussion that have no id: nothing else about any entry changes.
module DiscussionIds {
  import opened Strings
  import opened Options
  import opened Space
  import opened Text
  import opened DiscussionText
  import opened DiscussionLines
  import opened DiscussionWrite
  import opened DiscussionAppend
  import opened DiscussionRoundTrip

  predicate Missing(e: Entry) {
    !e.unreadable && e.id.None?
  }

  function Return(line: string): string {
    if line != "" && line[|line| - 1] == '\r' then "\r" else ""
  }

  function TrimEnd(s: string): string {
    s[..TrimBack(s, |s|)]
  }

  function WithId(line: string, id: string): string {
    TrimEnd(Bare(line)) + " ^" + id + Return(line)
  }

  /** A source of ids: for the kind of the entry, and how many have been drawn before. */
  type Mint = (Kind, nat) -> string

  ghost predicate MintsIds(mint: Mint) {
    forall kind, n :: IsId(mint(kind, n))
  }

  /** The entry a line starts. */
  function EntryAt(line: string, rest: seq<string>): Entry {
    var bare := BareLines(rest);
    EntryOf(Bare(line), bare[..UntilStart(None, bare)])
  }

  function NamedLine(line: string, e: Entry, mint: Mint, count: nat): string {
    if Missing(e) then WithId(line, mint(e.kind, count)) else line
  }

  function Drawn(e: Entry, count: nat): nat {
    if Missing(e) then count + 1 else count
  }

  function NamedIn(fence: Option<char>, lines: seq<string>, mint: Mint, count: nat): (r: seq<string>)
    ensures |r| == |lines|
    decreases |lines|
  {
    var n := UntilStart(fence, BareLines(lines));
    if n == |lines| then lines
    else
      var rest := lines[n + 1..];
      var e := EntryAt(lines[n], rest);
      lines[..n] + ([NamedLine(lines[n], e, mint, count)] + NamedIn(None, rest, mint, Drawn(e, count)))
  }

  function NamedLines(lines: seq<string>, mint: Mint): seq<string> {
    var start := BodyStart(BareLines(lines));
    lines[..start] + NamedIn(None, lines[start..], mint, 0)
  }

  function WithMissingIds(text: string, mint: Mint): string {
    Join(NamedLines(Split(text), mint))
  }

  // The loop

  lemma NamedStep(fence: Option<char>, done: seq<string>, rest: seq<string>, mint: Mint, count: nat)
    requires UntilStart(fence, BareLines(rest)) < |rest|
    ensures var n := UntilStart(fence, BareLines(rest));
            var e := EntryAt(rest[n], rest[n + 1..]);
            done + NamedIn(fence, rest, mint, count)
            == (done + rest[..n] + [NamedLine(rest[n], e, mint, count)])
              + NamedIn(None, rest[n + 1..], mint, Drawn(e, count))
  {
    hide UntilStart;
    hide NamedLine;
    hide EntryAt;
    hide Drawn;
    hide BareLines;
    var n := UntilStart(fence, BareLines(rest));
    var e := EntryAt(rest[n], rest[n + 1..]);
    var line, more := NamedLine(rest[n], e, mint, count), NamedIn(None, rest[n + 1..], mint, Drawn(e, count));
    assert NamedIn(fence, rest, mint, count) == rest[..n] + ([line] + more);
    hide NamedIn;
    Placed(done, rest[..n], line, more);
  }

  lemma Placed<T>(a: seq<T>, b: seq<T>, c: T, d: seq<T>)
    ensures a + (b + ([c] + d)) == (a + b + [c]) + d
  {
  }

  /** The blocks still to visit, with the lines from `at` on as they were. */
  ghost predicate ToVisit(blocks: seq<Block>, lines: seq<string>, at: nat) {
    at <= |lines| && blocks == BlocksIn(None, BareLines(lines[at..]), at)
  }

  lemma BareSlice(lines: seq<string>, i: nat, j: nat)
    requires i <= j <= |lines|
    ensures BareLines(lines[i..j]) == BareLines(lines)[i..j]
  {
    hide Bare;
    hide BareLines;
    var a, b := BareLines(lines[i..j]), BareLines(lines)[i..j];
    forall k | 0 <= k < |a| ensures a[k] == b[k] {
      assert a[k] == Bare(lines[i..j][k]) && lines[i..j][k] == lines[i + k];
    }
  }

  lemma BareDrop(lines: seq<string>, i: nat)
    requires i <= |lines|
    ensures BareLines(lines[i..]) == BareLines(lines)[i..]
  {
    hide BareLines;
    BareSlice(lines, i, |lines|);
    assert lines[i..|lines|] == lines[i..];
  }

  lemma BlockEntry(lines: seq<string>, h: nat, k: nat)
    requires h < |lines| && h + 1 + k <= |lines|
    requires k == UntilStart(None, BareLines(lines[h + 1..]))
    ensures EntryOf(Bare(lines[h]), BareLines(lines[h + 1..h + 1 + k])) == EntryAt(lines[h], lines[h + 1..])
  {
    hide UntilStart;
    hide EntryOf;
    hide BareLines;
    var more := lines[h + 1..];
    BareSlice(more, 0, k);
    assert lines[h + 1..h + 1 + k] == more[0..k];
  }

  lemma VisitNext(blocks: seq<Block>, lines: seq<string>, at: nat)
    requires ToVisit(blocks, lines, at) && blocks != []
    ensures var b := blocks[0];
            var n := UntilStart(None, BareLines(lines[at..]));
            && n < |lines| - at && b.headingLine == at + n < b.end <= |lines|
            && EntryOf(Bare(lines[b.headingLine]), BareLines(lines[b.headingLine + 1..b.end]))
               == EntryAt(lines[at + n], lines[at + n + 1..])
            && blocks[1..] == BlocksIn(None, BareLines(lines[at + n + 1..]), at + n + 1)
  {
    hide UntilStart;
    hide EntryOf;
    hide EntryAt;
    hide Bare;
    hide BlocksIn;
    hide BareLines;
    var rest := lines[at..];
    var bare := BareLines(rest);
    var n := UntilStart(None, bare);
    if n == |bare| {
      NoneStart(None, bare, at);
    } else {
      BlocksCons(None, bare, at);
      BareDrop(rest, n + 1);
      assert rest[n + 1..] == lines[at + n + 1..];
      var k := UntilStart(None, BareLines(lines[at + n + 1..]));
      BlockEntry(lines, at + n, k);
    }
  }

  lemma VisitsDone(lines: seq<string>, at: nat)
    requires ToVisit([], lines, at)
    ensures forall mint: Mint, count :: NamedIn(None, lines[at..], mint, count) == lines[at..]
  {
    var bare := BareLines(lines[at..]);
    var n := UntilStart(None, bare);
    if n < |bare| {
      BlocksCons(None, bare, at);
    }
  }

  lemma VisitsStart(lines: seq<string>)
    ensures var start := BodyStart(BareLines(lines));
            start <= |lines| && ToVisit(BlocksIn(None, BareLines(lines)[start..], start), lines, start)
  {
    hide BlocksIn;
    hide BareLines;
    BareDrop(lines, BodyStart(BareLines(lines)));
  }

  /** One block visited: its heading line is the next one named, and what is left to visit is unchanged. */
  lemma VisitNamed(blocks: seq<Block>, lines: seq<string>, at: nat, mint: Mint, count: nat)
    requires ToVisit(blocks, lines, at) && blocks != []
    ensures var b := blocks[0];
            && at <= b.headingLine < b.end <= |lines|
            && var e := EntryOf(Bare(lines[b.headingLine]), BareLines(lines[b.headingLine + 1..b.end]));
            var next := lines[b.headingLine := NamedLine(lines[b.headingLine], e, mint, count)];
            && ToVisit(blocks[1..], next, b.headingLine + 1)
            && lines[..at] + NamedIn(None, lines[at..], mint, count)
               == next[..b.headingLine + 1] + NamedIn(None, next[b.headingLine + 1..], mint, Drawn(e, count))
  {
    hide EntryOf;
    hide UntilStart;
    hide BlocksIn;
    hide NamedIn;
    hide NamedLine;
    hide Drawn;
    hide Bare;
    hide BareLines;
    hide EntryAt;
    VisitNext(blocks, lines, at);
    var b := blocks[0];
    var n := UntilStart(None, BareLines(lines[at..]));
    var e := EntryOf(Bare(lines[b.headingLine]), BareLines(lines[b.headingLine + 1..b.end]));
    NamedStep(None, lines[..at], lines[at..], mint, count);
    NextLine(lines, at, n, NamedLine(lines[b.headingLine], e, mint, count));
  }

  method WithMissingIdsLoop(text: string, mint: Mint) returns (r: string)
    ensures r == WithMissingIds(text, mint)
  {
    hide EntryOf;
    hide UntilStart;
    hide BlocksIn;
    hide NamedIn;
    hide Bare;
    hide BareLines;
    hide EntryAt;
    hide WithId;
    hide Split;
    hide Join;
    hide ToVisit;
    var lines := Split(text);
    VisitsStart(lines);
    var blocks := BlocksLoop(BareLines(lines));
    var changed := false;
    var count: nat := 0;
    ghost var start: nat := BodyStart(BareLines(lines));
    ghost var at: nat := start;
    assert blocks[0..] == blocks;
    for i := 0 to |blocks|
      invariant at <= |lines| && ToVisit(blocks[i..], lines, at)
      invariant lines[..at] + NamedIn(None, lines[at..], mint, count) == NamedLines(Split(text), mint)
      invariant !changed ==> lines == Split(text)
    {
      VisitNamed(blocks[i..], lines, at, mint, count);
      var b := blocks[i];
      assert b == blocks[i..][0] && blocks[i..][1..] == blocks[i + 1..];
      var entry := EntryOf(Bare(lines[b.headingLine]), BareLines(lines[b.headingLine + 1..b.end]));
      at := b.headingLine + 1;
      if entry.unreadable || entry.id.Some? {
        assert lines[b.headingLine := lines[b.headingLine]] == lines;
        continue;
      }
      lines := lines[b.headingLine := WithId(lines[b.headingLine], mint(entry.kind, count))];
      count := count + 1;
      changed := true;
    }
    assert blocks[|blocks|..] == [];
    VisitsDone(lines, at);
    assert lines[..at] + lines[at..] == lines;
    JoinSplit(text);
    r := if changed then Join(lines) else text;
  }

  lemma NextLine(lines: seq<string>, at: nat, n: nat, line: string)
    requires at + n < |lines|
    ensures lines[at..][n + 1..] == lines[at + n + 1..] && lines[at..][n] == lines[at + n]
    ensures var next := lines[at + n := line];
            && next[..at + n + 1] == lines[..at] + lines[at..][..n] + [line]
               && next[at + n + 1..] == lines[at + n + 1..]
  {
  }

  // One heading with an id

  lemma TabStops(s: string, x: string)
    requires s != "" && s[0] != ' ' && s[0] != '\t' && x != ""
        && (forall k :: 0 <= k < |x| ==> x[k] == ' ' || x[k] == '\t')
    ensures TabLength(x + s) == |x|
    decreases |x|
  {
    assert (x + s)[1..] == x[1..] + s;
    if |x| == 1 {
      assert x[1..] + s == s;
    } else {
      TabStops(s, x[1..]);
    }
  }

  lemma {:induction false} TabTaken(s: string)
    ensures var n := TabLength(s);
            && (forall k :: 0 <= k < n ==> s[k] == ' ' || s[k] == '\t')
            && (n < |s| ==> s[n] != ' ' && s[n] != '\t')
  {
    if s != "" && (s[0] == ' ' || s[0] == '\t') {
      TabTaken(s[1..]);
      var n := TabLength(s[1..]);
      assert forall k :: 0 < k < n + 1 ==> s[k] == s[1..][k - 1];
      assert n < |s| - 1 ==> s[n + 1] == s[1..][n];
    }
  }

  /** A heading line that says something, as its parts: the hashes, blanks, and the text up to its end. */
  lemma HeadingLine(line: string) returns (x: string, text: string)
    requires HeadingText(line).Some? && Trimmed(HeadingText(line).value) != ""
    ensures line == "##" + (x + text) && HeadingText(line) == Some(text) && Unbroken(text)
    ensures x != "" && (forall k :: 0 <= k < |x| ==> x[k] == ' ' || x[k] == '\t')
    ensures text != "" && text[0] != ' ' && text[0] != '\t'
  {
    var rest := line[2..];
    TabTaken(rest);
    var n := TabLength(rest);
    x, text := rest[..n], rest[n..];
    assert line == "##" + rest && rest == x + text;
    assert line[2 + n..] == text;
    assert Trimmed("") == "";
    hide Trimmed;
    hide TabLength;
  }

  lemma {:induction false} TrimBackInside(a: string, b: string)
    requires TrimBack(b, |b|) > 0
    ensures TrimBack(a + b, |a| + |b|) == |a| + TrimBack(b, |b|)
    decreases |b|
  {
    var t := a + b;
    assert t[|t| - 1] == b[|b| - 1];
    if IsSpace(b[|b| - 1]) {
      var c := b[..|b| - 1];
      TrimBackSlice(b, |b| - 1);
      TrimBackSlice(t, |t| - 1);
      assert t[..|t| - 1] == a + c;
      TrimBackInside(a, c);
    }
  }

  lemma NotAllSpace(text: string)
    requires Trimmed(text) != ""
    ensures TrimBack(text, |text|) > 0
  {
    assert text[..0] == "";
  }

  lemma TrimEndKept(text: string)
    requires Trimmed(text) != ""
    ensures var t := TrimEnd(text);
            var core := Trimmed(text);
            && t != "" && t[0] == text[0] && !IsSpace(t[|t| - 1])
            && t == t[..SpaceLength(t)] + core && Spaces(t[..SpaceLength(t)]) && core[|core| - 1] == t[|t| - 1]
  {
    NotAllSpace(text);
    TrimEnds(text, |text|);
    hide TrimBack;
    hide SpaceLength;
    var t := TrimEnd(text);
    assert t == t[..SpaceLength(t)] + t[SpaceLength(t)..];
  }

  /** With an id at its end a heading line says what it said, and the id. */
  lemma WithIdText(line: string, id: string)
    requires HeadingText(line).Some? && Trimmed(HeadingText(line).value) != "" && IsId(id)
    ensures var named := TrimEnd(line) + " ^" + id;
            && HeadingText(named).Some?
            && Trimmed(HeadingText(named).value) == Trimmed(HeadingText(line).value) + " ^" + id
  {
    var x, text := HeadingLine(line);
    TrimEndKept(text);
    var t := TrimEnd(text);
    NotAllSpace(text);
    TrimBackInside("##" + x, text);
    Assoc("##", x, text);
    assert TrimEnd(line) == "##" + x + t by {
      assert ("##" + x + text)[..|"##" + x| + |t|] == "##" + x + t;
    }
    hide TrimEnd;
    hide Trimmed;
    hide IsId;
    hide HeadingText;
    NamedText(x, t, id);
    NamedTrim(t, Trimmed(text), t[..SpaceLength(t)], id);
  }

  lemma NamedText(x: string, t: string, id: string)
    requires x != "" && (forall k :: 0 <= k < |x| ==> x[k] == ' ' || x[k] == '\t')
    requires t != "" && t[0] != ' ' && t[0] != '\t' && Unbroken(t) && IsId(id)
    ensures HeadingText("##" + x + t + " ^" + id) == Some(t + " ^" + id)
  {
    var tail := t + " ^" + id;
    var line := "##" + x + t + " ^" + id;
    Assoc("##" + x, t, " ^");
    Assoc("##" + x, t + " ^", id);
    Assoc("##", x, tail);
    assert line == "##" + (x + tail);
    assert tail[0] == t[0];
    TabStops(tail, x);
    assert line[2..] == x + tail;
    assert line[2 + |x|..] == tail;
    assert forall k :: 0 <= k < |id| ==> IsIdChar(id[k]) && !IsTerminator(id[k]);
    assert Unbroken(t + " ^");
    hide TabLength;
  }

  lemma NamedTrim(t: string, core: string, spaces: string, id: string)
    requires t == spaces + core && Spaces(spaces) && IsId(id) && core != "" && !IsSpace(core[0])
    ensures Trimmed(t + " ^" + id) == core + " ^" + id
  {
    IdEnds(id);
    var s := core + " ^" + id;
    Assoc(spaces, core, " ^");
    Assoc(spaces, core + " ^", id);
    assert s[0] == core[0] && s[|s| - 1] == id[|id| - 1];
    TrimmedPadded(spaces, s, "");
    assert spaces + s + "" == spaces + s;
  }

  lemma ReadableHeading(line: string, b: seq<string>)
    requires Starts(None, line) && Missing(EntryOf(line, b))
    ensures HeadingText(line).Some?
    ensures var heading := Trimmed(HeadingText(line).value);
            && heading != "" && EntryOf(line, b).heading == heading
            && WithoutId(heading) == (heading, None) && HeadingOf(Parts(heading), None).Some?
  {
    hide SplitAnswer;
    hide HeadingText;
    var heading := Trimmed(HeadingText(line).value);
    TrimmedEnds(HeadingText(line).value);
    if heading != "" {
      TrimmedWhole(heading);
    } else {
      assert Parts("") == [""] by { assert Trimmed("") == ""; }
    }
    hide Trimmed;
    hide Parts;
    hide TrailingId;
  }

  lemma SameHeading(parts: seq<string>, id: string)
    requires HeadingOf(parts, None).Some?
    ensures HeadingOf(parts, Some(id)) == Some(HeadingOf(parts, None).value.(id := Some(id)))
  {
  }

  lemma HashStarts(line: string)
    requires HeadingText(line).Some?
    ensures Starts(None, line) && !Closes(line)
  {
    assert line[0] == '#' && line[1] == '#' && SpaceLength(line) == 0 && line[0..] == line;
    NotAllHash(line);
  }

  lemma NotAllHash(line: string)
    requires |line| >= 2 && line[0] == '#'
    ensures !Closes(line)
  {
    FirstStays(line);
  }

  lemma FirstStays(line: string)
    requires line != "" && !IsSpace(line[0])
    ensures Trimmed(line) != "" && Trimmed(line)[0] == line[0]
  {
    TrimBackFirst(line, |line|);
  }

  lemma {:induction false} TrimBackFirst(s: string, n: nat)
    requires 0 < n <= |s| && !IsSpace(s[0])
    ensures TrimBack(s, n) > 0
  {
    if n > 1 && IsSpace(s[n - 1]) {
      TrimBackFirst(s, n - 1);
    }
  }

  lemma NamedHeading(heading: string, id: string)
    requires heading != "" && !IsSpace(heading[0]) && !IsSpace(heading[|heading| - 1]) && IsId(id)
    requires WithoutId(heading) == (heading, None) && HeadingOf(Parts(heading), None).Some?
    ensures ParseHeading(heading).Some?
    ensures ParseHeading(heading + " ^" + id) == Some(ParseHeading(heading).value.(id := Some(id)))
  {
    hide WithoutId;
    hide HeadingOf;
    hide Parts;
    hide IsId;
    IdTaken(heading, id);
    SameHeading(Parts(heading), id);
  }

  lemma EntryRenamed(line: string, named: string, b: seq<string>, id: string)
    requires HeadingText(line).Some? && HeadingText(named).Some?
    requires Trimmed(HeadingText(named).value) == Trimmed(HeadingText(line).value) + " ^" + id
    requires var was, now := Trimmed(HeadingText(line).value), Trimmed(HeadingText(named).value);
             && ParseHeading(was).Some?
             && ParseHeading(now) == Some(ParseHeading(was).value.(id := Some(id)))
    ensures var e := EntryOf(line, b); EntryOf(named, b) == e.(id := Some(id), heading := e.heading + " ^" + id)
  {
    hide HeadingText;
    hide Trimmed;
    hide ParseHeading;
    hide SplitAnswer;
    hide Supersedes;
  }

  lemma NamedAs(line: string, named: string, b: seq<string>, id: string)
    requires Starts(None, line) && Missing(EntryOf(line, b)) && IsId(id)
    requires HeadingText(line).Some? && HeadingText(named).Some?
    requires Trimmed(HeadingText(named).value) == Trimmed(HeadingText(line).value) + " ^" + id
    ensures Starts(None, named)
    ensures var e := EntryOf(line, b); EntryOf(named, b) == e.(id := Some(id), heading := e.heading + " ^" + id)
  {
    hide EntryOf;
    hide Missing;
    hide Starts;
    hide TrimEnd;
    hide Trimmed;
    hide HeadingText;
    hide WithoutId;
    hide HeadingOf;
    hide ParseHeading;
    hide Parts;
    hide SplitAnswer;
    hide Supersedes;
    hide IsId;
    ReadableHeading(line, b);
    HashStarts(named);
    TrimmedEnds(HeadingText(line).value);
    NamedHeading(Trimmed(HeadingText(line).value), id);
    EntryRenamed(line, named, b, id);
  }

  /** Naming a readable entry gives it the id, and changes nothing else it says. */
  lemma NamedEntry(line: string, b: seq<string>, id: string)
    requires Starts(None, line) && Missing(EntryOf(line, b)) && IsId(id)
    ensures var e := EntryOf(line, b);
            var named := TrimEnd(line) + " ^" + id;
            && Starts(None, named)
            && EntryOf(named, b) == e.(id := Some(id), heading := e.heading + " ^" + id)
  {
    hide EntryOf;
    hide Missing;
    hide Starts;
    hide TrimEnd;
    hide Trimmed;
    hide HeadingText;
    hide WithoutId;
    hide HeadingOf;
    hide ParseHeading;
    hide Parts;
    hide SplitAnswer;
    hide Supersedes;
    hide IsId;
    ReadableHeading(line, b);
    WithIdText(line, id);
    NamedAs(line, TrimEnd(line) + " ^" + id, b, id);
  }

  // All of them

  /** The entries with an id for every readable one that had none. */
  function NamedEntries(entries: seq<Entry>, mint: Mint, count: nat): seq<Entry>
    decreases |entries|
  {
    if entries == [] then []
    else
      var e := entries[0];
      var id := mint(e.kind, count);
      [if Missing(e) then e.(id := Some(id), heading := e.heading + " ^" + id) else e]
      + NamedEntries(entries[1..], mint, Drawn(e, count))
  }

  lemma BareNamed(line: string, id: string)
    requires IsId(id)
    ensures Bare(WithId(line, id)) == TrimEnd(Bare(line)) + " ^" + id
  {
    IdEnds(id);
    var s := TrimEnd(Bare(line)) + " ^" + id;
    assert s[|s| - 1] == id[|id| - 1];
    assert s + "" == s;
  }

  lemma NamedLineRead(line: string, b: seq<string>, mint: Mint, count: nat)
    requires Starts(None, Bare(line)) && MintsIds(mint)
    ensures var e := EntryOf(Bare(line), b);
            var named := Bare(NamedLine(line, e, mint, count));
            && Starts(None, named)
            && EntryOf(named, b)
               == if Missing(e) then
                 e.(id := Some(mint(e.kind, count)), heading := e.heading + " ^" + mint(e.kind, count)) else e
  {
    var e := EntryOf(Bare(line), b);
    hide EntryOf;
    hide Starts;
    hide Bare;
    hide IsId;
    if Missing(e) {
      assert IsId(mint(e.kind, count));
      NamedEntry(Bare(line), b, mint(e.kind, count));
      BareNamed(line, mint(e.kind, count));
    }
  }

  /** The lines before the first entry, and what the named lines have after it. */
  lemma NamedShape(fence: Option<char>, lines: seq<string>, mint: Mint, count: nat)
    requires MintsIds(mint) && UntilStart(fence, BareLines(lines)) < |lines|
    ensures var n := UntilStart(fence, BareLines(lines));
            var e := EntryAt(lines[n], lines[n + 1..]);
            BareLines(NamedIn(fence, lines, mint, count))
            == BareLines(lines)[..n]
               + ([Bare(NamedLine(lines[n], e, mint, count))]
                 + BareLines(NamedIn(None, lines[n + 1..], mint, Drawn(e, count))))
  {
    hide UntilStart;
    hide NamedLine;
    hide EntryAt;
    hide Bare;
    hide Drawn;
    var n := UntilStart(fence, BareLines(lines));
    var e := EntryAt(lines[n], lines[n + 1..]);
    var line, more := NamedLine(lines[n], e, mint, count), NamedIn(None, lines[n + 1..], mint, Drawn(e, count));
    assert NamedIn(fence, lines, mint, count) == lines[..n] + ([line] + more);
    hide NamedIn;
    BareJoined(lines[..n], [line] + more);
    BareJoined([line], more);
    BareSlice(lines, 0, n);
    assert lines[0..n] == lines[..n] && BareLines(lines)[0..n] == BareLines(lines)[..n];
    assert BareLines([line]) == [Bare(line)];
    hide BareLines;
  }

  /** Where entries start, and what is between them, does not move. */
  lemma {:induction false} NamedStarts(fence: Option<char>, lines: seq<string>, mint: Mint, count: nat)
    requires MintsIds(mint)
    ensures var bare, named := BareLines(lines), BareLines(NamedIn(fence, lines, mint, count));
            var n := UntilStart(fence, bare);
            && UntilStart(fence, named) == n && named[..n] == bare[..n]
            && (n < |bare| ==> Starts(None, named[n]) && Starts(None, bare[n]))
  {
    var bare := BareLines(lines);
    var n := UntilStart(fence, bare);
    if n < |bare| {
      hide NamedIn;
      hide NamedLine;
      hide EntryAt;
      hide Starts;
      hide FenceAfter;
      hide UntilStart;
      FenceAtStart(fence, bare);
      NamedShape(fence, lines, mint, count);
      var e := EntryAt(lines[n], lines[n + 1..]);
      var line := Bare(NamedLine(lines[n], e, mint, count));
      var more := BareLines(NamedIn(None, lines[n + 1..], mint, Drawn(e, count)));
      var rest := BareLines(lines[n + 1..]);
      NamedLineRead(lines[n], rest[..UntilStart(None, rest)], mint, count);
      UntilPrefix(fence, bare);
      UntilJoined(fence, bare[..n], [line] + more);
      StartsNow([line] + more);
    }
  }

  lemma UntilPrefix(fence: Option<char>, lines: seq<string>)
    ensures var n := UntilStart(fence, lines); UntilStart(fence, lines[..n]) == n
  {
    var n := UntilStart(fence, lines);
    UntilJoined(fence, lines[..n], lines[n..]);
    assert lines == lines[..n] + lines[n..];
    hide UntilStart;
  }

  /** The named lines' entries are the entries named. */
  lemma {:induction false} NamedRead(fence: Option<char>, lines: seq<string>, mint: Mint, count: nat)
    requires MintsIds(mint)
    ensures EntriesIn(fence, BareLines(NamedIn(fence, lines, mint, count)))
         == NamedEntries(EntriesIn(fence, BareLines(lines)), mint, count)
    decreases |lines|
  {
    hide EntryOf;
    hide EntriesIn;
    hide Starts;
    hide NamedLine;
    hide Bare;
    hide Drawn;
    hide UntilStart;
    var bare := BareLines(lines);
    var n := UntilStart(fence, bare);
    NamedStarts(fence, lines, mint, count);
    if n == |bare| {
      NoneStart(fence, bare, 0);
      hide BareLines;
    } else {
      hide BareLines;
      hide NamedIn;
      NamedShape(fence, lines, mint, count);
      NamedStarts(None, lines[n + 1..], mint, Drawn(EntryAt(lines[n], lines[n + 1..]), count));
      NamedRead(None, lines[n + 1..], mint, Drawn(EntryAt(lines[n], lines[n + 1..]), count));
      NamedOne(fence, lines, mint, count);
    }
  }

  lemma NamedOne(fence: Option<char>, lines: seq<string>, mint: Mint, count: nat)
    requires MintsIds(mint) && UntilStart(fence, BareLines(lines)) < |lines|
    requires var n := UntilStart(fence, BareLines(lines));
             var rest, next := lines[n + 1..], Drawn(EntryAt(lines[n], lines[n + 1..]), count);
             EntriesIn(None, BareLines(NamedIn(None, rest, mint, next)))
               == NamedEntries(EntriesIn(None, BareLines(rest)), mint, next)
    ensures EntriesIn(fence, BareLines(NamedIn(fence, lines, mint, count)))
         == NamedEntries(EntriesIn(fence, BareLines(lines)), mint, count)
  {
    hide EntryOf;
    hide EntriesIn;
    hide Starts;
    hide NamedLine;
    hide Bare;
    hide UntilStart;
    hide BareLines;
    hide NamedIn;
    var bare := BareLines(lines);
    var n := UntilStart(fence, bare);
    var e := EntryAt(lines[n], lines[n + 1..]);
    var named := BareLines(NamedIn(fence, lines, mint, count));
    var rest, more := BareLines(lines[n + 1..]), BareLines(NamedIn(None, lines[n + 1..], mint, Drawn(e, count)));
    var k := UntilStart(None, rest);
    var line := Bare(NamedLine(lines[n], e, mint, count));
    NamedStarts(fence, lines, mint, count);
    NamedStarts(None, lines[n + 1..], mint, Drawn(e, count));
    NamedShape(fence, lines, mint, count);
    BareDrop(lines, n + 1);
    NamedLineRead(lines[n], rest[..k], mint, count);
    EntriesCons(fence, bare);
    EntriesCons(fence, named);
    NthOf(bare[..n], line, more);
    assert bare[n] == Bare(lines[n]);
    NamedCons(e, EntriesIn(None, rest), mint, count);
  }

  lemma NthOf<T>(a: seq<T>, x: T, b: seq<T>)
    ensures (a + ([x] + b))[|a|] == x && (a + ([x] + b))[|a| + 1..] == b
  {
  }

  lemma NamedCons(e: Entry, more: seq<Entry>, mint: Mint, count: nat)
    ensures NamedEntries([e] + more, mint, count)
         == [if Missing(e) then
           e.(id := Some(mint(e.kind, count)), heading := e.heading + " ^" + mint(e.kind, count)) else e]
            + NamedEntries(more, mint, Drawn(e, count))
  {
    assert ([e] + more)[1..] == more;
  }

  // The whole file

  /** Lines that are the same, or neither of which closes front matter. */
  ghost predicate Alike(x: seq<string>, y: seq<string>) {
    |x| == |y| && forall k :: 0 <= k < |x| ==> x[k] == y[k] || (!Closes(x[k]) && !Closes(y[k]))
  }

  lemma {:induction false} AlikeClose(x: seq<string>, y: seq<string>)
    requires Alike(x, y)
    ensures CloseAt(x) == CloseAt(y)
  {
    hide Closes;
    if x != [] {
      AlikeClose(x[1..], y[1..]);
    }
  }

  lemma AlikeStart(x: seq<string>, y: seq<string>)
    requires Alike(x, y)
    ensures BodyStart(x) == BodyStart(y)
  {
    if x != [] {
      AlikeClose(x[1..], y[1..]);
      assert x[0] == y[0] || (!Closes(x[0]) && !Closes(y[0]));
    }
    hide CloseAt;
    hide Trimmed;
  }

  lemma AlikeJoined(a: seq<string>, x: string, y: string, b: seq<string>, c: seq<string>)
    requires Alike(b, c) && (x == y || (!Closes(x) && !Closes(y)))
    ensures Alike(a + ([x] + b), a + ([y] + c))
  {
    hide Closes;
    var p, q := a + ([x] + b), a + ([y] + c);
    forall k | 0 <= k < |p| ensures p[k] == q[k] || (!Closes(p[k]) && !Closes(q[k])) {
      if k > |a| {
        assert p[k] == b[k - |a| - 1] && q[k] == c[k - |a| - 1];
      }
    }
  }

  lemma {:induction false} NamedAlike(fence: Option<char>, lines: seq<string>, mint: Mint, count: nat)
    requires MintsIds(mint)
    ensures Alike(BareLines(lines), BareLines(NamedIn(fence, lines, mint, count)))
    decreases |lines|
  {
    hide UntilStart;
    hide BareLines;
    hide Alike;
    hide EntryAt;
    hide Drawn;
    hide NamedIn;
    var n := UntilStart(fence, BareLines(lines));
    if n < |lines| {
      NamedAlike(None, lines[n + 1..], mint, Drawn(EntryAt(lines[n], lines[n + 1..]), count));
      NamedFirst(fence, lines, mint, count);
    } else {
      NamedNone(fence, lines, mint, count);
      AlikeSelf(BareLines(lines));
    }
  }

  lemma NamedNone(fence: Option<char>, lines: seq<string>, mint: Mint, count: nat)
    requires UntilStart(fence, BareLines(lines)) == |lines|
    ensures NamedIn(fence, lines, mint, count) == lines
  {
    hide UntilStart;
    hide BareLines;
    hide EntryAt;
  }

  lemma AlikeSelf(x: seq<string>)
    ensures Alike(x, x)
  {
  }

  lemma NamedFirst(fence: Option<char>, lines: seq<string>, mint: Mint, count: nat)
    requires MintsIds(mint) && UntilStart(fence, BareLines(lines)) < |lines|
    requires var n := UntilStart(fence, BareLines(lines));
             var rest, next := lines[n + 1..], Drawn(EntryAt(lines[n], lines[n + 1..]), count);
             Alike(BareLines(rest), BareLines(NamedIn(None, rest, mint, next)))
    ensures Alike(BareLines(lines), BareLines(NamedIn(fence, lines, mint, count)))
  {
    hide EntryOf;
    hide NamedLine;
    hide Bare;
    hide Drawn;
    hide UntilStart;
    hide Starts;
    hide Closes;
    hide Alike;
    hide BareLines;
    hide NamedIn;
    var bare := BareLines(lines);
    var n := UntilStart(fence, bare);
    var e := EntryAt(lines[n], lines[n + 1..]);
    var rest := BareLines(lines[n + 1..]);
    NamedShape(fence, lines, mint, count);
    NamedStarts(fence, lines, mint, count);
    BareDrop(lines, n + 1);
    assert bare[n] == Bare(lines[n]);
    NamedLineRead(lines[n], rest[..UntilStart(None, rest)], mint, count);
    var line := Bare(NamedLine(lines[n], e, mint, count));
    StartNotFront(line);
    StartNotFront(bare[n]);
    assert bare == bare[..n] + ([bare[n]] + bare[n + 1..]);
    AlikeJoined(bare[..n], bare[n], line, rest, BareLines(NamedIn(None, lines[n + 1..], mint, Drawn(e, count))));
  }

  lemma StartNotFront(line: string)
    requires Starts(None, line)
    ensures !Closes(line)
  {
    HashStarts(line);
  }

  lemma AlikePrefix(a: seq<string>, b: seq<string>, c: seq<string>)
    requires Alike(b, c)
    ensures Alike(a + b, a + c)
  {
    hide Closes;
    var p, q := a + b, a + c;
    forall k | 0 <= k < |p| ensures p[k] == q[k] || (!Closes(p[k]) && !Closes(q[k])) {
      if k >= |a| {
        assert p[k] == b[k - |a|] && q[k] == c[k - |a|];
      }
    }
  }

  /** Where the entries start does not move. */
  lemma NamedBodyStart(lines: seq<string>, mint: Mint)
    requires MintsIds(mint)
    ensures var start := BodyStart(BareLines(lines));
            var named := BareLines(NamedLines(lines, mint));
            && BodyStart(named) == start <= |named|
            && named[start..] == BareLines(NamedIn(None, lines[start..], mint, 0))
            && BareLines(lines)[start..] == BareLines(lines[start..])
  {
    hide BodyStart;
    hide NamedIn;
    hide Bare;
    hide Alike;
    hide BareLines;
    var bare := BareLines(lines);
    var start := BodyStart(bare);
    var rest := lines[start..];
    var more := NamedIn(None, rest, mint, 0);
    BareDrop(lines, start);
    BareJoined(lines[..start], more);
    BareJoined(lines[..start], rest);
    assert lines == lines[..start] + rest;
    NamedAlike(None, rest, mint, 0);
    AlikePrefix(BareLines(lines[..start]), BareLines(rest), BareLines(more));
    AlikeStart(bare, BareLines(NamedLines(lines, mint)));
    assert (BareLines(lines[..start]) + BareLines(more))[start..] == BareLines(more);
  }

  // No line of a named file is broken in two

  lemma {:induction false} NamedOneLine(fence: Option<char>, lines: seq<string>, mint: Mint, count: nat)
    requires MintsIds(mint) && AllOneLine(lines)
    ensures AllOneLine(NamedIn(fence, lines, mint, count))
    decreases |lines|
  {
    hide EntryOf;
    hide UntilStart;
    hide BareLines;
    var n := UntilStart(fence, BareLines(lines));
    if n < |lines| {
      var e := EntryAt(lines[n], lines[n + 1..]);
      NamedOneLine(None, lines[n + 1..], mint, Drawn(e, count));
      hide EntryAt;
      if Missing(e) {
        WithIdOneLine(lines[n], mint(e.kind, count));
      }
      var line, more := NamedLine(lines[n], e, mint, count), NamedIn(None, lines[n + 1..], mint, Drawn(e, count));
      assert NamedIn(fence, lines, mint, count) == lines[..n] + ([line] + more);
      hide NamedIn;
      hide OneLine;
    }
  }

  lemma WithIdOneLine(line: string, id: string)
    requires OneLine(line) && IsId(id)
    ensures OneLine(WithId(line, id))
  {
    assert forall k :: 0 <= k < |id| ==> IsIdChar(id[k]) && id[k] != '\n';
    assert OneLine(TrimEnd(Bare(line)));
    hide TrimEnd;
  }

  lemma NamedSplit(text: string, mint: Mint)
    requires MintsIds(mint)
    ensures Split(WithMissingIds(text, mint)) == NamedLines(Split(text), mint)
  {
    hide BodyStart;
    hide BareLines;
    hide Join;
    JoinSplit(text);
    var lines := Split(text);
    var start := BodyStart(BareLines(lines));
    hide Split;
    NamedOneLine(None, lines[start..], mint, 0);
    hide NamedIn;
    hide OneLine;
    SplitJoin(NamedLines(lines, mint));
  }

  /** Every readable entry without an id gets one, in order; no other entry, and nothing else of any entry, changes. */
  lemma NamingReads(text: string, mint: Mint)
    requires MintsIds(mint)
    ensures Entries(WithMissingIds(text, mint)) == NamedEntries(Entries(text), mint, 0)
  {
    var lines := Split(text);
    NamedSplit(text, mint);
    NamedBodyStart(lines, mint);
    hide WithMissingIds;
    hide NamedLines;
    hide NamedIn;
    hide BodyStart;
    hide BareLines;
    hide Split;
    NamedRead(None, lines[BodyStart(BareLines(lines))..], mint, 0);
  }

  // Once is enough

  lemma {:induction false} NoneMissing(entries: seq<Entry>, mint: Mint, count: nat)
    ensures forall k :: 0 <= k < |NamedEntries(entries, mint, count)| ==>
        !Missing(NamedEntries(entries, mint, count)[k])
    decreases |entries|
  {
    if entries != [] {
      var e := entries[0];
      NoneMissing(entries[1..], mint, Drawn(e, count));
    }
  }

  lemma {:induction false} NamedFixed(fence: Option<char>, lines: seq<string>, mint: Mint, count: nat)
    requires forall k :: 0 <= k < |EntriesIn(fence, BareLines(lines))| ==>
        !Missing(EntriesIn(fence, BareLines(lines))[k])
    ensures NamedIn(fence, lines, mint, count) == lines
    decreases |lines|
  {
    hide EntryOf;
    hide UntilStart;
    hide EntriesIn;
    hide Bare;
    var bare := BareLines(lines);
    hide BareLines;
    var n := UntilStart(fence, bare);
    if n < |bare| {
      EntriesCons(fence, bare);
      BareDrop(lines, n + 1);
      var rest := BareLines(lines[n + 1..]);
      var e := EntryOf(bare[n], rest[..UntilStart(None, rest)]);
      assert e == EntriesIn(fence, bare)[0];
      assert EntriesIn(fence, bare)[1..] == EntriesIn(None, rest);
      assert bare[n] == Bare(lines[n]);
      NamedFixed(None, lines[n + 1..], mint, count);
      assert NamedLine(lines[n], e, mint, count) == lines[n] && Drawn(e, count) == count;
      hide NamedLine;
      hide Drawn;
      hide Missing;
      assert lines == lines[..n] + ([lines[n]] + lines[n + 1..]);
    }
  }

  lemma EntriesAt(text: string)
    ensures var lines := Split(text); Entries(text) == EntriesIn(None, BareLines(lines[BodyStart(BareLines(lines))..]))
  {
    hide Split;
    hide BodyStart;
    hide BareLines;
    hide EntriesIn;
    var lines := Split(text);
    BareDrop(lines, BodyStart(BareLines(lines)));
  }

  lemma NothingToName(text: string, mint: Mint)
    requires forall k :: 0 <= k < |Entries(text)| ==> !Missing(Entries(text)[k])
    ensures WithMissingIds(text, mint) == text
  {
    hide Split;
    hide BodyStart;
    hide BareLines;
    hide EntriesIn;
    hide Missing;
    hide NamedIn;
    EntriesAt(text);
    hide Entries;
    var lines := Split(text);
    var start := BodyStart(BareLines(lines));
    JoinSplit(text);
    NamedFixed(None, lines[start..], mint, 0);
    assert lines[..start] + lines[start..] == lines;
  }

  /** Naming again, with any ids, changes nothing. */
  lemma NamingOnce(text: string, mint: Mint, again: Mint)
    requires MintsIds(mint)
    ensures WithMissingIds(WithMissingIds(text, mint), again) == WithMissingIds(text, mint)
  {
    hide WithMissingIds;
    hide Entries;
    hide Missing;
    NamingReads(text, mint);
    NoneMissing(Entries(text), mint, 0);
    NothingToName(WithMissingIds(text, mint), again);
  }
}
