// Restating one entry of a discussion: its state and the end of its body change, and no other entry does.
module DiscussionRestate {
  import opened Strings
  import opened Options
  import opened Space
  import opened Text
  import opened DiscussionText
  import opened DiscussionLines
  import opened DiscussionWrite
  import opened DiscussionAppend
  import opened DiscussionRoundTrip
  import opened DiscussionIds

  /** How many lines there are up to the last that is not blank. */
  function KeepLength(body: seq<string>): (n: nat)
    ensures n <= |body|
    ensures forall k :: n <= k < |body| ==> Trimmed(body[k]) == ""
  {
    if body == [] || Trimmed(body[|body| - 1]) != "" then |body| else KeepLength(body[..|body| - 1])
  }

  function Returned(lines: seq<string>, cr: string): (r: seq<string>)
    ensures |r| == |lines|
  {
    if lines == [] then [] else [lines[0] + cr] + Returned(lines[1..], cr)
  }

  /** A body with the added text below it, a blank line between. */
  function NewBody(body: seq<string>, appended: Option<string>, cr: string): seq<string> {
    if appended.None? then body
    else
      var k := KeepLength(BareLines(body));
      body[..k] + Returned([""] + CleanedLines(appended.value), cr) + body[k..]
  }

  function NewHeading(e: Entry, state: State, id: string): Heading
    requires e.date.Some? && e.author.Some?
  {
    Heading(e.kind, Some(state), e.date.value, e.author.value, Some(id))
  }

  /** The lines with the entry restated, if there is one with the id and it can be read. */
  function RestatedIn(fence: Option<char>, lines: seq<string>, id: string, state: State, appended: Option<string>)
    : Option<seq<string>>
    decreases |lines|
  {
    var n := UntilStart(fence, BareLines(lines));
    if n == |lines| then None
    else
      var rest := lines[n + 1..];
      var e := EntryAt(lines[n], rest);
      if e.id == Some(id) then
        if e.unreadable then None
        else
          var k := UntilStart(None, BareLines(rest));
          var cr := Return(lines[n]);
          Some(lines[..n]
            + ([FormatHeading(NewHeading(e, state, id)) + cr] + NewBody(rest[..k], appended, cr) + rest[k..]))
      else
        var more :- RestatedIn(None, rest, id, state, appended);
        Some(lines[..n + 1] + more)
  }

  function RestateEntry(text: string, id: string, state: State, appended: Option<string>): Option<string> {
    var lines := Split(text);
    var start := BodyStart(BareLines(lines));
    var more :- RestatedIn(None, lines[start..], id, state, appended);
    Some(Join(lines[..start] + more))
  }

  // The entry among the file's lines

  /** The lines of one entry of a file, and the lines on both sides of it. */
  datatype Around = Around(a: seq<string>, h: string, b: seq<string>, r: seq<string>)

  function Whole(p: Around): seq<string> {
    p.a + ([p.h] + p.b + p.r)
  }

  ghost predicate Entered(fence: Option<char>, p: Around) {
    && FenceAfter(fence, BareLines(p.a)) == None && Starts(None, Bare(p.h))
    && UntilStart(None, BareLines(p.b)) == |p.b| && Ends(BareLines(p.b), BareLines(p.r))
  }

  /** The first entry with the id. */
  function ById(entries: seq<Entry>, id: string): (i: nat)
    ensures i <= |entries|
    ensures i < |entries| ==> entries[i].id == Some(id)
    ensures forall k :: 0 <= k < i ==> entries[k].id != Some(id)
  {
    if entries == [] || entries[0].id == Some(id) then 0 else 1 + ById(entries[1..], id)
  }

  ghost predicate FoundAt(fence: Option<char>, lines: seq<string>, id: string, p: Around) {
    var es := EntriesIn(fence, BareLines(lines));
    var i := ById(es, id);
    && lines == Whole(p) && Entered(fence, p)
    && i < |es| && EntriesIn(fence, BareLines(p.a)) == es[..i]
    && EntryOf(Bare(p.h), BareLines(p.b)) == es[i] && EntriesIn(None, BareLines(p.r)) == es[i + 1..]
  }

  lemma FirstAround(fence: Option<char>, lines: seq<string>) returns (p: Around)
    requires UntilStart(fence, BareLines(lines)) < |lines|
    ensures var n := UntilStart(fence, BareLines(lines));
            var rest := lines[n + 1..];
            var k := UntilStart(None, BareLines(rest));
            p == Around(lines[..n], lines[n], rest[..k], rest[k..])
    ensures lines == Whole(p) && Entered(fence, p)
    ensures var es := EntriesIn(fence, BareLines(lines));
            && es == [EntryAt(p.h, p.b + p.r)] + EntriesIn(None, BareLines(p.r))
            && EntryAt(p.h, p.b + p.r) == EntryOf(Bare(p.h), BareLines(p.b))
            && EntriesIn(fence, BareLines(p.a)) == []
  {
    hide UntilStart;
    hide EntryOf;
    hide Bare;
    hide BareLines;
    hide EntriesIn;
    hide FenceAfter;
    hide Starts;
    var bare := BareLines(lines);
    var n := UntilStart(fence, bare);
    var rest := lines[n + 1..];
    var k := UntilStart(None, BareLines(rest));
    p := Around(lines[..n], lines[n], rest[..k], rest[k..]);
    BareTaken(lines, n);
    BareTaken(rest, k);
    BareDrop(lines, n + 1);
    BareDrop(rest, k);
    FenceAtStart(fence, bare);
    UntilPrefix(fence, bare);
    UntilPrefix(None, BareLines(rest));
    NoneStart(fence, bare[..n], 0);
    assert bare[n] == Bare(lines[n]);
    EntriesCons(fence, bare);
    assert p.b + p.r == rest;
    RestAfter(BareLines(rest));
    assert lines == lines[..n] + ([lines[n]] + rest[..k] + rest[k..]);
  }

  lemma BareTaken(lines: seq<string>, k: nat)
    requires k <= |lines|
    ensures BareLines(lines[..k]) == BareLines(lines)[..k]
  {
    hide BareLines;
    BareSlice(lines, 0, k);
    assert lines[0..k] == lines[..k] && BareLines(lines)[0..k] == BareLines(lines)[..k];
  }

  /** After an entry's own lines come the entries after it. */
  lemma RestAfter(rest: seq<string>)
    ensures var k := UntilStart(None, rest);
            Ends(rest[..k], rest[k..]) && EntriesIn(None, rest) == EntriesIn(None, rest[k..])
  {
    hide EntryOf;
    hide Starts;
    hide UntilStart;
    var k := UntilStart(None, rest);
    UntilPrefix(None, rest);
    assert rest == rest[..k] + rest[k..];
    EntriesSkipped(None, rest[..k], rest[k..]);
    if k < |rest| {
      FenceAtStart(None, rest);
      assert rest[k..][0] == rest[k];
    } else {
      NoneStart(FenceAfter(None, rest[..k]), [], 0);
      NoneUntil(FenceAfter(None, rest[..k]));
      NoneUntil(None);
    }
  }

  lemma NoneUntil(fence: Option<char>)
    ensures UntilStart(fence, []) == 0 && EntriesIn(fence, []) == []
  {
  }

  lemma WholeBare(p: Around)
    ensures BareLines(Whole(p)) == BareLines(p.a) + ([Bare(p.h)] + BareLines(p.b) + BareLines(p.r))
  {
    hide Bare;
    BareJoined(p.a, [p.h] + p.b + p.r);
    BareJoined([p.h] + p.b, p.r);
    BareJoined([p.h], p.b);
    assert BareLines([p.h]) == [Bare(p.h)];
  }

  /** The entries around an entry, told by how many come after it. */
  lemma AroundRead(fence: Option<char>, p: Around)
    requires Entered(fence, p)
    ensures EntriesIn(fence, BareLines(Whole(p)))
         == EntriesIn(fence, BareLines(p.a)) + [EntryOf(Bare(p.h), BareLines(p.b))] + EntriesIn(None, BareLines(p.r))
  {
    hide Bare;
    hide BareLines;
    hide EntryOf;
    hide EntriesIn;
    hide UntilStart;
    hide FenceAfter;
    hide Starts;
    hide Ends;
    hide Whole;
    WholeBare(p);
    EntryAmong(fence, BareLines(p.a), Bare(p.h), BareLines(p.b), BareLines(p.r));
  }

  lemma PlaceIn<T>(es: seq<T>, x: seq<T>, y: T, z: seq<T>, i: nat)
    requires es == x + [y] + z && i < |es| && |z| == |es| - i - 1
    ensures x == es[..i] && y == es[i] && z == es[i + 1..]
  {
  }

  ghost predicate Restates(q: Option<seq<string>>, p: Around, e: Entry, id: string, state: State,
      appended: Option<string>)
    requires !e.unreadable ==> e.date.Some? && e.author.Some?
  {
    if e.unreadable then q == None
    else
      var cr := Return(p.h);
      q == Some(p.a + ([FormatHeading(NewHeading(e, state, id)) + cr] + NewBody(p.b, appended, cr) + p.r))
  }

  lemma ReadableDated(line: string, b: seq<string>)
    ensures var e := EntryOf(line, b); !e.unreadable ==> e.date.Some? && e.author.Some?
  {
    hide ParseHeading;
    hide SplitAnswer;
    hide Trimmed;
  }

  lemma RestatesFirst(fence: Option<char>, lines: seq<string>, id: string, state: State, appended: Option<string>)
    requires UntilStart(fence, BareLines(lines)) < |lines|
    requires var n := UntilStart(fence, BareLines(lines)); EntryAt(lines[n], lines[n + 1..]).id == Some(id)
    ensures var n := UntilStart(fence, BareLines(lines));
            var rest := lines[n + 1..];
            var k := UntilStart(None, BareLines(rest));
            var e := EntryAt(lines[n], rest);
            (!e.unreadable ==> e.date.Some? && e.author.Some?)
            && Restates(RestatedIn(fence, lines, id, state, appended),
               Around(lines[..n], lines[n], rest[..k], rest[k..]), e, id,
                        state, appended)
  {
    hide UntilStart;
    hide EntryOf;
    hide Bare;
    hide BareLines;
    hide FormatHeading;
    hide NewBody;
    hide Return;
    var n := UntilStart(fence, BareLines(lines));
    var rest := lines[n + 1..];
    var k := UntilStart(None, BareLines(rest));
    ReadableDated(Bare(lines[n]), BareLines(rest)[..k]);
  }

  lemma FoundFirst(fence: Option<char>, lines: seq<string>, id: string, state: State, appended: Option<string>)
    returns (p: Around)
    requires UntilStart(fence, BareLines(lines)) < |lines|
    requires var n := UntilStart(fence, BareLines(lines)); EntryAt(lines[n], lines[n + 1..]).id == Some(id)
    ensures FoundAt(fence, lines, id, p)
    ensures var e := EntryOf(Bare(p.h), BareLines(p.b));
            (!e.unreadable ==> e.date.Some? && e.author.Some?)
            && Restates(RestatedIn(fence, lines, id, state, appended), p, e, id, state, appended)
  {
    hide UntilStart;
    hide EntryOf;
    hide Bare;
    hide BareLines;
    hide EntriesIn;
    hide Entered;
    hide Restates;
    hide RestatedIn;
    hide EntryAt;
    hide Whole;
    p := FirstAround(fence, lines);
    assert p.b + p.r == lines[UntilStart(fence, BareLines(lines)) + 1..];
    RestatesFirst(fence, lines, id, state, appended);
    var es, more := EntriesIn(fence, BareLines(lines)), EntriesIn(None, BareLines(p.r));
    assert es[0].id == Some(id) && es[1..] == more && es[..0] == [];
  }

  lemma ByIdLater(first: Entry, more: seq<Entry>, id: string)
    requires first.id != Some(id)
    ensures ById([first] + more, id) == 1 + ById(more, id)
  {
    assert ([first] + more)[1..] == more;
  }

  /** The entry the editor restates is the first with the id, and only its own lines are rewritten. */
  lemma {:induction false} FindAround(fence: Option<char>, lines: seq<string>, id: string, state: State,
      appended: Option<string>)
    returns (p: Around)
    requires ById(EntriesIn(fence, BareLines(lines)), id) < |EntriesIn(fence, BareLines(lines))|
    ensures FoundAt(fence, lines, id, p)
    ensures var e := EntryOf(Bare(p.h), BareLines(p.b));
            (!e.unreadable ==> e.date.Some? && e.author.Some?)
            && Restates(RestatedIn(fence, lines, id, state, appended), p, e, id, state, appended)
    decreases |lines|
  {
    hide UntilStart;
    hide EntryOf;
    hide Bare;
    hide BareLines;
    hide EntriesIn;
    hide EntryAt;
    hide FoundAt;
    hide Restates;
    hide RestatedIn;
    hide ById;
    var bare := BareLines(lines);
    var n := UntilStart(fence, bare);
    NoneFound(fence, bare, id);
    var rest := lines[n + 1..];
    var e0 := EntryAt(lines[n], rest);
    if e0.id == Some(id) {
      p := FoundFirst(fence, lines, id, state, appended);
    } else {
      EntriesThen(fence, lines);
      ByIdLater(e0, EntriesIn(None, BareLines(rest)), id);
      var p2 := FindAround(None, rest, id, state, appended);
      p := Around(lines[..n + 1] + p2.a, p2.h, p2.b, p2.r);
      FoundLater(fence, lines, id, p2);
      RestatesLater(fence, lines, id, state, appended, p2);
    }
  }

  lemma NoneFound(fence: Option<char>, lines: seq<string>, id: string)
    ensures ById(EntriesIn(fence, lines), id) < |EntriesIn(fence, lines)| ==> UntilStart(fence, lines) < |lines|
  {
    hide UntilStart;
    hide EntryOf;
    if UntilStart(fence, lines) == |lines| {
      NoneStart(fence, lines, 0);
    }
  }

  lemma EntriesThen(fence: Option<char>, lines: seq<string>)
    requires UntilStart(fence, BareLines(lines)) < |lines|
    ensures var n := UntilStart(fence, BareLines(lines));
            var es, more := EntriesIn(fence, BareLines(lines)), EntriesIn(None, BareLines(lines[n + 1..]));
            es == [EntryAt(lines[n], lines[n + 1..])] + more && es != [] && es[1..] == more
            && es[0] == EntryAt(lines[n], lines[n + 1..])
  {
    hide UntilStart;
    hide EntryOf;
    hide BareLines;
    hide EntriesIn;
    hide Bare;
    var bare := BareLines(lines);
    var n := UntilStart(fence, bare);
    EntriesCons(fence, bare);
    BareDrop(lines, n + 1);
    assert bare[n] == Bare(lines[n]);
  }

  lemma FoundLater(fence: Option<char>, lines: seq<string>, id: string, p: Around)
    requires UntilStart(fence, BareLines(lines)) < |lines|
    requires var rest := lines[UntilStart(fence, BareLines(lines)) + 1..];
             var es := EntriesIn(fence, BareLines(lines));
             FoundAt(None, rest, id, p) && es != [] && es[1..] == EntriesIn(None, BareLines(rest))
               && es[0].id != Some(id)
    ensures FoundAt(fence, lines, id, Around(lines[..UntilStart(fence, BareLines(lines)) + 1] + p.a, p.h, p.b, p.r))
  {
    hide UntilStart;
    hide EntryOf;
    hide Bare;
    hide BareLines;
    hide EntriesIn;
    hide FenceAfter;
    hide Starts;
    hide Ends;
    var n := UntilStart(fence, BareLines(lines));
    var rest := lines[n + 1..];
    var es := EntriesIn(fence, BareLines(lines));
    var p2 := Around(lines[..n + 1] + p.a, p.h, p.b, p.r);
    WholeLater(lines, n + 1, p);
    FenceHere(fence, lines);
    BareJoined(lines[..n + 1], p.a);
    FenceJoined(fence, BareLines(lines[..n + 1]), BareLines(p.a));
    AroundRead(fence, p2);
    var j := ById(es[1..], id);
    assert ById(es, id) == 1 + j;
    assert es[1..][j + 1..] == es[j + 2..];
    PlaceIn(es, EntriesIn(fence, BareLines(p2.a)), EntryOf(Bare(p.h), BareLines(p.b)),
      EntriesIn(None, BareLines(p.r)), 1 + j);
  }

  lemma WholeLater(lines: seq<string>, i: nat, p: Around)
    requires i <= |lines| && lines[i..] == Whole(p)
    ensures lines == Whole(Around(lines[..i] + p.a, p.h, p.b, p.r))
  {
    var x := [p.h] + p.b + p.r;
    assert lines == lines[..i] + lines[i..];
    assert lines[..i] + (p.a + x) == (lines[..i] + p.a) + x;
  }

  lemma FenceHere(fence: Option<char>, lines: seq<string>)
    requires UntilStart(fence, BareLines(lines)) < |lines|
    ensures FenceAfter(fence, BareLines(lines[..UntilStart(fence, BareLines(lines)) + 1])) == None
  {
    hide UntilStart;
    hide BareLines;
    hide FenceAfter;
    var bare := BareLines(lines);
    var n := UntilStart(fence, bare);
    FenceAtStart(fence, bare);
    BareTaken(lines, n + 1);
    FenceJoined(fence, bare[..n], [bare[n]]);
    assert bare[..n + 1] == bare[..n] + [bare[n]];
    StartKeepsFence(bare[n]);
  }

  lemma StartKeepsFence(line: string)
    requires Starts(None, line)
    ensures FenceAfter(None, [line]) == None
  {
    assert [line][1..] == [];
  }

  lemma RestatesLater(fence: Option<char>, lines: seq<string>, id: string, state: State, appended: Option<string>,
      p: Around)
    requires UntilStart(fence, BareLines(lines)) < |lines|
    requires var n := UntilStart(fence, BareLines(lines));
             EntryAt(lines[n], lines[n + 1..]).id != Some(id)
    requires var rest := lines[UntilStart(fence, BareLines(lines)) + 1..];
             var e := EntryOf(Bare(p.h), BareLines(p.b));
             (!e.unreadable ==> e.date.Some? && e.author.Some?)
             && Restates(RestatedIn(None, rest, id, state, appended), p, e, id, state, appended)
    ensures var n := UntilStart(fence, BareLines(lines));
            var e := EntryOf(Bare(p.h), BareLines(p.b));
            Restates(RestatedIn(fence, lines, id, state, appended), Around(lines[..n + 1] + p.a, p.h, p.b, p.r), e,
              id, state, appended)
  {
    hide UntilStart;
    hide EntryOf;
    hide Bare;
    hide BareLines;
    hide EntryAt;
    hide FormatHeading;
    hide NewBody;
    hide Return;
    var n := UntilStart(fence, BareLines(lines));
    var rest := lines[n + 1..];
    var e := EntryOf(Bare(p.h), BareLines(p.b));
    var inner := RestatedIn(None, rest, id, state, appended);
    assert RestatedIn(fence, lines, id, state, appended) == if inner.None? then None
        else Some(lines[..n + 1] + inner.value);
    hide RestatedIn;
    if !e.unreadable {
      var cr := Return(p.h);
      Regroup3(lines[..n + 1], p.a, [FormatHeading(NewHeading(e, state, id)) + cr] + NewBody(p.b, appended, cr) + p.r);
    }
  }

  lemma Regroup3<T>(a: seq<T>, b: seq<T>, c: seq<T>)
    ensures (a + b) + c == a + (b + c)
  {
  }

  // The new lines

  /** The added lines as they are read: without the carriage returns that end the file's lines. */
  function Stored(appended: string, cr: string): (lines: seq<string>)
    ensures lines != []
  {
    if cr == "" then BareLines(CleanedLines(appended)) else CleanedLines(appended)
  }

  function AddedTo(body: seq<string>, stored: seq<string>): seq<string> {
    var k := KeepLength(body);
    body[..k] + ([""] + stored) + body[k..]
  }

  lemma {:induction false} ReturnedNone(lines: seq<string>)
    ensures Returned(lines, "") == lines
  {
    if lines != [] {
      ReturnedNone(lines[1..]);
      assert lines[0] + "" == lines[0];
      assert lines == [lines[0]] + lines[1..];
    }
  }

  lemma {:induction false} ReturnedBare(lines: seq<string>)
    ensures BareLines(Returned(lines, "\r")) == lines
  {
    if lines != [] {
      ReturnedBare(lines[1..]);
      BareCr(lines[0]);
      hide Bare;
      BareHead(Returned(lines, "\r"), lines[0], lines[1..]);
      assert Returned(lines, "\r")[1..] == Returned(lines[1..], "\r");
      hide BareLines;
      assert lines == [lines[0]] + lines[1..];
    }
  }

  lemma NewBodyBare(body: seq<string>, appended: string, cr: string)
    requires cr == "" || cr == "\r"
    ensures BareLines(NewBody(body, Some(appended), cr)) == AddedTo(BareLines(body), Stored(appended, cr))
  {
    hide CleanedLines;
    hide KeepLength;
    var clean := CleanedLines(appended);
    var added := Returned([""] + clean, cr);
    var k := KeepLength(BareLines(body));
    ReturnedBare([""] + clean);
    ReturnedNone([""] + clean);
    assert BareLines(added) == [""] + Stored(appended, cr) by {
      if cr == "" {
        BareJoined([""], clean);
        assert BareLines([""]) == [""];
      }
    }
    BareTaken(body, k);
    BareDrop(body, k);
    hide Stored;
    hide Returned;
    hide BareLines;
    BareJoined(body[..k] + added, body[k..]);
    BareJoined(body[..k], added);
  }

  lemma BlankLine(line: string)
    requires Trimmed(line) == ""
    ensures Spaces(line) && FenceOf(line).None? && HeadingText(line).None? && AnswerText(line).None?
  {
    BlankSpaces(line);
    SpaceBefore(line, "");
    assert line + "" == line;
    assert line != "" ==> IsSpace(line[0]);
  }

  lemma {:induction false} BlankLines(fence: Option<char>, lines: seq<string>)
    requires forall k :: 0 <= k < |lines| ==> Trimmed(lines[k]) == ""
    ensures UntilStart(fence, lines) == |lines| && FenceAfter(fence, lines) == fence
    decreases |lines|
  {
    hide Trimmed;
    if lines != [] {
      BlankLine(lines[0]);
      assert NextFence(fence, lines[0]) == fence && !Starts(fence, lines[0]);
      BlankLines(fence, lines[1..]);
    }
  }

  lemma UntilWhole(fence: Option<char>, a: seq<string>, b: seq<string>)
    ensures UntilStart(fence, a + b) == |a + b|
        <==> UntilStart(fence, a) == |a| && UntilStart(FenceAfter(fence, a), b) == |b|
  {
    hide UntilStart;
    hide FenceAfter;
    UntilJoined(fence, a, b);
  }

  /** The added lines start an entry, and leave a fence open, as they would after the fence the body leaves. */
  lemma AddedShape(body: seq<string>, stored: seq<string>)
    requires UntilStart(None, body) == |body|
    ensures UntilStart(None, AddedTo(body, stored)) == |AddedTo(body, stored)|
       <==> UntilStart(FenceAfter(None, body), stored) == |stored|
    ensures FenceAfter(None, AddedTo(body, stored)) == FenceAfter(FenceAfter(None, body), stored)
  {
    hide UntilStart;
    hide FenceAfter;
    hide Trimmed;
    var k := KeepLength(body);
    var kept, blank := body[..k], body[k..];
    assert body == kept + blank;
    hide KeepLength;
    var fence := FenceAfter(None, kept);
    UntilWhole(None, kept, blank);
    FenceJoined(None, kept, blank);
    BlankLines(fence, blank);
    BlankLines(FenceAfter(fence, stored), blank);
    EmptyTrimmed();
    BlankLines(fence, [""]);
    UntilWhole(fence, [""], stored);
    FenceJoined(fence, [""], stored);
    UntilWhole(None, kept, [""] + stored);
    FenceJoined(None, kept, [""] + stored);
    UntilWhole(None, kept + ([""] + stored), blank);
    FenceJoined(None, kept + ([""] + stored), blank);
  }

  lemma EmptyTrimmed()
    ensures Trimmed("") == ""
  {
  }

  /** The entry restated in place: the entries before it and after it are the same. */
  lemma ReplacedRead(p: Around, h: string, b: seq<string>)
    requires Entered(None, p)
    requires Starts(None, h) && UntilStart(None, b) == |b| && Ends(b, BareLines(p.r))
    ensures EntriesIn(None, BareLines(p.a) + ([h] + b + BareLines(p.r)))
         == EntriesIn(None, BareLines(p.a)) + [EntryOf(h, b)] + EntriesIn(None, BareLines(p.r))
  {
    hide EntryOf;
    hide EntriesIn;
    hide UntilStart;
    hide FenceAfter;
    hide Starts;
    hide Ends;
    hide BareLines;
    EntryAmong(None, BareLines(p.a), h, b, BareLines(p.r));
  }

  // Front matter

  lemma CloseWhole(a: seq<string>, b: seq<string>)
    ensures CloseAt(a + b) == |a + b| <==> CloseAt(a) == |a| && CloseAt(b) == |b|
  {
    hide CloseAt;
    CloseJoined(a, b);
  }

  lemma CloseBare(line: string)
    ensures Closes(Bare(line)) <==> Closes(line)
  {
    if Bare(line) != line {
      assert line == Bare(line) + "\r";
      TrimBackAfter(Bare(line), "\r");
      var n := TrimBack(line, |line|);
      assert line[..n] == Bare(line)[..n];
      hide TrimBack;
    }
  }

  lemma {:induction false} CloseBareLines(lines: seq<string>)
    ensures CloseAt(BareLines(lines)) == CloseAt(lines)
  {
    hide Closes;
    if lines != [] {
      CloseBare(lines[0]);
      CloseBareLines(lines[1..]);
      assert BareLines(lines)[1..] == BareLines(lines[1..]);
    }
  }

  /** Whether a text could close front matter. */
  ghost predicate NeverCloses(lines: seq<string>) {
    CloseAt(lines) == |lines|
  }

  lemma AddedCloses(body: seq<string>, stored: seq<string>)
    requires NeverCloses(body) && NeverCloses(stored)
    ensures NeverCloses(AddedTo(body, stored))
  {
    var k := KeepLength(body);
    assert body == body[..k] + body[k..];
    CloseWhole(body[..k], body[k..]);
    BlankCloses();
    CloseWhole([""], stored);
    CloseWhole(body[..k], [""] + stored);
    CloseWhole(body[..k] + ([""] + stored), body[k..]);
    hide CloseAt;
    hide KeepLength;
  }

  /**
   * Rewriting lines after the start of a file's entries does not move that start, unless it closes front matter left
   * open.
   */
  lemma StartKept(front: seq<string>, old1: seq<string>, new1: seq<string>)
    requires old1 != [] && new1 != [] && !Closes(old1[0]) && !Closes(new1[0])
    requires BodyStart(front + old1) <= |front|
    requires FrontLeftOpen(front + old1) && NeverCloses(old1) ==> NeverCloses(new1)
    ensures BodyStart(front + new1) == BodyStart(front + old1)
  {
    hide CloseAt;
    hide Trimmed;
    assert !FrontOpened(old1) && !FrontOpened(new1);
    BodyStartJoined(front, old1);
    BodyStartJoined(front, new1);
    if FrontLeftOpen(front) {
      assert front != [] && (front + old1)[0] == front[0];
    }
  }

  // What the restated entry says

  /** A part of a heading as it is read: no dot, nothing to trim, and unbroken if the heading is. */
  ghost predicate ReadPart(p: string, unbroken: bool) {
    && DOT !in p && (p == "" || (!IsSpace(p[0]) && !IsSpace(p[|p| - 1]))) && (unbroken ==> Unbroken(p))
  }

  lemma PartRead(s: string, unbroken: bool)
    requires DOT !in s && (unbroken ==> Unbroken(s))
    ensures ReadPart(Trimmed(s), unbroken)
  {
    hide Trimmed;
    TrimmedEnds(s);
    TrimmedInside(s);
  }

  lemma {:induction false} PartsPlain(s: string, unbroken: bool)
    requires unbroken ==> Unbroken(s)
    ensures forall k :: 0 <= k < |Parts(s)| ==> ReadPart(Parts(s)[k], unbroken)
    decreases |s|
  {
    hide ReadPart;
    hide Trimmed;
    var n := DotAt(s);
    DotFree(s);
    PartRead(s[..n], unbroken);
    if n == |s| {
      assert s[..n] == s;
    } else {
      PartsPlain(s[n + 1..], unbroken);
    }
  }

  lemma {:induction false} DotFree(s: string)
    ensures DOT !in s[..DotAt(s)]
  {
    if s != "" && s[0] != DOT {
      DotFree(s[1..]);
      assert s[..DotAt(s)] == [s[0]] + s[1..][..DotAt(s[1..])];
    }
  }

  lemma TrimmedInside(s: string)
    ensures DOT !in s ==> DOT !in Trimmed(s)
    ensures Unbroken(s) ==> Unbroken(Trimmed(s))
  {
    hide TrimBack;
    hide SpaceLength;
  }

  lemma ParsedGood(text: string)
    requires ParseHeading(text).Some? && Unbroken(text)
    ensures var h := ParseHeading(text).value;
            IsDate(h.date) && GoodAuthor(h.author) && (h.id.Some? ==> IsId(h.id.value))
  {
    hide Trimmed;
    hide TrailingId;
    hide Parts;
    hide IsDate;
    hide IsId;
    TrimmedInside(text);
    var padded := " " + Trimmed(text);
    var found := TrailingId(padded);
    if found.Some? {
      IdIsId(padded);
      TrimmedInside(padded[..found.value.0]);
    }
    var (rest, id) := WithoutId(text);
    PartsPlain(rest, true);
  }

  lemma IdIsId(s: string)
    requires TrailingId(s).Some?
    ensures IsId(TrailingId(s).value.1)
  {
    IdRun(s, TrimBack(s, |s|));
    hide TrimBack;
  }

  lemma {:induction false} IdRun(s: string, end: nat)
    requires end <= |s|
    ensures forall k :: IdStart(s, end) <= k < end ==> IsIdChar(s[k])
  {
    if end > 0 && IsIdChar(s[end - 1]) {
      IdRun(s, end - 1);
    }
  }

  lemma {:induction false} HeadingUnbroken(line: string)
    requires HeadingText(line).Some?
    ensures Unbroken(Trimmed(HeadingText(line).value))
  {
    TrimmedInside(HeadingText(line).value);
  }

  /**
   * Written again with another state, a readable entry's heading is one the reader accepts if the state is one of its
   * kind's.
   */
  lemma NewHeadingGood(line: string, b: seq<string>, state: State, id: string)
    requires Starts(None, line)
    requires var e := EntryOf(line, b); !e.unreadable && e.id == Some(id) && state in States(e.kind)
    ensures var e := EntryOf(line, b);
            e.date.Some? && e.author.Some? && GoodHeading(NewHeading(e, state, id))
  {
    HeadingUnbroken(line);
    hide HeadingText;
    hide Trimmed;
    hide ParseHeading;
    hide SplitAnswer;
    hide IsDate;
    hide Supersedes;
    ParsedGood(Trimmed(HeadingText(line).value));
  }

  /** With the same body, the entry says the same but for its state and the spelling of its heading. */
  lemma SameBody(line: string, b: seq<string>, state: State, id: string)
    requires Starts(None, line)
    requires var e := EntryOf(line, b); !e.unreadable && e.id == Some(id) && state in States(e.kind)
    ensures var e := EntryOf(line, b);
            && e.date.Some? && e.author.Some?
            && var h := NewHeading(e, state, id);
            EntryOf(FormatHeading(h), b) == e.(state := Some(state), heading := HeadingBody(h))
  {
    NewHeadingGood(line, b, state, id);
    var e := EntryOf(line, b);
    EntryRead(NewHeading(e, state, id), b);
    hide HeadingText;
    hide Trimmed;
    hide ParseHeading;
    hide SplitAnswer;
    hide FormatHeading;
    hide HeadingBody;
    hide GoodHeading;
    hide Supersedes;
    hide Starts;
  }

  /** Added below the body, the lines start no entry: none outside the fence the body leaves open, if it leaves one. */
  predicate Fits(body: seq<string>, stored: seq<string>) {
    UntilStart(FenceAfter(None, body), stored) == |stored|
  }

  /** The added text has a line that closes front matter, and the file leaves front matter open. */
  predicate ClosesFront(text: string, appended: string) {
    FrontLeftOpen(FileLines(text)) && CloseAt(CleanedLines(appended)) < |CleanedLines(appended)|
  }

  lemma StoredShape(appended: string, cr: string)
    ensures var stored := Stored(appended, cr);
            && FenceAfter(None, stored) == None
            && (UntilStart(None, stored) == |stored| <==> cr != "" || !Hides(None, BodyLines(appended)))
            && CloseAt(stored) == CloseAt(CleanedLines(appended)) && |stored| == |CleanedLines(appended)|
  {
    CleanedShape(None, BodyLines(appended));
    CloseBareLines(CleanedLines(appended));
    hide CleanLines;
    hide Hides;
    hide CloseAt;
  }

  /** Where the body leaves no fence open, the lines fit unless a carriage return hides a heading the cleaner missed. */
  lemma FitsClosed(body: seq<string>, appended: string, cr: string)
    requires FenceAfter(None, body) == None
    ensures Fits(body, Stored(appended, cr)) <==> cr != "" || !Hides(None, BodyLines(appended))
  {
    StoredShape(appended, cr);
    hide UntilStart;
    hide FenceAfter;
    hide Hides;
    hide Stored;
  }

  /** The new lines of the restated entry's body, as they are read. */
  function ReadBody(b: seq<string>, appended: Option<string>, cr: string): seq<string> {
    if appended.None? then b else AddedTo(b, Stored(appended.value, cr))
  }

  /** The lines a file's entries are read from, as the file ends them. */
  function EntryLines(text: string): seq<string> {
    Split(text)[BodyStart(BareLines(Split(text)))..]
  }

  predicate AllFit(b: seq<string>, appended: Option<string>, cr: string) {
    appended.Some? ==> Fits(b, Stored(appended.value, cr))
  }

  lemma BodyShape(p: Around, appended: Option<string>, cr: string)
    requires Entered(None, p)
    ensures var b := ReadBody(BareLines(p.b), appended, cr);
            && (UntilStart(None, b) == |b| <==> AllFit(BareLines(p.b), appended, cr))
            && Ends(b, BareLines(p.r))
  {
    hide UntilStart;
    hide Bare;
    hide BareLines;
    hide Starts;
    hide FenceAfter;
    hide AddedTo;
    hide Stored;
    hide Hides;
    if appended.Some? {
      StoredShape(appended.value, cr);
      AddedShape(BareLines(p.b), Stored(appended.value, cr));
    }
  }

  lemma NewHeadBare(p: Around, h: Heading, appended: Option<string>)
    requires GoodHeading(h)
    ensures var cr := Return(p.h);
            BareLines(p.a + ([FormatHeading(h) + cr] + NewBody(p.b, appended, cr) + p.r))
            == BareLines(p.a) + ([FormatHeading(h)] + ReadBody(BareLines(p.b), appended, cr) + BareLines(p.r))
  {
    hide EntryOf;
    hide Starts;
    hide GoodHeading;
    hide FormatHeading;
    hide Bare;
    hide Return;
    hide AddedTo;
    hide Stored;
    hide KeepLength;
    hide BareLines;
    hide NewBody;
    var cr := Return(p.h);
    var line := FormatHeading(h) + cr;
    HeadBare(h, p.h);
    var body := NewBody(p.b, appended, cr);
    BodyBare(p.b, appended, cr);
    hide ReadBody;
    BareJoined(p.a, [line] + body + p.r);
    BareJoined([line] + body, p.r);
    BareJoined([line], body);
    BareOne(line);
  }

  lemma BareOne(line: string)
    ensures BareLines([line]) == [Bare(line)]
  {
  }

  lemma BareReturned(text: string, line: string)
    requires Bare(text) == text
    ensures Bare(text + Return(line)) == text && (Return(line) == "" || Return(line) == "\r")
  {
    BareCr(text);
    assert text + "" == text;
  }

  lemma HeadBare(h: Heading, line: string)
    requires GoodHeading(h)
    ensures Bare(FormatHeading(h) + Return(line)) == FormatHeading(h)
    ensures Return(line) == "" || Return(line) == "\r"
  {
    EntryRead(h, []);
    hide EntryOf;
    hide Starts;
    hide GoodHeading;
    hide FormatHeading;
    BareReturned(FormatHeading(h), line);
  }

  lemma BodyBare(body: seq<string>, appended: Option<string>, cr: string)
    requires cr == "" || cr == "\r"
    ensures BareLines(NewBody(body, appended, cr)) == ReadBody(BareLines(body), appended, cr)
  {
    hide AddedTo;
    hide Stored;
    hide KeepLength;
    hide BareLines;
    if appended.Some? {
      NewBodyBare(body, appended.value, cr);
    }
  }

  // Line by line

  lemma {:induction false} ReturnedOneLine(lines: seq<string>, cr: string)
    requires AllOneLine(lines) && (cr == "" || cr == "\r")
    ensures AllOneLine(Returned(lines, cr))
  {
    if lines != [] {
      assert OneLine(lines[0]);
      ReturnedOneLine(lines[1..], cr);
      assert OneLine(lines[0] + cr);
    }
  }

  lemma CleanedOneLine(appended: string)
    ensures AllOneLine([""] + CleanedLines(appended))
  {
    JoinSplit(Trimmed(CrLfToLf(appended)));
    CleanOneLine(None, BodyLines(appended));
    hide CleanLines;
  }

  lemma AllJoined(a: seq<string>, b: seq<string>)
    requires AllOneLine(a) && AllOneLine(b)
    ensures AllOneLine(a + b)
  {
    hide OneLine;
  }

  lemma NewBodyOneLine(body: seq<string>, appended: Option<string>, cr: string)
    requires AllOneLine(body) && (cr == "" || cr == "\r")
    ensures AllOneLine(NewBody(body, appended, cr))
  {
    hide OneLine;
    hide CleanedLines;
    hide KeepLength;
    hide Returned;
    if appended.Some? {
      var added := Returned([""] + CleanedLines(appended.value), cr);
      CleanedOneLine(appended.value);
      ReturnedOneLine([""] + CleanedLines(appended.value), cr);
      var k := KeepLength(BareLines(body));
      AllFrom(body, k);
      hide AllOneLine;
      AllJoined(body[..k], added);
      AllJoined(body[..k] + added, body[k..]);
    }
  }

  lemma NewLinesOneLine(p: Around, h: Heading, appended: Option<string>)
    requires GoodHeading(h) && AllOneLine(Whole(p))
    ensures var cr := Return(p.h);
            AllOneLine(p.a + ([FormatHeading(h) + cr] + NewBody(p.b, appended, cr) + p.r))
  {
    var cr := Return(p.h);
    EntryRead(h, []);
    hide EntryOf;
    hide Starts;
    hide GoodHeading;
    hide FormatHeading;
    hide NewBody;
    var line := FormatHeading(h) + cr;
    assert AllOneLine([line]);
    hide OneLine;
    AllParts(p);
    NewBodyOneLine(p.b, appended, cr);
    hide AllOneLine;
    var body := NewBody(p.b, appended, cr);
    AllJoined([line], body);
    AllJoined([line] + body, p.r);
    AllJoined(p.a, [line] + body + p.r);
  }

  lemma AllParts(p: Around)
    requires AllOneLine(Whole(p))
    ensures AllOneLine(p.a) && AllOneLine(p.b) && AllOneLine(p.r)
  {
    hide OneLine;
    var w := Whole(p);
    assert forall k :: 0 <= k < |p.a| ==> w[k] == p.a[k];
    assert forall k :: 0 <= k < |p.b| ==> w[|p.a| + 1 + k] == p.b[k];
    assert forall k :: 0 <= k < |p.r| ==> w[|p.a| + 1 + |p.b| + k] == p.r[k];
  }

  // The whole file

  lemma FrontKept(front: seq<string>, p: Around, h: string, appended: Option<string>, cr: string)
    requires Starts(None, Bare(p.h)) && Starts(None, h)
    requires BodyStart(front + BareLines(Whole(p))) == |front|
    requires appended.Some? && FrontLeftOpen(front + BareLines(Whole(p))) ==> NeverCloses(CleanedLines(appended.value))
    ensures var b := ReadBody(BareLines(p.b), appended, cr);
            BodyStart(front + (BareLines(p.a) + ([h] + b + BareLines(p.r)))) == |front|
  {
    hide BodyStart;
    hide FrontOpened;
    hide Starts;
    hide Bare;
    hide BareLines;
    hide CloseAt;
    hide Closes;
    hide AddedTo;
    hide Stored;
    hide CleanedLines;
    hide Hides;
    hide UntilStart;
    hide FenceAfter;
    WholeBare(p);
    StartNotFront(Bare(p.h));
    StartNotFront(h);
    var a, b, r := BareLines(p.a), BareLines(p.b), BareLines(p.r);
    var b2 := ReadBody(b, appended, cr);
    var old1, new1 := [Bare(p.h)] + b + r, [h] + b2 + r;
    Regroup3(front, a, old1);
    Regroup3(front, a, new1);
    CloseWhole([Bare(p.h)] + b, r);
    CloseWhole([Bare(p.h)], b);
    CloseWhole([h] + b2, r);
    CloseWhole([h], b2);
    OneNeverCloses(Bare(p.h));
    OneNeverCloses(h);
    if appended.Some? {
      StoredShape(appended.value, cr);
      if NeverCloses(b) && NeverCloses(CleanedLines(appended.value)) {
        AddedCloses(b, Stored(appended.value, cr));
      }
    }
    StartKept(front + a, old1, new1);
  }

  lemma OneNeverCloses(line: string)
    requires !Closes(line)
    ensures NeverCloses([line])
  {
    hide Closes;
    assert [line][1..] == [];
  }

  // What does not fit is read as more entries

  lemma FirstAlone(r: seq<string>) returns (b: seq<string>, more: seq<string>)
    requires r != [] && Starts(None, r[0])
    ensures r == [r[0]] + b + more && UntilStart(None, b) == |b| && Ends(b, more)
  {
    var n := UntilStart(None, r[1..]);
    b, more := r[1..][..n], r[1..][n..];
    UntilJoined(None, b, more);
    if n < |r[1..]| {
      FenceAtStart(None, r[1..]);
    }
    assert r[1..] == b + more;
    assert r == [r[0]] + (b + more);
  }

  /** Lines that leave no fence open keep the entries after them. */
  lemma EntriesBoth(a: seq<string>, r: seq<string>)
    requires r == [] || (FenceAfter(None, a) == None && Starts(None, r[0]))
    ensures EntriesIn(None, a + r) == EntriesIn(None, a) + EntriesIn(None, r)
  {
    hide EntryOf;
    hide EntriesIn;
    hide UntilStart;
    hide FenceAfter;
    hide Starts;
    if r == [] {
      assert a + r == a;
      NoEntries();
    } else {
      var b, more := FirstAlone(r);
      EntryAmong(None, a, r[0], b, more);
      NoFence();
      EntryAmong(None, [], r[0], b, more);
      assert [] + ([r[0]] + b + more) == r;
      NoEntries();
      Joining(EntriesIn(None, a), EntryOf(r[0], b), EntriesIn(None, more));
    }
  }

  lemma Joining<T>(a: seq<T>, x: T, b: seq<T>)
    ensures a + [x] + b == a + ([] + [x] + b)
  {
  }

  lemma NoEntries()
    ensures EntriesIn(None, []) == []
  {
  }

  lemma NoFence()
    ensures FenceAfter(None, []) == None
  {
  }

  lemma SomeEntries(lines: seq<string>)
    requires lines != [] && Starts(None, lines[0])
    ensures |EntriesIn(None, lines)| >= 1
  {
    hide EntryOf;
  }

  lemma Regrouped4<T>(a: seq<T>, b: seq<T>, c: seq<T>, d: seq<T>)
    ensures a + (b + c) + d == a + b + (c + d)
  {
  }

  /** A body that starts an entry itself makes the file's entries more than they were. */
  lemma MoreRead(p: Around, h: string, b: seq<string>)
    requires Entered(None, p)
    requires Starts(None, h) && UntilStart(None, b) < |b| && Ends(b, BareLines(p.r))
    ensures |EntriesIn(None, BareLines(p.a) + ([h] + b + BareLines(p.r)))|
          > |EntriesIn(None, BareLines(p.a))| + 1 + |EntriesIn(None, BareLines(p.r))|
  {
    hide EntryOf;
    hide EntriesIn;
    hide BareLines;
    hide Starts;
    var a, r := BareLines(p.a), BareLines(p.r);
    var n := UntilStart(None, b);
    FenceAtStart(None, b);
    var x, y := b[..n], b[n..];
    assert b == x + y;
    UntilJoined(None, x, y);
    FenceJoined(None, x, y);
    hide UntilStart;
    hide FenceAfter;
    Regrouped4([h], x, y, r);
    EntryAmong(None, a, h, x, y + r);
    EntriesBoth(y, r);
    SomeEntries(y);
  }

  /**
   * Restating gives the first entry with the id its new state and the added text, and leaves every other entry as it
   * was, exactly when the added lines fit below the entry's body; otherwise there are more entries than there were.
   * `p` is where the entry's lines are in the file.
   */
  lemma RestateReads(text: string, id: string, state: State, appended: Option<string>) returns (p: Around)
    requires ById(Entries(text), id) < |Entries(text)|
    requires var e := Entries(text)[ById(Entries(text), id)]; !e.unreadable && state in States(e.kind)
    requires appended.Some? ==> !ClosesFront(text, appended.value)
    ensures FoundAt(None, EntryLines(text), id, p)
    ensures var es := Entries(text);
            var i := ById(es, id);
            var b, cr := BareLines(p.b), Return(p.h);
            && es[i] == EntryOf(Bare(p.h), b) && es[i].date.Some? && es[i].author.Some?
            && RestateEntry(text, id, state, appended).Some?
            && var now := Entries(RestateEntry(text, id, state, appended).value);
            if AllFit(b, appended, cr)
            then now == es[i := EntryOf(FormatHeading(NewHeading(es[i], state, id)), ReadBody(b, appended, cr))]
            else |now| > |es|
  {
    hide BodyStart;
    hide FrontLeftOpen;
    hide Starts;
    hide Bare;
    hide BareLines;
    hide CloseAt;
    hide EntriesIn;
    hide EntryOf;
    hide ReadBody;
    hide NewBody;
    hide FormatHeading;
    hide GoodHeading;
    hide CleanedLines;
    hide Hides;
    hide UntilStart;
    hide FenceAfter;
    hide RestatedIn;
    hide Split;
    hide Join;
    hide Return;
    hide OneLine;
    hide Entries;
    hide Whole;
    hide BodyLines;
    hide Ends;
    var lines := Split(text);
    var bare := BareLines(lines);
    var start := BodyStart(bare);
    var rest := lines[start..];
    EntriesAt(text);
    p := FindAround(None, rest, id, state, appended);
    var line, b, cr := Bare(p.h), BareLines(p.b), Return(p.h);
    var es := Entries(text);
    var i := ById(es, id);
    assert es == EntriesIn(None, BareLines(rest));
    NewHeadingGood(line, b, state, id);
    var h := NewHeading(es[i], state, id);
    var more := p.a + ([FormatHeading(h) + cr] + NewBody(p.b, appended, cr) + p.r);
    assert RestatedIn(None, rest, id, state, appended) == Some(more);
    BareDrop(lines, start);
    assert bare == bare[..start] + bare[start..];
    EntryRead(h, []);
    BodyShape(p, appended, cr);
    FrontKept(bare[..start], p, FormatHeading(h), appended, cr);
    hide AllFit;
    if AllFit(b, appended, cr) {
      ReplacedRead(p, FormatHeading(h), ReadBody(b, appended, cr));
    } else {
      MoreRead(p, FormatHeading(h), ReadBody(b, appended, cr));
    }
    NewHeadBare(p, h, appended);
    JoinSplit(text);
    AllFrom(lines, start);
    NewLinesOneLine(p, h, appended);
    OutRead(lines, start, more);
    Swapped(es, i, EntryOf(FormatHeading(h), ReadBody(b, appended, cr)));
  }

  lemma StoredCloses(body: seq<string>, stored: seq<string>)
    requires !NeverCloses(stored)
    ensures !NeverCloses(AddedTo(body, stored))
  {
    hide CloseAt;
    hide KeepLength;
    var k := KeepLength(body);
    CloseWhole([""], stored);
    CloseWhole(body[..k], [""] + stored);
    CloseWhole(body[..k] + ([""] + stored), body[k..]);
  }

  /**
   * Front matter left open is closed by a line in the body of the first entry after it: all up to that line is front
   * matter.
   */
  lemma FrontTaken(a: seq<string>, h: string, b: seq<string>, r: seq<string>, was: seq<string>)
    requires FrontLeftOpen(a + was) && was != [] && !Closes(was[0]) && !Closes(h) && !NeverCloses(b)
    ensures BodyStart(a + ([h] + b + r)) > |a|
  {
    hide Closes;
    hide Trimmed;
    assert a != [] by {
      if a == [] {
        assert a + was == was;
        OpenCloses(was[0]);
      }
    }
    assert (a + was)[0] == a[0] && (a + ([h] + b + r))[0] == a[0];
    assert (a + was)[1..] == a[1..] + was;
    assert (a + ([h] + b + r))[1..] == a[1..] + ([h] + b + r);
    CloseWhole(a[1..], was);
    CloseWhole([h] + b, r);
    CloseWhole([h], b);
    CloseWhole(a[1..], [h] + b + r);
    CloseJoined(a[1..], [h] + b + r);
    hide CloseAt;
  }

  lemma OpenCloses(line: string)
    ensures Trimmed(line) == "---" ==> Closes(line)
  {
  }

  /**
   * And added text that closes front matter the file left open takes the entry with it: its heading is front matter
   * now.
   */
  lemma RestateTaken(text: string, id: string, state: State, appended: string) returns (at: nat)
    requires ById(Entries(text), id) < |Entries(text)|
    requires var e := Entries(text)[ById(Entries(text), id)]; !e.unreadable && state in States(e.kind)
    requires ClosesFront(text, appended)
    ensures var e := Entries(text)[ById(Entries(text), id)];
            && e.date.Some? && e.author.Some?
            && RestateEntry(text, id, state, Some(appended)).Some?
            && var lines := FileLines(RestateEntry(text, id, state, Some(appended)).value);
            at < BodyStart(lines) && lines[at] == FormatHeading(NewHeading(e, state, id))
  {
    hide BodyStart;
    hide Starts;
    hide Bare;
    hide BareLines;
    hide CloseAt;
    hide Closes;
    hide EntriesIn;
    hide EntryOf;
    hide NewBody;
    hide FormatHeading;
    hide GoodHeading;
    hide CleanedLines;
    hide UntilStart;
    hide FenceAfter;
    hide RestatedIn;
    hide Split;
    hide Join;
    hide Return;
    hide OneLine;
    hide Entries;
    hide Stored;
    hide AddedTo;
    hide Ends;
    var lines := Split(text);
    EntriesAt(text);
    OpenAtStart(BareLines(lines));
    assert lines[0..] == lines && lines[..0] == [];
    var p := FindAround(None, lines, id, state, Some(appended));
    var line, b, cr := Bare(p.h), BareLines(p.b), Return(p.h);
    NewHeadingGood(line, b, state, id);
    var h := NewHeading(Entries(text)[ById(Entries(text), id)], state, id);
    var more := p.a + ([FormatHeading(h) + cr] + NewBody(p.b, Some(appended), cr) + p.r);
    assert [] + more == more;
    JoinSplit(text);
    NewLinesOneLine(p, h, Some(appended));
    SplitJoin(more);
    NewHeadBare(p, h, Some(appended));
    WholeBare(p);
    hide Whole;
    EntryRead(h, []);
    StartNotFront(line);
    StartNotFront(FormatHeading(h));
    StoredShape(appended, cr);
    StoredCloses(b, Stored(appended, cr));
    FrontTaken(BareLines(p.a), FormatHeading(h), ReadBody(b, Some(appended), cr), BareLines(p.r),
               [line] + b + BareLines(p.r));
    at := |p.a|;
  }

  lemma OpenAtStart(lines: seq<string>)
    requires FrontLeftOpen(lines)
    ensures BodyStart(lines) == 0
  {
  }

  lemma AllFrom(lines: seq<string>, start: nat)
    requires AllOneLine(lines) && start <= |lines|
    ensures AllOneLine(lines[..start]) && AllOneLine(lines[start..])
  {
    hide OneLine;
  }

  lemma Swapped<T>(es: seq<T>, i: nat, e: T)
    requires i < |es|
    ensures es[..i] + [e] + es[i + 1..] == es[i := e]
  {
  }

  /** A file's text rewritten from where its entries start on. */
  lemma OutRead(lines: seq<string>, start: nat, more: seq<string>)
    requires start <= |lines| && AllOneLine(lines[..start]) && AllOneLine(more) && lines[..start] + more != []
    requires BodyStart(BareLines(lines)[..start] + BareLines(more)) == start
    ensures Entries(Join(lines[..start] + more)) == EntriesIn(None, BareLines(more))
  {
    hide BodyStart;
    hide BareLines;
    hide EntriesIn;
    hide OneLine;
    var all := lines[..start] + more;
    SplitJoin(all);
    hide Split;
    hide Join;
    BareJoined(lines[..start], more);
    BareTaken(lines, start);
    assert (BareLines(lines)[..start] + BareLines(more))[start..] == BareLines(more);
  }

  // What the added text reads as

  lemma TrimmedSpaces(s: string, spaces: string)
    requires Spaces(spaces)
    ensures Trimmed(s + spaces) == Trimmed(s)
  {
    TrimBackAfter(s, spaces);
    var n := TrimBack(s, |s|);
    assert (s + spaces)[..n] == s[..n];
    hide TrimBack;
  }

  /** Blank lines at the end are trimmed away. */
  lemma {:induction false} TrimmedBlank(lines: seq<string>, blank: seq<string>)
    requires forall k :: 0 <= k < |blank| ==> Trimmed(blank[k]) == ""
    ensures Trimmed(Join(lines + blank)) == Trimmed(Join(lines))
    decreases |blank|
  {
    hide Trimmed;
    hide Join;
    if blank == [] {
      assert lines + blank == lines;
    } else {
      var n := |blank| - 1;
      TrimmedBlank(lines, blank[..n]);
      BlankLine(blank[n]);
      assert lines + blank == (lines + blank[..n]) + [blank[n]];
      TrimmedLast(lines + blank[..n], blank[n]);
    }
  }

  lemma TrimmedLast(lines: seq<string>, line: string)
    requires Spaces(line)
    ensures Trimmed(Join(lines + [line])) == Trimmed(Join(lines))
  {
    if lines == [] {
      assert lines + [line] == [line];
      TrimmedSpaces("", line);
      assert "" + line == line;
    } else {
      JoinLast(lines, line);
      hide Join;
      Assoc(Join(lines), "\n", line);
      TrimmedSpaces(Join(lines), "\n" + line);
    }
  }

  /** Whether a fence seems open after some lines to a reader that takes every fence line for the other kind. */
  function Toggled(fenced: bool, lines: seq<string>): bool
    decreases |lines|
  {
    if lines == [] then fenced else Toggled(if FenceOf(lines[0]).Some? then !fenced else fenced, lines[1..])
  }

  lemma {:induction false} AnswerJoined(fenced: bool, a: seq<string>, b: seq<string>)
    ensures AnswerAt(fenced, a) < |a| ==> AnswerAt(fenced, a + b) == AnswerAt(fenced, a)
    ensures AnswerAt(fenced, a) == |a| ==> AnswerAt(fenced, a + b) == |a| + AnswerAt(Toggled(fenced, a), b)
    decreases |a|
  {
    hide AnswerText;
    hide FenceOf;
    if a == [] {
      assert a + b == b;
    } else {
      assert (a + b)[1..] == a[1..] + b;
      AnswerJoined(if FenceOf(a[0]).Some? then !fenced else fenced, a[1..], b);
    }
  }

  lemma {:induction false} BlankToggles(fenced: bool, blank: seq<string>)
    requires forall k :: 0 <= k < |blank| ==> Trimmed(blank[k]) == ""
    ensures Toggled(fenced, blank) == fenced && AnswerAt(fenced, blank) == |blank|
    decreases |blank|
  {
    hide Trimmed;
    if blank != [] {
      BlankLine(blank[0]);
      hide AnswerText;
      hide FenceOf;
      BlankToggles(fenced, blank[1..]);
    }
  }

  lemma {:induction false} ToggledJoined(fenced: bool, a: seq<string>, b: seq<string>)
    ensures Toggled(fenced, a + b) == Toggled(Toggled(fenced, a), b)
    decreases |a|
  {
    hide FenceOf;
    if a == [] {
      assert a + b == b;
    } else {
      assert (a + b)[1..] == a[1..] + b;
      ToggledJoined(if FenceOf(a[0]).Some? then !fenced else fenced, a[1..], b);
    }
  }

  /** An `Answer:` line starts with a letter, so it is no fence line. */
  lemma AnswerIsPlain(line: string)
    requires AnswerText(line).Some?
    ensures FenceOf(line).None? && line != "" && line[0] == 'A' && !IsSpace(line[0])
  {
    assert line[0] == "Answer:"[0];
    assert SpaceLength(line) == 0 && line[0..] == line;
    assert line[0] == 'A';
  }

  /** A body without an answer, up to its last line that is not blank, and the blank lines after that. */
  lemma NoAnswerKept(b: seq<string>)
    requires AnswerAt(false, b) == |b|
    ensures var kept := b[..KeepLength(b)];
            AnswerAt(false, kept) == |kept| && Toggled(false, kept) == Toggled(false, b)
  {
    hide Trimmed;
    hide KeepLength;
    hide AnswerText;
    hide FenceOf;
    hide AnswerAt;
    hide Toggled;
    var k := KeepLength(b);
    assert b == b[..k] + b[k..];
    AnswerJoined(false, b[..k], b[k..]);
    ToggledJoined(false, b[..k], b[k..]);
    BlankToggles(Toggled(false, b[..k]), b[k..]);
  }

  lemma AddedGrouped(b: seq<string>, stored: seq<string>)
    ensures var k := KeepLength(b); AddedTo(b, stored) == b[..k] + ([""] + (stored + b[k..]))
  {
    hide KeepLength;
  }

  /** Where the reader finds the answer in a body without one, once the added lines start with it. */
  lemma AnswerPlace(b: seq<string>, stored: seq<string>)
    requires AnswerAt(false, b) == |b| && stored != [] && AnswerText(stored[0]).Some?
    ensures var n := AnswerAt(false, AddedTo(b, stored));
            n >= KeepLength(b) + 1 && (n == KeepLength(b) + 1 <==> !Toggled(false, b))
  {
    hide Trimmed;
    hide KeepLength;
    hide AnswerText;
    hide FenceOf;
    hide AddedTo;
    hide AnswerAt;
    hide Toggled;
    var k := KeepLength(b);
    var tail := stored + b[k..];
    assert tail[0] == stored[0];
    EmptyTrimmed();
    AnswerIsPlain(stored[0]);
    NoAnswerKept(b);
    AddedGrouped(b, stored);
    var fenced := Toggled(false, b);
    BlankToggles(fenced, [""]);
    AnswerJoined(false, b[..k], [""] + tail);
    AnswerJoined(fenced, [""], tail);
    FirstAnswer(fenced, tail);
  }

  lemma FirstAnswer(fenced: bool, lines: seq<string>)
    requires lines != [] && AnswerText(lines[0]).Some? && FenceOf(lines[0]).None?
    ensures AnswerAt(fenced, lines) == 0 <==> !fenced
  {
    hide AnswerText;
    hide FenceOf;
  }

  /** More text after what is trimmed away at the end makes the trimmed text longer. */
  lemma LongerTrimmed(s: string, t: string)
    requires t != "" && !IsSpace(t[0])
    ensures |Trimmed(s + t)| > |Trimmed(s)|
  {
    var w := s + t;
    assert w[|s|] == t[0];
    ShorterFrom(w, |s|, |w|);
    var n, m := TrimBack(s, |s|), TrimBack(w, |w|);
    assert n <= |s| < m;
    assert w[..m] == s[..n] + w[n..m];
    LongerSpace(s[..n], w[n..m]);
    hide TrimBack;
    if SpaceLength(s[..n]) == n {
      assert SpaceLength(w[..m]) <= |s| by {
        SpaceStopsAt(w[..m], |s|);
      }
    }
  }

  lemma {:induction false} SpaceStopsAt(s: string, n: nat)
    requires n < |s| && !IsSpace(s[n])
    ensures SpaceLength(s) <= n
  {
    if n > 0 && IsSpace(s[0]) {
      SpaceStopsAt(s[1..], n - 1);
    }
  }

  lemma {:induction false} LongerSpace(a: string, b: string)
    ensures SpaceLength(a) < |a| ==> SpaceLength(a + b) == SpaceLength(a)
  {
    if a != "" {
      assert (a + b)[1..] == a[1..] + b;
      LongerSpace(a[1..], b);
    }
  }

  lemma {:induction false} JoinTwo(a: seq<string>, b: seq<string>)
    requires a != [] && b != []
    ensures Join(a + b) == Join(a) + "\n" + Join(b)
  {
    assert (a + b)[1..] == a[1..] + b;
    if |a| == 1 {
      assert a[1..] + b == b;
    } else {
      JoinTwo(a[1..], b);
      Glue(a[0], Join(a[1..]), Join(b));
    }
  }

  lemma JoinFirst(lines: seq<string>)
    requires lines != [] && lines[0] != ""
    ensures Join(lines) != "" && Join(lines)[0] == lines[0][0]
  {
  }

  lemma SaidBefore(b: seq<string>, stored: seq<string>)
    ensures var k, all := KeepLength(b), AddedTo(b, stored);
            Trimmed(Join(all[..k + 1])) == Trimmed(Join(b))
  {
    hide Trimmed;
    hide Join;
    var k := KeepLength(b);
    TrimmedBlank(b[..k], b[k..]);
    EmptyTrimmed();
    TrimmedBlank(b[..k], [""]);
    assert b == b[..k] + b[k..];
    assert AddedTo(b, stored)[..k + 1] == b[..k] + [""];
    hide KeepLength;
  }

  lemma AddedHere(b: seq<string>, stored: seq<string>)
    requires stored != []
    ensures var k, all := KeepLength(b), AddedTo(b, stored);
            k + 1 < |all| && all[k + 1] == stored[0]
  {
    hide KeepLength;
  }

  lemma AddedAfter(b: seq<string>, stored: seq<string>)
    requires stored != []
    ensures var k, all := KeepLength(b), AddedTo(b, stored);
            k + 2 <= |all| && all[k + 2..] == stored[1..] + b[k..]
  {
    hide KeepLength;
  }

  lemma AnswerRest(b: seq<string>, stored: seq<string>, first: string)
    requires stored != []
    ensures var k, all := KeepLength(b), AddedTo(b, stored);
            k + 2 <= |all| && Trimmed(Join([first] + all[k + 2..])) == Trimmed(Join([first] + stored[1..]))
  {
    hide KeepLength;
    hide Trimmed;
    hide Join;
    hide AddedTo;
    AddedAfter(b, stored);
    var k := KeepLength(b);
    Regroup3([first], stored[1..], b[k..]);
    TrimmedBlank([first] + stored[1..], b[k..]);
  }

  lemma SaidLater(all: seq<string>, k: nat, n: nat)
    requires k + 1 < n <= |all| && all[k + 1] != "" && !IsSpace(all[k + 1][0])
    ensures |Trimmed(Join(all[..n]))| > |Trimmed(Join(all[..k + 1]))|
  {
    hide Trimmed;
    hide Join;
    var a, b := all[..k + 1], all[k + 1..n];
    assert all[..n] == a + b;
    JoinTwo(a, b);
    JoinFirst(b);
    TrimmedSpaces(Join(a), "\n");
    LongerTrimmed(Join(a) + "\n", Join(b));
  }

  lemma AnsweredHere(all: seq<string>, n: nat)
    requires n < |all| && AnswerAt(false, all) == n
    ensures SplitAnswer(all)
        == (Trimmed(Join(all[..n])), Some(Trimmed(Join([AnswerText(all[n]).value] + all[n + 1..]))))
  {
    hide AnswerAt;
    hide Trimmed;
    hide Join;
    hide AnswerText;
  }

  lemma Unanswered(b: seq<string>)
    requires AnswerAt(false, b) == |b|
    ensures SplitAnswer(b) == (Trimmed(Join(b)), None)
  {
    hide AnswerAt;
    hide Trimmed;
    hide Join;
    hide AnswerText;
  }

  lemma AnswerSaid(b: seq<string>, stored: seq<string>)
    requires stored != [] && AnswerText(stored[0]).Some? && AnswerAt(false, AddedTo(b, stored)) == KeepLength(b) + 1
    ensures SplitAnswer(AddedTo(b, stored))
         == (Trimmed(Join(b)), Some(Trimmed(Join([AnswerText(stored[0]).value] + stored[1..]))))
  {
    hide Trimmed;
    hide Join;
    hide KeepLength;
    hide AnswerText;
    hide AddedTo;
    hide AnswerAt;
    hide SplitAnswer;
    SaidBefore(b, stored);
    AddedHere(b, stored);
    AnsweredHere(AddedTo(b, stored), KeepLength(b) + 1);
    AnswerRest(b, stored, AnswerText(stored[0]).value);
  }

  lemma AnswerNotSaid(b: seq<string>, stored: seq<string>)
    requires stored != [] && AnswerText(stored[0]).Some? && AnswerAt(false, AddedTo(b, stored)) > KeepLength(b) + 1
    ensures SplitAnswer(AddedTo(b, stored)).1.None? || SplitAnswer(AddedTo(b, stored)).0 != Trimmed(Join(b))
  {
    hide Trimmed;
    hide Join;
    hide KeepLength;
    hide AnswerText;
    hide AddedTo;
    hide AnswerAt;
    hide FenceOf;
    hide SplitAnswer;
    SaidBefore(b, stored);
    AddedHere(b, stored);
    AnswerIsPlain(stored[0]);
    hide IsSpace;
    var all := AddedTo(b, stored);
    var n := AnswerAt(false, all);
    if n < |all| {
      AnsweredHere(all, n);
      SaidLater(all, KeepLength(b), n);
    } else {
      Unanswered(all);
    }
  }

  /**
   * Added below a question without an answer, an `Answer:` line is read as the answer exactly when fence lines pair
   * up above it.
   */
  lemma AnswerReadsBack(b: seq<string>, stored: seq<string>)
    requires AnswerAt(false, b) == |b| && stored != [] && AnswerText(stored[0]).Some?
    ensures SplitAnswer(AddedTo(b, stored))
            == (SplitAnswer(b).0, Some(Trimmed(Join([AnswerText(stored[0]).value] + stored[1..]))))
       <==> !Toggled(false, b)
  {
    hide Trimmed;
    hide Join;
    hide KeepLength;
    hide AnswerText;
    hide AddedTo;
    hide AnswerAt;
    hide Toggled;
    hide FenceOf;
    hide SplitAnswer;
    AnswerPlace(b, stored);
    Unanswered(b);
    if AnswerAt(false, AddedTo(b, stored)) == KeepLength(b) + 1 {
      AnswerSaid(b, stored);
    } else {
      AnswerNotSaid(b, stored);
    }
  }

  /** What a question says once it is restated as answered, its own body as it was. */
  function AnsweredAs(e: Entry, id: string, answer: string): Entry
    requires e.date.Some? && e.author.Some?
  {
    e.(state := Some(Answered), heading := HeadingBody(NewHeading(e, Answered, id)), answer := Some(answer))
  }

  /** A question's entry with another body is the answered one exactly when the two parts of the body read so. */
  lemma QuestionWith(line: string, b: seq<string>, id: string, body: seq<string>, answer: string)
    requires Starts(None, line)
    requires var e := EntryOf(line, b); e.kind == Question && e.id == Some(id)
    ensures var e := EntryOf(line, b);
            && e.date.Some? && e.author.Some? && e.body == SplitAnswer(b).0 && e.answer == SplitAnswer(b).1
            && (EntryOf(FormatHeading(NewHeading(e, Answered, id)), body) == AnsweredAs(e, id, answer)
                <==> SplitAnswer(body) == (e.body, Some(answer)))
  {
    NewHeadingGood(line, b, Answered, id);
    var e := EntryOf(line, b);
    EntryRead(NewHeading(e, Answered, id), body);
    hide HeadingText;
    hide Trimmed;
    hide ParseHeading;
    hide SplitAnswer;
    hide FormatHeading;
    hide HeadingBody;
    hide GoodHeading;
    hide Supersedes;
    hide Starts;
  }

  /**
   * Restating a question of a file with an `Answer:` line gives that question its answer, its body and every other
   * entry as they were, exactly when the added lines fit below its body and fence lines pair up in it.
   */
  lemma AnswerRestated(text: string, id: string, appended: string) returns (p: Around)
    requires ById(Entries(text), id) < |Entries(text)|
    requires var e := Entries(text)[ById(Entries(text), id)]; e.kind == Question && e.answer.None?
    requires !ClosesFront(text, appended)
    ensures FoundAt(None, EntryLines(text), id, p)
    ensures var es := Entries(text);
            var i := ById(es, id);
            var b, stored := BareLines(p.b), Stored(appended, Return(p.h));
            && es[i] == EntryOf(Bare(p.h), b) && es[i].date.Some? && es[i].author.Some?
            && RestateEntry(text, id, Answered, Some(appended)).Some?
            && (AnswerText(stored[0]).Some? ==>
                (Entries(RestateEntry(text, id, Answered, Some(appended)).value)
                 == es[i := AnsweredAs(es[i], id, Trimmed(Join([AnswerText(stored[0]).value] + stored[1..])))]
                 <==> Fits(b, stored) && !Toggled(false, b)))
  {
    hide Entries;
    hide EntryOf;
    hide FormatHeading;
    hide HeadingBody;
    hide Stored;
    hide AddedTo;
    hide SplitAnswer;
    hide Trimmed;
    hide Join;
    hide AnswerText;
    hide Toggled;
    hide Fits;
    hide ClosesFront;
    hide EntryLines;
    hide Starts;
    hide Bare;
    hide BareLines;
    hide Return;
    hide RestateEntry;
    QuestionReadable(text, id);
    p := RestateReads(text, id, Answered, Some(appended));
    var es, i := Entries(text), ById(Entries(text), id);
    var b, stored := BareLines(p.b), Stored(appended, Return(p.h));
    if AnswerText(stored[0]).Some? {
      var answer := Trimmed(Join([AnswerText(stored[0]).value] + stored[1..]));
      QuestionWith(Bare(p.h), b, id, AddedTo(b, stored), answer);
      UnansweredAt(b);
      AnswerReadsBack(b, stored);
      hide FoundAt;
      hide AnsweredAs;
      SwapSame(es, i, EntryOf(FormatHeading(NewHeading(es[i], Answered, id)), AddedTo(b, stored)),
        AnsweredAs(es[i], id, answer));
    }
  }

  lemma UnansweredAt(b: seq<string>)
    requires SplitAnswer(b).1.None?
    ensures AnswerAt(false, b) == |b|
  {
    hide AnswerAt;
    hide Trimmed;
    hide Join;
    hide AnswerText;
  }

  lemma QuestionReadable(text: string, id: string)
    requires ById(Entries(text), id) < |Entries(text)| && Entries(text)[ById(Entries(text), id)].kind == Question
    ensures !Entries(text)[ById(Entries(text), id)].unreadable
  {
    var lines := BareLines(Split(text));
    hide BareLines;
    hide Split;
    hide BodyStart;
    var i := ById(Entries(text), id);
    QuestionsReadable(None, lines[BodyStart(lines)..], i);
  }

  lemma {:induction false} QuestionsReadable(fence: Option<char>, lines: seq<string>, i: nat)
    requires i < |EntriesIn(fence, lines)| && EntriesIn(fence, lines)[i].kind == Question
    ensures !EntriesIn(fence, lines)[i].unreadable
    decreases |lines|
  {
    hide UntilStart;
    hide EntryOf;
    hide EntriesIn;
    hide BlocksIn;
    var n := UntilStart(fence, lines);
    if n == |lines| {
      NoneStart(fence, lines, 0);
      assert false;
    } else {
      EntriesCons(fence, lines);
      var rest := lines[n + 1..];
      var k := UntilStart(None, rest);
      QuestionIsReadable(lines[n], rest[..k]);
      if i > 0 {
        assert EntriesIn(fence, lines)[i] == EntriesIn(None, rest)[i - 1];
        QuestionsReadable(None, rest, i - 1);
      }
    }
  }

  lemma QuestionIsReadable(line: string, b: seq<string>)
    ensures EntryOf(line, b).kind == Question ==> !EntryOf(line, b).unreadable
  {
    hide ParseHeading;
    hide SplitAnswer;
    hide Trimmed;
  }

  lemma SwapSame<T>(es: seq<T>, i: nat, x: T, y: T)
    requires i < |es|
    ensures es[i := x] == es[i := y] <==> x == y
  {
    assert es[i := x][i] == x && es[i := y][i] == y;
  }

  lemma YesRead()
    ensures AnswerText("Answer: yes") == Some("yes") && Trimmed(Join(["yes"] + ["Answer: yes"][1..])) == "yes"
  {
    var line := "Answer: yes";
    assert line[7..] == " yes" && " yes"[1..] == "yes";
    assert SpaceLength("yes") == 0 && SpaceLength(" yes") == 1;
    assert ["yes"] + [line][1..] == ["yes"];
    TrimmedWhole("yes");
    hide Trimmed;
    assert Join(["yes"]) == "yes";
  }

  lemma OddFences()
    ensures var b := ["```", "~~~", "```"];
            FenceAfter(None, b) == None && AnswerAt(false, b) == |b| && Toggled(false, b)
  {
    var b := ["```", "~~~", "```"];
    FenceCloses('`');
    FenceCloses('~');
    assert ['`', '`', '`'] == "```" && ['~', '~', '~'] == "~~~";
    assert AnswerText("```").None? && AnswerText("~~~").None?;
    hide FenceOf;
    hide AnswerText;
    assert b[1..] == ["~~~", "```"] && ["~~~", "```"][1..] == ["```"] && ["```"][1..] == [];
    assert FenceAfter(Some('`'), ["```"]) == None && Toggled(false, ["```"]) && AnswerAt(false, ["```"]) == 1;
    assert FenceAfter(Some('`'), ["~~~", "```"]) == None && Toggled(true, ["~~~", "```"]);
    assert AnswerAt(true, ["~~~", "```"]) == 2;
  }

  /** A question whose body shows a tilde fence inside a backtick fence: its answer is not read back. */
  lemma AnswerLost()
    ensures var b := ["```", "~~~", "```"];
            && FenceAfter(None, b) == None && AnswerAt(false, b) == |b|
            && SplitAnswer(AddedTo(b, ["Answer: yes"])) != (SplitAnswer(b).0, Some("yes"))
  {
    hide SplitAnswer;
    hide AddedTo;
    hide Toggled;
    hide AnswerAt;
    hide FenceAfter;
    hide AnswerText;
    hide Trimmed;
    hide Join;
    OddFences();
    YesRead();
    AnswerReadsBack(["```", "~~~", "```"], ["Answer: yes"]);
  }

  /** Below any other body the added text comes after it, with only whitespace between. */
  lemma BelowBody(b: seq<string>, stored: seq<string>) returns (gap: string)
    requires stored != [] && Join(stored) != "" && Trimmed(Join(stored)) == Join(stored)
    ensures Spaces(gap) && Trimmed(Join(AddedTo(b, stored))) == Trimmed(Join(b)) + gap + Join(stored)
  {
    var k := KeepLength(b);
    var c := Join(stored);
    TrimmedEnds(c);
    assert !IsSpace(c[0]) && !IsSpace(c[|c| - 1]);
    AddedGrouped(b, stored);
    var all := b[..k] + ([""] + stored);
    assert b[..k] + ([""] + (stored + b[k..])) == all + b[k..];
    assert b == b[..k] + b[k..];
    hide Trimmed;
    hide Join;
    hide KeepLength;
    hide AddedTo;
    TrimmedBlank(all, b[k..]);
    TrimmedBlank(b[..k], b[k..]);
    JoinTwo([""], stored);
    assert Join([""]) == "" by { JoinNone(); }
    assert "" + "\n" + c == "\n" + c;
    if k == 0 {
      gap := "";
      assert all == [""] + stored && b[..k] == [];
      TrimmedPadded("\n", c, "");
      assert "\n" + c + "" == "\n" + c;
      assert Trimmed(Join(b)) == "" by {
        JoinNone();
        EmptyTrimmed();
      }
      assert "" + "" + c == c;
    } else {
      JoinTwo(b[..k], [""] + stored);
      gap := BelowText(Join(b[..k]), c);
    }
  }

  lemma JoinNone()
    ensures Join([]) == "" && Join([""]) == ""
  {
  }

  lemma TrimmedParts(s: string) returns (before: string, after: string)
    ensures s == before + Trimmed(s) + after && Spaces(before) && Spaces(after)
  {
    var n := TrimBack(s, |s|);
    var t := s[..n];
    var m := SpaceLength(t);
    before, after := t[..m], s[n..];
    TrimBackTail(s, |s|);
    assert t == before + t[m..] && s == t + after;
    assert s[n..|s|] == after;
    hide TrimBack;
    hide SpaceLength;
  }

  lemma {:induction false} TrimBackTail(s: string, n: nat)
    requires n <= |s|
    ensures Spaces(s[TrimBack(s, n)..n])
  {
    if n > 0 && IsSpace(s[n - 1]) {
      TrimBackTail(s, n - 1);
      var k := TrimBack(s, n - 1);
      assert s[k..n] == s[k..n - 1] + [s[n - 1]];
    }
  }

  lemma BelowText(s: string, c: string) returns (gap: string)
    requires c != "" && !IsSpace(c[0]) && !IsSpace(c[|c| - 1])
    ensures Spaces(gap) && Trimmed(s + "\n" + ("\n" + c)) == Trimmed(s) + gap + c
  {
    var t := Trimmed(s);
    TrimmedEnds(s);
    hide Trimmed;
    var before, after := TrimmedParts(s);
    var nl := "\n" + "\n";
    assert s + "\n" + ("\n" + c) == s + (nl + c) by {
      Assoc(s, "\n", "\n" + c);
      Assoc("\n", "\n", c);
    }
    if t == "" {
      gap := "";
      assert before + t + after == before + after;
      Assoc(before + after, nl, c);
      TrimmedPadded(before + after + nl, c, "");
      assert before + after + nl + c + "" == before + after + nl + c;
      assert t + gap + c == c;
    } else {
      gap := after + nl;
      var w := t + gap + c;
      Assoc(before + t, after, nl + c);
      Assoc(after, nl, c);
      Assoc(before, t, gap + c);
      Assoc(t, gap, c);
      assert s + (nl + c) == before + w;
      assert w[0] == t[0] && w[|w| - 1] == c[|c| - 1];
      TrimmedPadded(before, w, "");
      assert before + w + "" == before + w;
    }
  }

  // The loops

  /** What is left to do once the entries before `at` are passed over. */
  function RestateFrom(lines: seq<string>, at: nat, id: string, state: State, appended: Option<string>): Option<string>
    requires at <= |lines|
  {
    var more :- RestatedIn(None, lines[at..], id, state, appended);
    Some(Join(lines[..at] + more))
  }

  lemma PassedOver(lines: seq<string>, at: nat, id: string, state: State, appended: Option<string>)
    requires at <= |lines| && UntilStart(None, BareLines(lines[at..])) < |lines| - at
    requires var n := UntilStart(None, BareLines(lines[at..]));
             EntryAt(lines[at + n], lines[at + n + 1..]).id != Some(id)
    ensures var n := UntilStart(None, BareLines(lines[at..]));
            RestateFrom(lines, at, id, state, appended) == RestateFrom(lines, at + n + 1, id, state, appended)
  {
    hide UntilStart;
    hide BareLines;
    hide EntryAt;
    hide Join;
    hide NewBody;
    hide FormatHeading;
    hide Return;
    var n := UntilStart(None, BareLines(lines[at..]));
    var rest := lines[at..];
    assert rest[n + 1..] == lines[at + n + 1..] && rest[n] == lines[at + n];
    var inner := RestatedIn(None, lines[at + n + 1..], id, state, appended);
    assert RestatedIn(None, rest, id, state, appended) == if inner.None? then None
        else Some(rest[..n + 1] + inner.value);
    hide RestatedIn;
    if inner.Some? {
      Regroup3(lines[..at], rest[..n + 1], inner.value);
      assert lines[..at] + rest[..n + 1] == lines[..at + n + 1];
    }
  }

  lemma NothingLeft(lines: seq<string>, at: nat, id: string, state: State, appended: Option<string>)
    requires ToVisit([], lines, at)
    ensures RestateFrom(lines, at, id, state, appended).None?
  {
    var bare := BareLines(lines[at..]);
    hide EntryAt;
    if UntilStart(None, bare) < |bare| {
      BlocksCons(None, bare, at);
    }
  }

  lemma RestatedHere(lines: seq<string>, at: nat, n: nat, k: nat, id: string, state: State, appended: Option<string>)
    requires at + n < |lines| && n == UntilStart(None, BareLines(lines[at..]))
    requires at + n + 1 + k <= |lines| && k == UntilStart(None, BareLines(lines[at + n + 1..]))
    requires EntryAt(lines[at + n], lines[at + n + 1..]).id == Some(id)
    ensures var e := EntryAt(lines[at + n], lines[at + n + 1..]);
            var cr := Return(lines[at + n]);
            && (!e.unreadable ==> e.date.Some? && e.author.Some?)
            && RestateFrom(lines, at, id, state, appended)
               == if e.unreadable then None
                  else Some(Join(lines[..at + n] + ([FormatHeading(NewHeading(e, state, id)) + cr]
                                                    + NewBody(lines[at + n + 1..at + n + 1 + k], appended, cr)
                                                    + lines[at + n + 1 + k..])))
  {
    hide UntilStart;
    hide BareLines;
    hide Join;
    hide NewBody;
    hide FormatHeading;
    hide Return;
    hide EntryOf;
    hide Bare;
    var rest := lines[at..];
    var more := lines[at + n + 1..];
    assert rest[n + 1..] == more && rest[n] == lines[at + n];
    ReadableDated(Bare(lines[at + n]), BareLines(more)[..k]);
    assert more[..k] == lines[at + n + 1..at + n + 1 + k] && more[k..] == lines[at + n + 1 + k..];
    var e := EntryAt(lines[at + n], more);
    if !e.unreadable {
      var cr := Return(lines[at + n]);
      var tail := [FormatHeading(NewHeading(e, state, id)) + cr] + NewBody(more[..k], appended, cr) + more[k..];
      assert RestatedIn(None, rest, id, state, appended) == Some(rest[..n] + tail);
      Regroup3(lines[..at], rest[..n], tail);
      assert lines[..at] + rest[..n] == lines[..at + n];
    }
  }

  /** The last line of a block that is not blank, the heading's own if there is no other. */
  method LastKept(lines: seq<string>, block: Block) returns (last: nat)
    requires block.headingLine < block.end <= |lines|
    ensures last == block.headingLine + KeepLength(BareLines(lines[block.headingLine + 1..block.end]))
  {
    hide Trimmed;
    hide Bare;
    hide BareLines;
    hide KeepLength;
    last := block.end - 1;
    ghost var first := block.headingLine + 1;
    while last > block.headingLine && Trimmed(Bare(lines[last])) == ""
      invariant block.headingLine <= last < block.end
      invariant KeepLength(BareLines(lines[first..last + 1])) == KeepLength(BareLines(lines[first..block.end]))
    {
      KeepShorter(lines, first, last);
      last := last - 1;
    }
    KeepWhole(lines, first, last);
  }

  lemma KeepShorter(lines: seq<string>, first: nat, last: nat)
    requires first <= last < |lines| && Trimmed(Bare(lines[last])) == ""
    ensures KeepLength(BareLines(lines[first..last + 1])) == KeepLength(BareLines(lines[first..last]))
  {
    hide Trimmed;
    hide Bare;
    hide BareLines;
    var body := lines[first..last + 1];
    assert body[..last - first] == lines[first..last];
    BareTaken(body, last - first);
    assert BareLines(body)[last - first] == Bare(lines[last]);
  }

  lemma KeepWhole(lines: seq<string>, first: nat, last: nat)
    requires first <= last + 1 <= |lines| && (first <= last ==> Trimmed(Bare(lines[last])) != "")
    ensures KeepLength(BareLines(lines[first..last + 1])) == last + 1 - first
  {
    hide Trimmed;
    hide Bare;
    hide BareLines;
    var body := lines[first..last + 1];
    if first <= last {
      assert BareLines(body)[last - first] == Bare(lines[last]);
    }
  }

  method NewBodyLoop(lines: seq<string>, block: Block, appended: Option<string>, cr: string) returns (body: seq<string>)
    requires block.headingLine < block.end <= |lines|
    ensures body == NewBody(lines[block.headingLine + 1..block.end], appended, cr)
  {
    hide BareLines;
    hide KeepLength;
    hide CleanedLines;
    hide Returned;
    if appended.None? {
      return lines[block.headingLine + 1..block.end];
    }
    var last := LastKept(lines, block);
    var added := Returned([""] + CleanedLines(appended.value), cr);
    NewBodyLines(lines, block.headingLine + 1, last + 1, block.end, appended.value, cr);
    return lines[block.headingLine + 1..last + 1] + added + lines[last + 1..block.end];
  }

  method RestateLoop(text: string, id: string, state: State, appended: Option<string>) returns (r: Option<string>)
    ensures r == RestateEntry(text, id, state, appended)
  {
    hide EntryOf;
    hide UntilStart;
    hide BlocksIn;
    hide Bare;
    hide BareLines;
    hide EntryAt;
    hide Split;
    hide Join;
    hide RestateFrom;
    hide FormatHeading;
    hide NewBody;
    hide Return;
    var lines := Split(text);
    var blocks := BlocksLoop(BareLines(lines));
    ghost var at: nat := BodyStart(BareLines(lines));
    BareDrop(lines, at);
    assert RestateEntry(text, id, state, appended)
        == RestateFrom(lines, at, id, state, appended) by { FromStart(text, id, state, appended); }
    var i := 0;
    while i < |blocks|
      invariant 0 <= i <= |blocks| && at <= |lines| && ToVisit(blocks[i..], lines, at)
      invariant RestateEntry(text, id, state, appended) == RestateFrom(lines, at, id, state, appended)
    {
      VisitNext(blocks[i..], lines, at);
      var b := blocks[i];
      assert b == blocks[i..][0] && blocks[i..][1..] == blocks[i + 1..];
      var entry := EntryOf(Bare(lines[b.headingLine]), BareLines(lines[b.headingLine + 1..b.end]));
      ghost var n := UntilStart(None, BareLines(lines[at..]));
      if entry.id == Some(id) {
        BlockEnds(blocks[i..], lines, at);
        RestatedHere(lines, at, n, b.end - b.headingLine - 1, id, state, appended);
        if entry.unreadable {
          return None;
        }
        var cr := Return(lines[b.headingLine]);
        var heading := FormatHeading(NewHeading(entry, state, id)) + cr;
        var body := NewBodyLoop(lines, b, appended, cr);
        return Some(Join(lines[..b.headingLine] + ([heading] + body + lines[b.end..])));
      }
      PassedOver(lines, at, id, state, appended);
      at := b.headingLine + 1;
      i := i + 1;
    }
    assert blocks[|blocks|..] == [];
    NothingLeft(lines, at, id, state, appended);
    return None;
  }

  lemma FromStart(text: string, id: string, state: State, appended: Option<string>)
    ensures var lines := Split(text);
            RestateEntry(text, id, state, appended)
              == RestateFrom(lines, BodyStart(BareLines(lines)), id, state, appended)
  {
    hide Split;
    hide Join;
    hide RestatedIn;
    hide BodyStart;
  }

  lemma BlockEnds(blocks: seq<Block>, lines: seq<string>, at: nat)
    requires ToVisit(blocks, lines, at) && blocks != []
    ensures var n := UntilStart(None, BareLines(lines[at..]));
            && n < |lines| - at
            && blocks[0] == Block(at + n, at + n + 1 + UntilStart(None, BareLines(lines[at + n + 1..])))
  {
    hide UntilStart;
    hide BlocksIn;
    hide BareLines;
    hide Bare;
    var rest := lines[at..];
    var bare := BareLines(rest);
    var n := UntilStart(None, bare);
    if n == |bare| {
      NoneStart(None, bare, at);
    } else {
      BlocksCons(None, bare, at);
      BareDrop(rest, n + 1);
      assert rest[n + 1..] == lines[at + n + 1..];
    }
  }

  lemma NewBodyLines(lines: seq<string>, first: nat, last: nat, end: nat, appended: string, cr: string)
    requires first <= last <= end <= |lines| && last - first == KeepLength(BareLines(lines[first..end]))
    ensures NewBody(lines[first..end], Some(appended), cr)
         == lines[first..last] + Returned([""] + CleanedLines(appended), cr) + lines[last..end]
  {
    hide KeepLength;
    hide BareLines;
    hide Returned;
    hide CleanedLines;
    var body := lines[first..end];
    assert body[..last - first] == lines[first..last] && body[last - first..] == lines[last..end];
  }
}
