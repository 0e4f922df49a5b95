// Discussion files as `src/discussions/parse.ts` reads them: fences, headings and entries.
module DiscussionText {
  import opened Options
  import opened Space
  import opened Text

  datatype Kind = Note | Idea | Question | Decision

  datatype State = Open | Accepted | Parked | Dropped | Answered

  /** What a heading says. */
  datatype Heading = Heading(kind: Kind, state: Option<State>, date: string, author: string, id: Option<string>)

  /** One entry of a discussion; a heading that cannot be read makes a note with neither date nor author. */
  datatype Entry = Entry(kind: Kind, state: Option<State>, date: Option<string>, author: Option<string>,
                         id: Option<string>, heading: string, body: string, answer: Option<string>,
                         supersedes: seq<string>, unreadable: bool)

  function States(kind: Kind): set<State> {
    match kind
    case Note => {}
    case Idea => {Open, Accepted, Parked, Dropped}
    case Question => {Open, Answered}
    case Decision => {}
  }

  // Lines

  function BareLines(lines: seq<string>): (r: seq<string>)
    ensures |r| == |lines|
    ensures forall k :: 0 <= k < |lines| ==> r[k] == Bare(lines[k])
  {
    if lines == [] then [] else [Bare(lines[0])] + BareLines(lines[1..])
  }

  /** What `.` does not match. */
  predicate IsTerminator(c: char) {
    c == '\n' || c == '\r' || c == '\U{2028}' || c == '\U{2029}'
  }

  predicate Unbroken(s: string) {
    forall k :: 0 <= k < |s| ==> !IsTerminator(s[k])
  }

  function TabLength(s: string): (n: nat)
    ensures n <= |s|
  {
    if s == "" || (s[0] != ' ' && s[0] != '\t') then 0 else 1 + TabLength(s[1..])
  }

  /** The text of a heading line: two hashes, alone or followed by blanks and the text. */
  function HeadingText(line: string): Option<string> {
    if !("##" <= line) then None
    else if |line| == 2 then Some("")
    else
      var n := TabLength(line[2..]);
      if n > 0 && Unbroken(line[2 + n..]) then Some(line[2 + n..]) else None
  }

  /** The character of the fence a line opens or closes. */
  function FenceOf(line: string): Option<char> {
    var rest := line[SpaceLength(line)..];
    if "```" <= rest then Some('`') else if "~~~" <= rest then Some('~') else None
  }

  /** Whether a fence is open, and of which character, after a line. */
  function NextFence(fence: Option<char>, line: string): Option<char> {
    var mark := FenceOf(line);
    if mark.None? then fence
    else if fence.None? then mark
    else if mark == fence then None
    else fence
  }

  function FenceAfter(fence: Option<char>, lines: seq<string>): Option<char>
    decreases |lines|
  {
    if lines == [] then fence else FenceAfter(NextFence(fence, lines[0]), lines[1..])
  }

  /** A line that starts an entry: a heading outside every fence. */
  predicate Starts(fence: Option<char>, line: string) {
    fence.None? && FenceOf(line).None? && HeadingText(line).Some?
  }

  /** How many lines there are before the next one that starts an entry. */
  function UntilStart(fence: Option<char>, lines: seq<string>): (n: nat)
    ensures n <= |lines|
    decreases |lines|
  {
    if lines == [] || Starts(fence, lines[0]) then 0 else 1 + UntilStart(NextFence(fence, lines[0]), lines[1..])
  }

  // Headings

  function LowerChar(c: char): char {
    if 'A' <= c <= 'Z' then (c as int + 32) as char else if c == '\U{212A}' then 'k' else c
  }

  /** Lower case, as far as it can make an ASCII word. */
  function Lower(s: string): (r: string)
    ensures |r| == |s|
  {
    if s == "" then "" else [LowerChar(s[0])] + Lower(s[1..])
  }

  function KindOf(word: string): Option<Kind> {
    if word == "note" then Some(Note)
    else if word == "idea" then Some(Idea)
    else if word == "question" then Some(Question)
    else if word == "decision" then Some(Decision)
    else None
  }

  function StateWord(state: State): string {
    match state
    case Open => "open"
    case Accepted => "accepted"
    case Parked => "parked"
    case Dropped => "dropped"
    case Answered => "answered"
  }

  function StateOf(word: string): Option<State> {
    if word == "open" then Some(Open)
    else if word == "accepted" then Some(Accepted)
    else if word == "parked" then Some(Parked)
    else if word == "dropped" then Some(Dropped)
    else if word == "answered" then Some(Answered)
    else None
  }

  predicate IsIdChar(c: char) {
    'A' <= c <= 'Z' || 'a' <= c <= 'z' || '0' <= c <= '9' || c == '-'
  }

  predicate IsId(s: string) {
    s != "" && forall k :: 0 <= k < |s| ==> IsIdChar(s[k])
  }

  function IdStart(s: string, end: nat): (start: nat)
    requires end <= |s|
    ensures start <= end
  {
    if end > 0 && IsIdChar(s[end - 1]) then IdStart(s, end - 1) else end
  }

  /** A block id at the end of the text, with where the whitespace before its caret starts. */
  function TrailingId(s: string): (r: Option<(nat, string)>)
    ensures r.Some? ==> r.value.0 <= |s|
  {
    var end := TrimBack(s, |s|);
    var start := IdStart(s, end);
    if start == end || start == 0 || s[start - 1] != '^' then None
    else
      var before := TrimBack(s, start - 1);
      if before == start - 1 then None else Some((before, s[start..end]))
  }

  const DOT := '\U{B7}'

  /** The text split at every middle dot, whitespace around the parts dropped. */
  function Parts(s: string): (parts: seq<string>)
    ensures |parts| > 0
    decreases |s|
  {
    var n := DotAt(s);
    if n == |s| then [Trimmed(s)] else [Trimmed(s[..n])] + Parts(s[n + 1..])
  }

  function DotAt(s: string): (n: nat)
    ensures n <= |s|
    ensures n < |s| ==> s[n] == DOT
  {
    if s == "" || s[0] == DOT then 0 else 1 + DotAt(s[1..])
  }

  predicate IsDate(s: string) {
    |s| == 10 && s[4] == '-' && s[7] == '-'
    && forall k :: 0 <= k < 10 && k != 4 && k != 7 ==> IsDigit(s[k])
  }

  /** The heading without its id, and the id. */
  function WithoutId(text: string): (string, Option<string>) {
    var padded := " " + Trimmed(text);
    var found := TrailingId(padded);
    if found.Some? then (Trimmed(padded[..found.value.0]), Some(found.value.1)) else (Trimmed(text), None)
  }

  function HeadingOf(parts: seq<string>, id: Option<string>): Option<Heading> {
    if |parts| != 3 && |parts| != 4 then None
    else
      var kind :- KindOf(Lower(parts[0]));
      var date, author := parts[|parts| - 2], parts[|parts| - 1];
      if !IsDate(date) || author == "" then None
      else if |parts| == 3 then
        Some(Heading(kind, if States(kind) == {} then None else Some(Open), date, author, id))
      else
        var state :- StateOf(Lower(parts[1]));
        if state in States(kind) then Some(Heading(kind, Some(state), date, author, id)) else None
  }

  function ParseHeading(text: string): Option<Heading> {
    var (rest, id) := WithoutId(text);
    HeadingOf(Parts(rest), id)
  }

  // Entries

  /** What an `Answer:` line says first. */
  function AnswerText(line: string): Option<string> {
    if !("Answer:" <= line) then None
    else
      var rest := line[7..];
      var n := SpaceLength(rest);
      if Unbroken(rest[n..]) then Some(rest[n..]) else None
  }

  /** The first `Answer:` line outside a fence, any fence line opening or closing one here. */
  function AnswerAt(fenced: bool, lines: seq<string>): (n: nat)
    ensures n <= |lines|
    ensures n < |lines| ==> AnswerText(lines[n]).Some?
    decreases |lines|
  {
    if lines == [] then 0
    else
      var inside := if FenceOf(lines[0]).Some? then !fenced else fenced;
      if !inside && AnswerText(lines[0]).Some? then 0 else 1 + AnswerAt(inside, lines[1..])
  }

  function SplitAnswer(body: seq<string>): (string, Option<string>) {
    var n := AnswerAt(false, body);
    if n == |body| then (Trimmed(Join(body)), None)
    else (Trimmed(Join(body[..n])), Some(Trimmed(Join([AnswerText(body[n]).value] + body[n + 1..]))))
  }

  function IdLength(s: string): (n: nat)
    ensures n <= |s|
  {
    if s == "" || !IsIdChar(s[0]) then 0 else 1 + IdLength(s[1..])
  }

  /** The id `Supersedes ^id` names at the start of the text, and how long that is. */
  function SupersedesHere(s: string): (r: Option<(string, nat)>)
    ensures r.Some? ==> 0 < r.value.1 <= |s|
  {
    if !("Supersedes" <= s) then None
    else
      var n := 10 + SpaceLength(s[10..]);
      if n == 10 || n == |s| || s[n] != '^' then None
      else
        var k := IdLength(s[n + 1..]);
        if k == 0 then None else Some((s[n + 1..n + 1 + k], n + 1 + k))
  }

  function Supersedes(s: string): seq<string> {
    if s == "" then []
    else
      var here := SupersedesHere(s);
      if here.Some? then [here.value.0] + Supersedes(s[here.value.1..]) else Supersedes(s[1..])
  }

  function EntryOf(headingLine: string, body: seq<string>): Entry {
    var text := HeadingText(headingLine);
    var heading := Trimmed(if text.Some? then text.value else "");
    var parts := ParseHeading(heading);
    if parts.None? then
      var found := TrailingId(" " + heading);
      Entry(Note, None, None, None, if found.Some? then Some(found.value.1) else None, heading, Trimmed(Join(body)),
            None, [], true)
    else
      var h := parts.value;
      var (said, answer) := if h.kind == Question then SplitAnswer(body) else (Trimmed(Join(body)), None);
      Entry(h.kind, h.state, Some(h.date), Some(h.author), h.id, heading, said, answer,
            if h.kind == Decision then Supersedes(said) else [], false)
  }

  // Files

  predicate Closes(line: string) {
    Trimmed(line) == "---" || Trimmed(line) == "..."
  }

  function CloseAt(lines: seq<string>): (n: nat)
    ensures n <= |lines|
  {
    if lines == [] || Closes(lines[0]) then 0 else 1 + CloseAt(lines[1..])
  }

  /** Whether the file starts with front matter, closed or not. */
  predicate FrontOpened(lines: seq<string>) {
    lines != [] && Trimmed(lines[0]) == "---"
  }

  /** Where the entries start: after closed front matter, or with the first line. */
  function BodyStart(lines: seq<string>): (n: nat)
    ensures n <= |lines|
  {
    if FrontOpened(lines) && CloseAt(lines[1..]) < |lines| - 1 then CloseAt(lines[1..]) + 2 else 0
  }

  /** The entries of some lines, outside front matter. */
  function EntriesIn(fence: Option<char>, lines: seq<string>): seq<Entry>
    decreases |lines|
  {
    var n := UntilStart(fence, lines);
    if n == |lines| then []
    else
      var rest := lines[n + 1..];
      [EntryOf(lines[n], rest[..UntilStart(None, rest)])] + EntriesIn(None, rest)
  }

  datatype Block = Block(headingLine: nat, end: nat)

  /** The lines the entries start at and end before. */
  function BlocksIn(fence: Option<char>, lines: seq<string>, at: nat): seq<Block>
    decreases |lines|, 0
  {
    var n := UntilStart(fence, lines);
    if n == |lines| then [] else BlocksOn(lines[n + 1..], at + n)
  }

  /** The blocks from a line that starts an entry on, given the lines after it. */
  function BlocksOn(rest: seq<string>, at: nat): seq<Block>
    decreases |rest|, 1
  {
    [Block(at, at + 1 + UntilStart(None, rest))] + BlocksIn(None, rest, at + 1)
  }

  function EntriesOf(lines: seq<string>): seq<Entry> {
    EntriesIn(None, lines[BodyStart(lines)..])
  }

  /** The entries of a discussion file. */
  function Entries(text: string): seq<Entry> {
    EntriesOf(BareLines(Split(text)))
  }

  // The loops, against the functions above

  method BodyStartLoop(lines: seq<string>) returns (start: nat)
    ensures start == BodyStart(lines)
  {
    if |lines| > 1 && Trimmed(lines[0]) == "---" {
      var i := 1;
      while i < |lines|
        invariant 1 <= i <= |lines|
        invariant CloseAt(lines[1..]) == i - 1 + CloseAt(lines[i..])
      {
        if Closes(lines[i]) {
          return i + 1;
        }
        assert lines[i..][1..] == lines[i + 1..];
        i := i + 1;
      }
    }
    return 0;
  }

  /** The blocks found so far and the ones still to come: the last one found ends where the next one starts. */
  ghost predicate FoundSoFar(lines: seq<string>, start: nat, i: nat, fence: Option<char>, found: seq<Block>)
    requires start <= i <= |lines|
  {
    var more := BlocksIn(fence, lines[i..], i);
    BlocksIn(None, lines[start..], start)
    == if found == [] then more
       else found[..|found| - 1] + [found[|found| - 1].(end := i + UntilStart(fence, lines[i..]))] + more
  }

  lemma BlocksFrom(fence: Option<char>, lines: seq<string>, at: nat)
    ensures var n := UntilStart(fence, lines);
            BlocksIn(fence, lines, at) == if n == |lines| then [] else BlocksOn(lines[n + 1..], at + n)
  {
    hide UntilStart;
    hide BlocksOn;
  }

  lemma BlocksPast(fence: Option<char>, lines: seq<string>, at: nat)
    requires lines != [] && !Starts(fence, lines[0])
    ensures var next := NextFence(fence, lines[0]);
            && UntilStart(fence, lines) == 1 + UntilStart(next, lines[1..])
            && BlocksIn(fence, lines, at) == BlocksIn(next, lines[1..], at + 1)
  {
    hide NextFence;
    hide Starts;
    hide BlocksIn;
    hide BlocksOn;
    var next := NextFence(fence, lines[0]);
    var n := UntilStart(next, lines[1..]);
    assert UntilStart(fence, lines) == 1 + n;
    hide UntilStart;
    BlocksFrom(fence, lines, at);
    BlocksFrom(next, lines[1..], at + 1);
    if n < |lines| - 1 {
      DropDeeper(lines, 1, lines[1..], n + 1);
    }
  }

  lemma BlocksStep(lines: seq<string>, start: nat, i: nat, fence: Option<char>, found: seq<Block>)
    requires start <= i < |lines| && FoundSoFar(lines, start, i, fence, found) && !Starts(fence, lines[i])
    ensures FoundSoFar(lines, start, i + 1, NextFence(fence, lines[i]), found)
  {
    hide NextFence;
    hide Starts;
    hide BlocksIn;
    hide UntilStart;
    assert lines[i..][1..] == lines[i + 1..];
    BlocksPast(fence, lines[i..], i);
  }

  lemma BlocksHere(lines: seq<string>, at: nat)
    requires lines != [] && Starts(None, lines[0])
    ensures UntilStart(None, lines) == 0
    ensures BlocksIn(None, lines, at)
        == [Block(at, at + 1 + UntilStart(None, lines[1..]))] + BlocksIn(None, lines[1..], at + 1)
  {
    hide Starts;
  }

  lemma Regrouped<T>(a: seq<T>, b: T, c: T, d: seq<T>)
    ensures a + [b] + ([c] + d) == (a + [b]) + [c] + d
  {
  }

  lemma BlocksAt(lines: seq<string>, i: nat)
    requires i < |lines| && Starts(None, lines[i])
    ensures UntilStart(None, lines[i..]) == 0
    ensures BlocksIn(None, lines[i..], i)
        == [Block(i, i + 1 + UntilStart(None, lines[i + 1..]))] + BlocksIn(None, lines[i + 1..], i + 1)
  {
    hide Starts;
    hide BlocksIn;
    hide UntilStart;
    assert lines[i..][1..] == lines[i + 1..];
    BlocksHere(lines[i..], i);
  }

  lemma BlocksPush(lines: seq<string>, start: nat, i: nat, found: seq<Block>)
    requires start <= i < |lines| && FoundSoFar(lines, start, i, None, found) && Starts(None, lines[i])
    ensures var closed := if found == [] then [] else found[..|found| - 1] + [found[|found| - 1].(end := i)];
            FoundSoFar(lines, start, i + 1, None, closed + [Block(i, |lines|)])
  {
    hide Starts;
    hide BlocksIn;
    hide UntilStart;
    BlocksAt(lines, i);
    var closed := if found == [] then [] else found[..|found| - 1] + [found[|found| - 1].(end := i)];
    var all := closed + [Block(i, |lines|)];
    assert all[..|all| - 1] == closed;
    var here, more := Block(i, i + 1 + UntilStart(None, lines[i + 1..])), BlocksIn(None, lines[i + 1..], i + 1);
    if found == [] {
      assert [here] + more == [] + [here] + more;
    } else {
      Regrouped(found[..|found| - 1], found[|found| - 1].(end := i), here, more);
    }
  }

  method BlocksLoop(lines: seq<string>) returns (found: seq<Block>)
    ensures found == BlocksIn(None, lines[BodyStart(lines)..], BodyStart(lines))
  {
    hide FoundSoFar;
    hide Starts;
    hide FenceOf;
    var start := BodyStartLoop(lines);
    found := [];
    var fence: Option<char> := None;
    var i: nat := start;
    assert FoundSoFar(lines, start, start, None, []) by { FoundNone(lines, start); }
    while i < |lines|
      invariant start <= i <= |lines|
      invariant FoundSoFar(lines, start, i, fence, found)
      invariant found != [] ==> found[|found| - 1].end == |lines|
    {
      var line := lines[i];
      var mark := FenceOf(line);
      ghost var was := fence;
      if mark.Some? {
        if fence.None? {
          fence := mark;
        } else if mark == fence {
          fence := None;
        }
        NotAStart(was, line);
        BlocksStep(lines, start, i, was, found);
        i := i + 1;
        continue;
      }
      if fence.None? && HeadingText(line).Some? {
        AStart(line);
        BlocksPush(lines, start, i, found);
        if found != [] {
          found := found[..|found| - 1] + [found[|found| - 1].(end := i)];
        }
        found := found + [Block(i, |lines|)];
      } else {
        NotAStart(was, line);
        BlocksStep(lines, start, i, was, found);
      }
      i := i + 1;
    }
    FoundAll(lines, start, fence, found);
  }

  lemma NotAStart(fence: Option<char>, line: string)
    requires FenceOf(line).Some? || fence.Some? || HeadingText(line).None?
    ensures !Starts(fence, line)
  {
  }

  lemma AStart(line: string)
    requires FenceOf(line).None? && HeadingText(line).Some?
    ensures Starts(None, line)
  {
  }

  lemma FoundNone(lines: seq<string>, start: nat)
    requires start <= |lines|
    ensures FoundSoFar(lines, start, start, None, [])
  {
  }

  lemma FoundAll(lines: seq<string>, start: nat, fence: Option<char>, found: seq<Block>)
    requires start <= |lines| && FoundSoFar(lines, start, |lines|, fence, found)
    requires found != [] ==> found[|found| - 1].end == |lines|
    ensures found == BlocksIn(None, lines[start..], start)
  {
    assert lines[|lines|..] == [];
    if found != [] {
      var last := found[|found| - 1];
      assert last.(end := |lines|) == last;
      assert found == found[..|found| - 1] + [last];
    }
  }

  method SplitAnswerLoop(body: seq<string>) returns (said: string, answer: Option<string>)
    ensures (said, answer) == SplitAnswer(body)
  {
    hide FenceOf;
    hide AnswerText;
    hide Trimmed;
    var fence := false;
    var i := 0;
    assert body[0..] == body;
    while i < |body|
      invariant 0 <= i <= |body|
      invariant AnswerAt(false, body) == i + AnswerAt(fence, body[i..])
    {
      assert body[i..][1..] == body[i + 1..];
      if FenceOf(body[i]).Some? {
        fence := !fence;
      }
      if !fence && AnswerText(body[i]).Some? {
        return Trimmed(Join(body[..i])), Some(Trimmed(Join([AnswerText(body[i]).value] + body[i + 1..])));
      }
      i := i + 1;
    }
    return Trimmed(Join(body)), None;
  }

  /** The entries, block by block. */
  function ReadAll(lines: seq<string>, blocks: seq<Block>): seq<Entry>
    requires Within(|lines|, blocks)
  {
    if blocks == [] then []
    else
      [EntryOf(lines[blocks[0].headingLine], lines[blocks[0].headingLine + 1..blocks[0].end])]
      + ReadAll(lines, blocks[1..])
  }

  predicate Within(n: nat, blocks: seq<Block>) {
    blocks == [] || (blocks[0].headingLine < blocks[0].end <= n && Within(n, blocks[1..]))
  }

  lemma WithinCons(n: nat, b: Block, more: seq<Block>)
    ensures Within(n, [b] + more) <==> b.headingLine < b.end <= n && Within(n, more)
  {
    assert ([b] + more)[1..] == more;
  }

  lemma {:induction false} BlocksInside(fence: Option<char>, lines: seq<string>, at: nat)
    ensures Within(at + |lines|, BlocksIn(fence, lines, at))
    decreases |lines|
  {
    hide UntilStart;
    hide BlocksIn;
    var n := UntilStart(fence, lines);
    if n == |lines| {
      NoneStart(fence, lines, at);
    } else {
      hide Within;
      BlocksInside(None, lines[n + 1..], at + n + 1);
      BlocksCons(fence, lines, at);
      WithinCons(at + |lines|, Block(at + n, at + n + 1 + UntilStart(None, lines[n + 1..])),
                 BlocksIn(None, lines[n + 1..], at + n + 1));
    }
  }

  lemma ReadCons(lines: seq<string>, b: Block, more: seq<Block>)
    requires Within(|lines|, [b] + more)
    ensures Within(|lines|, more) && b.headingLine < b.end <= |lines|
    ensures ReadAll(lines, [b] + more)
        == [EntryOf(lines[b.headingLine], lines[b.headingLine + 1..b.end])] + ReadAll(lines, more)
  {
    hide EntryOf;
    WithinCons(|lines|, b, more);
    assert ([b] + more)[1..] == more;
  }

  lemma SliceDeeper<T>(whole: seq<T>, at: nat, lines: seq<T>, i: nat, j: nat)
    requires at <= |whole| && whole[at..] == lines && i <= j <= |lines|
    ensures whole[at + i..at + j] == lines[i..j]
  {
    assert whole[at..][i..j] == whole[at + i..at + j];
  }

  lemma DropDeeper<T>(whole: seq<T>, at: nat, lines: seq<T>, i: nat)
    requires at <= |whole| && whole[at..] == lines && i <= |lines|
    ensures whole[at + i..] == lines[i..] && (i < |lines| ==> whole[at + i] == lines[i])
  {
  }

  lemma EntriesCons(fence: Option<char>, lines: seq<string>)
    requires UntilStart(fence, lines) < |lines|
    ensures var n := UntilStart(fence, lines);
            var rest := lines[n + 1..];
            var k := UntilStart(None, rest);
            EntriesIn(fence, lines) == [EntryOf(lines[n], rest[..k])] + EntriesIn(None, rest)
  {
    hide EntryOf;
    hide UntilStart;
  }

  lemma BlocksCons(fence: Option<char>, lines: seq<string>, at: nat)
    requires UntilStart(fence, lines) < |lines|
    ensures var n := UntilStart(fence, lines);
            var rest := lines[n + 1..];
            var k := UntilStart(None, rest);
            BlocksIn(fence, lines, at) == [Block(at + n, at + n + 1 + k)] + BlocksIn(None, rest, at + n + 1)
  {
    hide UntilStart;
  }

  lemma NoneStart(fence: Option<char>, lines: seq<string>, at: nat)
    requires UntilStart(fence, lines) == |lines|
    ensures BlocksIn(fence, lines, at) == [] && EntriesIn(fence, lines) == []
  {
    hide UntilStart;
    hide EntryOf;
  }

  /** Reading block by block, by line number, reads the entries. */
  lemma {:induction false} BlocksRead(fence: Option<char>, lines: seq<string>, at: nat, whole: seq<string>)
    requires at + |lines| == |whole| && whole[at..] == lines
    ensures Within(|whole|, BlocksIn(fence, lines, at))
    ensures ReadAll(whole, BlocksIn(fence, lines, at)) == EntriesIn(fence, lines)
    decreases |lines|
  {
    hide EntryOf;
    hide UntilStart;
    hide EntriesIn;
    hide BlocksIn;
    BlocksInside(fence, lines, at);
    var n := UntilStart(fence, lines);
    if n == |lines| {
      NoneStart(fence, lines, at);
    } else {
      hide ReadAll;
      hide Within;
      var rest := lines[n + 1..];
      var k := UntilStart(None, rest);
      EntriesCons(fence, lines);
      BlocksCons(fence, lines, at);
      DropDeeper(whole, at, lines, n);
      DropDeeper(whole, at, lines, n + 1);
      SliceDeeper(whole, at + n + 1, rest, 0, k);
      BlocksRead(None, rest, at + n + 1, whole);
      ReadCons(whole, Block(at + n, at + n + 1 + k), BlocksIn(None, rest, at + n + 1));
      assert whole[at + n + 1..at + n + 1 + k] == rest[..k];
    }
  }

  method ParseDiscussion(text: string) returns (entries: seq<Entry>)
    ensures entries == Entries(text)
  {
    var lines := BareLines(Split(text));
    var blocks := BlocksLoop(lines);
    var start := BodyStart(lines);
    BlocksRead(None, lines[start..], start, lines);
    entries := ReadAll(lines, blocks);
  }
}
