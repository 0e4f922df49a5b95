// What is read from a discussion file, said without the functions that read it.
module DiscussionReading {
  import opened Options
  import opened Strings
  import opened Space
  import opened Text
  import opened DiscussionText
  import opened DiscussionLines
  import opened DiscussionWrite

  // Ends of text

  predicate Trim(s: string) {
    s == "" || (!IsSpace(s[0]) && !IsSpace(s[|s| - 1]))
  }

  lemma TrimmedIsTrim(s: string)
    ensures Trim(Trimmed(s))
  {
    var n := TrimBack(s, |s|);
    TrimBackDoes(s, |s|);
    var t := s[..n];
    assert t != "" ==> !IsSpace(t[|t| - 1]);
  }

  lemma TrimIsTrimmed(s: string)
    requires Trim(s)
    ensures Trimmed(s) == s
  {
    TrimBackIs(s, |s|, |s|);
    assert s[..|s|] == s && s[0..] == s;
  }

  // The id of a heading

  /** The text ends in a caret and an id, after whitespace or nothing. */
  ghost predicate Named(t: string, rest: string, id: string) {
    exists gap :: NamedAfter(t, rest, gap, id)
  }

  predicate NamedAfter(t: string, rest: string, gap: string, id: string) {
    t == rest + gap + "^" + id && Spaces(gap) && IsId(id) && Trim(rest) && (rest != "" ==> gap != "")
  }

  /** The ids run from `k` to the end, and no further back. */
  predicate IdsFrom(s: string, n: nat, k: nat) {
    k <= n <= |s| && (forall i :: k <= i < n ==> IsIdChar(s[i])) && (k > 0 ==> !IsIdChar(s[k - 1]))
  }

  lemma {:induction false} IdStartIs(s: string, n: nat, k: nat)
    requires IdsFrom(s, n, k)
    ensures IdStart(s, n) == k
    decreases n
  {
    if n > k {
      IdStartIs(s, n - 1, k);
    }
  }

  lemma {:induction false} IdStartDoes(s: string, n: nat)
    requires n <= |s|
    ensures IdsFrom(s, n, IdStart(s, n))
    decreases n
  {
    if n > 0 && IsIdChar(s[n - 1]) {
      IdStartDoes(s, n - 1);
    }
  }

  /** The id read of a heading is the one its text ends in, if it ends in one, and the rest is what is before. */
  lemma IdSaid(text: string)
    ensures var t, said := Trimmed(text), WithoutId(text);
            && (said.1.Some? ==> Named(t, said.0, said.1.value)) && (said.1.None? ==> said.0 == t)
            && forall rest, id :: Named(t, rest, id) ==> said == (rest, Some(id))
  {
    var t, said := Trimmed(text), WithoutId(text);
    TrimmedIsTrim(text);
    hide Trimmed;
    if said.1.Some? {
      IdThere(t, said.0, said.1.value);
    }
    forall rest, id | Named(t, rest, id) ensures said == (rest, Some(id)) {
      var gap :| NamedAfter(t, rest, gap, id);
      IdMet(t, rest, gap, id);
    }
  }

  /** The id from `start` to the end of the text, behind a caret and the whitespace from `before`. */
  predicate IdAt(s: string, before: nat, start: nat) {
    && before + 1 < start < |s| && s[start - 1] == '^' && IdsFrom(s, |s|, start) && TrimsTo(s, start - 1, before)
    && !IsSpace(s[|s| - 1])
  }

  lemma TrailingDoes(s: string)
    requires s != "" && TrailingId(s).Some? && (!IsSpace(s[|s| - 1]) || s == " ")
    ensures var found := TrailingId(s).value;
            |found.1| <= |s| && IdAt(s, found.0, |s| - |found.1|) && found.1 == s[|s| - |found.1|..]
  {
    var end := TrimBack(s, |s|);
    TrimBackDoes(s, |s|);
    var start := IdStart(s, end);
    IdStartDoes(s, end);
    TrimBackDoes(s, start - 1);
    hide TrimBack;
    hide IdStart;
    assert end == |s|;
  }

  lemma TrailingIs(s: string, before: nat, start: nat)
    requires IdAt(s, before, start)
    ensures TrailingId(s) == Some((before, s[start..]))
  {
    TrimBackIs(s, |s|, |s|);
    IdStartIs(s, |s|, start);
    TrimBackIs(s, start - 1, before);
    hide TrimBack;
    hide IdStart;
    assert s[start..|s|] == s[start..];
  }

  lemma IdThere(t: string, rest: string, id: string)
    requires Trim(t)
    requires TrailingId(" " + t).Some?
    requires rest == Trimmed((" " + t)[..TrailingId(" " + t).value.0]) && id == TrailingId(" " + t).value.1
    ensures Named(t, rest, id)
  {
    hide TrailingId;
    var s := " " + t;
    assert t != "" ==> s[|s| - 1] == t[|t| - 1];
    TrailingDoes(s);
    var before, start := TrailingId(s).value.0, |s| - |id|;
    hide Trimmed;
    InText(t, start);
    if before == 0 {
      assert s[..0] == "";
      TrimIsTrimmed("");
      NothingBefore(t, start);
    } else {
      TextBefore(t, before, start);
    }
  }

  lemma InText(t: string, start: nat)
    requires 0 < start <= |t| + 1
    ensures (" " + t)[start..] == t[start - 1..]
  {
  }

  lemma NothingBefore(t: string, start: nat)
    requires IdAt(" " + t, 0, start)
    ensures NamedAfter(t, "", t[..start - 2], t[start - 1..])
  {
    var s := " " + t;
    var gap, id := t[..start - 2], t[start - 1..];
    assert forall k :: 0 <= k < |gap| ==> gap[k] == s[k + 1];
    assert forall k :: 0 <= k < |id| ==> id[k] == s[start + k];
    assert t[start - 2] == s[start - 1];
    assert "" + gap == gap;
    assert t == gap + "^" + id;
  }

  lemma TextBefore(t: string, before: nat, start: nat)
    requires IdAt(" " + t, before, start) && before > 0 && Trim(t)
    ensures Named(t, Trimmed((" " + t)[..before]), t[start - 1..])
  {
    var s := " " + t;
    assert before > 1;
    var own := t[..before - 1];
    assert s[..before] == " " + own + "";
    assert own[|own| - 1] == s[before - 1];
    TrimmedPadded(" ", own, "");
    hide Trimmed;
    OwnNamed(t, before, start);
  }

  lemma OwnNamed(t: string, before: nat, start: nat)
    requires IdAt(" " + t, before, start) && before > 1 && Trim(t[..before - 1])
    ensures NamedAfter(t, t[..before - 1], t[before - 1..start - 2], t[start - 1..])
  {
    var s := " " + t;
    var own, gap, id := t[..before - 1], t[before - 1..start - 2], t[start - 1..];
    assert forall k :: 0 <= k < |gap| ==> gap[k] == s[before + k];
    assert forall k :: 0 <= k < |id| ==> id[k] == s[start + k];
    assert t[start - 2] == s[start - 1];
    assert t == own + gap + "^" + id;
  }

  lemma IdMet(t: string, rest: string, gap: string, id: string)
    requires Trim(t) && NamedAfter(t, rest, gap, id)
    ensures TrailingId(" " + t).Some? && TrailingId(" " + t).value.1 == id
    ensures Trimmed((" " + t)[..TrailingId(" " + t).value.0]) == rest
  {
    var s := " " + t;
    var n := if rest == "" then 0 else 1 + |rest|;
    IdPlace(t, rest, gap, id);
    TrailingIs(s, n, |s| - |id|);
    hide TrailingId;
    assert s[|s| - |id|..] == id;
    if rest == "" {
      TrimIsTrimmed("");
      assert s[..n] == "";
    } else {
      assert s[..n] == " " + rest + "";
      TrimmedPadded(" ", rest, "");
    }
  }

  lemma IdPlace(t: string, rest: string, gap: string, id: string)
    requires Trim(t) && NamedAfter(t, rest, gap, id)
    ensures IdAt(" " + t, if rest == "" then 0 else 1 + |rest|, |t| + 1 - |id|)
  {
    IdEnds(id);
    var s := " " + t;
    var start := |s| - |id|;
    var n := if rest == "" then 0 else 1 + |rest|;
    assert s == " " + rest + gap + "^" + id;
    assert s[start - 1] == '^';
    assert forall k :: start <= k < |s| ==> s[k] == id[k - start];
    assert forall k :: 1 + |rest| <= k < start - 1 ==> s[k] == gap[k - 1 - |rest|];
    assert rest != "" ==> s[n - 1] == rest[|rest| - 1];
  }

  // The parts of a heading

  /** The pieces with a middle dot between each two. */
  function Dotted(pieces: seq<string>): string {
    if pieces == [] then ""
    else if |pieces| == 1 then pieces[0]
    else pieces[0] + ([DOT] + Dotted(pieces[1..]))
  }

  predicate Dotless(pieces: seq<string>) {
    pieces != [] && forall k :: 0 <= k < |pieces| ==> DOT !in pieces[k]
  }

  function TrimmedAll(pieces: seq<string>): seq<string> {
    if pieces == [] then [] else [Trimmed(pieces[0])] + TrimmedAll(pieces[1..])
  }

  lemma {:induction false} PartsSay(pieces: seq<string>)
    requires Dotless(pieces)
    ensures Parts(Dotted(pieces)) == TrimmedAll(pieces)
    decreases |pieces|
  {
    hide Parts;
    hide Trimmed;
    if |pieces| == 1 {
      PartsNoDot(pieces[0]);
    } else {
      PartsSay(pieces[1..]);
      PartsAtDot(pieces[0], Dotted(pieces[1..]));
    }
  }

  predicate SmallWord(word: string) {
    forall k :: 0 <= k < |word| ==> 97 <= word[k] as int <= 122
  }

  /** The word in letters of either case, the Kelvin sign a small k's. */
  predicate SameWord(s: string, word: string) {
    && |s| == |word|
    && forall k :: 0 <= k < |s| ==> SameLetter(s[k], word[k])
  }

  predicate SameLetter(c: char, letter: char) {
    c == letter || c as int == letter as int - 32 || (letter as int == 107 && c as int == 0x212A)
  }

  lemma {:induction false} LowerSame(s: string, word: string)
    requires SmallWord(word)
    ensures Lower(s) == word <==> SameWord(s, word)
  {
    if s != "" && word != "" {
      LowerSame(s[1..], word[1..]);
      assert Lower(s) == word <==> LowerChar(s[0]) == word[0] && Lower(s[1..]) == word[1..];
      assert LowerChar(s[0]) == word[0] <==> SameLetter(s[0], word[0]);
      assert SameWord(s, word) <==> SameLetter(s[0], word[0]) && SameWord(s[1..], word[1..]) by {
        assert forall k :: 0 < k < |s| && |s| == |word| ==> s[k] == s[1..][k - 1] && word[k] == word[1..][k - 1];
      }
    }
  }

  function KindWord(kind: Kind): string {
    match kind
    case Note => "note"
    case Idea => "idea"
    case Question => "question"
    case Decision => "decision"
  }

  function Word(state: State): string {
    match state
    case Open => "open"
    case Accepted => "accepted"
    case Parked => "parked"
    case Dropped => "dropped"
    case Answered => "answered"
  }

  /** The parts say the heading: a kind, a state of its own or none, a date, and an author. */
  predicate PartsSaying(parts: seq<string>, h: Heading) {
    && |parts| in {3, 4} && SameWord(parts[0], KindWord(h.kind))
    && h.date == parts[|parts| - 2] && IsDate(h.date) && h.author == parts[|parts| - 1] && h.author != ""
    && if |parts| == 3 then h.state == (if h.kind in {Idea, Question} then Some(Open) else None)
       else h.state.Some? && SameWord(parts[1], Word(h.state.value)) && match h.kind {
         case Idea => h.state.value in {Open, Accepted, Parked, Dropped}
         case Question => h.state.value in {Open, Answered}
         case _ => false
       }
  }

  lemma KindIs(word: string, kind: Kind)
    ensures KindOf(word) == Some(kind) <==> word == KindWord(kind)
    ensures SmallWord(KindWord(kind))
  {
  }

  lemma KindsSay(s: string)
    ensures forall kind :: KindOf(Lower(s)) == Some(kind) <==> SameWord(s, KindWord(kind))
  {
    hide KindOf;
    hide KindWord;
    hide Lower;
    hide SameWord;
    hide SmallWord;
    forall kind ensures KindOf(Lower(s)) == Some(kind) <==> SameWord(s, KindWord(kind)) {
      KindIs(Lower(s), kind);
      LowerSame(s, KindWord(kind));
    }
  }

  lemma WordsApart()
    ensures "accepted" != "answered"
  {
    assert "accepted"[1] != "answered"[1];
  }

  lemma StateIs(word: string, state: State)
    ensures StateOf(word) == Some(state) <==> word == Word(state)
    ensures SmallWord(Word(state))
  {
    WordsApart();
  }

  lemma StateWordsSay(s: string)
    ensures forall state :: StateOf(Lower(s)) == Some(state) <==> SameWord(s, Word(state))
  {
    hide StateOf;
    hide Word;
    hide Lower;
    hide SameWord;
    hide SmallWord;
    forall state ensures StateOf(Lower(s)) == Some(state) <==> SameWord(s, Word(state)) {
      StateIs(Lower(s), state);
      LowerSame(s, Word(state));
    }
  }

  lemma SaidByParts(parts: seq<string>, id: Option<string>, h: Heading)
    requires parts != []
    ensures HeadingOf(parts, id) == Some(h) <==> PartsSaying(parts, h) && h.id == id
  {
    KindsSay(parts[0]);
    if |parts| == 4 {
      StateWordsSay(parts[1]);
    }
    hide Lower;
    hide SameWord;
    hide IsDate;
    hide KindOf;
    hide StateOf;
    hide KindWord;
    hide Word;
  }

  /**
   * A heading is read exactly from text that says it: three or four pieces between middle dots, whitespace around
   * them or not, and after them the id, if the text ends in one.
   */
  lemma HeadingParses(text: string, pieces: seq<string>, id: Option<string>)
    requires Dotless(pieces) && (id.Some? ==> Named(Trimmed(text), Dotted(pieces), id.value))
    requires id.None? ==> Trimmed(text) == Dotted(pieces) && forall rest, i :: !Named(Trimmed(text), rest, i)
    ensures forall h :: ParseHeading(text) == Some(h) <==> PartsSaying(TrimmedAll(pieces), h) && h.id == id
  {
    hide Trimmed;
    hide WithoutId;
    hide Named;
    hide Parts;
    hide HeadingOf;
    hide PartsSaying;
    IdSaid(text);
    PartsSay(pieces);
    forall h ensures ParseHeading(text) == Some(h) <==> PartsSaying(TrimmedAll(pieces), h) && h.id == id {
      SaidByParts(TrimmedAll(pieces), id, h);
    }
  }

  // What a decision supersedes

  /** A mention at `k`: the word, whitespace, a caret and the whole id. */
  predicate MentionsAt(s: string, k: nat, gap: string, id: string) {
    var m := k + 10 + |gap| + 1 + |id|;
    && gap != "" && Spaces(gap) && IsId(id) && m <= |s| && s[k..m] == "Supersedes" + gap + "^" + id
    && (m < |s| ==> !IsIdChar(s[m]))
  }

  ghost predicate NoMention(s: string, n: nat) {
    forall k, gap, id :: 0 <= k < n ==> !MentionsAt(s, k, gap, id)
  }

  lemma {:induction false} IdLengthDoes(s: string)
    ensures var n := IdLength(s);
            (forall k :: 0 <= k < n ==> IsIdChar(s[k])) && (n < |s| ==> !IsIdChar(s[n]))
  {
    if s != "" && IsIdChar(s[0]) {
      IdLengthDoes(s[1..]);
    }
  }

  lemma {:induction false} IdLengthIs(s: string, n: nat)
    requires n <= |s| && (forall k :: 0 <= k < n ==> IsIdChar(s[k])) && (n < |s| ==> !IsIdChar(s[n]))
    ensures IdLength(s) == n
  {
    if n > 0 {
      IdLengthIs(s[1..], n - 1);
    }
  }

  lemma MentionHere(s: string, gap: string, id: string)
    requires MentionsAt(s, 0, gap, id)
    ensures SupersedesHere(s) == Some((id, 10 + |gap| + 1 + |id|))
  {
    var n, m := 10 + |gap|, 10 + |gap| + 1 + |id|;
    var said := "Supersedes" + gap + "^" + id;
    assert s[..m] == said;
    assert forall k :: 0 <= k < m ==> s[k] == said[k];
    assert s[..10] == "Supersedes";
    var rest, own := s[10..], s[n + 1..];
    assert forall k :: 0 <= k < |gap| ==> rest[k] == gap[k];
    assert s[n] == '^' && rest[|gap|] == s[n];
    SpaceLengthIs(rest, |gap|);
    assert forall k :: 0 <= k < |id| ==> own[k] == id[k];
    assert |id| < |own| ==> own[|id|] == s[m];
    IdLengthIs(own, |id|);
    assert s[n + 1..n + 1 + |id|] == id;
    hide SpaceLength;
    hide IdLength;
  }

  lemma HereMentions(s: string)
    requires SupersedesHere(s).Some?
    ensures exists gap :: MentionsAt(s, 0, gap, SupersedesHere(s).value.0)
  {
    var n := 10 + SpaceLength(s[10..]);
    IdLengthDoes(s[n + 1..]);
    var k := IdLength(s[n + 1..]);
    hide SpaceLength;
    hide IdLength;
    var gap, id, m := s[10..n], s[n + 1..n + 1 + k], n + 1 + k;
    assert gap == s[10..][..n - 10];
    assert forall i :: 0 <= i < k ==> id[i] == s[n + 1..][i];
    assert m < |s| ==> s[m] == s[n + 1..][k];
    assert s[..10] == "Supersedes";
    assert s[0..m] == "Supersedes" + gap + "^" + id;
    assert MentionsAt(s, 0, gap, id);
  }

  lemma MentionDeeper(s: string, k: nat, gap: string, id: string)
    requires s != ""
    ensures MentionsAt(s[1..], k, gap, id) <==> MentionsAt(s, k + 1, gap, id)
  {
    var m := k + 1 + 10 + |gap| + 1 + |id|;
    if m <= |s| {
      assert s[1..][k..m - 1] == s[k + 1..m];
    }
  }

  /** Without a mention nothing is superseded. */
  lemma {:induction false} NothingSuperseded(s: string)
    requires NoMention(s, |s|)
    ensures Supersedes(s) == []
  {
    hide MentionsAt;
    hide SupersedesHere;
    if s != "" {
      if SupersedesHere(s).Some? {
        HereMentions(s);
      }
      forall k: nat, gap, id | k < |s| - 1 ensures !MentionsAt(s[1..], k, gap, id) {
        MentionDeeper(s, k, gap, id);
      }
      NothingSuperseded(s[1..]);
    }
  }

  /** The first mention names what is superseded first, and what follows it the rest. */
  lemma {:induction false} SupersededFirst(s: string, k: nat, gap: string, id: string)
    requires k < |s| && NoMention(s, k) && MentionsAt(s, k, gap, id)
    ensures k + 11 + |gap| + |id| <= |s|
    ensures Supersedes(s) == [id] + Supersedes(s[k + 11 + |gap| + |id|..])
    decreases k
  {
    if k == 0 {
      MentionHere(s, gap, id);
    } else {
      if SupersedesHere(s).Some? {
        HereMentions(s);
      }
      MentionDeeper(s, k - 1, gap, id);
      forall i: nat, g, d | i < k - 1 ensures !MentionsAt(s[1..], i, g, d) {
        MentionDeeper(s, i, g, d);
      }
      var m := k + 11 + |gap| + |id|;
      assert m <= |s|;
      hide MentionsAt;
      hide SupersedesHere;
      SupersededFirst(s[1..], k - 1, gap, id);
      assert s[1..][m - 1..] == s[m..];
    }
  }

  // Fences, front matter and entries

  /** A fence of `c` that line `i` opens and no later line closes. */
  predicate OpenFrom(lines: seq<string>, i: nat, c: char) {
    && i < |lines| && FenceOf(lines[i]) == Some(c) && FenceAfter(None, lines[..i]) == None
    && forall j :: i < j < |lines| ==> FenceOf(lines[j]) != Some(c)
  }

  lemma FenceOne(fence: Option<char>, line: string)
    ensures FenceAfter(fence, [line]) == NextFence(fence, line)
  {
    hide NextFence;
    assert [line][1..] == [];
  }

  lemma FenceLast(lines: seq<string>)
    requires lines != []
    ensures var n := |lines| - 1;
            FenceAfter(None, lines) == NextFence(FenceAfter(None, lines[..n]), lines[n])
  {
    hide FenceAfter;
    hide NextFence;
    var n := |lines| - 1;
    assert lines == lines[..n] + [lines[n]];
    FenceJoined(None, lines[..n], [lines[n]]);
    FenceOne(FenceAfter(None, lines[..n]), lines[n]);
  }

  lemma OpenLonger(lines: seq<string>, i: nat, c: char)
    requires lines != [] && i < |lines| - 1
    ensures OpenFrom(lines, i, c) <==> OpenFrom(lines[..|lines| - 1], i, c) && FenceOf(lines[|lines| - 1]) != Some(c)
  {
    var front := lines[..|lines| - 1];
    assert front[..i] == lines[..i];
    assert forall j :: 0 <= j < |front| ==> front[j] == lines[j];
  }

  /** A fence is open exactly when a line outside every fence opened it and no line of its character came since. */
  lemma {:induction false} OpenSays(lines: seq<string>, c: char)
    ensures FenceAfter(None, lines) == Some(c) <==> exists i :: OpenFrom(lines, i, c)
    decreases |lines|
  {
    hide FenceOf;
    if lines != [] {
      var n := |lines| - 1;
      var front := lines[..n];
      FenceLast(lines);
      OpenSays(front, c);
      assert OpenFrom(lines, n, c) <==> FenceOf(lines[n]) == Some(c) && FenceAfter(None, front) == None;
      forall i: nat | i < n ensures OpenFrom(lines, i, c) <==> OpenFrom(front, i, c) && FenceOf(lines[n]) != Some(c) {
        OpenLonger(lines, i, c);
      }
      hide FenceAfter;
      if exists i :: OpenFrom(front, i, c) {
        var i: nat :| OpenFrom(front, i, c);
        assert i < n;
      }
    }
  }

  /** Front matter is read from a first line of three hyphens up to the first line of three hyphens or dots. */
  lemma FrontSays(lines: seq<string>, n: nat)
    ensures BodyStart(lines) == n && n > 0 <==>
            && 1 < n <= |lines| && Trimmed(lines[0]) == "---"
            && (Trimmed(lines[n - 1]) == "---" || Trimmed(lines[n - 1]) == "...")
            && forall k :: 0 < k < n - 1 ==> Trimmed(lines[k]) != "---" && Trimmed(lines[k]) != "..."
  {
    hide Trimmed;
    if lines != [] {
      CloseSays(lines[1..]);
    }
  }

  lemma {:induction false} CloseSays(lines: seq<string>)
    ensures var n := CloseAt(lines);
            (n < |lines| ==> Closes(lines[n])) && forall k :: 0 <= k < n ==> !Closes(lines[k])
  {
    if lines != [] && !Closes(lines[0]) {
      CloseSays(lines[1..]);
    }
  }

  /** Line `k` starts an entry: a heading, no fence itself and outside every fence. */
  predicate StartsAt(fence: Option<char>, lines: seq<string>, k: int) {
    && 0 <= k < |lines| && FenceAfter(fence, lines[..k]) == None && FenceOf(lines[k]) == None
    && HeadingText(lines[k]).Some?
  }

  function Heads(blocks: seq<Block>): set<int> {
    set b | b in blocks :: b.headingLine
  }

  /** Each block ends where the next one starts, the last one at the end. */
  ghost predicate Adjoining(blocks: seq<Block>, end: nat) {
    && (forall i, j :: 0 <= i && j == i + 1 && j < |blocks| ==> blocks[i].end == blocks[j].headingLine)
    && (blocks != [] ==> blocks[|blocks| - 1].end == end)
  }

  lemma {:induction false} UntilSays(fence: Option<char>, lines: seq<string>)
    ensures var n := UntilStart(fence, lines);
            (forall k :: k < n ==> !StartsAt(fence, lines, k)) && (n < |lines| ==> StartsAt(fence, lines, n))
    decreases |lines|
  {
    if lines != [] {
      assert lines[..0] == [];
      assert StartsAt(fence, lines, 0) <==> Starts(fence, lines[0]);
      if !Starts(fence, lines[0]) {
        var next := NextFence(fence, lines[0]);
        UntilSays(next, lines[1..]);
        forall k | k > 0 ensures StartsAt(fence, lines, k) <==> StartsAt(next, lines[1..], k - 1) {
          StartsDeeper(fence, lines, k - 1);
        }
        hide Starts;
        hide NextFence;
        hide FenceAfter;
      }
    }
  }

  lemma StartsDeeper(fence: Option<char>, lines: seq<string>, k: nat)
    requires lines != []
    ensures StartsAt(NextFence(fence, lines[0]), lines[1..], k) <==> StartsAt(fence, lines, k + 1)
  {
    if k < |lines| - 1 {
      assert lines[..k + 1][1..] == lines[1..][..k];
    }
    hide NextFence;
  }

  lemma StartsPast(fence: Option<char>, lines: seq<string>, n: nat, k: nat)
    requires n < |lines| && StartsAt(fence, lines, n)
    ensures StartsAt(None, lines[n + 1..], k) <==> StartsAt(fence, lines, n + 1 + k)
  {
    if k < |lines| - n - 1 {
      var rest := lines[n + 1..];
      assert lines[..n + 1 + k] == lines[..n] + ([lines[n]] + rest[..k]);
      FenceJoined(fence, lines[..n], [lines[n]] + rest[..k]);
      assert ([lines[n]] + rest[..k])[1..] == rest[..k];
      hide FenceOf;
    }
  }

  /** The blocks: one from every line that starts an entry, in order, up to the next one or the end. */
  lemma {:induction false} BlocksSay(fence: Option<char>, lines: seq<string>, at: nat)
    ensures var blocks := BlocksIn(fence, lines, at);
            && Within(at + |lines|, blocks) && Adjoining(blocks, at + |lines|)
            && forall h :: h in Heads(blocks) <==> StartsAt(fence, lines, h - at)
    decreases |lines|
  {
    hide StartsAt;
    hide UntilStart;
    hide Within;
    hide BlocksIn;
    BlocksInside(fence, lines, at);
    UntilSays(fence, lines);
    var n := UntilStart(fence, lines);
    if n == |lines| {
      NoneStart(fence, lines, at);
      forall k | StartsAt(fence, lines, k) ensures k < n {
        InLines(fence, lines, k);
      }
    } else {
      var rest := lines[n + 1..];
      BlocksSay(None, rest, at + n + 1);
      BlocksCons(fence, lines, at);
      var more := BlocksIn(None, rest, at + n + 1);
      NextHead(rest, at + n + 1);
      var first := Block(at + n, at + n + 1 + UntilStart(None, rest));
      var blocks := [first] + more;
      AdjoinCons(first, more, at + |lines|);
      forall h ensures h in Heads(blocks) <==> StartsAt(fence, lines, h - at) {
        HeadsCons(first, more, h);
        if h > at + n {
          StartsPast(fence, lines, n, h - at - n - 1);
        } else if h in Heads(more) {
          InLines(None, rest, h - at - n - 1);
        }
      }
    }
  }

  lemma AdjoinCons(first: Block, more: seq<Block>, end: nat)
    requires Adjoining(more, end) && first.end == if more == [] then end else more[0].headingLine
    ensures Adjoining([first] + more, end)
  {
    var blocks := [first] + more;
    forall i, j | 0 <= i && j == i + 1 && j < |blocks| ensures blocks[i].end == blocks[j].headingLine {
      assert i > 0 ==> blocks[i] == more[i - 1] && blocks[j] == more[j - 1];
    }
  }

  lemma HeadsCons(first: Block, more: seq<Block>, h: int)
    ensures h in Heads([first] + more) <==> h == first.headingLine || h in Heads(more)
  {
    if h in Heads(more) {
      var b :| b in more && b.headingLine == h;
      assert b in [first] + more;
    }
    assert first in [first] + more;
  }

  lemma InLines(fence: Option<char>, lines: seq<string>, k: int)
    requires StartsAt(fence, lines, k)
    ensures 0 <= k < |lines|
  {
  }

  lemma NextHead(lines: seq<string>, at: nat)
    ensures var n, blocks := UntilStart(None, lines), BlocksIn(None, lines, at);
            if blocks == [] then n == |lines| else blocks[0].headingLine == at + n
  {
    hide UntilStart;
  }

  // Answers

  function FenceLines(lines: seq<string>): nat {
    if lines == [] then 0 else (if FenceOf(lines[0]).Some? then 1 else 0) + FenceLines(lines[1..])
  }

  /** Line `k` answers: an `Answer:` line with an even number of fence lines up to it, counting those before. */
  predicate AnswersAt(odd: nat, lines: seq<string>, k: nat)
    requires k < |lines|
  {
    AnswerText(lines[k]).Some? && (odd + FenceLines(lines[..k + 1])) % 2 == 0
  }

  lemma FenceLinesOn(first: string, more: seq<string>)
    ensures FenceLines([first] + more) == (if FenceOf(first).Some? then 1 else 0) + FenceLines(more)
  {
    assert ([first] + more)[1..] == more;
  }

  /** A question's answer is read from the first line that answers, any fence line opening or closing a fence. */
  lemma {:induction false} AnswerFirst(odd: nat, lines: seq<string>)
    ensures var n := AnswerAt(odd % 2 == 1, lines);
            && (n < |lines| ==> AnswersAt(odd, lines, n)) && forall k :: 0 <= k < n ==> !AnswersAt(odd, lines, k)
    decreases |lines|
  {
    hide FenceOf;
    hide AnswerText;
    if lines != [] {
      var next := odd + if FenceOf(lines[0]).Some? then 1 else 0;
      FenceLinesOn(lines[0], []);
      assert lines[..1] == [lines[0]] + [];
      AnswerFirst(next, lines[1..]);
      forall k | 0 < k < |lines| ensures AnswersAt(odd, lines, k) <==> AnswersAt(next, lines[1..], k - 1) {
        FenceLinesOn(lines[0], lines[1..][..k]);
        assert lines[..k + 1] == [lines[0]] + lines[1..][..k];
      }
      assert AnswersAt(odd, lines, 0) <==> next % 2 == 0 && AnswerText(lines[0]).Some?;
    }
  }

  /** What an entry says besides its heading's parts: the heading's text, the body trimmed, and a question's answer. */
  lemma EntrySays(line: string, body: seq<string>)
    requires HeadingText(line).Some?
    ensures var e, heading, n := EntryOf(line, body), Trimmed(HeadingText(line).value), AnswerAt(false, body);
            && e.heading == heading && (e.unreadable <==> ParseHeading(heading).None?)
            && (e.unreadable ==> e.kind == Note && e.date.None? && e.author.None? && e.state.None?)
            && (e.answer.Some? <==> !e.unreadable && e.kind == Question && n < |body|)
            && e.body == Trimmed(Join(if e.answer.Some? then body[..n] else body))
            && (e.answer.Some? ==> e.answer.value == Trimmed(Join([AnswerText(body[n]).value] + body[n + 1..])))
            && e.supersedes == (if e.kind == Decision then Supersedes(e.body) else [])
  {
    hide Trimmed;
    hide AnswerAt;
    hide Supersedes;
    hide TrailingId;
    hide ParseHeading;
    hide HeadingText;
  }

  // Authors

  /** What a cleaned author has one blank for: whitespace, and what would end or split a heading. */
  predicate IsGap(c: char) {
    IsSpace(c) || c as int in {0xB7, 94, 13, 10}
  }

  predicate AllGap(s: string) {
    forall k :: 0 <= k < |s| ==> IsGap(s[k])
  }

  predicate NoGap(s: string) {
    forall k :: 0 <= k < |s| ==> !IsGap(s[k])
  }

  /** Words with a gap after each. */
  datatype Chunk = Chunk(word: string, gap: string)

  predicate IsChunk(c: Chunk) {
    c.word != "" && c.gap != "" && NoGap(c.word) && AllGap(c.gap)
  }

  function Spelled(chunks: seq<Chunk>, last: string): string {
    if chunks == [] then last else chunks[0].word + (chunks[0].gap + Spelled(chunks[1..], last))
  }

  function Blanks(chunks: seq<Chunk>): seq<Chunk> {
    if chunks == [] then [] else [Chunk(chunks[0].word, " ")] + Blanks(chunks[1..])
  }

  function Runs(s: string): string {
    SpaceRuns(SpaceMarks(s))
  }

  lemma {:induction false} MarksPast(word: string, s: string)
    requires NoGap(word)
    ensures SpaceMarks(word + s) == word + SpaceMarks(s)
  {
    if word == "" {
      assert word + s == s;
    } else {
      assert (word + s)[1..] == word[1..] + s;
      MarksPast(word[1..], s);
    }
  }

  lemma {:induction false} RunsPast(word: string, s: string)
    requires NoGap(word)
    ensures SpaceRuns(word + s) == word + SpaceRuns(s)
  {
    if word == "" {
      assert word + s == s;
    } else {
      assert (word + s)[1..] == word[1..] + s;
      RunsPast(word[1..], s);
    }
  }

  lemma {:induction false} MarkLengthDoes(s: string)
    ensures var n := MarkLength(s);
            (forall k :: 0 <= k < n ==> IsMark(s[k])) && (n < |s| ==> !IsMark(s[n]))
  {
    if s != "" && IsMark(s[0]) {
      MarkLengthDoes(s[1..]);
    }
  }

  /** What the first of a gap becomes: its run of marks a blank, whitespace itself. */
  lemma FirstMarks(gap: string, s: string) returns (n: nat, here: string)
    requires gap != "" && AllGap(gap) && (s != "" ==> !IsGap(s[0]))
    ensures 0 < n <= |gap| && here != "" && Spaces(here)
    ensures SpaceMarks(gap + s) == here + SpaceMarks(gap[n..] + s)
  {
    var t := gap + s;
    assert t[0] == gap[0] && (s != "" ==> t[|gap|] == s[0]);
    if IsMark(t[0]) {
      MarkLengthDoes(t);
      n, here := MarkLength(t), " ";
      hide MarkLength;
      assert n <= |gap|;
    } else {
      n, here := 1, [t[0]];
    }
    assert t[n..] == gap[n..] + s;
  }

  /** A gap's marks become blanks, so it is whitespace then. */
  lemma {:induction false} GapMarks(gap: string, s: string) returns (blank: string)
    requires gap != "" && AllGap(gap) && (s != "" ==> !IsGap(s[0]))
    ensures SpaceMarks(gap + s) == blank + SpaceMarks(s) && blank != "" && Spaces(blank)
    decreases |gap|
  {
    var n, here := FirstMarks(gap, s);
    hide SpaceMarks;
    hide IsSpace;
    if n == |gap| {
      assert gap[n..] + s == s;
      blank := here;
    } else {
      var more := GapMarks(gap[n..], s);
      blank := here + more;
      assert (here + more) + SpaceMarks(s) == here + (more + SpaceMarks(s));
    }
  }

  lemma SpaceRun(blank: string, s: string)
    requires blank != "" && Spaces(blank) && (s != "" ==> !IsSpace(s[0]))
    ensures SpaceRuns(blank + s) == " " + SpaceRuns(s)
  {
    SpaceBefore(blank, s);
    assert SpaceLength(s) == 0;
    assert (blank + s)[|blank|..] == s;
  }

  lemma GapRuns(gap: string, s: string)
    requires gap != "" && AllGap(gap) && (s != "" ==> !IsGap(s[0]))
    ensures Runs(gap + s) == " " + Runs(s)
  {
    var blank := GapMarks(gap, s);
    assert s != "" ==> SpaceMarks(s)[0] == s[0];
    SpaceRun(blank, SpaceMarks(s));
  }

  function BlankIf(gap: string): string {
    if gap == "" then "" else " "
  }

  lemma LastGap(gap: string)
    requires AllGap(gap)
    ensures Runs(gap) == BlankIf(gap)
  {
    if gap != "" {
      assert gap + "" == gap;
      GapRuns(gap, "");
    }
  }

  lemma {:induction false} SpelledEnds(chunks: seq<Chunk>, last: string)
    requires (forall c :: c in chunks ==> IsChunk(c)) && last != "" && NoGap(last)
    ensures var s := Spelled(chunks, last); s != "" && !IsGap(s[0]) && !IsGap(s[|s| - 1])
  {
    if chunks != [] {
      assert chunks[0] in chunks;
      SpelledEnds(chunks[1..], last);
    }
  }

  lemma {:induction false} BlanksChunks(chunks: seq<Chunk>)
    requires forall c :: c in chunks ==> IsChunk(c)
    ensures forall c :: c in Blanks(chunks) ==> IsChunk(c)
  {
    if chunks != [] {
      assert chunks[0] in chunks;
      BlanksChunks(chunks[1..]);
    }
  }

  lemma {:induction false} ChunksRun(chunks: seq<Chunk>, last: string, after: string)
    requires (forall c :: c in chunks ==> IsChunk(c)) && last != "" && NoGap(last) && AllGap(after)
    ensures Runs(Spelled(chunks, last) + after) == Spelled(Blanks(chunks), last) + BlankIf(after)
  {
    hide SpaceRuns;
    hide SpaceMarks;
    if chunks == [] {
      LastGap(after);
      MarksPast(last, after);
      RunsPast(last, SpaceMarks(after));
    } else {
      assert chunks[0] in chunks;
      var c, more := chunks[0], Spelled(chunks[1..], last);
      ChunksRun(chunks[1..], last, after);
      SpelledEnds(chunks[1..], last);
      assert Spelled(chunks, last) + after == c.word + (c.gap + (more + after));
      MarksPast(c.word, c.gap + (more + after));
      RunsPast(c.word, SpaceMarks(c.gap + (more + after)));
      GapRuns(c.gap, more + after);
      assert Blanks(chunks)[1..] == Blanks(chunks[1..]);
    }
  }

  lemma RunsPadded(before: string, s: string)
    requires AllGap(before) && s != "" && !IsGap(s[0])
    ensures Runs(before + s) == BlankIf(before) + Runs(s)
  {
    hide Runs;
    if before == "" {
      assert before + s == s;
    } else {
      GapRuns(before, s);
    }
  }

  lemma TrimmedBlanks(before: string, s: string, after: string)
    requires s != "" && !IsGap(s[0]) && !IsGap(s[|s| - 1])
    ensures Trimmed(BlankIf(before) + (s + BlankIf(after))) == s
  {
    TrimmedPadded(BlankIf(before), s, BlankIf(after));
    Assoc(BlankIf(before), s, BlankIf(after));
    hide Trimmed;
  }

  lemma AuthorFrom(before: string, s: string, after: string, clean: string)
    requires AllGap(before) && s != "" && !IsGap(s[0])
    requires clean != "" && !IsGap(clean[0]) && !IsGap(clean[|clean| - 1])
    requires Runs(s + after) == clean + BlankIf(after)
    ensures CleanAuthor(before + s + after) == clean
  {
    hide Runs;
    hide IsGap;
    hide AllGap;
    assert (s + after)[0] == s[0];
    Assoc(before, s, after);
    RunsPadded(before, s + after);
    TrimmedBlanks(before, clean, after);
    RunsAre(before + s + after);
    hide CleanAuthor;
    hide Trimmed;
    hide BlankIf;
  }

  lemma RunsAre(author: string)
    ensures CleanAuthor(author) == Trimmed(Runs(author))
  {
  }

  /** A cleaned author has the words of the author, whole and in order, with one blank between each two. */
  lemma AuthorSays(before: string, chunks: seq<Chunk>, last: string, after: string)
    requires AllGap(before) && AllGap(after)
    requires (forall c :: c in chunks ==> IsChunk(c)) && last != "" && NoGap(last)
    ensures CleanAuthor(before + Spelled(chunks, last) + after) == Spelled(Blanks(chunks), last)
  {
    hide CleanAuthor;
    hide Runs;
    hide Spelled;
    ChunksRun(chunks, last, after);
    SpelledEnds(chunks, last);
    BlanksChunks(chunks);
    SpelledEnds(Blanks(chunks), last);
    AuthorFrom(before, Spelled(chunks, last), after, Spelled(Blanks(chunks), last));
  }

  /** And it is empty where there is none. */
  lemma NoAuthor(author: string)
    requires AllGap(author)
    ensures CleanAuthor(author) == ""
  {
    if author != "" {
      assert author + "" == author;
      GapRuns(author, "");
      assert Runs("") == "";
      TrimBackIs(" ", 1, 0);
    }
  }
}
