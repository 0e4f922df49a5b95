// The grammar of a discussion file, said by its characters.
module DiscussionGrammar {
  import opened Options
  import opened Space
  import opened Text
  import opened DiscussionText

  // Headings

  predicate IsTab(c: char) {
    c as int in {9, 32}
  }

  predicate BreaksLine(c: char) {
    c as int in {10, 13, 0x2028, 0x2029}
  }

  lemma {:induction false} TabsEnd(s: string)
    ensures var n := TabLength(s);
            && (forall k :: 0 <= k < n ==> IsTab(s[k])) && (n < |s| ==> !IsTab(s[n]))
  {
    if s != "" && IsTab(s[0]) {
      TabsEnd(s[1..]);
    }
  }

  lemma TabsMeet(s: string, m: nat, n: nat)
    requires m <= |s| && (forall k :: 0 <= k < m ==> IsTab(s[k])) && (m < |s| ==> !IsTab(s[m]))
    requires n <= |s| && (forall k :: 0 <= k < n ==> IsTab(s[k])) && (n < |s| ==> !IsTab(s[n]))
    ensures m == n
  {
  }

  /** A line is a heading that says `text`: two hashes, blanks, and the text on one line; or two hashes alone. */
  ghost predicate Heads(line: string, text: string) {
    || (line == "##" && text == "")
    || exists n: nat :: HeadsAfter(line, text, n)
  }

  predicate HeadsAfter(line: string, text: string, n: nat) {
    && 0 < n && 2 + n + |text| == |line| && line[..2] == "##" && line[2 + n..] == text
    && (forall k :: 2 <= k < 2 + n ==> IsTab(line[k])) && (text != "" ==> !IsTab(text[0]))
    && forall k :: 0 <= k < |text| ==> !BreaksLine(text[k])
  }

  lemma HeadingSays(line: string)
    ensures forall text :: HeadingText(line) == Some(text) <==> Heads(line, text)
  {
    forall text ensures HeadingText(line) == Some(text) <==> Heads(line, text) {
      HeadingFound(line, text);
      if line != "##" && Heads(line, text) {
        var n: nat :| HeadsAfter(line, text, n);
        HeadingMet(line, text, n);
      }
    }
  }

  lemma HeadingFound(line: string, text: string)
    ensures HeadingText(line) == Some(text) ==> Heads(line, text)
  {
    if HeadingText(line) == Some(text) && line != "##" {
      var rest := line[2..];
      var n := TabLength(rest);
      TabsEnd(rest);
      assert forall k :: 0 <= k < |rest| ==> rest[k] == line[2 + k];
      assert line[2 + n..] == text;
      assert HeadsAfter(line, text, n);
    }
  }

  lemma HeadingMet(line: string, text: string, m: nat)
    requires HeadsAfter(line, text, m)
    ensures HeadingText(line) == Some(text)
  {
    var rest := line[2..];
    TabsEnd(rest);
    assert forall k :: 0 <= k < |rest| ==> rest[k] == line[2 + k];
    assert rest[m..] == line[2 + m..];
    TabsMeet(rest, m, TabLength(rest));
  }

  // Fences

  lemma SpacesEnd(s: string)
    ensures forall k :: 0 <= k < SpaceLength(s) ==> IsSpace(s[k])
  {
    var n := SpaceLength(s);
    assert forall k :: 0 <= k < n ==> s[..n][k] == s[k];
  }

  lemma SpacesMeet(s: string, m: nat, n: nat)
    requires m <= |s| && (forall k :: 0 <= k < m ==> IsSpace(s[k])) && (m < |s| ==> !IsSpace(s[m]))
    requires n <= |s| && (forall k :: 0 <= k < n ==> IsSpace(s[k])) && (n < |s| ==> !IsSpace(s[n]))
    ensures m == n
  {
  }

  /** A line is a fence of a character: three of it, after whitespace alone. */
  ghost predicate Fences(line: string, c: char) {
    exists n: nat :: FencesAt(line, c, n)
  }

  predicate FencesAt(line: string, c: char, n: nat) {
    n + 3 <= |line| && (forall k :: 0 <= k < n ==> IsSpace(line[k])) && line[n..n + 3] == [c, c, c]
  }

  lemma FenceSays(line: string)
    ensures forall c :: FenceOf(line) == Some(c) <==> (c == '`' || c == '~') && Fences(line, c)
  {
    var n := SpaceLength(line);
    SpacesEnd(line);
    var rest := line[n..];
    assert forall k :: 0 <= k < |rest| ==> rest[k] == line[n + k];
    if FenceOf(line).Some? {
      var c := FenceOf(line).value;
      assert rest[..3] == [c, c, c] && line[n..n + 3] == rest[..3];
      assert FencesAt(line, c, n);
    }
    forall c | (c == '`' || c == '~') && Fences(line, c) ensures FenceOf(line) == Some(c) {
      var m: nat :| FencesAt(line, c, m);
      assert line[m] == line[m..m + 3][0] == c && !IsSpace(c);
      assert m == n;
      assert rest[..3] == line[m..m + 3];
      assert "```" == ['`', '`', '`'] && "~~~" == ['~', '~', '~'];
    }
  }

  // Kinds, states and dates

  /** Which states an entry of each kind may be in. */
  lemma StatesSay(kind: Kind, state: State)
    ensures state in States(kind) <==>
            || (kind == Idea && state in {Open, Accepted, Parked, Dropped})
            || (kind == Question && state in {Open, Answered})
  {
  }

  /** What is a date: four, two and two digits, with hyphens between. */
  lemma DateSays(s: string)
    ensures IsDate(s) <==>
            && |s| == 10 && s[4] as int == 45 && s[7] as int == 45
            && (forall k :: 0 <= k < 4 ==> 48 <= s[k] as int <= 57) && 48 <= s[5] as int <= 57
            && 48 <= s[6] as int <= 57 && 48 <= s[8] as int <= 57 && 48 <= s[9] as int <= 57
  {
  }

  /** What is an id: letters, digits and hyphens, at least one. */
  lemma IdSays(s: string)
    ensures IsId(s) <==> s != "" && forall k :: 0 <= k < |s| ==>
              var code := s[k] as int; 48 <= code <= 57 || 65 <= code <= 90 || 97 <= code <= 122 || code == 45
  {
  }

  // Answers

  /** A line answers with a text: `Answer:`, whitespace, and the text, which the line does not break. */
  ghost predicate Answers(line: string, text: string) {
    exists n: nat :: AnswersAfter(line, text, n)
  }

  predicate AnswersAfter(line: string, text: string, n: nat) {
    && 7 + n + |text| == |line| && line[..7] == "Answer:" && line[7 + n..] == text
    && (forall k :: 7 <= k < 7 + n ==> IsSpace(line[k])) && (text != "" ==> !IsSpace(text[0]))
    && forall k :: 0 <= k < |text| ==> !BreaksLine(text[k])
  }

  lemma AnswerSays(line: string)
    ensures forall text :: AnswerText(line) == Some(text) <==> Answers(line, text)
  {
    if "Answer:" <= line {
      var rest := line[7..];
      var n := SpaceLength(rest);
      SpacesEnd(rest);
      assert forall k :: 0 <= k < |rest| ==> rest[k] == line[7 + k];
      assert line[..7] == "Answer:";
      hide SpaceLength;
      if AnswerText(line).Some? {
        assert line[7 + n..] == rest[n..];
        assert AnswersAfter(line, line[7 + n..], n);
      }
      forall text, m: nat | AnswersAfter(line, text, m) ensures m == n && text == rest[n..] {
        assert rest[m..] == line[7 + m..];
        SpacesMeet(rest, m, n);
      }
    }
  }
}
