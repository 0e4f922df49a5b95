// The form of what the config editor writes and of what it leaves: lines, indentation and commas.
module ConfigLayout {
  import opened Options
  import opened Strings
  import opened Space
  import opened Json
  import opened JsonScan
  import opened ConfigFile
  import opened ConfigRender

  // JSON.stringify with two blanks

  /** The text of a value: what is in an array or object on lines of its own, two blanks further in. */
  function Pretty(v: Tree): string
    requires Storable(v)
    decreases v, 1
  {
    match v
    case Atom(text) => text
    case Text(units) => "\"" + Encode(units) + "\""
    case List(items) => if items == [] then "[]" else "[" + PrettyItems(items) + ("\n" + "]")
    case Object(entries) => if entries == [] then "{}" else "{" + PrettyEntries(entries) + ("\n" + "}")
  }

  function PrettyItems(items: seq<Tree>): string
    requires items != [] && ItemsStorable(items)
    decreases items, 0
  {
    "\n  " + Reindent(Pretty(items[0]), "  ") + if |items| == 1 then "" else "," + PrettyItems(items[1..])
  }

  function PrettyEntries(entries: seq<Entry>): string
    requires entries != [] && EntriesStorable(entries)
    decreases entries, 0
  {
    "\n  \"" + Encode(entries[0].key) + "\": " + Reindent(Pretty(entries[0].value), "  ")
    + if |entries| == 1 then "" else "," + PrettyEntries(entries[1..])
  }

  lemma {:induction false} StringifyIsPretty(v: Tree)
    requires Storable(v)
    ensures Stringify(v) == Pretty(v)
    decreases v, 1
  {
    match v
    case Atom(_) =>
    case Text(_) =>
    case List(items) =>
      if items != [] {
        ItemsArePretty(items);
        hide LayoutItems;
        hide PrintItems;
        hide PrettyItems;
        Bracketed("[", PrettyItems(items), "]");
      }
    case Object(entries) =>
      if entries != [] {
        EntriesArePretty(entries);
        hide LayoutMembers;
        hide PrintMembers;
        hide PrettyEntries;
        Bracketed("{", PrettyEntries(entries), "}");
      }
  }

  lemma Bracketed(open: string, inside: string, close: string)
    ensures open + "" + (inside + "\n") + close == open + inside + ("\n" + close)
  {
    assert open + "" == open;
    Assoc(open, inside, "\n");
    Assoc(open + inside, "\n", close);
  }

  lemma ItemsOn(items: seq<Tree>)
    requires items != [] && ItemsStorable(items)
    ensures PrintItems(LayoutItems(items, ""))
         == "\n  " + Print(Layout(items[0], "  "))
            + if |items| == 1 then "\n" else "," + PrintItems(LayoutItems(items[1..], ""))
  {
    var laid, value := LayoutItems(items, ""), Print(Layout(items[0], "  "));
    assert "" + "  " == "  " && "\n" + "  " == "\n  ";
    assert laid[1..] == LayoutItems(items[1..], "");
    hide Layout;
    hide LayoutItems;
    assert PrintItems(laid) == ItemText(laid[0], Print(laid[0].value)) + MoreItems(laid[1..]);
    hide Print;
    hide PrintItems;
    if |items| == 1 {
      assert "\n" + "" == "\n" && ("\n  " + value + "\n") + "" == "\n  " + value + "\n";
    } else {
      assert "\n  " + value + "" == "\n  " + value;
    }
  }

  lemma {:induction false} ItemsArePretty(items: seq<Tree>)
    requires items != [] && ItemsStorable(items)
    ensures PrintItems(LayoutItems(items, "")) == PrettyItems(items) + "\n"
    decreases items, 0
  {
    StringifyIsPretty(items[0]);
    LayoutReindented(items[0], "", "  ");
    assert "  " + "" == "  ";
    ItemsOn(items);
    hide Pretty;
    hide Layout;
    hide LayoutItems;
    hide Print;
    hide PrintItems;
    hide Reindent;
    var here := "\n  " + Reindent(Pretty(items[0]), "  ");
    if |items| == 1 {
      assert here + "" == here;
    } else {
      ItemsArePretty(items[1..]);
      Assoc(",", PrettyItems(items[1..]), "\n");
      Assoc(here, "," + PrettyItems(items[1..]), "\n");
    }
  }

  lemma KeyIsPretty(key: Units, value: Json, more: nat)
    requires IsText(key)
    ensures KeyText(LayoutMember(key, value, more, "")) == "\n  \"" + Encode(key) + "\": "
  {
    hide Encode;
    assert "\n" + ("" + "  ") + "\"" == "\n  \"";
    assert "\"" + ("" + ":" + " ") == "\": ";
    Assoc("\n  \"" + Encode(key), "\"", "" + ":" + " ");
  }

  lemma EntriesOn(entries: seq<Entry>)
    requires entries != [] && EntriesStorable(entries)
    ensures PrintMembers(LayoutMembers(entries, ""))
         == "\n  \"" + Encode(entries[0].key) + "\": " + Print(Layout(entries[0].value, "  "))
            + if |entries| == 1 then "\n" else "," + PrintMembers(LayoutMembers(entries[1..], ""))
  {
    var laid, value := LayoutMembers(entries, ""), Print(Layout(entries[0].value, "  "));
    assert "" + "  " == "  ";
    KeyIsPretty(entries[0].key, Layout(entries[0].value, "  "), |entries| - 1);
    assert laid[1..] == LayoutMembers(entries[1..], "");
    hide Layout;
    hide LayoutMembers;
    hide Encode;
    hide KeyText;
    assert PrintMembers(laid) == MemberText(laid[0], Print(laid[0].value)) + MoreMembers(laid[1..]);
    hide Print;
    hide PrintMembers;
    var here := "\n  \"" + Encode(entries[0].key) + "\": " + value;
    if |entries| == 1 {
      assert "\n" + "" == "\n" && (here + "\n") + "" == here + "\n";
    } else {
      assert here + "" == here;
    }
  }

  lemma {:induction false} EntriesArePretty(entries: seq<Entry>)
    requires entries != [] && EntriesStorable(entries)
    ensures PrintMembers(LayoutMembers(entries, "")) == PrettyEntries(entries) + "\n"
    decreases entries, 0
  {
    StringifyIsPretty(entries[0].value);
    LayoutReindented(entries[0].value, "", "  ");
    assert "  " + "" == "  ";
    EntriesOn(entries);
    hide Pretty;
    hide Layout;
    hide LayoutMembers;
    hide Print;
    hide PrintMembers;
    hide Reindent;
    hide Encode;
    var here := "\n  \"" + Encode(entries[0].key) + "\": " + Reindent(Pretty(entries[0].value), "  ");
    if |entries| == 1 {
      assert here + "" == here;
    } else {
      EntriesArePretty(entries[1..]);
      Assoc(",", PrettyEntries(entries[1..]), "\n");
      Assoc(here, "," + PrettyEntries(entries[1..]), "\n");
    }
  }

  /** A value is written as `JSON.stringify` writes it with two blanks, every line but the first set in further. */
  lemma RenderSays(v: Tree, indent: string)
    requires Storable(v)
    ensures Render(v, indent) == Reindent(Pretty(v), indent)
  {
    SplitJoinedWith(Stringify(v), indent);
    StringifyIsPretty(v);
  }

  // Where a line starts

  /** A text up to the start of a line. */
  predicate WholeLines(s: string) {
    s == "" || s[|s| - 1] == '\n'
  }

  lemma {:induction false} LineStartIs(text: string, offset: nat, start: nat)
    requires start <= offset <= |text| && WholeLines(text[..start])
    requires forall k :: start <= k < offset ==> text[k] != '\n'
    ensures LineStart(text, offset) == start
    decreases offset
  {
    if offset > start {
      LineStartIs(text, offset - 1, start);
    } else if start > 0 {
      assert text[start - 1] == text[..start][start - 1];
    }
  }

  lemma LineFound(before: string, lead: string, rest: string)
    requires WholeLines(before) && '\n' !in lead
    ensures var text, at := before + lead + rest, |before + lead|;
            LineStart(text, at) == |before| && text[|before|..at] == lead && text[..|before|] == before
  {
    var text := before + lead + rest;
    assert text[..|before|] == before;
    assert forall k :: |before| <= k < |before + lead| ==> text[k] == lead[k - |before|];
    LineStartIs(text, |before + lead|, |before|);
  }

  /** What a new member is set in by: the whitespace its neighbour stands after, or two blanks if there is none. */
  lemma IndentSays(before: string, lead: string, rest: string)
    requires WholeLines(before) && '\n' !in lead
    ensures var text, at := before + lead + rest, |before + lead|;
            && IndentAt(text, at) == (if Spaces(lead) then lead else "")
            && IndentOr(text, at) == (if Spaces(lead) && lead != "" then lead else "  ")
  {
    LineFound(before, lead, rest);
    hide LineStart;
  }

  // Removing a member

  predicate Tabs(s: string) {
    forall k :: 0 <= k < |s| ==> s[k] == ' ' || s[k] == '\t'
  }

  function KeptLead(lead: string): string {
    if Spaces(lead) then "" else lead
  }

  lemma {:induction false} SkipTabsIs(text: string, i: nat, j: nat)
    requires i <= j <= |text| && Tabs(text[i..j]) && (j < |text| ==> text[j] != ' ' && text[j] != '\t')
    ensures SkipTabs(text, i) == j
    decreases j - i
  {
    if i < j {
      assert text[i] == text[i..j][0];
      assert text[i + 1..j] == text[i..j][1..];
      SkipTabsIs(text, i + 1, j);
    }
  }

  predicate MemberOf(span: Span, before: string, lead: string, member: string) {
    && span.memberStart == |before + lead| && span.memberEnd == |before + lead + member|
    && span.memberStart < span.valueStart <= span.valueEnd == span.memberEnd
  }

  lemma CommaFound(front: string, gap: string, more: string)
    requires Spaces(gap)
    ensures var text := front + gap + ("," + more);
            SkipWs(text, |front|) == |front + gap| && text[|front + gap|] == ','
  {
    var text := front + gap + ("," + more);
    assert text[|front|..] == gap + ("," + more);
    SpaceLengthIs(gap + ("," + more), |gap|);
  }

  lemma LineEndFound(front: string, tabs: string, end: string, rest: string)
    requires Tabs(tabs) && (end == "\n" || end == "")
    requires end == "" ==> rest == "" || rest[0] !in {' ', '\t', '\n'}
    ensures SkipLineEnd(front + tabs + end + rest, |front|) == |front + tabs + end|
  {
    var text, at := front + tabs + end + rest, |front + tabs|;
    assert text[|front|..at] == tabs;
    assert end != "" ==> text[at] == '\n';
    assert end == "" && rest != "" ==> text[at] == rest[0];
    SkipTabsIs(text, |front|, at);
    hide SkipTabs;
  }

  lemma LeadTrimmed(before: string, lead: string, rest: string)
    requires WholeLines(before) && '\n' !in lead
    ensures var text, at := before + lead + rest, |before + lead|;
            text[..LineTrim(text, at)] == before + KeptLead(lead)
  {
    LineFound(before, lead, rest);
    hide LineStart;
    assert before + "" == before;
  }

  lemma Placed(before: string, lead: string, member: string, rest: string, span: Span)
    requires MemberOf(span, before, lead, member)
    ensures var text := before + lead + (member + rest);
            SpanIn(span, text) && text == (before + lead + member) + rest && text[span.memberEnd..] == rest
  {
    Assoc(before + lead, member, rest);
  }

  lemma LineEndCut(past: string, tabs: string, end: string, rest: string)
    requires Tabs(tabs) && (end == "\n" || end == "")
    requires end == "" ==> rest == "" || rest[0] !in {' ', '\t', '\n'}
    ensures var text := past + (tabs + end + rest);
            text[SkipLineEnd(text, |past|)..] == rest
  {
    LineEndFound(past, tabs, end, rest);
    hide SkipLineEnd;
    Assoc(past, tabs + end, rest);
    Assoc(past, tabs, end);
  }

  /** From here on a comma comes first, after whitespace, and behind its line's end there is the rest. */
  ghost predicate CommaNext(text: string, from: nat, rest: string) {
    && from <= |text|
    && var after := SkipWs(text, from);
    after < |text| && text[after] == ',' && text[SkipLineEnd(text, after + 1)..] == rest
  }

  lemma Sides(front: string, gap: string, tail: string)
    ensures front + (gap + ("," + tail)) == front + gap + ("," + tail)
    ensures front + (gap + ("," + tail)) == (front + gap + ",") + tail
  {
    Assoc(front, gap, "," + tail);
    Assoc(front + gap, ",", tail);
  }

  lemma CommaIs(front: string, gap: string, tail: string, rest: string)
    requires Spaces(gap)
    requires var text := front + gap + ("," + tail);
             text[SkipLineEnd(text, |front + gap| + 1)..] == rest
    ensures CommaNext(front + gap + ("," + tail), |front|, rest)
  {
    CommaFound(front, gap, tail);
    hide SkipWs;
    hide SkipLineEnd;
  }

  lemma TailFound(front: string, gap: string, tabs: string, end: string, rest: string)
    requires Spaces(gap) && Tabs(tabs) && (end == "\n" || end == "")
    requires end == "" ==> rest == "" || rest[0] !in {' ', '\t', '\n'}
    ensures CommaNext(front + (gap + ("," + (tabs + end + rest))), |front|, rest)
  {
    hide CommaNext;
    hide SkipLineEnd;
    var tail := tabs + end + rest;
    LineEndCut(front + gap + ",", tabs, end, rest);
    Sides(front, gap, tail);
    assert |front + gap + ","| == |front + gap| + 1;
    CommaIs(front, gap, tail, rest);
  }

  lemma CommaCut(text: string, span: Span, front: string, rest: string)
    requires SpanIn(span, text) && CommaNext(text, span.memberEnd, rest)
    requires text[..LineTrim(text, span.memberStart)] == front
    ensures RemoveMember(text, span) == front + rest
  {
    hide SkipWs;
    hide SkipLineEnd;
    hide LineTrim;
  }

  /**
   * A member with a comma after it goes with the comma, the blanks and the line end after that, and the whitespace
   * before it on its line, if there is nothing else: a member on a line of its own goes with its line.
   */
  lemma CommaRemoved(before: string, lead: string, member: string, gap: string, tabs: string, end: string, rest: string,
                     span: Span)
    requires WholeLines(before) && '\n' !in lead && Spaces(gap) && Tabs(tabs) && (end == "\n" || end == "")
    requires MemberOf(span, before, lead, member)
    requires end == "" ==> rest == "" || rest[0] !in {' ', '\t', '\n'}
    ensures var text := before + lead + (member + (gap + ("," + (tabs + end + rest))));
            SpanIn(span, text) && RemoveMember(text, span) == before + KeptLead(lead) + rest
  {
    hide CommaNext;
    hide LineTrim;
    hide KeptLead;
    hide RemoveMember;
    var after := gap + ("," + (tabs + end + rest));
    Placed(before, lead, member, after, span);
    TailFound(before + lead + member, gap, tabs, end, rest);
    LeadTrimmed(before, lead, member + after);
    CommaCut(before + lead + (member + after), span, before + KeptLead(lead), rest);
  }

  lemma CommaBefore(before: string, gap: string, rest: string)
    requires Spaces(gap)
    ensures var text, at := before + "," + gap + rest, |before + "," + gap|;
            TrimBack(text, at) == |before| + 1 && text[|before|] == ',' && text[..|before|] == before
  {
    var text, at := before + "," + gap + rest, |before + "," + gap|;
    assert forall k :: |before| < k < at ==> text[k] == gap[k - |before| - 1];
    assert text[|before|] == ',';
    TrimBackIs(text, at, |before| + 1);
  }

  /** The last of several goes with the comma before it and the whitespace between. */
  lemma LastRemoved(before: string, gap: string, member: string, rest: string, span: Span)
    requires Spaces(gap) && MemberOf(span, before + ",", gap, member)
    requires SpaceLength(rest) == |rest| || rest[SpaceLength(rest)] != ','
    ensures var text := before + "," + gap + (member + rest);
            SpanIn(span, text) && RemoveMember(text, span) == before + rest
  {
    Placed(before + ",", gap, member, rest, span);
    NoComma(before + "," + gap + member, rest);
    CommaBefore(before, gap, member + rest);
    hide SkipWs;
    hide SpaceLength;
    hide TrimBack;
  }

  lemma NoComma(front: string, rest: string)
    requires SpaceLength(rest) == |rest| || rest[SpaceLength(rest)] != ','
    ensures var text := front + rest;
            var after := SkipWs(text, |front|); after == |text| || text[after] != ','
  {
    assert (front + rest)[|front|..] == rest;
    hide SpaceLength;
  }

  lemma BackAlone(front: string, rest: string)
    ensures var n := TrimBack(front, |front|);
            TrimBack(front + rest, |front|) == n && (n > 0 ==> (front + rest)[n - 1] == front[n - 1])
  {
    TrimBackDoes(front, |front|);
    assert forall k :: 0 <= k < |front| ==> (front + rest)[k] == front[k];
    TrimBackIs(front + rest, |front|, TrimBack(front, |front|));
    hide TrimBack;
  }

  /** The only one goes with the whitespace before it on its line, if there is nothing else. */
  lemma OnlyRemoved(before: string, lead: string, member: string, rest: string, span: Span)
    requires WholeLines(before) && '\n' !in lead && MemberOf(span, before, lead, member)
    requires SpaceLength(rest) == |rest| || rest[SpaceLength(rest)] != ','
    requires var n := TrimBack(before + lead, |before + lead|); n == 0 || (before + lead)[n - 1] != ','
    ensures var text := before + lead + (member + rest);
            SpanIn(span, text) && RemoveMember(text, span) == before + KeptLead(lead) + rest
  {
    hide TrimBack;
    hide SkipWs;
    hide SpaceLength;
    hide LineTrim;
    hide KeptLead;
    Placed(before, lead, member, rest, span);
    NoComma(before + lead + member, rest);
    BackAlone(before + lead, member + rest);
    LeadTrimmed(before, lead, member + rest);
  }

  // Adding a member

  function MemberLine(key: Units, v: Tree, indent: string): string
    requires IsText(key) && Storable(v)
  {
    "\n" + indent + ("\"" + Encode(key)) + "\": " + Reindent(Pretty(v), indent)
  }

  /** The base a new line is set in from: the whitespace before the text on its line, if that is all there is. */
  function LeadBlank(lead: string): string {
    if Spaces(lead) then lead else ""
  }

  /** A new member goes after the last one, on a line of its own, set in like that one or by two blanks. */
  lemma AddedAfter(before: string, lead: string, member: string, rest: string, owner: nat, spans: seq<Span>, key: Units,
                   v: Tree)
    requires WholeLines(before) && '\n' !in lead && IsText(key) && Storable(v)
    requires spans != [] && MemberOf(spans[|spans| - 1], before, lead, member)
    requires var text := before + lead + (member + rest);
             && owner < |text| && text[owner] == '{'
             && MembersOf(text, owner) == Some(spans) && ScanValue(text, owner).Some?
    ensures var text, indent := before + lead + (member + rest), if LeadBlank(lead) == "" then "  " else lead;
            InsertMember(text, owner, key, v)
            == Some(before + lead + member + ("," + MemberLine(key, v, indent)) + rest)
  {
    hide MembersOf;
    hide ScanValue;
    hide Encode;
    hide IndentOr;
    hide InsertMember;
    var text, last := before + lead + (member + rest), spans[|spans| - 1];
    Placed(before, lead, member, rest, last);
    assert text[..last.memberEnd] == before + lead + member;
    IndentSays(before, lead, member + rest);
    InsertedAfter(text, owner, spans, key, v);
    hide Pretty;
    hide Reindent;
  }

  lemma InsertedAfter(text: string, owner: nat, spans: seq<Span>, key: Units, v: Tree)
    requires IsText(key) && Storable(v) && owner < |text| && text[owner] == '{'
    requires MembersOf(text, owner) == Some(spans) && spans != [] && ScanValue(text, owner).Some?
    ensures var last := spans[|spans| - 1];
            && SpanIn(last, text)
            && var indent := IndentOr(text, last.memberStart);
            InsertMember(text, owner, key, v)
            == Some(text[..last.memberEnd] + ("," + MemberLine(key, v, indent)) + text[last.memberEnd..])
  {
    hide MembersOf;
    hide ScanValue;
    hide Encode;
    hide IndentOr;
    var indent := IndentOr(text, spans[|spans| - 1].memberStart);
    RenderSays(v, indent);
    hide Render;
    hide Pretty;
    hide Reindent;
    CommaLine(indent, "\"" + Encode(key), Reindent(Pretty(v), indent));
  }

  /** In an empty object it goes on a line of its own, two blanks further in than the object's, and closes it there. */
  lemma AddedFirst(before: string, lead: string, inside: string, rest: string, key: Units, v: Tree)
    requires WholeLines(before) && '\n' !in lead && IsText(key) && Storable(v)
    requires var text, owner := before + lead + ("{" + (inside + ("}" + rest))), |before + lead|;
             && MembersOf(text, owner) == Some([])
             && ScanValue(text, owner) == Some(owner + 1 + |inside| + 1)
    ensures var text, owner := before + lead + ("{" + (inside + ("}" + rest))), |before + lead|;
            var base := LeadBlank(lead);
            InsertMember(text, owner, key, v)
            == Some(before + lead + "{" + MemberLine(key, v, base + "  ") + "\n" + base + ("}" + rest))
  {
    hide MembersOf;
    hide ScanValue;
    hide Encode;
    var text, owner := before + lead + ("{" + (inside + ("}" + rest))), |before + lead|;
    IndentSays(before, lead, "{" + (inside + ("}" + rest)));
    var base := IndentAt(text, owner);
    RenderSays(v, base + "  ");
    hide Render;
    hide IndentAt;
    hide Pretty;
    hide Reindent;
    EmptyAt(before + lead, inside, rest);
    OwnLine(before + lead + "{", base + "  ", "\"" + Encode(key), Reindent(Pretty(v), base + "  "));
  }

  lemma EmptyAt(front: string, inside: string, rest: string)
    ensures var text := front + ("{" + (inside + ("}" + rest)));
            text[..|front| + 1] == front + "{" && text[|front| + 1 + |inside|..] == "}" + rest
  {
    var text := front + ("{" + (inside + ("}" + rest)));
    Assoc(front, "{", inside + ("}" + rest));
    Assoc(front + "{", inside, "}" + rest);
    assert text == (front + "{" + inside) + ("}" + rest);
  }

  lemma OwnLine(open: string, inner: string, quoted: string, value: string)
    ensures open + "\n" + inner + (quoted + "\"") + ": " + value == open + ("\n" + inner + quoted + "\": " + value)
  {
    assert "\": " == "\"" + ": ";
  }

  lemma CommaLine(indent: string, quoted: string, value: string)
    ensures ",\n" + indent + (quoted + "\"") + ": " + value == "," + ("\n" + indent + quoted + "\": " + value)
  {
    assert ",\n" == "," + "\n";
    assert "\": " == "\"" + ": ";
  }
}
