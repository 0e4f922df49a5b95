// Adding a member to an object: the text the editor writes is the object with one more member.
module ConfigInsert {
  import opened Strings
  import opened Options
  import opened Json
  import opened JsonScan
  import opened JsonSpans
  import opened ConfigRender
  import opened ConfigFile
  import opened ConfigSplice
  import opened ConfigEdit

  lemma NewKeyText(b: string, key: Units, value: Json, after: string)
    requires IsText(key)
    ensures KeyText(Member(b, Encode(key), "", " ", value, after)) == ((b + Quoted(key)) + ": ")
  {
    hide Encode;
    var raw := Encode(key);
    assert "" + ":" + " " == ": ";
    Assoc(b, "\"", raw);
    Assoc(b, "\"" + raw, "\"");
  }

  lemma RegroupEmpty(pre: string, open: string, nl: string, inner: string, q: string, colon: string, r: string,
                     indent: string, close: string, post: string)
    ensures ((((((((pre + open) + nl) + inner) + q) + colon) + r) + nl) + indent) + (close + post)
         == (pre + ((open + (((((nl + inner) + q) + colon) + r) + (nl + indent))) + close)) + post
  {
    var x := (((nl + inner) + q) + colon) + r;
    var y := x + (nl + indent);
    Assoc(pre + open, nl, inner);
    Assoc(pre + open, nl + inner, q);
    Assoc(pre + open, (nl + inner) + q, colon);
    Assoc(pre + open, ((nl + inner) + q) + colon, r);
    Assoc((pre + open) + x, nl, indent);
    Assoc(pre + open, x, nl + indent);
    Assoc(pre, open, y);
    Assoc(pre, open + y, close);
    Assoc((pre + open) + y, close, post);
  }

  /** The member the editor writes. */
  function NewMember(before: string, key: Units, v: Tree, indent: string, after: string): Member
    requires IsText(key) && Storable(v)
  {
    Member("\n" + before, Encode(key), "", " ", Layout(v, indent), after)
  }

  lemma NewMemberMeans(before: string, key: Units, v: Tree, indent: string, after: string)
    requires IsText(key) && Storable(v) && Blank(before) && Blank(indent) && Blank(after)
    ensures var m := NewMember(before, key, v, indent, after);
            && MembersWellFormed([m]) && KeyOf(m) == key && Meaning(m.value) == v
  {
    DecodeEncode(key);
    LayoutMeans(v, indent);
    hide Decode;
    hide Encode;
    hide WellFormed;
    hide Layout;
    var m := NewMember(before, key, v, indent, after);
    assert [m][1..] == [];
  }

  lemma ScanValueHere(pre: string, j: Json, post: string)
    requires WellFormed(j) && !j.Scalar?
    ensures var text := pre + Print(j) + post;
            |pre| <= |text| && text[..|pre|] == pre && ScanValue(text, |pre|) == Some(|pre| + |Print(j)|)
  {
    hide Print;
    hide WellFormed;
    hide ScanValue;
    var text := pre + Print(j) + post;
    Assoc(pre, Print(j), post);
    assert text[|pre|..] == Print(j) + post;
    ValueFound(text, |pre|, j, post);
  }

  lemma Ends(open: string, blank: string, close: string)
    ensures var text := open + blank + close;
            text[..|open|] == open && text[|open| + |blank|..] == close
  {
  }

  lemma RegroupBraces(pre: string, blank: string, post: string)
    ensures pre + ("{" + blank + "}") + post == (pre + "{") + blank + ("}" + post)
  {
    Assoc(pre, "{" + blank, "}");
    Assoc(pre, "{", blank);
    Assoc(pre + "{" + blank, "}", post);
  }

  lemma EmptyPrint(blank: string)
    ensures Print(Obj(blank, [])) == "{" + blank + "}"
  {
    assert PrintMembers([]) == "";
  }

  /** The new member's text after the object's opening brace, and the closing brace on its own line. */
  lemma FirstWritten(pre: string, blank: string, post: string, key: Units, v: Tree)
    requires Blank(blank) && CleanEnd(pre) && IsText(key) && Storable(v)
    ensures var text := pre + Print(Obj(blank, [])) + post;
            && |pre| < |text| && text[|pre|] == '{' && Blank(IndentAt(text, |pre|))
            && var indent := IndentAt(text, |pre|);
            InsertMember(text, |pre|, key, v)
            == Some((((((((pre + "{") + "\n") + (indent + "  ")) + Quoted(key)) + ": ") + Render(v, indent + "  "))
              + "\n")
                    + indent + ("}" + post))
  {
    var j := Obj(blank, []);
    var text := pre + Print(j) + post;
    ScannedHere(pre, blank, [], post);
    ScanValueHere(pre, j, post);
    EmptyPrint(blank);
    hide Print;
    hide ScanValue;
    hide MembersOf;
    hide WellFormed;
    hide CleanEnd;
    hide Render;
    hide Quoted;
    IndentBlank(text, |pre|);
    hide IndentAt;
    RegroupBraces(pre, blank, post);
    Ends(pre + "{", blank, "}" + post);
  }

  lemma OnePrint(m: Member)
    ensures Print(Obj("", [m])) == ("{" + MemberText(m, Print(m.value))) + "}"
  {
    hide MemberText;
    assert [m][1..] == [];
    var t := MemberText(m, Print(m.value));
    assert PrintMembers([m]) == t + "";
    assert t + "" == t && "{" + "" == "{";
  }

  lemma NewMemberText(before: string, key: Units, v: Tree, indent: string, after: string)
    requires IsText(key) && Storable(v)
    ensures var m := NewMember(before, key, v, indent, after);
            MemberText(m, Print(m.value)) == (((("\n" + before) + Quoted(key)) + ": ") + Render(v, indent)) + after
  {
    var m := NewMember(before, key, v, indent, after);
    RenderIsLayout(v, indent);
    NewKeyText("\n" + before, key, m.value, after);
    hide KeyText;
    hide Layout;
    hide Render;
    hide Print;
    hide Quoted;
    hide Encode;
  }

  lemma InsertedFirst(pre: string, blank: string, post: string, key: Units, v: Tree) returns (j: Json)
    requires Blank(blank) && CleanEnd(pre) && IsText(key) && Storable(v)
    ensures WellFormed(j) && j.Obj? && Meaning(j) == Object([Entry(key, v)])
    ensures var text := pre + Print(Obj(blank, [])) + post;
            |pre| < |text| && text[|pre|] == '{' && InsertMember(text, |pre|, key, v) == Some(pre + Print(j) + post)
  {
    hide Print;
    hide Render;
    hide IndentAt;
    hide InsertMember;
    hide Quoted;
    hide NewMember;
    hide MemberText;
    hide Meaning;
    hide WellFormed;
    hide CleanEnd;
    var text := pre + Print(Obj(blank, [])) + post;
    FirstWritten(pre, blank, post, key, v);
    var indent := IndentAt(text, |pre|);
    var inner := indent + "  ";
    assert Blank("\n" + indent);
    var m := NewMember(inner, key, v, inner, "\n" + indent);
    NewMemberMeans(inner, key, v, inner, "\n" + indent);
    OneWellFormed(m);
    ObjectWellFormed([m]);
    j := Obj("", [m]);
    NewMemberText(inner, key, v, inner, "\n" + indent);
    OnePrint(m);
    RegroupEmpty(pre, "{", "\n", inner, Quoted(key), ": ", Render(v, inner), indent, "}", post);
  }

  lemma FrontAfter(pre: string, xs: seq<Member>, m: Member)
    ensures Front(pre, xs + [m.(after := "")]) == (InnerPre(pre, xs, m) + Print(m.value)) + ","
  {
    var bare := m.(after := "");
    LeadLast(xs, bare);
    assert KeyText(bare) == KeyText(m);
    hide KeyText;
    hide Print;
    hide Lead;
    var t := KeyText(m) + Print(m.value);
    assert MemberText(bare, Print(m.value)) == t by { assert t + "" == t; }
    hide MemberText;
    Assoc(pre + "{", Lead(xs), t + ",");
    Assoc(pre + "{" + Lead(xs), t, ",");
    Assoc(pre + "{" + Lead(xs), KeyText(m), Print(m.value));
  }

  lemma RegroupLast(a: string, indent: string, q: string, r: string, after: string, back: string)
    ensures (a + (",\n" + indent + q + ": " + r)) + (after + back)
         == ((a + ",") + ((((("\n" + indent) + q) + ": ") + r) + after)) + back
  {
    assert ",\n" == "," + "\n";
    Assoc(",", "\n", indent);
    Assoc(",", "\n" + indent, q);
    Assoc(",", "\n" + indent + q, ": ");
    Assoc(",", "\n" + indent + q + ": ", r);
    var x := "\n" + indent + q + ": " + r;
    Assoc(a, ",", x);
    Assoc(a + "," + x, after, back);
    Assoc(a + ",", x, after);
  }

  lemma LastSplit(pre: string, xs: seq<Member>, last: Member, post: string)
    ensures var text := pre + Print(Obj("", xs + [last])) + post;
            var head := InnerPre(pre, xs, last) + Print(last.value);
            |head| <= |text| && text[..|head|] == head && text[|head|..] == InnerPost(last, [], post)
  {
    assert xs + [last] == xs + [last] + [] && last.(value := last.value) == last;
    Inside(pre, xs, last, last.value, [], post);
    hide Print;
    hide InnerPre;
    hide InnerPost;
    var head, post2 := InnerPre(pre, xs, last) + Print(last.value), InnerPost(last, [], post);
    Ends(head, "", post2);
    assert head + "" == head;
  }

  /** The text up to the last member's value, a comma and the new member on a line of its own, then what was there. */
  lemma LastWritten(pre: string, xs: seq<Member>, last: Member, post: string, key: Units, v: Tree)
    requires MembersWellFormed(xs + [last]) && IsText(key) && Storable(v)
    ensures var text := pre + Print(Obj("", xs + [last])) + post;
            var at := |Front(pre, xs)| + |last.before|;
            && |pre| < |text| && text[|pre|] == '{' && at <= |text| && Blank(IndentOr(text, at))
            && var indent := IndentOr(text, at);
            InsertMember(text, |pre|, key, v)
            == Some(InnerPre(pre, xs, last) + Print(last.value)
              + (",\n" + indent + Quoted(key) + ": " + Render(v, indent))
                    + InnerPost(last, [], post))
  {
    hide Print;
    hide ScanValue;
    hide MembersOf;
    hide WellFormed;
    hide MembersWellFormed;
    hide Decode;
    hide Render;
    hide Quoted;
    hide IndentOr;
    hide IndentAt;
    hide InnerPre;
    hide InnerPost;
    hide Front;
    assert xs + [last] == xs + [last] + [];
    ObjectWellFormed(xs + [last]);
    ScanValueHere(pre, Obj("", xs + [last]), post);
    SpanFound(pre, xs, last, [], post);
    LastSplit(pre, xs, last, post);
    WellFormedParts(xs, last, []);
    OneWellFormed(last);
    MemberIndent(pre, xs, last, [], post);
  }

  lemma InsertedLast(pre: string, xs: seq<Member>, last: Member, post: string, key: Units, v: Tree) returns (j: Json)
    requires MembersWellFormed(xs + [last]) && IsText(key) && Storable(v)
    ensures WellFormed(j) && j.Obj? && Meaning(j) == Object(MembersMeaning(xs + [last]) + [Entry(key, v)])
    ensures var text := pre + Print(Obj("", xs + [last])) + post;
            |pre| < |text| && text[|pre|] == '{' && InsertMember(text, |pre|, key, v) == Some(pre + Print(j) + post)
  {
    LastWritten(pre, xs, last, post, key, v);
    var text := pre + Print(Obj("", xs + [last])) + post;
    var indent := IndentOr(text, |Front(pre, xs)| + |last.before|);
    var bare := last.(after := "");
    var m := NewMember(indent, key, v, indent, last.after);
    LastMeans(xs, last, m, key, v, indent);
    j := Obj("", xs + [bare] + [m]);
    FrontAfter(pre, xs, last);
    AroundMember(pre, xs + [bare], m, [], post);
    assert xs + [bare] + [m] == xs + [bare] + [m] + [];
    NewMemberText(indent, key, v, indent, last.after);
    assert InnerPost(last, [], post) == last.after + Back([], post);
    hide Print;
    hide Render;
    hide IndentOr;
    hide InsertMember;
    hide Quoted;
    hide NewMember;
    hide MemberText;
    hide Front;
    hide InnerPre;
    hide InnerPost;
    hide Back;
    hide WellFormed;
    hide Meaning;
    hide MembersWellFormed;
    RegroupLast(InnerPre(pre, xs, last) + Print(last.value), indent, Quoted(key), Render(v, indent), last.after,
      Back([], post));
  }

  lemma LastMeans(xs: seq<Member>, last: Member, m: Member, key: Units, v: Tree, indent: string)
    requires MembersWellFormed(xs + [last]) && IsText(key) && Storable(v) && Blank(indent)
    requires m == NewMember(indent, key, v, indent, last.after)
    ensures var ms := xs + [last.(after := "")] + [m];
            WellFormed(Obj("", ms)) && Meaning(Obj("", ms)) == Object(MembersMeaning(xs + [last]) + [Entry(key, v)])
  {
    var bare := last.(after := "");
    assert xs + [last] == xs + [last] + [];
    WellFormedParts(xs, last, []);
    NewMemberMeans(indent, key, v, indent, last.after);
    assert MembersWellFormed([bare]) by {
      hide Decode;
      assert [bare][1..] == [] && [last][1..] == [];
    }
    MeaningSplit(xs, last, []);
    MeaningSplit(xs, bare, []);
    assert xs + [bare] == xs + [bare] + [];
    MeaningSplit(xs + [bare], m, []);
    assert xs + [bare] + [m] == xs + [bare] + [m] + [];
    assert MembersMeaning([]) == [];
    assert KeyOf(bare) == KeyOf(last);
    hide MembersMeaning;
    hide MembersWellFormed;
    hide KeyOf;
    hide Decode;
    hide NewMember;
    hide Storable;
  }

  /** Adding a member gives the object's entries with the new one last, and touches nothing outside the object. */
  lemma Inserted(pre: string, blank: string, ms: seq<Member>, post: string, key: Units, v: Tree) returns (j: Json)
    requires WellFormed(Obj(blank, ms)) && CleanEnd(pre) && IsText(key) && Storable(v)
    ensures WellFormed(j) && j.Obj? && Meaning(j) == Object(MembersMeaning(ms) + [Entry(key, v)])
    ensures var text := pre + Print(Obj(blank, ms)) + post;
            |pre| < |text| && text[|pre|] == '{' && InsertMember(text, |pre|, key, v) == Some(pre + Print(j) + post)
  {
    if ms == [] {
      j := InsertedFirst(pre, blank, post, key, v);
      assert MembersMeaning(ms) + [Entry(key, v)] == [Entry(key, v)];
    } else {
      var n := |ms| - 1;
      assert ms == ms[..n] + [ms[n]];
      j := InsertedLast(pre, ms[..n], ms[n], post, key, v);
    }
  }
}
