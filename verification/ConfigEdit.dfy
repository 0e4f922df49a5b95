// A member's value inside a whole text, and what replacing it there does.
module ConfigEdit {
  import opened Strings
  import opened Space
  import opened Json
  import opened JsonScan
  import opened JsonSpans
  import opened ConfigFile
  import opened ConfigSplice

  // One object inside another

  function InnerPre(pre: string, xs: seq<Member>, m: Member): string {
    Front(pre, xs) + KeyText(m)
  }

  function InnerPost(m: Member, zs: seq<Member>, post: string): string {
    m.after + Back(zs, post)
  }

  /** A whole text seen from the value of one member of an object in it, whatever that value is. */
  lemma Inside(pre: string, xs: seq<Member>, m: Member, value: Json, zs: seq<Member>, post: string)
    ensures pre + Print(Obj("", xs + [m.(value := value)] + zs)) + post
         == InnerPre(pre, xs, m) + Print(value) + InnerPost(m, zs, post)
  {
    var m2 := m.(value := value);
    AroundMember(pre, xs, m2, zs, post);
    assert KeyText(m2) == KeyText(m);
    hide Print;
    hide KeyText;
    hide Front;
    hide Back;
    var front, key, v := Front(pre, xs), KeyText(m), Print(value);
    Assoc(front, key + v, m.after);
    Assoc(front, key, v);
    Assoc(front + key + v, m.after, Back(zs, post));
  }

  lemma Spliced(a: string, before: string, after: string, b: string)
    ensures var text := a + before + b;
            |a| + |before| <= |text| && text[..|a|] + after + text[|a| + |before|..] == a + after + b
  {
    var text := a + before + b;
    assert text[..|a|] == a;
    assert text[|a| + |before|..] == b;
  }

  lemma FrontEnds(pre: string, xs: seq<Member>)
    ensures Front(pre, xs) != "" && !IsSpace(Front(pre, xs)[|Front(pre, xs)| - 1])
  {
    if xs == [] {
      assert Front(pre, xs) == pre + "{";
    } else {
      var n := |xs| - 1;
      assert xs == xs[..n] + [xs[n]];
      LeadLast(xs[..n], xs[n]);
      hide Print;
      hide MemberText;
      hide Lead;
      var lead := Lead(xs);
      assert lead[|lead| - 1] == ',';
    }
  }

  lemma InnerPreClean(pre: string, xs: seq<Member>, m: Member)
    requires MemberBlanks(m)
    ensures CleanEnd(InnerPre(pre, xs, m))
  {
    hide Decode;
    hide Front;
    var start := m.before + "\"" + m.raw + "\"";
    Assoc(start, m.beforeColon + ":", m.afterColon);
    Assoc(start, m.beforeColon, ":");
    Assoc(Front(pre, xs), start + m.beforeColon + ":", m.afterColon);
    EndsInColon(Front(pre, xs) + (start + m.beforeColon + ":"));
    hide CleanEnd;
    CleanBlank(Front(pre, xs) + (start + m.beforeColon + ":"), m.afterColon);
  }

  lemma EndsInColon(s: string)
    requires s != "" && s[|s| - 1] == ':'
    ensures CleanEnd(s)
  {
  }

  /** Where the scanner puts a member's offsets in the whole text. */
  lemma SpanPlace(pre: string, xs: seq<Member>, m: Member)
    requires Decode(m.raw).Some?
    ensures var span := SpanOf(|pre| + 1 + |Lead(xs)|, m);
            && span.memberStart == |Front(pre, xs)| + |m.before|
            && span.valueStart == |InnerPre(pre, xs, m)|
            && span.valueEnd == span.memberEnd == |InnerPre(pre, xs, m)| + |Print(m.value)|
  {
    hide Print;
    hide KeyText;
    hide Lead;
    hide Decode;
  }

  /** The text before a member's key ends in nothing but its own whitespace, so its indentation is JSON's. */
  lemma MemberIndent(pre: string, xs: seq<Member>, m: Member, zs: seq<Member>, post: string)
    requires Blank(m.before)
    ensures var text := pre + Print(Obj("", xs + [m] + zs)) + post;
            var start := |Front(pre, xs)| + |m.before|;
            start <= |text| && Blank(IndentOr(text, start)) && Blank(IndentAt(text, start))
  {
    FrontEnds(pre, xs);
    AroundMember(pre, xs, m, zs, post);
    var front := Front(pre, xs);
    var rest := "\"" + m.raw + "\"" + ColonText(m) + Print(m.value) + m.after;
    var text := pre + Print(Obj("", xs + [m] + zs)) + post;
    assert MemberText(m, Print(m.value)) == m.before + rest by {
      hide Print;
      hide ColonText;
      Assoc(m.before, "\"", m.raw);
      Assoc(m.before, "\"" + m.raw, "\"");
      Assoc(m.before, "\"" + m.raw + "\"", ColonText(m));
      Assoc(m.before, "\"" + m.raw + "\"" + ColonText(m), Print(m.value));
      Assoc(m.before, "\"" + m.raw + "\"" + ColonText(m) + Print(m.value), m.after);
    }
    hide Print;
    hide Front;
    hide Back;
    hide MemberText;
    Assoc(front, m.before, rest);
    Assoc(front + m.before, rest, Back(zs, post));
    assert text[..|front| + |m.before|] == front + m.before;
    assert CleanEnd(front);
    CleanBlank(front, m.before);
    hide CleanEnd;
    IndentBlank(text, |front| + |m.before|);
  }

  lemma ObjectWellFormed(ms: seq<Member>)
    requires MembersWellFormed(ms)
    ensures WellFormed(Obj("", ms)) && Meaning(Obj("", ms)) == Object(MembersMeaning(ms))
  {
  }

  lemma OneWellFormed(m: Member)
    requires MembersWellFormed([m])
    ensures MemberBlanks(m) && WellFormed(m.value) && MembersMeaning([m]) == [Entry(KeyOf(m), Meaning(m.value))]
  {
    hide WellFormed;
    hide Meaning;
    hide Decode;
    assert [m][1..] == [];
  }

  /** What the scanner finds of one member: where it starts, and where its value starts and ends. */
  lemma SpanFound(pre: string, xs: seq<Member>, m: Member, zs: seq<Member>, post: string)
    requires MembersWellFormed(xs + [m] + zs)
    ensures var text := pre + Print(Obj("", xs + [m] + zs)) + post;
            && |pre| < |text| && text[|pre|] == '{' && MembersOf(text, |pre|).Some?
            && var spans := MembersOf(text, |pre|).value;
            && |spans| == |xs + [m] + zs|
            && spans[|xs|].memberStart == |Front(pre, xs)| + |m.before|
            && spans[|xs|].valueStart == |InnerPre(pre, xs, m)|
            && spans[|xs|].valueEnd == spans[|xs|].memberEnd == |InnerPre(pre, xs, m) + Print(m.value)|
  {
    hide Print;
    hide ScanValue;
    hide MembersOf;
    hide WellFormed;
    hide MembersWellFormed;
    hide Decode;
    hide InnerPre;
    hide Front;
    hide Lead;
    hide SpanOf;
    ObjectWellFormed(xs + [m] + zs);
    ScannedHere(pre, "", xs + [m] + zs, post);
    SpansAt(|pre| + 1, xs, m, zs);
    SpanPlace(pre, xs, m);
  }
}
