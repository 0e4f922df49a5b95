// Taking a member out of an object: the text the editor leaves is the object without the member.
module ConfigRemove {
  import opened Strings
  import opened Space
  import opened Json
  import opened JsonScan
  import opened JsonSpans
  import opened ConfigFile
  import opened ConfigSplice
  import opened ConfigEdit

  lemma PartIn(a: string, b: string, c: string, r: nat)
    requires |a| <= r <= |a| + |b|
    ensures var text := a + b + c;
            r <= |text| && text[..r] == a + b[..r - |a|] && text[r..] == b[r - |a|..] + c
  {
  }

  /** A member's text from its key on. */
  function Unindented(m: Member): string {
    "\"" + m.raw + "\"" + ColonText(m) + Print(m.value) + m.after
  }

  lemma IndentFirst(m: Member)
    ensures MemberText(m, Print(m.value)) == m.before + Unindented(m)
    ensures Unindented(m) != "" && Unindented(m)[0] == '\"'
  {
    hide Print;
    hide ColonText;
    Assoc(m.before, "\"", m.raw);
    Assoc(m.before, "\"" + m.raw, "\"");
    Assoc(m.before, "\"" + m.raw + "\"", ColonText(m));
    Assoc(m.before, "\"" + m.raw + "\"" + ColonText(m), Print(m.value));
    Assoc(m.before, "\"" + m.raw + "\"" + ColonText(m) + Print(m.value), m.after);
  }

  /** The span of a member in the whole text, by where its key starts and its value ends. */
  ghost predicate SpanHere(span: Span, text: string, pre: string, xs: seq<Member>, m: Member) {
    && SpanIn(span, text)
    && span.memberStart == |Front(pre, xs)| + |m.before|
    && span.memberEnd == |InnerPre(pre, xs, m) + Print(m.value)|
  }

  ghost predicate Splits(text: string, a: string, b: string, c: string) {
    text == a + b + c
  }

  ghost predicate EndsIn(text: string, p: string, rest: string) {
    text == p + rest
  }

  lemma LeftCut(text: string, front: string, b: string, r1: string) returns (k: nat)
    requires Splits(text, front, b, r1) && front != "" && !IsSpace(front[|front| - 1])
    ensures |front| + |b| <= |text| && k <= |b| && text[..LineTrim(text, |front| + |b|)] == front + b[..(k)]
  {
    LineTrimBounds(front, b, r1);
    hide LineTrim;
    k := LineTrim(text, |front| + |b|) - |front|;
    PartIn(front, b, r1, |front| + k);
  }

  lemma RightCut(text: string, q: string, b2: string, tail: string) returns (k2: nat)
    requires Splits(text, q, b2, tail) && tail != "" && tail[0] == '\"'
    ensures |q| <= |text| && k2 <= |b2| && text[SkipLineEnd(text, |q|)..] == b2[k2..] + tail
  {
    assert text[|q| + |b2|] == '\"';
    SkipLineEndBounds(text, |q|, |q| + |b2|);
    hide SkipLineEnd;
    k2 := SkipLineEnd(text, |q|) - |q|;
    PartIn(q, b2, tail, |q| + k2);
  }

  // The editor's three cuts

  lemma CutAhead(text: string, span: Span, comma: nat)
    requires SpanIn(span, text) && SkipWs(text, span.memberEnd) == comma < |text| && text[comma] == ','
    ensures RemoveMember(text, span) == text[..LineTrim(text, span.memberStart)] + text[SkipLineEnd(text, comma + 1)..]
  {
  }

  lemma CutBehind(text: string, span: Span, before: nat)
    requires SpanIn(span, text) && SkipWs(text, span.memberEnd) < |text| && text[SkipWs(text, span.memberEnd)] == '}'
    requires TrimBack(text, span.memberStart) == before && 0 < before <= |text|
    ensures RemoveMember(text, span)
         == if text[before - 1] == ',' then text[..before - 1] + text[span.memberEnd..]
            else text[..LineTrim(text, span.memberStart)] + text[span.memberEnd..]
  {
  }

  // Before another member

  /** With a comma after the value, all from the line's start to the next key's line, at most, goes. */
  lemma CutToNext(text: string, front: string, b: string, r1: string, p: string, after: string, r2: string,
                  q: string, b2: string, tail: string, span: Span) returns (k: nat, k2: nat)
    requires Splits(text, front, b, r1) && EndsIn(text, p, after + ("," + r2)) && Splits(text, q, b2, tail)
    requires |q| == |p| + |after| + 1
    requires SpanIn(span, text) && span.memberStart == |front| + |b| && span.memberEnd == |p|
    requires front != "" && !IsSpace(front[|front| - 1]) && Blank(after) && tail != "" && tail[0] == '\"'
    ensures k <= |b| && k2 <= |b2| && RemoveMember(text, span) == (front + b[..(k)]) + (b2[k2..] + tail)
  {
    hide Splits;
    hide EndsIn;
    hide RemoveMember;
    hide SkipWs;
    hide LineTrim;
    hide SkipLineEnd;
    hide IsSpace;
    hide Blank;
    CommaNext(text, p, after, r2);
    CutAhead(text, span, |p| + |after|);
    k := LeftCut(text, front, b, r1);
    k2 := RightCut(text, q, b2, tail);
  }

  lemma CommaNext(text: string, p: string, after: string, r2: string)
    requires EndsIn(text, p, after + ("," + r2)) && Blank(after)
    ensures |p| <= |text| && SkipWs(text, |p|) == |p| + |after| < |text| && text[|p| + |after|] == ','
  {
    assert text[|p|..] == after + ("," + r2);
    BlankSkipped(text, |p|, after, "," + r2);
    hide SkipWs;
    FirstRead(text, |p| + |after|, "," + r2);
  }

  lemma RegroupNext(front: string, b: string, core: string, after: string, b2: string, u2: string, back: string)
    ensures var text := front + (b + (core + after)) + (("," + (b2 + u2)) + back);
            && text == front + b + ((core + after) + (("," + (b2 + u2)) + back))
            && text == (front + b + core) + (after + ("," + (b2 + u2 + back)))
            && text == (front + b + core + after + ",") + b2 + (u2 + back)
  {
    var x := ("," + (b2 + u2)) + back;
    Assoc(front, b, core + after);
    Assoc(front + b, core + after, x);
    Assoc(front + b, core, after);
    Assoc(front + b + core, after, x);
    Assoc(",", b2 + u2, back);
    Assoc(front + b + core + after, ",", b2 + u2 + back);
    Assoc(b2, u2, back);
    Assoc(front + b + core + after + ",", b2, u2 + back);
  }

  lemma MoreFrom(z: Member, rest: seq<Member>, post: string)
    ensures Back([z] + rest, post) == ("," + (z.before + Unindented(z))) + Back(rest, post)
  {
    IndentFirst(z);
    assert ([z] + rest)[1..] == rest;
    var t := MemberText(z, Print(z.value));
    assert PrintMembers([z] + rest) == t + MoreMembers(rest);
    assert MoreMembers([z] + rest) == "," + PrintMembers([z] + rest);
    hide PrintMembers;
    hide MoreMembers;
    hide Print;
    hide MemberText;
    hide Unindented;
    Assoc(",", t, MoreMembers(rest));
    Assoc("," + t, MoreMembers(rest), "}" + post);
  }

  /** A member's text split at the end of its value. */
  lemma ValueEnd(pre: string, xs: seq<Member>, m: Member) returns (core: string)
    ensures Unindented(m) == core + m.after
    ensures InnerPre(pre, xs, m) + Print(m.value) == Front(pre, xs) + m.before + core
  {
    var x := "\"" + m.raw + "\"" + ColonText(m);
    core := x + Print(m.value);
    Assoc(m.before, "\"", m.raw);
    Assoc(m.before, "\"" + m.raw, "\"");
    Assoc(m.before, "\"" + m.raw + "\"", ColonText(m));
    assert KeyText(m) == m.before + x;
    assert InnerPre(pre, xs, m) == Front(pre, xs) + KeyText(m);
    hide InnerPre;
    hide Print;
    hide Front;
    hide KeyText;
    hide ColonText;
    var f := Front(pre, xs);
    Assoc(f, m.before, x);
    Assoc(f + m.before, x, Print(m.value));
  }

  lemma RemovedBefore(pre: string, xs: seq<Member>, m: Member, z: Member, rest: seq<Member>, post: string, span: Span)
    returns (gap: string)
    requires MemberBlanks(m) && MemberBlanks(z)
    requires var text := pre + Print(Obj("", xs + [m] + ([z] + rest))) + post; SpanHere(span, text, pre, xs, m)
    ensures Blank(gap)
    ensures var text := pre + Print(Obj("", xs + [m] + ([z] + rest))) + post;
            RemoveMember(text, span) == pre + Print(Obj("", xs + [z.(before := gap)] + rest)) + post
  {
    hide Print;
    hide MemberText;
    hide Front;
    hide InnerPre;
    hide Back;
    hide Unindented;
    hide RemoveMember;
    hide Decode;
    hide IsSpace;
    var text := pre + Print(Obj("", xs + [m] + ([z] + rest))) + post;
    var front, back := Front(pre, xs), Back(rest, post);
    AroundMember(pre, xs, m, [z] + rest, post);
    IndentFirst(m);
    IndentFirst(z);
    MoreFrom(z, rest, post);
    var core := ValueEnd(pre, xs, m);
    FrontEnds(pre, xs);
    RegroupNext(front, m.before, core, m.after, z.before, Unindented(z), back);
    var k, k2 := CutToNext(text, front, m.before, (core + m.after) + (("," + (z.before + Unindented(z))) + back),
                           front + m.before + core, m.after, z.before + Unindented(z) + back,
                           front + m.before + core + m.after + ",", z.before, Unindented(z) + back, span);
    gap := m.before[..k] + z.before[k2..];
    var z2 := z.(before := gap);
    AroundMember(pre, xs, z2, rest, post);
    IndentFirst(z2);
    SameKeyOn(z, gap);
    RegroupCut(front, m.before[..k], z.before[k2..], Unindented(z), back);
  }

  lemma SameKeyOn(z: Member, before: string)
    ensures Unindented(z.(before := before)) == Unindented(z)
  {
  }

  lemma RegroupCut(front: string, a: string, b: string, u: string, back: string)
    ensures (front + a) + (b + (u + back)) == front + ((a + b) + u) + back
  {
    Assoc(front, a, b + (u + back));
    Assoc(b, u, back);
    Assoc(a, b + u, back);
    Assoc(a, b, u);
    Assoc(front, (a + b) + u, back);
  }

  // After another member

  /** With a comma before the member and none after, all from that comma to the value's end goes. */
  lemma CutFromComma(text: string, head: string, b: string, r1: string, p: string, r2: string, span: Span)
    requires Splits(text, head + ",", b, r1) && EndsIn(text, p, r2)
    requires SpanIn(span, text) && span.memberStart == |head| + 1 + |b| && span.memberEnd == |p|
    requires Blank(b)
    requires SkipWs(text, span.memberEnd) < |text| && text[SkipWs(text, span.memberEnd)] == '}'
    ensures RemoveMember(text, span) == head + r2
  {
    CommaBehind(text, head, b, r1);
    DropTo(text, p, r2);
    hide Splits;
    hide EndsIn;
    hide RemoveMember;
    hide SkipWs;
    hide TrimBack;
    CutBehind(text, span, |head| + 1);
  }

  lemma CommaBehind(text: string, head: string, b: string, r1: string)
    requires Splits(text, head + ",", b, r1) && Blank(b)
    ensures |head| + 1 + |b| <= |text| && TrimBack(text, |head| + 1 + |b|) == |head| + 1
    ensures text[..|head|] == head && text[|head|] == ','
  {
    hide TrimBack;
    hide Splits;
    LastIsComma(head);
    SpaceBehind(text, head + ",", b, r1);
    CommaPlace(text, head, b, r1);
  }

  lemma CommaPlace(text: string, head: string, b: string, r1: string)
    requires Splits(text, head + ",", b, r1)
    ensures |head| < |text| && text[..|head|] == head && text[|head|] == ','
  {
    Assoc(head, ",", b);
    Assoc(head, "," + b, r1);
    Prefix(head, "," + b + r1);
    assert ("," + b + r1)[0] == ',';
  }

  lemma Prefix(a: string, b: string)
    ensures (a + b)[..|a|] == a && (b != "" ==> (a + b)[|a|] == b[0])
  {
  }

  lemma LastIsComma(head: string)
    ensures head + "," != "" && (head + ",")[|head + ","| - 1] == ',' && |head + ","| == |head| + 1 && !IsSpace(',')
  {
  }

  lemma SpaceBehind(text: string, front: string, b: string, r1: string)
    requires Splits(text, front, b, r1) && Blank(b) && front != "" && !IsSpace(front[|front| - 1])
    ensures |front| + |b| <= |text| && TrimBack(text, |front| + |b|) == |front|
    ensures text[|front| - 1] == front[|front| - 1]
  {
    TrimBackBounds(front, b, r1);
    hide TrimBack;
  }

  lemma DropTo(text: string, p: string, r2: string)
    requires EndsIn(text, p, r2)
    ensures |p| <= |text| && text[|p|..] == r2
  {
  }

  /** After the last member comes only its own whitespace and the closing brace. */
  lemma ThenCloses(text: string, p: string, after: string, post: string)
    requires EndsIn(text, p, after + ("}" + post)) && Blank(after)
    ensures SkipWs(text, |p|) < |text| && text[SkipWs(text, |p|)] == '}'
  {
    assert text[|p|..] == after + ("}" + post);
    BlankSkipped(text, |p|, after, "}" + post);
    hide SkipWs;
    FirstRead(text, |p| + |after|, "}" + post);
  }

  lemma LastBack(post: string)
    ensures Back([], post) == "}" + post
  {
    assert MoreMembers([]) == "";
    assert "" + ("}" + post) == "}" + post;
  }

  lemma FrontLast(pre: string, xs: seq<Member>, x: Member)
    ensures Front(pre, xs + [x]) == (Front(pre, xs) + MemberText(x, Print(x.value))) + ","
  {
    LeadLast(xs, x);
    hide Lead;
    hide Print;
    hide MemberText;
    Assoc(pre + "{", Lead(xs), MemberText(x, Print(x.value)) + ",");
    Assoc(pre + "{" + Lead(xs), MemberText(x, Print(x.value)), ",");
  }

  lemma LastSplits(pre: string, xs: seq<Member>, m: Member, post: string)
    ensures var text := pre + Print(Obj("", xs + [m])) + post;
            && text == Front(pre, xs) + m.before + (Unindented(m) + ("}" + post))
            && text == (InnerPre(pre, xs, m) + Print(m.value)) + (m.after + ("}" + post))
  {
    assert xs + [m] == xs + [m] + [] && m.(value := m.value) == m;
    AroundMember(pre, xs, m, [], post);
    Inside(pre, xs, m, m.value, [], post);
    IndentFirst(m);
    LastBack(post);
    assert InnerPost(m, [], post) == m.after + Back([], post);
    hide Print;
    hide MemberText;
    hide Front;
    hide InnerPre;
    hide InnerPost;
    hide Back;
    hide Unindented;
    Assoc(Front(pre, xs), m.before, Unindented(m));
    Assoc(Front(pre, xs) + m.before, Unindented(m), "}" + post);
  }

  lemma LongerAfter(pre: string, xs: seq<Member>, x: Member, after: string, post: string)
    ensures (Front(pre, xs) + MemberText(x, Print(x.value))) + (after + ("}" + post))
         == pre + Print(Obj("", xs + [x.(after := x.after + after)])) + post
  {
    var y := x.(after := x.after + after);
    assert xs + [y] == xs + [y] + [];
    AroundMember(pre, xs, y, [], post);
    LastBack(post);
    assert KeyText(y) == KeyText(x);
    hide KeyText;
    hide Print;
    hide Front;
    hide Back;
    Assoc(KeyText(x) + Print(x.value), x.after, after);
    assert MemberText(y, Print(y.value)) == MemberText(x, Print(x.value)) + after;
    hide MemberText;
    var t := MemberText(x, Print(x.value));
    Assoc(Front(pre, xs) + t, after, "}" + post);
    Assoc(Front(pre, xs), t, after);
  }

  lemma RemovedAfter(pre: string, xs: seq<Member>, x: Member, m: Member, post: string, span: Span)
    requires MemberBlanks(m)
    requires var text := pre + Print(Obj("", xs + [x] + [m])) + post; SpanHere(span, text, pre, xs + [x], m)
    ensures var text := pre + Print(Obj("", xs + [x] + [m])) + post;
            RemoveMember(text, span) == pre + Print(Obj("", xs + [x.(after := x.after + m.after)])) + post
  {
    hide Print;
    hide MemberText;
    hide Front;
    hide InnerPre;
    hide Unindented;
    hide RemoveMember;
    hide Decode;
    hide SkipWs;
    var text := pre + Print(Obj("", xs + [x] + [m])) + post;
    var p := InnerPre(pre, xs + [x], m) + Print(m.value);
    LastSplits(pre, xs + [x], m, post);
    FrontLast(pre, xs, x);
    ThenCloses(text, p, m.after, post);
    var head := Front(pre, xs) + MemberText(x, Print(x.value));
    CutFromComma(text, head, m.before, Unindented(m) + ("}" + post), p, m.after + ("}" + post), span);
    LongerAfter(pre, xs, x, m.after, post);
  }

  // The only member

  /** With no comma on either side, all from the line's start to the value's end goes. */
  lemma CutAlone(text: string, front: string, b: string, r1: string, p: string, r2: string, span: Span) returns (k: nat)
    requires Splits(text, front, b, r1) && EndsIn(text, p, r2)
    requires front != "" && front[|front| - 1] == '{'
    requires SpanIn(span, text) && span.memberStart == |front| + |b| && span.memberEnd == |p|
    requires Blank(b)
    requires SkipWs(text, span.memberEnd) < |text| && text[SkipWs(text, span.memberEnd)] == '}'
    ensures k <= |b| && RemoveMember(text, span) == (front + b[..(k)]) + r2
  {
    hide Splits;
    hide EndsIn;
    hide RemoveMember;
    hide SkipWs;
    hide TrimBack;
    hide LineTrim;
    SpaceBehind(text, front, b, r1);
    hide Blank;
    DropTo(text, p, r2);
    CutBehind(text, span, |front|);
    k := LeftCut(text, front, b, r1);
  }

  lemma RemovedOnly(pre: string, m: Member, post: string, span: Span) returns (blank: string)
    requires MemberBlanks(m)
    requires var text := pre + Print(Obj("", [m])) + post; SpanHere(span, text, pre, [], m)
    ensures Blank(blank)
    ensures var text := pre + Print(Obj("", [m])) + post;
            RemoveMember(text, span) == pre + Print(Obj(blank, [])) + post
  {
    hide MemberText;
    hide InnerPre;
    hide Unindented;
    hide RemoveMember;
    hide Decode;
    hide SkipWs;
    var text := pre + Print(Obj("", [m])) + post;
    var p := InnerPre(pre, [], m) + Print(m.value);
    assert [] + [m] == [m];
    LastSplits(pre, [], m, post);
    ThenCloses(text, p, m.after, post);
    assert Front(pre, []) == pre + "{" by {
      assert pre + "{" + "" == pre + "{";
    }
    assert PrintMembers([]) == "";
    hide Print;
    hide Front;
    var k := CutAlone(text, pre + "{", m.before, Unindented(m) + ("}" + post), p, m.after + ("}" + post), span);
    blank := m.before[..k] + m.after;
    EmptyAround(pre, blank, post);
    Assoc(pre + "{", m.before[..k], m.after + ("}" + post));
    Assoc(m.before[..k], m.after, "}" + post);
  }

  lemma EmptyAround(pre: string, blank: string, post: string)
    ensures pre + Print(Obj(blank, [])) + post == (pre + "{") + (blank + ("}" + post))
  {
    assert PrintMembers([]) == "";
    assert Print(Obj(blank, [])) == "{" + blank + "}";
    hide Print;
    Assoc("{", blank, "}");
    Assoc(pre, "{", blank + "}");
    Assoc(pre + "{", blank + "}", post);
    Assoc(blank, "}", post);
  }
}
