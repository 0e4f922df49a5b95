// Inside one object: the editor's splices, as edits of the object's members.
module ConfigSplice {
  import opened Strings
  import opened Options
  import opened Space
  import opened Json
  import opened JsonScan
  import opened JsonSpans
  import opened ConfigTree
  import opened ConfigFile

  // Members around one member

  /** Members printed with a comma after each. */
  function Lead(ms: seq<Member>): string {
    if ms == [] then "" else (MemberText(ms[0], Print(ms[0].value)) + ",") + Lead(ms[1..])
  }

  lemma {:induction false} LeadPrint(xs: seq<Member>, ys: seq<Member>)
    requires ys != []
    ensures PrintMembers(xs + ys) == Lead(xs) + PrintMembers(ys)
  {
    hide Print;
    hide MemberText;
    if xs == [] {
      assert xs + ys == ys;
    } else {
      assert (xs + ys)[1..] == xs[1..] + ys;
      LeadPrint(xs[1..], ys);
      var text := MemberText(xs[0], Print(xs[0].value));
      Assoc(text, ",", PrintMembers(xs[1..] + ys));
      Assoc(text + ",", Lead(xs[1..]), PrintMembers(ys));
    }
  }

  lemma {:induction false} LeadLast(xs: seq<Member>, m: Member)
    ensures Lead(xs + [m]) == Lead(xs) + (MemberText(m, Print(m.value)) + ",")
  {
    hide Print;
    hide MemberText;
    if xs == [] {
      assert xs + [m] == [m];
      assert Lead([m]) == (MemberText(m, Print(m.value)) + ",") + Lead([m][1..]);
    } else {
      assert (xs + [m])[1..] == xs[1..] + [m];
      LeadLast(xs[1..], m);
      Assoc(MemberText(xs[0], Print(xs[0].value)) + ",", Lead(xs[1..]), MemberText(m, Print(m.value)) + ",");
    }
  }

  /** An object's text up to one of its members. */
  function Front(pre: string, xs: seq<Member>): string {
    (pre + "{") + Lead(xs)
  }

  /** An object's text after one of its members. */
  function Back(zs: seq<Member>, post: string): string {
    MoreMembers(zs) + ("}" + post)
  }

  /** A whole text with an object in it, seen from one member of the object. */
  lemma AroundMember(pre: string, xs: seq<Member>, m: Member, zs: seq<Member>, post: string)
    ensures pre + Print(Obj("", xs + [m] + zs)) + post
         == Front(pre, xs) + MemberText(m, Print(m.value)) + Back(zs, post)
  {
    var text, more, lead := MemberText(m, Print(m.value)), MoreMembers(zs), Lead(xs);
    LeadPrint(xs, [m] + zs);
    assert xs + [m] + zs == xs + ([m] + zs);
    assert ([m] + zs)[1..] == zs;
    assert PrintMembers([m] + zs) == text + more;
    var j := Obj("", xs + ([m] + zs));
    assert Print(j) == "{" + "" + (lead + (text + more)) + "}";
    hide Print;
    hide Lead;
    hide MoreMembers;
    hide MemberText;
    assert "{" + "" == "{";
    Regroup(pre, lead, text, more, post);
  }

  lemma Regroup(pre: string, lead: string, text: string, more: string, post: string)
    ensures pre + ("{" + (lead + (text + more)) + "}") + post == (((pre + "{") + lead) + text) + (more + ("}" + post))
  {
    Assoc("{" , lead, text + more);
    Assoc("{" + lead, text, more);
    Assoc("{" + lead + text, more, "}");
    Assoc(pre, "{" + lead + text, more + "}");
    Assoc(pre, "{" + lead, text);
    Assoc(pre, "{", lead);
    Assoc(pre + "{" + lead + text, more + "}", post);
    Assoc(more, "}", post);
  }

  // What the scanner says about it

  lemma {:induction false} SpansAt(at: nat, xs: seq<Member>, m: Member, zs: seq<Member>)
    requires MembersWellFormed(xs + [m] + zs)
    ensures Decode(m.raw).Some?
    ensures SpansOf(at, xs + [m] + zs)[|xs|] == SpanOf(at + |Lead(xs)|, m)
    decreases |xs|
  {
    hide Print;
    hide MemberText;
    hide Decode;
    hide WellFormed;
    hide SpanOf;
    if xs == [] {
      assert xs + [m] + zs == [m] + zs;
    } else {
      assert (xs + [m] + zs)[1..] == xs[1..] + [m] + zs;
      SpansAt(at + |MemberText(xs[0], Print(xs[0].value))| + 1, xs[1..], m, zs);
    }
  }

  lemma {:induction false} FindSame(at: nat, ms: seq<Member>, key: Units)
    requires MembersWellFormed(ms)
    ensures FindSpan(SpansOf(at, ms), key) == IndexOf(MembersMeaning(ms), key)
    decreases |ms|
  {
    hide Print;
    hide MemberText;
    hide Decode;
    hide WellFormed;
    hide Meaning;
    hide MembersWellFormed;
    hide SpansOf;
    if ms == [] {
      NoSpans(at);
    } else {
      FirstWellFormed(ms);
      SpansFrom(at, ms);
      FindSame(at + |MemberText(ms[0], Print(ms[0].value))| + 1, ms[1..], key);
    }
  }

  lemma {:induction false} MeaningSplit(xs: seq<Member>, m: Member, zs: seq<Member>)
    requires MembersWellFormed(xs) && MembersWellFormed([m]) && MembersWellFormed(zs)
    ensures MembersWellFormed(xs + [m] + zs)
    ensures MembersMeaning(xs + [m] + zs)
        == MembersMeaning(xs) + [Entry(KeyOf(m), Meaning(m.value))] + MembersMeaning(zs)
    decreases |xs|
  {
    hide WellFormed;
    hide Decode;
    hide Meaning;
    var all := xs + [m] + zs;
    if xs == [] {
      assert all == [m] + zs;
      assert all[1..] == zs;
    } else {
      assert all[1..] == xs[1..] + [m] + zs;
      MeaningSplit(xs[1..], m, zs);
    }
  }

  lemma {:induction false} WellFormedParts(xs: seq<Member>, m: Member, zs: seq<Member>)
    requires MembersWellFormed(xs + [m] + zs)
    ensures MembersWellFormed(xs) && MembersWellFormed([m]) && MembersWellFormed(zs)
    decreases |xs|
  {
    hide WellFormed;
    hide Decode;
    var all := xs + [m] + zs;
    if xs == [] {
      assert all == [m] + zs;
      assert all[1..] == zs;
    } else {
      assert all[1..] == xs[1..] + [m] + zs;
      WellFormedParts(xs[1..], m, zs);
    }
  }

  /** Where the scanner looks from an object at `|pre|`: exactly its members. */
  lemma ScannedHere(pre: string, blank: string, ms: seq<Member>, post: string)
    requires WellFormed(Obj(blank, ms))
    ensures var text := pre + Print(Obj(blank, ms)) + post;
            && |pre| < |text| && text[|pre|] == '{'
            && MembersOf(text, |pre|) == Some(SpansOf(|pre| + 1, ms))
  {
    var j := Obj(blank, ms);
    var text := pre + Print(j) + post;
    assert Print(j) != "" && Print(j)[0] == '{';
    hide Print;
    hide WellFormed;
    hide SpansOf;
    hide MembersOf;
    Assoc(pre, Print(j), post);
    ObjectReads(blank, ms, post);
    assert text[|pre|..] == Print(j) + post;
    ObjectScanned(text, |pre|, blank, ms, post);
  }

  // Whitespace before an offset

  /** Going back over whitespace from the end, only JSON's own whitespace is met. */
  predicate CleanEnd(s: string)
    decreases |s|
  {
    s == "" || !IsSpace(s[|s| - 1]) || (IsWs(s[|s| - 1]) && CleanEnd(s[..|s| - 1]))
  }

  lemma {:induction false} CleanBlank(s: string, b: string)
    requires CleanEnd(s) && Blank(b)
    ensures CleanEnd(s + b)
    decreases |b|
  {
    if b == "" {
      assert s + b == s;
    } else {
      var n := |b| - 1;
      assert (s + b)[..|s + b| - 1] == s + b[..n];
      CleanBlank(s, b[..n]);
    }
  }

  lemma {:induction false} SpacesThenBlank(text: string, start: nat, offset: nat)
    requires start <= offset <= |text| && Spaces(text[start..offset]) && CleanEnd(text[..offset])
    ensures Blank(text[start..offset])
    decreases offset
  {
    if start < offset {
      var line := text[start..offset];
      assert line[|line| - 1] == text[offset - 1] && text[..offset][offset - 1] == text[offset - 1];
      assert text[..offset][..offset - 1] == text[..offset - 1];
      assert text[start..offset - 1] == line[..|line| - 1];
      SpacesThenBlank(text, start, offset - 1);
      assert line == text[start..offset - 1] + [text[offset - 1]];
    }
  }

  lemma IndentBlank(text: string, offset: nat)
    requires offset <= |text| && CleanEnd(text[..offset])
    ensures Blank(IndentAt(text, offset)) && Blank(IndentOr(text, offset))
  {
    if Spaces(text[LineStart(text, offset)..offset]) {
      SpacesThenBlank(text, LineStart(text, offset), offset);
    }
  }

  /** A line's start is never looked for past text that is not whitespace. */
  lemma LineTrimBounds(front: string, b: string, rest: string)
    requires front != "" && !IsSpace(front[|front| - 1])
    ensures |front| <= LineTrim(front + b + rest, |front| + |b|) <= |front| + |b|
  {
    var text, start := front + b + rest, |front| + |b|;
    var ls := LineStart(text, start);
    if ls < |front| {
      assert text[ls..start][|front| - 1 - ls] == front[|front| - 1];
    }
  }

  lemma {:induction false} TrimBackBounds(front: string, b: string, rest: string)
    requires front != "" && !IsSpace(front[|front| - 1]) && Blank(b)
    ensures TrimBack(front + b + rest, |front| + |b|) == |front|
    decreases |b|
  {
    var text := front + b + rest;
    if b == "" {
      assert text[|front| - 1] == front[|front| - 1];
    } else {
      var n := |b| - 1;
      assert text[|front| + n] == b[n];
      assert text == front + b[..n] + ([b[n]] + rest);
      TrimBackBounds(front, b[..n], [b[n]] + rest);
    }
  }

  lemma {:induction false} SkipTabsBounds(text: string, i: nat, stop: nat)
    requires i <= stop < |text| && text[stop] == '\"'
    ensures SkipTabs(text, i) <= stop
    decreases stop - i
  {
    if i < stop {
      SkipTabsBounds(text, i + 1, stop);
    }
  }

  lemma SkipLineEndBounds(text: string, i: nat, stop: nat)
    requires i <= stop < |text| && text[stop] == '\"'
    ensures i <= SkipLineEnd(text, i) <= stop
  {
    SkipTabsBounds(text, i, stop);
  }
}
