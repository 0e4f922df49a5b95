// Finding and clearing a path in the text is finding and clearing it in the value the text holds.
module ConfigClear {
  import opened Json
  import opened JsonScan
  import opened ConfigFile
  import opened ConfigSplice
  import opened ConfigEdit
  import opened ConfigSet
  import opened ConfigRemove

  // Removing one of an object's own members

  lemma WithoutMeans(xs: seq<Member>, m: Member, zs: seq<Member>)
    requires MembersWellFormed(xs + [m] + zs)
    ensures MembersWellFormed(xs) && MembersWellFormed(zs)
    ensures var entries := MembersMeaning(xs + [m] + zs);
            entries[..|xs|] == MembersMeaning(xs) && entries[|xs| + 1..] == MembersMeaning(zs)
  {
    hide WellFormed;
    hide MembersWellFormed;
    hide MembersMeaning;
    hide Meaning;
    hide KeyOf;
    hide Decode;
    MeaningAt(xs, m, zs);
    MeaningSplit(xs, m, zs);
    var a, e, b := MembersMeaning(xs), Entry(KeyOf(m), Meaning(m.value)), MembersMeaning(zs);
    assert (a + [e] + b)[|a| + 1..] == b;
  }

  lemma WithBefore(m: Member, before: string)
    requires MembersWellFormed([m]) && Blank(before)
    ensures var m2 := m.(before := before);
            MembersWellFormed([m2]) && MembersMeaning([m2]) == MembersMeaning([m])
  {
    hide Decode;
    hide WellFormed;
    hide Meaning;
    assert [m][1..] == [] && [m.(before := before)][1..] == [];
  }

  lemma WithAfter(m: Member, after: string)
    requires MembersWellFormed([m]) && Blank(after)
    ensures var m2 := m.(after := after);
            MembersWellFormed([m2]) && MembersMeaning([m2]) == MembersMeaning([m])
  {
    hide Decode;
    hide WellFormed;
    hide Meaning;
    assert [m][1..] == [] && [m.(after := after)][1..] == [];
  }

  /** Members joined around one of them mean their meanings joined. */
  lemma JoinedMeans(xs: seq<Member>, m: Member, zs: seq<Member>)
    requires MembersWellFormed(xs) && MembersWellFormed([m]) && MembersWellFormed(zs)
    ensures MembersWellFormed(xs + [m] + zs)
    ensures MembersMeaning(xs + [m] + zs) == MembersMeaning(xs) + MembersMeaning([m]) + MembersMeaning(zs)
  {
    hide WellFormed;
    hide MembersWellFormed;
    hide MembersMeaning;
    hide Meaning;
    hide KeyOf;
    hide Decode;
    OneWellFormed(m);
    MeaningSplit(xs, m, zs);
  }

  lemma RemoveBeforeNext(pre: string, xs: seq<Member>, m: Member, z: Member, rest: seq<Member>, post: string,
      span: Span)
    returns (ms2: seq<Member>)
    requires MembersWellFormed(xs + [m] + ([z] + rest))
    requires var text := pre + Print(Obj("", xs + [m] + ([z] + rest))) + post; SpanHere(span, text, pre, xs, m)
    ensures MembersWellFormed(xs) && MembersWellFormed([z] + rest)
    ensures MembersWellFormed(ms2) && MembersMeaning(ms2) == MembersMeaning(xs) + MembersMeaning([z] + rest)
    ensures var text := pre + Print(Obj("", xs + [m] + ([z] + rest))) + post;
            RemoveMember(text, span) == pre + Print(Obj("", ms2)) + post
  {
    hide Print;
    hide WellFormed;
    hide MembersWellFormed;
    hide MembersMeaning;
    hide Meaning;
    hide KeyOf;
    hide Decode;
    hide SpanHere;
    hide RemoveMember;
    MeaningAt(xs, m, [z] + rest);
    assert [] + [z] + rest == [z] + rest;
    MeaningAt([], z, rest);
    OneWellFormed(m);
    OneWellFormed(z);
    var before := RemovedBefore(pre, xs, m, z, rest, post, span);
    WithBefore(z, before);
    var z2 := z.(before := before);
    ms2 := xs + [z2] + rest;
    JoinedMeans(xs, z2, rest);
    JoinedMeans([], z, rest);
    NoneMeans();
    var a, b, c := MembersMeaning(xs), MembersMeaning([z]), MembersMeaning(rest);
    assert a + b + c == a + ([] + b + c);
  }

  lemma NoneMeans()
    ensures MembersWellFormed([]) && MembersMeaning([]) == []
  {
  }

  lemma RemoveAfterPrevious(pre: string, xs: seq<Member>, x: Member, m: Member, post: string, span: Span)
    returns (ms2: seq<Member>)
    requires MembersWellFormed(xs + [x] + [m])
    requires var text := pre + Print(Obj("", xs + [x] + [m])) + post; SpanHere(span, text, pre, xs + [x], m)
    ensures MembersWellFormed(xs + [x])
    ensures MembersWellFormed(ms2) && MembersMeaning(ms2) == MembersMeaning(xs + [x])
    ensures var text := pre + Print(Obj("", xs + [x] + [m])) + post;
            RemoveMember(text, span) == pre + Print(Obj("", ms2)) + post
  {
    hide Print;
    hide WellFormed;
    hide MembersWellFormed;
    hide MembersMeaning;
    hide Meaning;
    hide KeyOf;
    hide Decode;
    hide SpanHere;
    hide RemoveMember;
    MeaningAt(xs, x, [m]);
    OneWellFormed(x);
    OneWellFormed(m);
    NoneMeans();
    RemovedAfter(pre, xs, x, m, post, span);
    var x2 := x.(after := x.after + m.after);
    WithAfter(x, x.after + m.after);
    ms2 := xs + [x2];
    assert ms2 == xs + [x2] + [] && xs + [x] == xs + [x] + [];
    JoinedMeans(xs, x2, []);
    JoinedMeans(xs, x, []);
  }

  /** The object without its `i`th member, and nothing else different. */
  lemma RemoveOwn(pre: string, ms: seq<Member>, i: nat, post: string, span: Span) returns (j: Json)
    requires MembersWellFormed(ms) && i < |ms|
    requires SpanHere(span, pre + Print(Obj("", ms)) + post, pre, ms[..i], ms[i])
    ensures WellFormed(j) && j.Obj? && Meaning(j) == Object(MembersMeaning(ms)[..i] + MembersMeaning(ms)[i + 1..])
    ensures RemoveMember(pre + Print(Obj("", ms)) + post, span) == pre + Print(j) + post
  {
    hide Print;
    hide WellFormed;
    hide MembersWellFormed;
    hide MembersMeaning;
    hide Meaning;
    hide KeyOf;
    hide Decode;
    hide SpanHere;
    hide RemoveMember;
    SplitAround(ms, i);
    var xs, m, zs := ms[..i], ms[i], ms[i + 1..];
    WithoutMeans(xs, m, zs);
    MeaningAt(xs, m, zs);
    OneWellFormed(m);
    NoneMeans();
    if zs != [] {
      assert zs == [zs[0]] + zs[1..];
      var ms2 := RemoveBeforeNext(pre, xs, m, zs[0], zs[1..], post, span);
      ObjectWellFormed(ms2);
      j := Obj("", ms2);
    } else if xs != [] {
      var n := |xs| - 1;
      assert xs == xs[..n] + [xs[n]] && ms == xs[..n] + [xs[n]] + [m];
      var ms2 := RemoveAfterPrevious(pre, xs[..n], xs[n], m, post, span);
      ObjectWellFormed(ms2);
      j := Obj("", ms2);
    } else {
      assert ms == [m];
      var blank := RemovedOnly(pre, m, post, span);
      EmptyMeans(blank);
      j := Obj(blank, []);
    }
  }

  lemma EmptyMeans(blank: string)
    requires Blank(blank)
    ensures WellFormed(Obj(blank, [])) && Meaning(Obj(blank, [])) == Object([])
  {
  }
}
