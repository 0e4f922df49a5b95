// Setting a path in the text sets it in the value the text holds.
module ConfigSet {
  import opened Options
  import opened Json
  import opened JsonScan
  import opened ConfigTree
  import opened ConfigRender
  import opened ConfigFile
  import opened ConfigSplice
  import opened ConfigEdit
  import opened ConfigInsert

  // Looking a key up

  /** The member the editor finds for a key is the first with that key. */
  lemma KeyFound(pre: string, blank: string, ms: seq<Member>, post: string, key: Units)
    requires WellFormed(Obj(blank, ms))
    ensures MembersWellFormed(ms)
    ensures var text := pre + Print(Obj(blank, ms)) + post;
            && |pre| < |text| && text[|pre|] == '{' && MembersOf(text, |pre|).Some?
            && |MembersOf(text, |pre|).value| == |ms|
            && FindSpan(MembersOf(text, |pre|).value, key) == IndexOf(MembersMeaning(ms), key)
  {
    hide Print;
    hide MembersOf;
    ScannedHere(pre, blank, ms, post);
    FindSame(|pre| + 1, ms, key);
  }

  lemma SplitAround<T>(s: seq<T>, i: nat)
    requires i < |s|
    ensures s == s[..i] + [s[i]] + s[i + 1..]
  {
  }

  lemma MeaningAt(xs: seq<Member>, m: Member, zs: seq<Member>)
    requires MembersWellFormed(xs + [m] + zs)
    ensures MembersWellFormed(xs) && MembersWellFormed([m]) && MembersWellFormed(zs)
    ensures Decode(m.raw).Some? && WellFormed(m.value)
    ensures MembersMeaning(xs + [m] + zs)[|xs|] == Entry(KeyOf(m), Meaning(m.value))
  {
    hide WellFormed;
    hide MembersWellFormed;
    hide MembersMeaning;
    hide Meaning;
    hide KeyOf;
    hide Decode;
    WellFormedParts(xs, m, zs);
    OneWellFormed(m);
    MeaningSplit(xs, m, zs);
  }

  /** An object with members has no whitespace of its own, so it is its members around any one of them. */
  lemma Around(blank: string, ms: seq<Member>, i: nat)
    requires WellFormed(Obj(blank, ms)) && i < |ms|
    ensures blank == "" && ms == ms[..i] + [ms[i]] + ms[i + 1..]
    ensures MembersWellFormed(ms[..i]) && MembersWellFormed([ms[i]]) && MembersWellFormed(ms[i + 1..])
    ensures MembersMeaning(ms)[i] == Entry(KeyOf(ms[i]), Meaning(ms[i].value))
  {
    assert MembersWellFormed(ms) && blank == "";
    hide WellFormed;
    hide MembersWellFormed;
    hide MembersMeaning;
    hide Meaning;
    hide KeyOf;
    hide Decode;
    SplitAround(ms, i);
    MeaningAt(ms[..i], ms[i], ms[i + 1..]);
  }

  /** One member's value exchanged: the entries are the same but for its value. */
  lemma Exchanged(ms: seq<Member>, i: nat, value: Json)
    requires i < |ms| && MembersWellFormed(ms) && WellFormed(value)
    ensures var with := Obj("", ms[..i] + [ms[i].(value := value)] + ms[i + 1..]);
            && WellFormed(with)
            && Meaning(with) == Object(MembersMeaning(ms)[i := Entry(MembersMeaning(ms)[i].key, Meaning(value))])
  {
    var xs, m, zs := ms[..i], ms[i], ms[i + 1..];
    var m2 := m.(value := value);
    ObjectWellFormed(ms);
    Around("", ms, i);
    OneWellFormed(m);
    assert MembersWellFormed([m2]) by {
      hide WellFormed;
      hide Decode;
      assert [m2][1..] == [];
    }
    OneWellFormed(m2);
    assert KeyOf(m2) == KeyOf(m);
    MeaningSplit(xs, m, zs);
    MeaningSplit(xs, m2, zs);
    ObjectWellFormed(xs + [m2] + zs);
    hide MembersMeaning;
    hide MembersWellFormed;
    hide WellFormed;
    hide Meaning;
    hide KeyOf;
    hide Decode;
    assert |MembersMeaning(xs)| == i;
  }

  lemma OpensObject(j: Json)
    requires WellFormed(j)
    ensures Print(j) != "" && (Print(j)[0] == '{' <==> j.Obj?)
    ensures j.Obj? <==> Meaning(j).Object?
  {
  }

  /** The whole text, seen from the value of one of an object's members. */
  lemma InsideAt(pre: string, blank: string, ms: seq<Member>, post: string, i: nat, value: Json)
    requires i < |ms|
    ensures pre + Print(Obj("", ms[..i] + [ms[i].(value := value)] + ms[i + 1..])) + post
         == InnerPre(pre, ms[..i], ms[i]) + Print(value) + InnerPost(ms[i], ms[i + 1..], post)
  {
    hide Print;
    hide InnerPre;
    hide InnerPost;
    Inside(pre, ms[..i], ms[i], value, ms[i + 1..], post);
  }

  /** What the editor sees of the member it found: its offsets, and whether its value opens an object. */
  lemma FoundHere(pre: string, blank: string, ms: seq<Member>, post: string, i: nat)
    requires WellFormed(Obj(blank, ms)) && i < |ms|
    ensures var text := pre + Print(Obj(blank, ms)) + post;
            var inner := InnerPre(pre, ms[..i], ms[i]);
            && text == inner + Print(ms[i].value) + InnerPost(ms[i], ms[i + 1..], post)
            && |pre| < |text| && text[|pre|] == '{' && MembersOf(text, |pre|).Some?
            && |MembersOf(text, |pre|).value| == |ms|
            && var span := MembersOf(text, |pre|).value[i];
            && span.valueStart == |inner| && span.valueEnd == span.memberEnd == |inner + Print(ms[i].value)|
            && span.memberStart == |Front(pre, ms[..i])| + |ms[i].before|
            && |inner| < |text| && (text[|inner|] == '{' <==> ms[i].value.Obj?)
  {
    Around(blank, ms, i);
    var xs, m, zs := ms[..i], ms[i], ms[i + 1..];
    OneWellFormed(m);
    OpensObject(m.value);
    assert MembersWellFormed(xs + [m] + zs);
    hide Print;
    hide MembersOf;
    hide WellFormed;
    hide MembersWellFormed;
    hide InnerPre;
    hide InnerPost;
    hide Front;
    assert m.(value := m.value) == m;
    InsideAt(pre, blank, ms, post, i, m.value);
    SpanFound(pre, xs, m, zs, post);
  }

  // Setting

  lemma SetMissing(text: string, owner: nat, path: Path, v: Tree)
    requires path != [] && PathText(path) && Storable(v) && owner < |text| && text[owner] == '{'
    requires MembersOf(text, owner).Some?
    requires var spans := MembersOf(text, owner).value;
             var i := FindSpan(spans, path[0]);
             i == |spans|
             || (|path| > 1 && spans[i].valueStart < |text| && text[spans[i].valueStart] != '{')
    ensures Storable(Nest(path[1..], v))
        && SetFrom(text, owner, path, v) == InsertMember(text, owner, path[0], Nest(path[1..], v))
  {
    hide MembersOf;
    hide InsertMember;
    hide Storable;
    assert LocateFrom(text, owner, path) == Some(Miss(owner, path));
    hide LocateFrom;
    NestStorable(path[1..], v);
  }

  lemma SetHit(text: string, owner: nat, path: Path, v: Tree, span: Span)
    requires |path| == 1 && PathText(path) && Storable(v) && owner < |text| && text[owner] == '{'
    requires MembersOf(text, owner).Some?
    requires var spans := MembersOf(text, owner).value;
             var i := FindSpan(spans, path[0]);
             i < |spans| && spans[i] == span
    ensures SpanIn(span, text)
    ensures SetFrom(text, owner, path, v)
         == Some(text[..span.valueStart] + Render(v, IndentOr(text, span.memberStart)) + text[span.valueEnd..])
  {
    hide MembersOf;
    hide Render;
    hide IndentOr;
    hide Storable;
    assert LocateFrom(text, owner, path) == Some(Hit(span));
    hide LocateFrom;
  }

  lemma SetDeeper(text: string, owner: nat, path: Path, v: Tree, inner: nat)
    requires |path| > 1 && PathText(path) && Storable(v) && owner < |text| && text[owner] == '{'
    requires MembersOf(text, owner).Some? && inner < |text| && text[inner] == '{'
    requires var spans := MembersOf(text, owner).value;
             var i := FindSpan(spans, path[0]);
             i < |spans| && spans[i].valueStart == inner
    ensures PathText(path[1..]) && SetFrom(text, owner, path, v) == SetFrom(text, inner, path[1..], v)
  {
    hide MembersOf;
    hide Render;
    hide IndentOr;
    hide Storable;
    hide InsertMember;
    assert LocateFrom(text, owner, path) == LocateFrom(text, inner, path[1..]);
    hide LocateFrom;
  }

  lemma SetOwn(entries: seq<Entry>, key: Units, v: Tree)
    requires IndexOf(entries, key) < |entries|
    ensures Set(Object(entries), [key], v) == Object(entries[IndexOf(entries, key) := Entry(key, v)])
  {
  }

  /** Setting an object's own key: the value's text is exchanged for the new one's. */
  lemma SetHereText(pre: string, blank: string, ms: seq<Member>, post: string, key: Units, v: Tree) returns (put: Json)
    requires WellFormed(Obj(blank, ms)) && IsText(key) && Storable(v)
    requires MembersWellFormed(ms) && IndexOf(MembersMeaning(ms), key) < |ms|
    ensures WellFormed(put) && Meaning(put) == v
    ensures var text := pre + Print(Obj(blank, ms)) + post;
            var i := IndexOf(MembersMeaning(ms), key);
            var j := Obj("", ms[..i] + [ms[i].(value := put)] + ms[i + 1..]);
            |pre| < |text| && text[|pre|] == '{' && SetFrom(text, |pre|, [key], v) == Some(pre + Print(j) + post)
  {
    hide Print;
    hide WellFormed;
    hide MembersWellFormed;
    hide Meaning;
    hide MembersMeaning;
    hide MembersOf;
    hide InnerPre;
    hide InnerPost;
    hide IndentOr;
    hide IndentAt;
    hide Render;
    hide Layout;
    hide SetFrom;
    hide Front;
    hide KeyOf;
    hide Decode;
    var i := IndexOf(MembersMeaning(ms), key);
    var text := pre + Print(Obj(blank, ms)) + post;
    Around(blank, ms, i);
    var xs, m, zs := ms[..i], ms[i], ms[i + 1..];
    OneWellFormed(m);
    KeyFound(pre, blank, ms, post, key);
    FoundHere(pre, blank, ms, post, i);
    MemberIndent(pre, xs, m, zs, post);
    var span := MembersOf(text, |pre|).value[i];
    var indent := IndentOr(text, span.memberStart);
    put := Layout(v, indent);
    LayoutMeans(v, indent);
    SetHit(text, |pre|, [key], v, span);
    RenderIsLayout(v, indent);
    InsideAt(pre, blank, ms, post, i, put);
    Spliced(InnerPre(pre, xs, m), Print(m.value), Print(put), InnerPost(m, zs, post));
  }

  lemma SetHere(pre: string, blank: string, ms: seq<Member>, post: string, key: Units, v: Tree) returns (j: Json)
    requires WellFormed(Obj(blank, ms)) && IsText(key) && Storable(v)
    requires MembersWellFormed(ms) && IndexOf(MembersMeaning(ms), key) < |ms|
    ensures WellFormed(j) && j.Obj? && Meaning(j) == Set(Object(MembersMeaning(ms)), [key], v)
    ensures var text := pre + Print(Obj(blank, ms)) + post;
            |pre| < |text| && text[|pre|] == '{' && SetFrom(text, |pre|, [key], v) == Some(pre + Print(j) + post)
  {
    hide Print;
    hide WellFormed;
    hide MembersWellFormed;
    hide Meaning;
    hide MembersMeaning;
    hide SetFrom;
    var i := IndexOf(MembersMeaning(ms), key);
    var value := SetHereText(pre, blank, ms, post, key, v);
    Exchanged(ms, i, value);
    SetOwn(MembersMeaning(ms), key, v);
    j := Obj("", ms[..i] + [ms[i].(value := value)] + ms[i + 1..]);
  }

  lemma SetInner(entries: seq<Entry>, path: Path, v: Tree)
    requires |path| > 1
    requires var i := IndexOf(entries, path[0]); i < |entries| && entries[i].value.Object?
    ensures var i := IndexOf(entries, path[0]);
            Set(Object(entries), path, v) == Object(entries[i := Entry(path[0], Set(entries[i].value, path[1..], v))])
  {
  }

  lemma SetNew(entries: seq<Entry>, path: Path, v: Tree)
    requires path != []
    requires var i := IndexOf(entries, path[0]); i == |entries| || (|path| > 1 && !entries[i].value.Object?)
    ensures Set(Object(entries), path, v) == Object(entries + [Entry(path[0], Nest(path[1..], v))])
  {
  }

  /** A key the object lacks, or holds something other than an object under: the member is added. */
  lemma SetAdds(pre: string, blank: string, ms: seq<Member>, post: string, path: Path, v: Tree) returns (j: Json)
    requires WellFormed(Obj(blank, ms)) && CleanEnd(pre) && path != [] && PathText(path) && Storable(v)
    requires MembersWellFormed(ms)
    requires var i := IndexOf(MembersMeaning(ms), path[0]); i == |ms| || (|path| > 1 && !ms[i].value.Obj?)
    ensures WellFormed(j) && j.Obj? && Meaning(j) == Set(Object(MembersMeaning(ms)), path, v)
    ensures var text := pre + Print(Obj(blank, ms)) + post;
            |pre| < |text| && text[|pre|] == '{' && SetFrom(text, |pre|, path, v) == Some(pre + Print(j) + post)
  {
    hide Print;
    hide WellFormed;
    hide MembersWellFormed;
    hide Meaning;
    hide MembersMeaning;
    hide MembersOf;
    hide InnerPre;
    hide InnerPost;
    hide SetFrom;
    hide InsertMember;
    hide Front;
    hide KeyOf;
    hide Decode;
    hide CleanEnd;
    hide Storable;
    var i := IndexOf(MembersMeaning(ms), path[0]);
    var text := pre + Print(Obj(blank, ms)) + post;
    KeyFound(pre, blank, ms, post, path[0]);
    if i < |ms| {
      Around(blank, ms, i);
      OneWellFormed(ms[i]);
      OpensObject(ms[i].value);
      FoundHere(pre, blank, ms, post, i);
    }
    SetMissing(text, |pre|, path, v);
    j := Inserted(pre, blank, ms, post, path[0], Nest(path[1..], v));
    SetNew(MembersMeaning(ms), path, v);
  }

  /** Setting from an object on: the text becomes the object with the path set, and nothing outside it changes. */
  lemma {:induction false} SetObject(pre: string, blank: string, ms: seq<Member>, post: string, path: Path, v: Tree)
    returns (j: Json)
    requires WellFormed(Obj(blank, ms)) && CleanEnd(pre) && path != [] && PathText(path) && Storable(v)
    ensures WellFormed(j) && j.Obj? && Meaning(j) == Set(Meaning(Obj(blank, ms)), path, v)
    ensures var text := pre + Print(Obj(blank, ms)) + post;
            |pre| < |text| && text[|pre|] == '{' && SetFrom(text, |pre|, path, v) == Some(pre + Print(j) + post)
    decreases |path|, 1
  {
    assert MembersWellFormed(ms) && Meaning(Obj(blank, ms)) == Object(MembersMeaning(ms));
    hide Print;
    hide WellFormed;
    hide MembersWellFormed;
    hide Meaning;
    hide MembersMeaning;
    hide MembersOf;
    hide InnerPre;
    hide InnerPost;
    hide SetFrom;
    hide Front;
    hide KeyOf;
    hide Decode;
    hide CleanEnd;
    hide Storable;
    hide Set;
    var i := IndexOf(MembersMeaning(ms), path[0]);
    if i == |ms| || (|path| > 1 && !ms[i].value.Obj?) {
      j := SetAdds(pre, blank, ms, post, path, v);
    } else if |path| == 1 {
      assert path == [path[0]];
      j := SetHere(pre, blank, ms, post, path[0], v);
    } else {
      j := SetWithin(pre, blank, ms, post, path, v);
    }
  }

  lemma {:induction false} SetWithin(pre: string, blank: string, ms: seq<Member>, post: string, path: Path, v: Tree)
    returns (j: Json)
    requires WellFormed(Obj(blank, ms)) && CleanEnd(pre) && |path| > 1 && PathText(path) && Storable(v)
    requires MembersWellFormed(ms)
    requires var i := IndexOf(MembersMeaning(ms), path[0]); i < |ms| && ms[i].value.Obj?
    ensures WellFormed(j) && j.Obj? && Meaning(j) == Set(Object(MembersMeaning(ms)), path, v)
    ensures var text := pre + Print(Obj(blank, ms)) + post;
            |pre| < |text| && text[|pre|] == '{' && SetFrom(text, |pre|, path, v) == Some(pre + Print(j) + post)
    decreases |path|, 0
  {
    hide Print;
    hide WellFormed;
    hide MembersWellFormed;
    hide Meaning;
    hide MembersMeaning;
    hide MembersOf;
    hide InnerPre;
    hide InnerPost;
    hide SetFrom;
    hide Front;
    hide KeyOf;
    hide Decode;
    hide CleanEnd;
    hide Storable;
    hide Set;
    var i := IndexOf(MembersMeaning(ms), path[0]);
    var text := pre + Print(Obj(blank, ms)) + post;
    var m := ms[i];
    var inner, outer := InnerPre(pre, ms[..i], m), InnerPost(m, ms[i + 1..], post);
    KeyFound(pre, blank, ms, post, path[0]);
    Around(blank, ms, i);
    OneWellFormed(m);
    OpensObject(m.value);
    FoundHere(pre, blank, ms, post, i);
    InnerPreClean(pre, ms[..i], m);
    SetDeeper(text, |pre|, path, v, |inner|);
    var value := SetObject(inner, m.value.blank, m.value.members, outer, path[1..], v);
    Exchanged(ms, i, value);
    InsideAt(pre, blank, ms, post, i, value);
    SetInner(MembersMeaning(ms), path, v);
    j := Obj("", ms[..i] + [m.(value := value)] + ms[i + 1..]);
  }
}
