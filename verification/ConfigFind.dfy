// Looking a path up in the text is looking it up in the value the text holds.
module ConfigFind {
  import opened Options
  import opened Json
  import opened JsonScan
  import opened ConfigTree
  import opened ConfigFile
  import opened ConfigSplice
  import opened ConfigEdit
  import opened ConfigSet
  import opened ConfigClear

  /** Some object in a text, and the text on both sides of it. */
  datatype Place = Place(pre: string, node: Json, post: string)

  ghost predicate PlacedIn(p: Place, text: string) {
    && text == p.pre + Print(p.node) + p.post
    && WellFormed(p.node) && p.node.Obj? && CleanEnd(p.pre)
  }

  /**
   * The member found is the path's: its text is the value's, and without it the text holds the value without the
   * path.
   */
  ghost predicate HitRight(text: string, span: Span, t: Tree, path: Path, sub: Json, pre: string, without: Json,
      post: string)
    requires path != []
  {
    && SpanIn(span, text)
    && text[span.valueStart..span.valueEnd] == Print(sub) && WellFormed(sub) && Get(t, path) == Some(Meaning(sub))
    && WellFormed(without) && without.Obj? && Meaning(without) == Remove(t, path)
    && RemoveMember(text, span) == pre + Print(without) + post
  }

  ghost predicate FoundRight(text: string, found: Found, t: Tree, path: Path, sub: Json, pre: string, without: Json,
                             post: string, place: Place)
    requires path != []
  {
    match found
    case Hit(span) => Get(t, path).Some? && HitRight(text, span, t, path, sub, pre, without, post)
    case Miss(owner, _) => Get(t, path).None? && PlacedIn(place, text) && owner == |place.pre|
  }

  lemma GetOwn(entries: seq<Entry>, key: Units)
    ensures var i := IndexOf(entries, key);
            Get(Object(entries), [key]) == if i == |entries| then None else Some(entries[i].value)
    ensures var i := IndexOf(entries, key);
            i < |entries| ==> Remove(Object(entries), [key]) == Object(entries[..i] + entries[i + 1..])
  {
    assert [key][1..] == [];
  }

  lemma GetInner(entries: seq<Entry>, path: Path)
    requires |path| > 1
    ensures var i := IndexOf(entries, path[0]);
            && Get(Object(entries), path) == (if i == |entries| then None else Get(entries[i].value, path[1..]))
            && (i < |entries| && !entries[i].value.Object? ==> Get(Object(entries), path).None?)
            && (Get(Object(entries), path).Some? ==>
                  Remove(Object(entries), path)
                    == Object(entries[i := Entry(path[0], Remove(entries[i].value, path[1..]))]))
  {
  }

  lemma LocateMissing(text: string, owner: nat, path: Path)
    requires path != [] && owner < |text| && text[owner] == '{' && MembersOf(text, owner).Some?
    requires var spans := MembersOf(text, owner).value;
             var i := FindSpan(spans, path[0]);
             i == |spans| || (|path| > 1 && spans[i].valueStart < |text| && text[spans[i].valueStart] != '{')
    ensures LocateFrom(text, owner, path) == Some(Miss(owner, path))
  {
    hide MembersOf;
  }

  lemma LocateOwn(text: string, owner: nat, key: Units)
    requires owner < |text| && text[owner] == '{' && MembersOf(text, owner).Some?
    requires var spans := MembersOf(text, owner).value; FindSpan(spans, key) < |spans|
    ensures var spans := MembersOf(text, owner).value;
            LocateFrom(text, owner, [key]) == Some(Hit(spans[FindSpan(spans, key)]))
  {
    hide MembersOf;
  }

  lemma LocateDeeper(text: string, owner: nat, path: Path, inner: nat)
    requires |path| > 1 && owner < |text| && text[owner] == '{' && MembersOf(text, owner).Some?
    requires inner < |text| && text[inner] == '{'
    requires var spans := MembersOf(text, owner).value;
             var i := FindSpan(spans, path[0]);
             i < |spans| && spans[i].valueStart == inner
    ensures LocateFrom(text, owner, path) == LocateFrom(text, inner, path[1..])
  {
    hide MembersOf;
  }

  lemma SliceOf(a: string, b: string, c: string)
    ensures (a + b + c)[|a|..|a + b|] == b
  {
  }

  /** An object's own key. */
  lemma FoundOwn(pre: string, blank: string, ms: seq<Member>, post: string, key: Units) returns (without: Json)
    requires WellFormed(Obj(blank, ms)) && MembersWellFormed(ms) && IndexOf(MembersMeaning(ms), key) < |ms|
    ensures var text := pre + Print(Obj(blank, ms)) + post;
            var i := IndexOf(MembersMeaning(ms), key);
            && |pre| < |text| && text[|pre|] == '{'
            && LocateFrom(text, |pre|, [key]).Some? && LocateFrom(text, |pre|, [key]).value.Hit?
            && HitRight(text, LocateFrom(text, |pre|, [key]).value.span, Object(MembersMeaning(ms)), [key],
                        ms[i].value, pre, without, post)
  {
    hide Print;
    hide WellFormed;
    hide MembersWellFormed;
    hide MembersMeaning;
    hide Meaning;
    hide KeyOf;
    hide Decode;
    hide RemoveMember;
    hide MembersOf;
    hide InnerPre;
    hide InnerPost;
    hide Front;
    var text := pre + Print(Obj(blank, ms)) + post;
    var i := IndexOf(MembersMeaning(ms), key);
    Around(blank, ms, i);
    OneWellFormed(ms[i]);
    KeyFound(pre, blank, ms, post, key);
    FoundHere(pre, blank, ms, post, i);
    LocateOwn(text, |pre|, key);
    GetOwn(MembersMeaning(ms), key);
    hide LocateFrom;
    SliceOf(InnerPre(pre, ms[..i], ms[i]), Print(ms[i].value), InnerPost(ms[i], ms[i + 1..], post));
    without := RemoveOwn(pre, ms, i, post, MembersOf(text, |pre|).value[i]);
  }

  /** The path is not there: its key is not the object's, or what the key holds is no object. */
  lemma FoundNowhere(pre: string, blank: string, ms: seq<Member>, post: string, path: Path) returns (place: Place)
    requires WellFormed(Obj(blank, ms)) && CleanEnd(pre) && path != [] && MembersWellFormed(ms)
    requires var i := IndexOf(MembersMeaning(ms), path[0]); i >= |ms| || (|path| > 1 && !ms[i].value.Obj?)
    ensures var text := pre + Print(Obj(blank, ms)) + post;
            && |pre| < |text| && text[|pre|] == '{'
            && LocateFrom(text, |pre|, path).Some?
            && FoundRight(text, LocateFrom(text, |pre|, path).value, Object(MembersMeaning(ms)), path, Scalar(""), pre,
               Scalar(""), post, place)
  {
    hide Print;
    hide WellFormed;
    hide MembersWellFormed;
    hide MembersMeaning;
    hide Meaning;
    hide KeyOf;
    hide Decode;
    hide MembersOf;
    hide InnerPre;
    hide InnerPost;
    hide Front;
    hide CleanEnd;
    hide HitRight;
    var text := pre + Print(Obj(blank, ms)) + post;
    var i := IndexOf(MembersMeaning(ms), path[0]);
    KeyFound(pre, blank, ms, post, path[0]);
    if i < |ms| {
      Around(blank, ms, i);
      OneWellFormed(ms[i]);
      OpensObject(ms[i].value);
      FoundHere(pre, blank, ms, post, i);
    }
    if |path| == 1 {
      assert path == [path[0]];
      GetOwn(MembersMeaning(ms), path[0]);
    } else {
      GetInner(MembersMeaning(ms), path);
    }
    LocateMissing(text, |pre|, path);
    place := Place(pre, Obj(blank, ms), post);
  }

  /** Looking a path up from an object on: the value at the path, or the object the path stops in. */
  lemma {:induction false} FoundObject(pre: string, blank: string, ms: seq<Member>, post: string, path: Path)
    returns (sub: Json, without: Json, place: Place)
    requires WellFormed(Obj(blank, ms)) && CleanEnd(pre) && path != []
    ensures var text := pre + Print(Obj(blank, ms)) + post;
            && |pre| < |text| && text[|pre|] == '{'
            && LocateFrom(text, |pre|, path).Some?
            && FoundRight(text, LocateFrom(text, |pre|, path).value, Meaning(Obj(blank, ms)), path, sub, pre,
               without, post, place)
    decreases |path|, 1
  {
    assert MembersWellFormed(ms) && Meaning(Obj(blank, ms)) == Object(MembersMeaning(ms));
    hide Print;
    hide WellFormed;
    hide MembersWellFormed;
    hide MembersMeaning;
    hide Meaning;
    hide KeyOf;
    hide Decode;
    hide MembersOf;
    hide InnerPre;
    hide InnerPost;
    hide Front;
    hide CleanEnd;
    hide HitRight;
    hide LocateFrom;
    hide IndexOf;
    var i := IndexOf(MembersMeaning(ms), path[0]);
    if i >= |ms| || (|path| > 1 && !ms[i].value.Obj?) {
      place := FoundNowhere(pre, blank, ms, post, path);
      sub, without := Scalar(""), Scalar("");
    } else if |path| == 1 {
      assert path == [path[0]];
      without := FoundOwn(pre, blank, ms, post, path[0]);
      GetOwn(MembersMeaning(ms), path[0]);
      sub := ms[i].value;
      place := Place("", sub, "");
    } else {
      sub, without, place := FoundWithin(pre, blank, ms, post, path);
    }
  }

  lemma {:induction false} FoundWithin(pre: string, blank: string, ms: seq<Member>, post: string, path: Path)
    returns (sub: Json, without: Json, place: Place)
    requires WellFormed(Obj(blank, ms)) && CleanEnd(pre) && |path| > 1
    requires MembersWellFormed(ms)
    requires var i := IndexOf(MembersMeaning(ms), path[0]); i < |ms| && ms[i].value.Obj?
    ensures var text := pre + Print(Obj(blank, ms)) + post;
            && |pre| < |text| && text[|pre|] == '{'
            && LocateFrom(text, |pre|, path).Some?
            && FoundRight(text, LocateFrom(text, |pre|, path).value, Object(MembersMeaning(ms)), path, sub, pre,
               without, post, place)
    decreases |path|, 0
  {
    hide Print;
    hide WellFormed;
    hide MembersWellFormed;
    hide MembersMeaning;
    hide Meaning;
    hide KeyOf;
    hide Decode;
    hide MembersOf;
    hide InnerPre;
    hide InnerPost;
    hide Front;
    hide CleanEnd;
    hide PlacedIn;
    hide RemoveMember;
    hide Get;
    hide Remove;
    var i := IndexOf(MembersMeaning(ms), path[0]);
    var text := pre + Print(Obj(blank, ms)) + post;
    var m := ms[i];
    var inner, outer := InnerPre(pre, ms[..i], m), InnerPost(m, ms[i + 1..], post);
    KeyFound(pre, blank, ms, post, path[0]);
    Around(blank, ms, i);
    OneWellFormed(m);
    OpensObject(m.value);
    FoundHere(pre, blank, ms, post, i);
    InnerPreClean(pre, ms[..i], m);
    LocateDeeper(text, |pre|, path, |inner|);
    hide LocateFrom;
    GetInner(MembersMeaning(ms), path);
    var deeper;
    sub, deeper, place := FoundObject(inner, m.value.blank, m.value.members, outer, path[1..]);
    without := deeper;
    if LocateFrom(text, |pre|, path).value.Hit? {
      Exchanged(ms, i, deeper);
      InsideAt(pre, blank, ms, post, i, deeper);
      without := Obj("", ms[..i] + [m.(value := deeper)] + ms[i + 1..]);
    }
  }
}
