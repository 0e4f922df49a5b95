// The config editor as a whole: an edit of the text is the same edit of the value the text holds.
module ConfigEditor {
  import opened Strings
  import opened Options
  import opened Space
  import opened Json
  import opened JsonRoundTrip
  import opened JsonScan
  import opened JsonSpans
  import opened ConfigTree
  import opened ConfigRead
  import opened ConfigRender
  import opened ConfigFile
  import opened ConfigSplice
  import opened ConfigEdit
  import opened ConfigInsert
  import opened ConfigSet
  import opened ConfigRemove
  import opened ConfigClear
  import opened ConfigFind

  /** The value a text writes: all its entries in order, a key that is there twice among them twice. */
  function ValueOf(text: string): Option<Tree> {
    var d :- Parse(text);
    PrintParse(text);
    Some(Meaning(d.root))
  }

  /** What `JSON.parse` makes of a text, which is what the program reads. */
  function ReadOf(text: string): Option<Value> {
    var t :- ValueOf(text);
    Some(Parsed(t))
  }

  ghost predicate HoldsObject(text: string) {
    ValueOf(text).Some? && ValueOf(text).value.Object?
  }

  lemma Holding(text: string) returns (lead: string, blank: string, ms: seq<Member>, trail: string)
    requires HoldsObject(text)
    ensures text == lead + Print(Obj(blank, ms)) + trail && Blank(lead) && Blank(trail) && CleanEnd(lead)
    ensures WellFormed(Obj(blank, ms)) && ValueOf(text) == Some(Meaning(Obj(blank, ms)))
    ensures SkipWs(text, 0) == |lead| < |text| && text[|lead|] == '{'
  {
    hide Parse;
    hide Print;
    hide WellFormed;
    hide Meaning;
    hide Decode;
    PrintParse(text);
    var d := Parse(text).value;
    OpensObject(d.root);
    lead, trail, blank, ms := d.lead, d.trail, d.root.blank, d.root.members;
    CleanBlank("", lead);
    assert "" + lead == lead;
    hide CleanEnd;
    Assoc(lead, Print(d.root), trail);
    assert text[0..] == text;
    Prefix(Print(d.root), trail);
    assert (Print(d.root) + trail)[0] == '{';
    BlankSkipped(text, 0, lead, Print(d.root) + trail);
  }

  lemma Held(lead: string, j: Json, trail: string)
    requires WellFormed(j) && Blank(lead) && Blank(trail)
    ensures ValueOf(lead + Print(j) + trail) == Some(Meaning(j))
  {
    var d := Document(lead, j, trail);
    assert PrintDocument(d) == lead + Print(j) + trail;
    ParsePrint(d);
    hide Parse;
  }

  /** Setting a path in text that holds an object always gives text that holds the object with the path set. */
  lemma SetTextMeans(text: string, path: Path, v: Tree)
    requires HoldsObject(text) && path != [] && PathText(path) && Storable(v)
    ensures SetText(text, path, v).Some?
        && ValueOf(SetText(text, path, v).value) == Some(Set(ValueOf(text).value, path, v))
  {
    hide Print;
    hide WellFormed;
    hide Meaning;
    hide SetFrom;
    hide SkipWs;
    hide CleanEnd;
    hide ValueOf;
    hide Set;
    hide Storable;
    var lead, blank, ms, trail := Holding(text);
    var j := SetObject(lead, blank, ms, trail, path, v);
    Held(lead, j, trail);
  }

  /**
   * Set in text, a value is read back by the program if and only if the set lands; one that does not changes nothing
   * the program reads, and one whose path meets no doubled key changes what it reads at the path and nowhere else.
   */
  lemma SetTextReads(text: string, path: Path, v: Tree)
    requires HoldsObject(text) && path != [] && PathText(path) && Storable(v)
    ensures SetText(text, path, v).Some? && ReadOf(SetText(text, path, v).value).Some?
    ensures var t, was, now := ValueOf(text).value, ReadOf(text).value, ReadOf(SetText(text, path, v).value).value;
            && Read(now, path) == (if Lands(t, path) then Some(Parsed(v)) else Read(was, path))
            && (!Lands(t, path) ==> now == was)
            && (Single(t, path) ==> now == Put(was, path, Parsed(v)))
  {
    hide ValueOf;
    hide Parsed;
    SetTextMeans(text, path, v);
    var t := ValueOf(text).value;
    ReadSet(t, path, v);
    if !Lands(t, path) {
      SetUnread(t, path, v);
    }
    if Single(t, path) {
      SetPuts(t, path, v);
    }
  }

  /** Setting exchanges exactly the text of the value at the path or, where there is none, writes into one gap. */
  lemma SetTouchesOnly(text: string, path: Path, v: Tree)
    returns (before: string, was: string, written: string, after: string)
    requires HoldsObject(text) && path != [] && PathText(path) && Storable(v)
    ensures text == before + was + after && SetText(text, path, v) == Some(before + written + after)
    ensures match Get(ValueOf(text).value, path)
            case Some(sub) => ValueOf(was) == Some(sub) && ValueOf(written) == Some(v)
            case None => Blank(was)
  {
    hide Print;
    hide WellFormed;
    hide Meaning;
    hide SkipWs;
    hide CleanEnd;
    hide Storable;
    hide IndentOr;
    hide RemoveMember;
    hide Get;
    hide Remove;
    hide InsertMember;
    hide ValueOf;
    var lead, blank, ms, trail := Holding(text);
    var sub, without, place := FoundObject(lead, blank, ms, trail, path);
    var found := LocateFrom(text, |lead|, path).value;
    hide LocateFrom;
    match found {
      case Hit(span) =>
        before, was, after := text[..span.valueStart], text[span.valueStart..span.valueEnd], text[span.valueEnd..];
        ThreeParts(text, span.valueStart, span.valueEnd);
        written := Render(v, IndentOr(text, span.memberStart));
        WholeValue(sub);
        HitWritten(text, lead, blank, ms, trail, path, v);
      case Miss(at, missing) =>
        hide Render;
        assert forall k :: 0 <= k < |missing| ==> missing[k] == path[|path| - |missing| + k];
        NestStorable(missing[1..], v);
        before, was, written, after :=
          InsertTouchesOnly(place.pre, place.node, place.post, missing[0], Nest(missing[1..], v));
    }
  }

  lemma ThreeParts(text: string, i: nat, j: nat)
    requires i <= j <= |text|
    ensures text == text[..i] + text[i..j] + text[j..]
  {
  }

  lemma WholeValue(j: Json)
    requires WellFormed(j)
    ensures ValueOf(Print(j)) == Some(Meaning(j))
  {
    Held("", j, "");
    assert "" + Print(j) + "" == Print(j);
  }

  /** What is written over a value reads back as the value set, even at the indentation it goes to. */
  lemma HitWritten(text: string, lead: string, blank: string, ms: seq<Member>, trail: string, path: Path, v: Tree)
    requires text == lead + Print(Obj(blank, ms)) + trail && WellFormed(Obj(blank, ms)) && CleanEnd(lead) && path != []
    requires Storable(v) && |lead| < |text| && text[|lead|] == '{'
    requires LocateFrom(text, |lead|, path).Some? && LocateFrom(text, |lead|, path).value.Hit?
    ensures var span := LocateFrom(text, |lead|, path).value.span;
            span.memberStart <= |text| && ValueOf(Render(v, IndentOr(text, span.memberStart))) == Some(v)
  {
    hide Print;
    hide WellFormed;
    hide Meaning;
    hide SkipWs;
    hide CleanEnd;
    hide IndentOr;
    hide LocateFrom;
    var indent := IndentOr(text, LocateFrom(text, |lead|, path).value.span.memberStart);
    HitIndent(lead, blank, ms, trail, path);
    hide Storable;
    hide Layout;
    LayoutMeans(v, indent);
    RenderIsLayout(v, indent);
    WholeValue(Layout(v, indent));
  }

  ghost predicate IndentClean(text: string, found: Option<Found>) {
    found.Some? && found.value.Hit? ==>
      var start := found.value.span.memberStart;
      start <= |text| && Blank(IndentOr(text, start))
  }

  lemma HitIndentOwn(pre: string, blank: string, ms: seq<Member>, post: string, key: Units)
    requires WellFormed(Obj(blank, ms)) && MembersWellFormed(ms) && IndexOf(MembersMeaning(ms), key) < |ms|
    ensures var text := pre + Print(Obj(blank, ms)) + post;
            |pre| < |text| && text[|pre|] == '{' && IndentClean(text, LocateFrom(text, |pre|, [key]))
  {
    hide Print;
    hide WellFormed;
    hide MembersWellFormed;
    hide MembersMeaning;
    hide Meaning;
    hide KeyOf;
    hide Decode;
    hide MembersOf;
    hide InnerPre;
    hide InnerPost;
    hide Front;
    hide CleanEnd;
    hide IndentOr;
    hide IndentAt;
    hide LocateFrom;
    hide Blank;
    var text := pre + Print(Obj(blank, ms)) + post;
    var i := IndexOf(MembersMeaning(ms), key);
    KeyFound(pre, blank, ms, post, key);
    Around(blank, ms, i);
    OneWellFormed(ms[i]);
    FoundHere(pre, blank, ms, post, i);
    LocateOwn(text, |pre|, key);
    MemberIndent(pre, ms[..i], ms[i], ms[i + 1..], post);
  }

  lemma {:induction false} HitIndentWithin(pre: string, blank: string, ms: seq<Member>, post: string, path: Path)
    requires WellFormed(Obj(blank, ms)) && CleanEnd(pre) && |path| > 1
    requires MembersWellFormed(ms)
    requires var i := IndexOf(MembersMeaning(ms), path[0]); i < |ms| && ms[i].value.Obj?
    ensures var text := pre + Print(Obj(blank, ms)) + post;
            |pre| < |text| && text[|pre|] == '{' && IndentClean(text, LocateFrom(text, |pre|, path))
    decreases |path|, 0
  {
    hide Print;
    hide WellFormed;
    hide MembersWellFormed;
    hide MembersMeaning;
    hide Meaning;
    hide KeyOf;
    hide Decode;
    hide MembersOf;
    hide InnerPre;
    hide InnerPost;
    hide Front;
    hide CleanEnd;
    hide IndentOr;
    hide IndentAt;
    hide LocateFrom;
    hide Blank;
    hide IndentClean;
    var text := pre + Print(Obj(blank, ms)) + post;
    var i := IndexOf(MembersMeaning(ms), path[0]);
    var m := ms[i];
    var inner, outer := InnerPre(pre, ms[..i], m), InnerPost(m, ms[i + 1..], post);
    KeyFound(pre, blank, ms, post, path[0]);
    Around(blank, ms, i);
    OneWellFormed(m);
    OpensObject(m.value);
    FoundHere(pre, blank, ms, post, i);
    InnerPreClean(pre, ms[..i], m);
    LocateDeeper(text, |pre|, path, |inner|);
    HitIndent(inner, m.value.blank, m.value.members, outer, path[1..]);
  }

  /** The member found is indented by JSON's own whitespace. */
  lemma {:induction false} HitIndent(pre: string, blank: string, ms: seq<Member>, post: string, path: Path)
    requires WellFormed(Obj(blank, ms)) && CleanEnd(pre) && path != []
    ensures var text := pre + Print(Obj(blank, ms)) + post;
            |pre| < |text| && text[|pre|] == '{' && IndentClean(text, LocateFrom(text, |pre|, path))
    decreases |path|, 1
  {
    assert MembersWellFormed(ms);
    hide Print;
    hide WellFormed;
    hide MembersWellFormed;
    hide MembersMeaning;
    hide Meaning;
    hide KeyOf;
    hide Decode;
    hide MembersOf;
    hide InnerPre;
    hide InnerPost;
    hide Front;
    hide CleanEnd;
    hide IndentOr;
    hide IndentAt;
    hide LocateFrom;
    hide Blank;
    var text := pre + Print(Obj(blank, ms)) + post;
    var i := IndexOf(MembersMeaning(ms), path[0]);
    KeyFound(pre, blank, ms, post, path[0]);
    if i < |ms| && |path| == 1 {
      assert path == [path[0]];
      HitIndentOwn(pre, blank, ms, post, path[0]);
    } else if i < |ms| && ms[i].value.Obj? {
      HitIndentWithin(pre, blank, ms, post, path);
    } else {
      if i < |ms| {
        Around(blank, ms, i);
        OneWellFormed(ms[i]);
        OpensObject(ms[i].value);
        FoundHere(pre, blank, ms, post, i);
      }
      LocateMissing(text, |pre|, path);
    }
  }

  /** Inserting writes into the whitespace of an empty object, or between the last member and what follows it. */
  lemma InsertTouchesOnly(pre: string, j: Json, post: string, key: Units, v: Tree)
    returns (before: string, was: string, written: string, after: string)
    requires WellFormed(j) && j.Obj? && CleanEnd(pre) && IsText(key) && Storable(v)
    ensures var text := pre + Print(j) + post;
            && text == before + was + after && |pre| < |text| && text[|pre|] == '{'
            && InsertMember(text, |pre|, key, v) == Some(before + written + after) && Blank(was)
  {
    hide Print;
    hide Storable;
    hide CleanEnd;
    hide InsertMember;
    hide Render;
    hide Quoted;
    hide IndentAt;
    hide IndentOr;
    hide InnerPre;
    hide InnerPost;
    hide Front;
    var text := pre + Print(j) + post;
    if j.members == [] {
      FirstWritten(pre, j.blank, post, key, v);
      EmptyPrint(j.blank);
      RegroupBraces(pre, j.blank, post);
      before, was, after := pre + "{", j.blank, "}" + post;
      var indent := IndentAt(text, |pre|);
      written := "\n" + (indent + "  ") + Quoted(key) + ": " + Render(v, indent + "  ") + "\n" + indent;
      WrittenBetween(before, "\n", indent + "  ", Quoted(key), ": ", Render(v, indent + "  "), "\n", indent);
    } else {
      var n := |j.members| - 1;
      var xs, last := j.members[..n], j.members[n];
      assert j.members == xs + [last];
      assert j == Obj("", xs + [last]) && MembersWellFormed(j.members);
      hide WellFormed;
      hide MembersWellFormed;
      LastWritten(pre, xs, last, post, key, v);
      LastSplit(pre, xs, last, post);
      before, was, after := InnerPre(pre, xs, last) + Print(last.value), "", InnerPost(last, [], post);
      var indent := IndentOr(text, |Front(pre, xs)| + |last.before|);
      written := ",\n" + indent + Quoted(key) + ": " + Render(v, indent);
      assert before + "" == before;
    }
  }

  lemma WrittenBetween(a: string, b: string, c: string, d: string, e: string, f: string, g: string, h: string)
    ensures a + b + c + d + e + f + g + h == a + (b + c + d + e + f + g + h)
  {
    Assoc(a, b, c);
    Assoc(a, b + c, d);
    Assoc(a, b + c + d, e);
    Assoc(a, b + c + d + e, f);
    Assoc(a, b + c + d + e + f, g);
    Assoc(a, b + c + d + e + f + g, h);
  }

  // Clearing

  lemma PlainEnds(j: Json)
    requires WellFormed(j)
    ensures Print(j) != "" && !IsSpace(Print(j)[0]) && !IsSpace(Print(j)[|Print(j)| - 1])
  {
    match j
    case Scalar(text) => assert ScalarChar(text[|text| - 1]);
    case Str(raw) =>
    case Arr(blank, items) =>
    case Obj(blank, members) =>
  }

  lemma TrimmedAlready(s: string)
    requires s != "" && !IsSpace(s[0]) && !IsSpace(s[|s| - 1])
    ensures Trimmed(s) == s
  {
    assert s[..|s|] == s && s[0..] == s;
  }

  lemma QuoteWithin(blank: string, ms: seq<Member>)
    requires ms != []
    ensures !EmptyBraces(Print(Obj(blank, ms)))
  {
    var j := Obj(blank, ms);
    var m := ms[0];
    IndentFirst(m);
    var t, more := MemberText(m, Print(m.value)), MoreMembers(ms[1..]);
    var u := Unindented(m);
    assert PrintMembers(ms) == t + more;
    assert Print(j) == "{" + blank + (t + more) + "}";
    hide Print;
    hide MemberText;
    hide MoreMembers;
    hide Unindented;
    QuotePlace(blank, m.before, u, more);
  }

  lemma QuotePlace(blank: string, before: string, u: string, more: string)
    requires u != "" && u[0] == '\"'
    ensures !EmptyBraces("{" + blank + ((before + u) + more) + "}")
  {
    var s := "{" + blank + ((before + u) + more) + "}";
    var k := 1 + |blank| + |before|;
    assert s[k] == '\"';
    assert s[1..|s| - 1][k - 1] == s[k];
  }

  /** The text the editor takes for an emptied object is exactly an empty object's. */
  lemma EmptyIff(j: Json)
    requires WellFormed(j)
    ensures EmptyBraces(Trimmed(Print(j))) <==> Meaning(j) == Object([])
  {
    PlainEnds(j);
    TrimmedAlready(Print(j));
    OpensObject(j);
    if j.Obj? {
      if j.members == [] {
        EmptyPrint(j.blank);
        var s := "{" + j.blank + "}";
        assert s[1..|s| - 1] == j.blank;
      } else {
        QuoteWithin(j.blank, j.members);
      }
    }
  }

  /** What the editor finds on a path, in text that holds an object. */
  lemma Located(text: string, path: Path)
    requires HoldsObject(text) && path != []
    ensures Locate(text, path).Some?
    ensures var found := Locate(text, path).value;
            var t := ValueOf(text).value;
            && (found.Hit? <==> Get(t, path).Some?)
            && (found.Hit? ==>
                  && HoldsObject(RemoveMember(text, found.span))
                  && ValueOf(RemoveMember(text, found.span)) == Some(Remove(t, path))
                  && (EmptyBraces(Trimmed(text[found.span.valueStart..found.span.valueEnd])) <==>
                        Get(t, path) == Some(Object([]))))
  {
    hide Print;
    hide WellFormed;
    hide Meaning;
    hide SkipWs;
    hide CleanEnd;
    hide LocateFrom;
    hide RemoveMember;
    hide Get;
    hide Remove;
    hide ValueOf;
    hide EmptyBraces;
    hide Trimmed;
    var lead, blank, ms, trail := Holding(text);
    var sub, without, place := FoundObject(lead, blank, ms, trail, path);
    if Locate(text, path).value.Hit? {
      Held(lead, without, trail);
      EmptyIff(sub);
    }
  }

  lemma {:induction false} PruneTextMeans(text: string, path: Path)
    requires HoldsObject(text)
    ensures PruneText(text, path).Some? && HoldsObject(PruneText(text, path).value)
    ensures ValueOf(PruneText(text, path).value) == Some(Prune(ValueOf(text).value, path))
    decreases |path|
  {
    hide ValueOf;
    hide Locate;
    hide RemoveMember;
    hide Get;
    hide Remove;
    hide EmptyBraces;
    hide Trimmed;
    if path != [] {
      Located(text, path);
      var found := Locate(text, path).value;
      if found.Hit? {
        PruneTextMeans(RemoveMember(text, found.span), path[..|path| - 1]);
      }
    }
  }

  /** Clearing a path in text that holds an object clears it in the object, and every ancestor that leaves empty. */
  lemma ClearTextMeans(text: string, path: Path)
    requires HoldsObject(text) && path != []
    ensures ClearText(text, path).Some? && HoldsObject(ClearText(text, path).value)
    ensures ValueOf(ClearText(text, path).value) == Some(Clear(ValueOf(text).value, path))
  {
    hide ValueOf;
    hide Locate;
    hide RemoveMember;
    hide Get;
    hide Remove;
    hide PruneText;
    hide Prune;
    Located(text, path);
    var found := Locate(text, path).value;
    PruneTextMeans(if found.Hit? then RemoveMember(text, found.span) else text, path[..|path| - 1]);
  }

  /** Cleared in text, a path is cleared of what the program reads where it meets no doubled key; nothing is, else. */
  lemma ClearTextReads(text: string, path: Path)
    requires HoldsObject(text) && path != []
    ensures ClearText(text, path).Some?
    ensures ReadOf(ClearText(text, path).value) ==
            Some(if Single(ValueOf(text).value, path) then Without(ReadOf(text).value, path) else ReadOf(text).value)
  {
    hide ValueOf;
    hide Parsed;
    hide Clear;
    ClearTextMeans(text, path);
    ClearReads(ValueOf(text).value, path);
  }

  // Whole edits

  function Cleared(t: Tree, paths: seq<Target>): (r: Tree)
    requires t.Object?
    ensures r.Object?
    decreases |paths|
  {
    if paths == [] then t else Cleared(Clear(t, paths[0]), paths[1..])
  }

  function WithAll(t: Tree, settings: seq<Change>): (r: Tree)
    requires t.Object?
    ensures r.Object?
    decreases |settings|
  {
    if settings == [] then t else WithAll(Set(t, settings[0].path, settings[0].value), settings[1..])
  }

  lemma {:induction false} ClearAllMeans(text: string, paths: seq<Target>)
    requires HoldsObject(text)
    ensures ClearAll(text, paths).Some? && HoldsObject(ClearAll(text, paths).value)
    ensures ValueOf(ClearAll(text, paths).value) == Some(Cleared(ValueOf(text).value, paths))
    decreases |paths|
  {
    hide ValueOf;
    hide ClearText;
    hide Clear;
    if paths != [] {
      ClearTextMeans(text, paths[0]);
      ClearAllMeans(ClearText(text, paths[0]).value, paths[1..]);
    }
  }

  lemma {:induction false} SetAllMeans(text: string, settings: seq<Change>)
    requires HoldsObject(text)
    ensures SetAll(text, settings).Some?
        && ValueOf(SetAll(text, settings).value) == Some(WithAll(ValueOf(text).value, settings))
    decreases |settings|
  {
    hide ValueOf;
    hide SetText;
    hide Set;
    if settings != [] {
      SetTextMeans(text, settings[0].path, settings[0].value);
      SetAllMeans(SetText(text, settings[0].path, settings[0].value).value, settings[1..]);
    }
  }

  lemma FreshText()
    ensures ValueOf("{}\n") == Some(Object([]))
  {
    var j := Obj("", []);
    EmptyMeans("");
    EmptyPrint("");
    Held("", j, "\n");
    assert "" + Print(j) + "\n" == "{}\n";
  }

  /** The object an edit starts from: what the text holds, or an empty one where there is no text to speak of. */
  function Start(text: string): Option<Tree> {
    if Spaces(text) then Some(Object([])) else ValueOf(text)
  }

  /** Editing text that holds an object always succeeds, and the new text holds the object with all the edits made. */
  lemma EditMeans(text: string, clears: seq<Target>, changes: seq<Change>)
    requires Start(text).Some? && Start(text).value.Object?
    ensures EditText(text, clears, changes).Some?
    ensures ValueOf(EditText(text, clears, changes).value) == Some(WithAll(Cleared(Start(text).value, clears), changes))
  {
    FreshText();
    var from := if Spaces(text) then "{}\n" else text;
    assert HoldsObject(from) && ValueOf(from) == Start(text);
    ClearAllMeans(from, clears);
    SetAllMeans(ClearAll(from, clears).value, changes);
    hide Parse;
    hide ClearAll;
    hide SetAll;
  }

  /** At its turn no path of the edit meets a doubled key. */
  predicate ClearsSingle(t: Tree, paths: seq<Target>)
    requires t.Object?
    decreases |paths|
  {
    paths == [] || (Single(t, paths[0]) && ClearsSingle(Clear(t, paths[0]), paths[1..]))
  }

  predicate ChangesSingle(t: Tree, settings: seq<Change>)
    requires t.Object?
    decreases |settings|
  {
    settings == [] || (Single(t, settings[0].path)
      && ChangesSingle(Set(t, settings[0].path, settings[0].value), settings[1..]))
  }

  function WithoutAll(v: Value, paths: seq<Target>): Value
    decreases |paths|
  {
    if paths == [] then v else WithoutAll(Without(v, paths[0]), paths[1..])
  }

  function PutAll(v: Value, settings: seq<Change>): Value
    decreases |settings|
  {
    if settings == [] then v else PutAll(Put(v, settings[0].path, Parsed(settings[0].value)), settings[1..])
  }

  lemma {:induction false} ClearedReads(t: Tree, paths: seq<Target>)
    requires t.Object? && ClearsSingle(t, paths)
    ensures Parsed(Cleared(t, paths)) == WithoutAll(Parsed(t), paths)
    decreases |paths|
  {
    hide Parsed;
    if paths != [] {
      ClearReads(t, paths[0]);
      ClearedReads(Clear(t, paths[0]), paths[1..]);
    }
  }

  lemma {:induction false} WithAllReads(t: Tree, settings: seq<Change>)
    requires t.Object? && ChangesSingle(t, settings)
    ensures Parsed(WithAll(t, settings)) == PutAll(Parsed(t), settings)
    decreases |settings|
  {
    hide Parsed;
    if settings != [] {
      SetPuts(t, settings[0].path, settings[0].value);
      WithAllReads(Set(t, settings[0].path, settings[0].value), settings[1..]);
    }
  }

  /** Where no path meets a doubled key, the program reads the value it read before with exactly the edits made. */
  lemma EditReads(text: string, clears: seq<Target>, changes: seq<Change>)
    requires Start(text).Some? && Start(text).value.Object?
    requires ClearsSingle(Start(text).value, clears)
    requires ChangesSingle(Cleared(Start(text).value, clears), changes)
    ensures EditText(text, clears, changes).Some?
    ensures ReadOf(EditText(text, clears, changes).value)
         == Some(PutAll(WithoutAll(Parsed(Start(text).value), clears), changes))
  {
    EditMeans(text, clears, changes);
    ClearedReads(Start(text).value, clears);
    WithAllReads(Cleared(Start(text).value, clears), changes);
    hide Start;
    hide ValueOf;
    hide Parsed;
    hide Cleared;
    hide WithAll;
    hide EditText;
  }

  /** Every object a set opens on its way is absent or an object, each at its turn. */
  predicate ChangesOpen(t: Tree, settings: seq<Change>)
    requires t.Object?
    decreases |settings|
  {
    settings == [] || (Open(t, settings[0].path)
      && ChangesOpen(Set(t, settings[0].path, settings[0].value), settings[1..]))
  }

  lemma {:induction false} UniqueClears(t: Tree, paths: seq<Target>)
    requires t.Object? && UniqueKeys(t)
    ensures ClearsSingle(t, paths) && UniqueKeys(Cleared(t, paths))
    decreases |paths|
  {
    if paths != [] {
      var p := paths[0];
      UniqueIsSingle(t, p);
      var r := if Get(t, p).Some? then Remove(t, p) else t;
      if Get(t, p).Some? {
        RemoveKeepsKeysUnique(t, p);
      }
      PruneKeepsKeysUnique(r, p[..|p| - 1]);
      UniqueClears(Clear(t, p), paths[1..]);
    }
  }

  /** In text with no key doubled, an edit meets none if every set of it stays among objects. */
  lemma {:induction false} UniqueChanges(t: Tree, settings: seq<Change>)
    requires t.Object? && UniqueKeys(t) && ChangesOpen(t, settings)
    requires forall k :: 0 <= k < |settings| ==> UniqueKeys(settings[k].value)
    ensures ChangesSingle(t, settings)
    decreases |settings|
  {
    if settings != [] {
      UniqueIsSingle(t, settings[0].path);
      SetKeepsKeysUnique(t, settings[0].path, settings[0].value);
      UniqueChanges(Set(t, settings[0].path, settings[0].value), settings[1..]);
    }
  }

  /** Text that parses to something other than an object is refused, unless there is nothing to edit. */
  lemma EditRefused(text: string, clears: seq<Target>, changes: seq<Change>)
    requires Start(text).Some? && !Start(text).value.Object?
    ensures EditText(text, clears, changes) == if clears == [] && changes == [] then Some(text) else None
  {
    PrintParse(text);
    var d := Parse(text).value;
    OpensObject(d.root);
    FirstNotSpace(d.root);
    hide Parse;
    hide WellFormed;
    hide Meaning;
    hide Print;
    Assoc(d.lead, Print(d.root), d.trail);
    assert text[0..] == text;
    Prefix(Print(d.root), d.trail);
    BlankSkipped(text, 0, d.lead, Print(d.root) + d.trail);
    FirstRead(text, |d.lead|, Print(d.root) + d.trail);
    if clears != [] {
      assert Locate(text, clears[0]).None?;
      assert ClearAll(text, clears).None?;
    } else if changes != [] {
      assert SetText(text, changes[0].path, changes[0].value).None?;
      assert SetAll(text, changes).None?;
    }
  }
}
