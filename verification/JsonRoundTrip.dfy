// The parser and the printer of `Json` undo each other.
module JsonRoundTrip {
  import opened Strings
  import opened Options
  import opened Json

  lemma Sliced(a: string, c: char, b: string)
    ensures (a + ([c] + b))[..|a|] == a && (a + ([c] + b))[|a|] == c && (a + ([c] + b))[|a| + 1..] == b
  {
  }

  predicate StartsNonBlank(s: string) {
    s == "" || !IsWs(s[0])
  }

  lemma {:induction false} BlankTaken(b: string, rest: string)
    requires Blank(b) && StartsNonBlank(rest)
    ensures BlankLength(b + rest) == |b|
  {
    if b == "" {
      assert b + rest == rest;
    } else {
      assert (b + rest)[1..] == b[1..] + rest;
      BlankTaken(b[1..], rest);
    }
  }

  lemma {:induction false} ScalarTaken(text: string, rest: string)
    requires forall k :: 0 <= k < |text| ==> ScalarChar(text[k])
    requires rest == "" || !ScalarChar(rest[0])
    ensures ScalarLength(text + rest) == |text|
  {
    if text == "" {
      assert text + rest == rest;
    } else {
      assert (text + rest)[1..] == text[1..] + rest;
      ScalarTaken(text[1..], rest);
    }
  }

  lemma {:induction false} PlainSkipped(s: string, n: nat)
    requires n <= |s| && forall k :: 0 <= k < n ==> s[k] != '\"' && s[k] != '\\'
    requires RawLength(s[n..]).Some?
    ensures RawLength(s) == Some(n + RawLength(s[n..]).value)
  {
    if n > 0 {
      assert s[1..][n - 1..] == s[n..];
      PlainSkipped(s[1..], n - 1);
    }
  }

  /** The quote that closes a string is the first one its escapes leave standing. */
  lemma {:induction false} RawTaken(raw: string, rest: string)
    requires Decode(raw).Some?
    ensures RawLength(raw + "\"" + rest) == Some(|raw|)
    decreases |raw|
  {
    var s := raw + "\"" + rest;
    if raw == "" {
      assert s[0] == '\"';
    } else if raw[0] == '\\' && raw[1] == 'u' {
      RawTaken(raw[6..], rest);
      assert s[2..][4..] == raw[6..] + "\"" + rest;
      PlainSkipped(s[2..], 4);
    } else if raw[0] == '\\' {
      RawTaken(raw[2..], rest);
      assert s[2..] == raw[2..] + "\"" + rest;
    } else {
      RawTaken(raw[1..], rest);
      assert s[1..] == raw[1..] + "\"" + rest;
    }
  }

  lemma StringTaken(raw: string, rest: string)
    requires Decode(raw).Some?
    ensures TakeRaw(raw + "\"" + rest) == Some((raw, rest))
  {
    hide Decode;
    RawTaken(raw, rest);
    var s := raw + "\"" + rest;
    assert s[..|raw|] == raw && s[|raw| + 1..] == rest;
  }

  /** Where a value's text ends: a scalar is ended by what follows it, anything else by itself. */
  predicate Ends(j: Json, rest: string) {
    j.Scalar? ==> rest == "" || !ScalarChar(rest[0])
  }

  lemma FirstCharacter(j: Json)
    requires WellFormed(j)
    ensures Print(j) != "" && !IsWs(Print(j)[0]) && Print(j)[0] != ']' && Print(j)[0] != '}'
  {
  }

  lemma EmptyParsed(blank: string, close: char, rest: string, j: Json)
    requires Blank(blank) && ((j == Arr(blank, []) && close == ']') || (j == Obj(blank, []) && close == '}'))
    ensures ParseValue(Print(j) + rest) == Some((j, rest))
  {
    var open := if j.Arr? then "[" else "{";
    assert PrintItems([]) == "" && PrintMembers([]) == "" && blank + "" == blank;
    assert Print(j) == (open + blank) + [close];
    EmptyStep(Print(j) + rest, open[0], blank, close, rest) by {
      Assoc(open + blank, [close], rest);
      Assoc(open, blank, [close] + rest);
    }
  }

  lemma EmptyStep(s: string, open: char, blank: string, close: char, rest: string)
    requires Blank(blank) && ((open == '[' && close == ']') || (open == '{' && close == '}'))
    requires s == [open] + (blank + ([close] + rest))
    ensures ParseValue(s) == Some((if open == '[' then Arr(blank, []) else Obj(blank, []), rest))
  {
    hide ParseItems;
    hide ParseMembers;
    var body := blank + ([close] + rest);
    assert s[1..] == body;
    BlankTaken(blank, [close] + rest);
    Sliced(blank, close, rest);
    assert s[1..|blank| + 1] == body[..|blank|] && s[|blank| + 1] == body[|blank|]
        && s[|blank| + 2..] == body[|blank| + 1..];
  }

  lemma ArrayStep(s: string, body: string, items: seq<Item>, rest: string)
    requires s == "[" + body && ParseItems(body) == Some((items, rest))
    requires var n := BlankLength(body); n < |body| && body[n] != ']'
    ensures ParseValue(s) == Some((Arr("", items), rest))
  {
    hide ParseItems;
    hide ParseMembers;
    assert s[1..] == body;
  }

  lemma ObjectStep(s: string, body: string, members: seq<Member>, rest: string)
    requires s == "{" + body && ParseMembers(body) == Some((members, rest))
    requires var n := BlankLength(body); n < |body| && body[n] == '\"'
    ensures ParseValue(s) == Some((Obj("", members), rest))
  {
    hide ParseItems;
    hide ParseMembers;
    assert s[1..] == body;
  }

  lemma ScalarParsed(text: string, rest: string)
    requires ScalarText(text) && (rest == "" || !ScalarChar(rest[0]))
    ensures ParseValue(text + rest) == Some((Scalar(text), rest))
  {
    ScalarTaken(text, rest);
    var s := text + rest;
    assert s[..|text|] == text && s[|text|..] == rest;
  }

  lemma StrParsed(raw: string, rest: string)
    requires Decode(raw).Some?
    ensures ParseValue("\"" + raw + "\"" + rest) == Some((Str(raw), rest))
  {
    hide Decode;
    StringTaken(raw, rest);
    var s := "\"" + raw + "\"" + rest;
    assert s[1..] == raw + "\"" + rest;
    hide TakeRaw;
  }

  lemma Bracketing(open: string, body: string, close: string, rest: string)
    ensures open + "" + body + close + rest == open + (body + (close + rest))
  {
    assert open + "" == open;
    Assoc(open + body, close, rest);
    Assoc(open, body, close + rest);
  }

  lemma {:induction false} ValueParsed(j: Json, rest: string)
    requires WellFormed(j) && Ends(j, rest)
    ensures ParseValue(Print(j) + rest) == Some((j, rest))
    decreases j, 1
  {
    var s := Print(j) + rest;
    match j
    case Scalar(text) => ScalarParsed(text, rest);
    case Str(raw) => StrParsed(raw, rest);
    case Arr(blank, items) =>
      hide ParseValue;
      if items == [] {
        EmptyParsed(blank, ']', rest, j);
      } else {
        var body := PrintItems(items) + ("]" + rest);
        Bracketing("[", PrintItems(items), "]", rest);
        hide Print;
        hide PrintItems;
        ItemsStart(items, "]" + rest);
        ItemsParsed(items, rest);
        ArrayStep(s, body, items, rest);
      }
    case Obj(blank, members) =>
      hide ParseValue;
      if members == [] {
        EmptyParsed(blank, '}', rest, j);
      } else {
        var body := PrintMembers(members) + ("}" + rest);
        Bracketing("{", PrintMembers(members), "}", rest);
        hide Print;
        hide PrintMembers;
        MembersStart(members, "}" + rest);
        MembersParsed(members, rest);
        ObjectStep(s, body, members, rest);
      }
  }

  /** After the whitespace that opens it, a list of items does not start with the bracket that would end it. */
  lemma ItemsStart(items: seq<Item>, rest: string)
    requires items != [] && ItemsWellFormed(items)
    ensures var s := PrintItems(items) + rest;
            var n := BlankLength(s);
            n < |s| && s[n] != ']'
  {
    var item, more := items[0], MoreItems(items[1..]);
    FirstCharacter(item.value);
    assert PrintItems(items) == item.before + Print(item.value) + item.after + more;
    assert Blank(item.before);
    hide Print;
    hide PrintItems;
    hide ItemsWellFormed;
    ValueFirst(item.before, Print(item.value), item.after, more, rest);
  }

  lemma ValueFirst(before: string, value: string, after: string, more: string, rest: string)
    requires Blank(before) && value != "" && !IsWs(value[0]) && value[0] != ']'
    ensures var s := before + value + after + more + rest;
            var n := BlankLength(s);
            n < |s| && s[n] != ']'
  {
    hide BlankLength;
    var tail := value + (after + (more + rest));
    Assoc(before + value + after, more, rest);
    Assoc(before + value, after, more + rest);
    Assoc(before, value, after + (more + rest));
    assert tail[0] == value[0];
    BlankTaken(before, tail);
  }

  lemma MembersStart(members: seq<Member>, rest: string)
    requires members != [] && MembersWellFormed(members)
    ensures var s := PrintMembers(members) + rest;
            var n := BlankLength(s);
            n < |s| && s[n] == '\"'
  {
    var m := members[0];
    var value := Print(m.value) + m.after + MoreMembers(members[1..]) + rest;
    assert PrintMembers(members) + rest == KeyText(m) + value;
    KeyStart(m, value);
  }

  lemma KeyStart(m: Member, tail: string)
    requires MemberBlanks(m)
    ensures var s := KeyText(m) + tail;
            && BlankLength(s) == |m.before| < |s| && s[|m.before|] == '\"'
            && s[..|m.before|] == m.before && s[|m.before| + 1..] == m.raw + "\"" + (ColonText(m) + tail)
  {
    hide Decode;
    hide ColonText;
    var afterBlank := "\"" + (m.raw + "\"" + (ColonText(m) + tail));
    assert KeyText(m) + tail == m.before + afterBlank;
    BlankTaken(m.before, afterBlank);
  }

  /** One item read off the front: its whitespace, its value, its whitespace. */
  lemma ItemTaken(item: Item, tail: string)
    requires Blank(item.before) && WellFormed(item.value) && Blank(item.after) && StartsNonBlank(tail)
    requires ParseValue(Print(item.value) + (item.after + tail)) == Some((item.value, item.after + tail))
    ensures ParseItem(ItemText(item, Print(item.value)) + tail) == Some((item, tail))
  {
    FirstCharacter(item.value);
    hide ParseValue;
    hide Print;
    hide WellFormed;
    var s := ItemText(item, Print(item.value)) + tail;
    var left := item.after + tail;
    var body := Print(item.value) + left;
    assert s == item.before + body;
    BlankTaken(item.before, body);
    BlankTaken(item.after, tail);
    assert s[..|item.before|] == item.before && s[|item.before|..] == body;
    assert left[..|item.after|] == item.after && left[|item.after|..] == tail;
  }

  lemma ItemsStep(s: string, item: Item, tail: string, more: seq<Item>, rest: string)
    requires ParseItem(s) == Some((item, tail)) && tail != ""
    requires tail[0] == ']' ==> more == [] && rest == tail[1..]
    requires tail[0] != ']' ==> tail[0] == ',' && ParseItems(tail[1..]) == Some((more, rest))
    ensures ParseItems(s) == Some(([item] + more, rest))
  {
    hide ParseItem;
    assert [item] + [] == [item];
  }

  lemma ItemsText(items: seq<Item>, rest: string)
    requires items != []
    ensures var tail := MoreItems(items[1..]) + ("]" + rest);
            && PrintItems(items) + ("]" + rest) == ItemText(items[0], Print(items[0].value)) + tail
            && tail != "" && StartsNonBlank(tail)
            && (if |items| == 1 then tail[0] == ']' && tail[1..] == rest
                else tail[0] == ',' && tail[1..] == PrintItems(items[1..]) + ("]" + rest))
  {
    hide Print;
    hide ItemText;
    var tail := MoreItems(items[1..]) + ("]" + rest);
    Assoc(ItemText(items[0], Print(items[0].value)), MoreItems(items[1..]), "]" + rest);
    assert items[1..] == [] <==> |items| == 1;
    if |items| == 1 {
      assert tail == "]" + rest;
    } else {
      Assoc(",", PrintItems(items[1..]), "]" + rest);
    }
  }

  lemma {:induction false} ItemsParsed(items: seq<Item>, rest: string)
    requires items != [] && ItemsWellFormed(items)
    ensures ParseItems(PrintItems(items) + ("]" + rest)) == Some((items, rest))
    decreases items, 0
  {
    hide ParseItems;
    hide ParseItem;
    hide ParseValue;
    hide PrintItems;
    hide MoreItems;
    hide ItemText;
    hide Print;
    hide WellFormed;
    var item, more := items[0], items[1..];
    var tail := MoreItems(more) + ("]" + rest);
    ItemsText(items, rest);
    ValueParsed(item.value, item.after + tail);
    ItemTaken(item, tail);
    assert more == [] <==> |items| == 1;
    if more != [] {
      ItemsParsed(more, rest);
    }
    assert items == [item] + more;
    ItemsStep(PrintItems(items) + ("]" + rest), item, tail, more, rest);
  }

  lemma ColonTaken(m: Member, tail: string)
    requires Blank(m.beforeColon) && Blank(m.afterColon) && StartsNonBlank(tail)
    ensures ParseColon(ColonText(m) + tail) == Some((m.beforeColon, m.afterColon, tail))
  {
    var s, afterColon := ColonText(m) + tail, m.afterColon + tail;
    assert s == m.beforeColon + (":" + afterColon);
    BlankTaken(m.beforeColon, ":" + afterColon);
    assert s[|m.beforeColon| + 1..] == afterColon;
    BlankTaken(m.afterColon, tail);
    assert s[..|m.beforeColon|] == m.beforeColon;
    assert afterColon[..|m.afterColon|] == m.afterColon && afterColon[|m.afterColon|..] == tail;
  }

  lemma KeyTaken(m: Member, tail: string)
    requires MemberBlanks(m) && StartsNonBlank(tail)
    ensures ParseKey(KeyText(m) + tail) == Some((m.(value := Scalar(""), after := ""), tail))
  {
    hide Decode;
    hide TakeRaw;
    hide ParseColon;
    hide KeyText;
    hide ColonText;
    KeyStart(m, tail);
    StringTaken(m.raw, ColonText(m) + tail);
    ColonTaken(m, tail);
  }

  lemma MemberTaken(m: Member, tail: string)
    requires MemberBlanks(m) && WellFormed(m.value) && StartsNonBlank(tail)
    requires ParseValue(Print(m.value) + (m.after + tail)) == Some((m.value, m.after + tail))
    ensures ParseMember(MemberText(m, Print(m.value)) + tail) == Some((m, tail))
  {
    FirstCharacter(m.value);
    hide ParseValue;
    hide ParseKey;
    hide Print;
    hide WellFormed;
    hide KeyText;
    hide Decode;
    var left := m.after + tail;
    KeyTaken(m, Print(m.value) + left);
    Assoc(KeyText(m) + Print(m.value), m.after, tail);
    Assoc(KeyText(m), Print(m.value), left);
    BlankTaken(m.after, tail);
    assert left[..|m.after|] == m.after && left[|m.after|..] == tail;
  }

  lemma MembersStep(s: string, m: Member, tail: string, more: seq<Member>, rest: string)
    requires ParseMember(s) == Some((m, tail)) && tail != ""
    requires tail[0] == '}' ==> more == [] && rest == tail[1..]
    requires tail[0] != '}' ==> tail[0] == ',' && ParseMembers(tail[1..]) == Some((more, rest))
    ensures ParseMembers(s) == Some(([m] + more, rest))
  {
    hide ParseMember;
    assert [m] + [] == [m];
  }

  lemma MembersText(members: seq<Member>, rest: string)
    requires members != []
    ensures var tail := MoreMembers(members[1..]) + ("}" + rest);
            && PrintMembers(members) + ("}" + rest) == MemberText(members[0], Print(members[0].value)) + tail
            && tail != "" && StartsNonBlank(tail)
            && (if |members| == 1 then tail[0] == '}' && tail[1..] == rest
                else tail[0] == ',' && tail[1..] == PrintMembers(members[1..]) + ("}" + rest))
  {
    hide Print;
    hide MemberText;
    var tail := MoreMembers(members[1..]) + ("}" + rest);
    Assoc(MemberText(members[0], Print(members[0].value)), MoreMembers(members[1..]), "}" + rest);
    assert members[1..] == [] <==> |members| == 1;
    if |members| == 1 {
      assert tail == "}" + rest;
    } else {
      Assoc(",", PrintMembers(members[1..]), "}" + rest);
    }
  }

  lemma {:induction false} MembersParsed(members: seq<Member>, rest: string)
    requires members != [] && MembersWellFormed(members)
    ensures ParseMembers(PrintMembers(members) + ("}" + rest)) == Some((members, rest))
    decreases members, 0
  {
    hide ParseMembers;
    hide ParseMember;
    hide ParseValue;
    hide PrintMembers;
    hide MoreMembers;
    hide MemberText;
    hide Decode;
    hide Print;
    hide WellFormed;
    var m, more := members[0], members[1..];
    var tail := MoreMembers(more) + ("}" + rest);
    MembersText(members, rest);
    ValueParsed(m.value, m.after + tail);
    MemberTaken(m, tail);
    assert more == [] <==> |members| == 1;
    if more != [] {
      MembersParsed(more, rest);
    }
    assert members == [m] + more;
    MembersStep(PrintMembers(members) + ("}" + rest), m, tail, more, rest);
  }

  /** Parsing a printed document gives the document back, so no text is the print of two documents. */
  lemma ParsePrint(d: Document)
    requires DocumentWellFormed(d)
    ensures Parse(PrintDocument(d)) == Some(d)
  {
    var tail := Print(d.root) + d.trail;
    FirstCharacter(d.root);
    hide Print;
    hide ParseValue;
    hide WellFormed;
    Assoc(d.lead, Print(d.root), d.trail);
    BlankTaken(d.lead, tail);
    ValueParsed(d.root, d.trail);
    assert (d.lead + tail)[..|d.lead|] == d.lead && (d.lead + tail)[|d.lead|..] == tail;
  }

  lemma EmptySound(s: string, n: nat)
    requires s != "" && n == BlankLength(s[1..]) && n + 1 < |s|
    ensures s == [s[0]] + s[1..n + 1] + ("" + ([s[n + 1]] + s[n + 2..])) && Blank(s[1..n + 1])
  {
    assert s[1..n + 1] == s[1..][..n];
  }

  lemma ArrayClosed(blank: string, items: seq<Item>, rest: string)
    requires Blank(blank) && (items != [] ==> blank == "") && ItemsWellFormed(items)
    ensures WellFormed(Arr(blank, items))
    ensures Print(Arr(blank, items)) + rest == "[" + blank + (PrintItems(items) + ("]" + rest))
  {
    hide ItemsWellFormed;
    hide PrintItems;
    Assoc("[" + blank + PrintItems(items), "]", rest);
    Assoc("[" + blank, PrintItems(items), "]" + rest);
  }

  lemma ObjectClosed(blank: string, members: seq<Member>, rest: string)
    requires Blank(blank) && (members != [] ==> blank == "") && MembersWellFormed(members)
    ensures WellFormed(Obj(blank, members))
    ensures Print(Obj(blank, members)) + rest == "{" + blank + (PrintMembers(members) + ("}" + rest))
  {
    hide MembersWellFormed;
    hide PrintMembers;
    Assoc("{" + blank + PrintMembers(members), "}", rest);
    Assoc("{" + blank, PrintMembers(members), "}" + rest);
  }

  lemma {:induction false} ValueSound(s: string)
    requires ParseValue(s).Some?
    ensures WellFormed(ParseValue(s).value.0) && s == Print(ParseValue(s).value.0) + ParseValue(s).value.1
    decreases |s|, 1
  {
    hide Decode;
    if s[0] == '[' {
      ArraySound(s);
    } else if s[0] == '{' {
      ObjectSound(s);
    } else if s[0] == '\"' {
      hide ParseItems;
      hide ParseMembers;
      assert s == "\"" + s[1..];
    } else {
      hide ParseItems;
      hide ParseMembers;
    }
  }

  lemma {:induction false} ArraySound(s: string)
    requires ParseValue(s).Some? && s[0] == '['
    ensures WellFormed(ParseValue(s).value.0) && s == Print(ParseValue(s).value.0) + ParseValue(s).value.1
    decreases |s|, 0
  {
    hide Decode;
    hide ParseItems;
    hide ParseMembers;
    hide Print;
    hide WellFormed;
    var n := BlankLength(s[1..]);
    if n + 1 < |s| && s[n + 1] == ']' {
      EmptySound(s, n);
      ArrayClosed(s[1..n + 1], [], s[n + 2..]);
    } else {
      ItemsSound(s[1..]);
      var (items, rest) := ParseItems(s[1..]).value;
      ArrayClosed("", items, rest);
      assert "[" + "" == "[" && s == "[" + s[1..];
    }
  }

  lemma {:induction false} ObjectSound(s: string)
    requires ParseValue(s).Some? && s[0] == '{'
    ensures WellFormed(ParseValue(s).value.0) && s == Print(ParseValue(s).value.0) + ParseValue(s).value.1
    decreases |s|, 0
  {
    hide Decode;
    hide ParseItems;
    hide ParseMembers;
    hide Print;
    hide WellFormed;
    var n := BlankLength(s[1..]);
    if n + 1 < |s| && s[n + 1] == '}' {
      EmptySound(s, n);
      ObjectClosed(s[1..n + 1], [], s[n + 2..]);
    } else {
      MembersSound(s[1..]);
      var (members, rest) := ParseMembers(s[1..]).value;
      ObjectClosed("", members, rest);
      assert "{" + "" == "{" && s == "{" + s[1..];
    }
  }

  lemma {:induction false} ItemSound(s: string)
    requires ParseItem(s).Some?
    ensures var (item, rest) := ParseItem(s).value;
            && Blank(item.before) && WellFormed(item.value) && Blank(item.after)
            && s == ItemText(item, Print(item.value)) + rest
    decreases |s|, 2
  {
    hide ParseValue;
    hide Print;
    hide WellFormed;
    var n := BlankLength(s);
    ValueSound(s[n..]);
    var (value, left) := ParseValue(s[n..]).value;
    var m := BlankLength(left);
    assert left == left[..m] + left[m..];
    assert s == s[..n] + s[n..];
  }

  lemma {:induction false} ItemsSound(s: string)
    requires ParseItems(s).Some?
    ensures var (items, rest) := ParseItems(s).value;
            items != [] && ItemsWellFormed(items) && s == PrintItems(items) + ("]" + rest)
    decreases |s|, 3
  {
    hide ParseItem;
    hide ParseValue;
    hide Print;
    hide WellFormed;
    ItemSound(s);
    var (item, left) := ParseItem(s).value;
    assert left == [left[0]] + left[1..];
    if left[0] == ',' {
      ItemsSound(left[1..]);
      var items := ParseItems(left[1..]).value.0;
      assert ([item] + items)[1..] == items;
    }
  }

  lemma ColonSound(s: string)
    requires ParseColon(s).Some?
    ensures var (b, a, rest) := ParseColon(s).value;
            Blank(b) && Blank(a) && s == b + ":" + a + rest
  {
    var m := BlankLength(s);
    var rest := s[m + 1..];
    var k := BlankLength(rest);
    assert s == s[..m] + ":" + rest;
    assert rest == rest[..k] + rest[k..];
  }

  lemma KeySound(s: string)
    requires ParseKey(s).Some?
    ensures var (m, rest) := ParseKey(s).value;
            MemberBlanks(m) && s == KeyText(m) + rest
  {
    hide Decode;
    hide ParseColon;
    var n := BlankLength(s);
    var (raw, afterRaw) := TakeRaw(s[n + 1..]).value;
    ColonSound(afterRaw);
    var (m, rest) := ParseKey(s).value;
    assert s == s[..n] + "\"" + s[n + 1..];
    assert afterRaw == ColonText(m) + rest;
    Assoc(s[..n] + "\"", raw + "\"", afterRaw);
    Assoc(s[..n] + "\"", raw, "\"");
    Assoc(s[..n] + "\"" + raw + "\"", ColonText(m), rest);
  }

  lemma {:induction false} MemberSound(s: string)
    requires ParseMember(s).Some?
    ensures var (m, rest) := ParseMember(s).value;
            && MemberBlanks(m) && WellFormed(m.value)
            && s == MemberText(m, Print(m.value)) + rest
    decreases |s|, 2
  {
    hide ParseValue;
    hide ParseKey;
    hide Print;
    hide WellFormed;
    hide Decode;
    KeySound(s);
    var (head, afterKey) := ParseKey(s).value;
    ValueSound(afterKey);
    var (value, left) := ParseValue(afterKey).value;
    var k := BlankLength(left);
    assert left == left[..k] + left[k..];
    var m := ParseMember(s).value.0;
    assert KeyText(m) == KeyText(head);
  }

  lemma {:induction false} MembersSound(s: string)
    requires ParseMembers(s).Some?
    ensures var (members, rest) := ParseMembers(s).value;
            members != [] && MembersWellFormed(members) && s == PrintMembers(members) + ("}" + rest)
    decreases |s|, 3
  {
    hide ParseMember;
    hide ParseValue;
    hide Print;
    hide WellFormed;
    hide KeyText;
    hide Decode;
    MemberSound(s);
    var (m, left) := ParseMember(s).value;
    assert left == [left[0]] + left[1..];
    if left[0] == ',' {
      MembersSound(left[1..]);
      var members := ParseMembers(left[1..]).value.0;
      assert ([m] + members)[1..] == members;
    }
  }

  /** Printing what was parsed gives the text back, every character of it. */
  lemma PrintParse(s: string)
    requires Parse(s).Some?
    ensures DocumentWellFormed(Parse(s).value) && PrintDocument(Parse(s).value) == s
  {
    hide Print;
    hide ParseValue;
    hide WellFormed;
    var n := BlankLength(s);
    ValueSound(s[n..]);
    var (root, rest) := ParseValue(s[n..]).value;
    assert s == s[..n] + s[n..];
    Assoc(s[..n], Print(root), rest);
  }
}
