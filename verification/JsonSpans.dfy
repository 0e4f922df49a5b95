// On well-formed JSON the offset scanners find exactly the grammar's values and members.
module JsonSpans {
  import opened Strings
  import opened Options
  import opened Space
  import opened Json
  import opened JsonRoundTrip
  import opened JsonScan

  function Plus(n: nat, m: Option<nat>): Option<nat> {
    if m.None? then None else Some(n + m.value)
  }

  /** Scanned from inside a bracket, the text leaves the depth as it found it. */
  ghost predicate Passes(t: string, open: char) {
    forall rest: string, depth: int | depth >= 1 ::
      NestLength(t + rest, open, depth) == Plus(|t|, NestLength(rest, open, depth))
  }

  predicate IsBracket(open: char) {
    open == '{' || open == '['
  }

  lemma PassesJoined(a: string, b: string, open: char)
    requires Passes(a, open) && Passes(b, open)
    ensures Passes(a + b, open)
  {
    forall rest: string, depth: int | depth >= 1
      ensures NestLength(a + b + rest, open, depth) == Plus(|a + b|, NestLength(rest, open, depth))
    {
      hide NestLength;
      Assoc(a, b, rest);
      assert NestLength(a + (b + rest), open, depth) == Plus(|a|, NestLength(b + rest, open, depth));
    }
  }

  lemma PassesPlain(c: char, open: char)
    requires c != '\"' && c != open && c != Closer(open)
    ensures Passes([c], open)
  {
    forall rest: string, depth: int | depth >= 1
      ensures NestLength([c] + rest, open, depth) == Plus(1, NestLength(rest, open, depth))
    {
      assert ([c] + rest)[1..] == rest;
    }
  }

  lemma PassesEmpty(open: char)
    ensures Passes("", open)
  {
    forall rest: string, depth: int | depth >= 1
      ensures NestLength("" + rest, open, depth) == Plus(0, NestLength(rest, open, depth))
    {
      assert "" + rest == rest;
    }
  }

  lemma {:induction false} PassesPlainText(t: string, open: char)
    requires forall k :: 0 <= k < |t| ==> t[k] != '\"' && t[k] != open && t[k] != Closer(open)
    ensures Passes(t, open)
  {
    if t == "" {
      PassesEmpty(open);
    } else {
      PassesPlain(t[0], open);
      PassesPlainText(t[1..], open);
      PassesJoined([t[0]], t[1..], open);
      assert [t[0]] + t[1..] == t;
    }
  }

  lemma StringNested(raw: string, rest: string, open: char, depth: int)
    requires Decode(raw).Some?
    ensures NestLength("\"" + raw + "\"" + rest, open, depth) == Plus(|raw| + 2, NestLength(rest, open, depth))
  {
    hide Decode;
    hide RawLength;
    var s := "\"" + raw + "\"" + rest;
    RawTaken(raw, rest);
    assert s[1..] == raw + "\"" + rest;
    assert s[|raw| + 2..] == rest;
  }

  lemma PassesString(raw: string, open: char)
    requires Decode(raw).Some? && IsBracket(open)
    ensures Passes("\"" + raw + "\"", open)
  {
    hide Decode;
    hide NestLength;
    forall rest: string, depth: int | depth >= 1
      ensures NestLength("\"" + raw + "\"" + rest, open, depth) == Plus(|raw| + 2, NestLength(rest, open, depth))
    {
      StringNested(raw, rest, open, depth);
    }
  }

  lemma NestOpened(open: char, s: string, depth: int)
    requires IsBracket(open)
    ensures NestLength([open] + s, open, depth) == Plus(1, NestLength(s, open, depth + 1))
  {
    assert ([open] + s)[1..] == s;
  }

  lemma NestClosed(open: char, s: string, depth: int)
    requires IsBracket(open) && depth != 1
    ensures NestLength([Closer(open)] + s, open, depth) == Plus(1, NestLength(s, open, depth - 1))
  {
    assert ([Closer(open)] + s)[1..] == s;
  }

  lemma BracketPassed(inner: string, own: char, rest: string, depth: int)
    requires IsBracket(own) && Passes(inner, own) && depth >= 1
    ensures NestLength([own] + (inner + ([Closer(own)] + rest)), own, depth)
        == Plus(|inner| + 2, NestLength(rest, own, depth))
  {
    hide NestLength;
    var tail := [Closer(own)] + rest;
    assert NestLength(inner + tail, own, depth + 1) == Plus(|inner|, NestLength(tail, own, depth + 1));
    hide Passes;
    NestOpened(own, inner + tail, depth);
    NestClosed(own, rest, depth + 1);
  }

  /** A bracketed text passes whether or not its brackets are the kind being counted. */
  lemma PassesBracketed(inner: string, own: char, open: char)
    requires IsBracket(own) && IsBracket(open) && Passes(inner, open)
    ensures Passes([own] + inner + [Closer(own)], open)
  {
    if own != open {
      hide NestLength;
      PassesPlain(own, open);
      PassesPlain(Closer(own), open);
      PassesJoined([own], inner, open);
      PassesJoined([own] + inner, [Closer(own)], open);
    } else {
      var t := [own] + inner + [Closer(own)];
      forall rest: string, depth: int | depth >= 1
        ensures NestLength(t + rest, open, depth) == Plus(|t|, NestLength(rest, open, depth))
      {
        Assoc([own] + inner, [Closer(own)], rest);
        Assoc([own], inner, [Closer(own)] + rest);
        BracketPassed(inner, own, rest, depth);
      }
    }
  }

  lemma PassesBlank(b: string, open: char)
    requires Blank(b) && IsBracket(open)
    ensures Passes(b, open)
  {
    PassesPlainText(b, open);
  }

  lemma {:induction false} PassesValue(j: Json, open: char)
    requires WellFormed(j) && IsBracket(open)
    ensures Passes(Print(j), open)
    decreases j, 1
  {
    hide Passes;
    match j
    case Scalar(text) => PassesPlainText(text, open);
    case Str(raw) => PassesString(raw, open);
    case Arr(blank, items) =>
      PassesBlank(blank, open);
      PassesItems(items, open);
      PassesJoined(blank, PrintItems(items), open);
      PassesBracketed(blank + PrintItems(items), '[', open);
      assert Print(j) == ['['] + (blank + PrintItems(items)) + [']'];
    case Obj(blank, members) =>
      PassesBlank(blank, open);
      PassesMembers(members, open);
      PassesJoined(blank, PrintMembers(members), open);
      PassesBracketed(blank + PrintMembers(members), '{', open);
      assert Print(j) == ['{'] + (blank + PrintMembers(members)) + ['}'];
  }

  lemma {:induction false} PassesItems(items: seq<Item>, open: char)
    requires ItemsWellFormed(items) && IsBracket(open)
    ensures Passes(PrintItems(items), open)
    decreases items, 0
  {
    hide Passes;
    if items == [] {
      PassesEmpty(open);
    } else {
      var item := items[0];
      PassesBlank(item.before, open);
      PassesValue(item.value, open);
      PassesBlank(item.after, open);
      PassesJoined(item.before, Print(item.value), open);
      PassesJoined(item.before + Print(item.value), item.after, open);
      PassesItems(items[1..], open);
      PassesPlain(',', open);
      PassesJoined(",", PrintItems(items[1..]), open);
      PassesEmpty(open);
      PassesJoined(ItemText(item, Print(item.value)), MoreItems(items[1..]), open);
    }
  }

  lemma PassesKey(m: Member, open: char)
    requires MemberBlanks(m) && IsBracket(open)
    ensures Passes(KeyText(m), open)
  {
    hide Passes;
    hide Decode;
    var quoted, afterColon := "\"" + m.raw + "\"", ":" + m.afterColon;
    PassesBlank(m.before, open);
    PassesString(m.raw, open);
    PassesBlank(m.beforeColon, open);
    PassesBlank(m.afterColon, open);
    PassesPlain(':', open);
    PassesJoined(":", m.afterColon, open);
    PassesJoined(m.beforeColon, afterColon, open);
    PassesJoined(m.before, quoted, open);
    PassesJoined(m.before + quoted, m.beforeColon + afterColon, open);
    assert KeyText(m) == (m.before + quoted) + (m.beforeColon + afterColon);
  }

  lemma {:induction false} PassesMembers(members: seq<Member>, open: char)
    requires MembersWellFormed(members) && IsBracket(open)
    ensures Passes(PrintMembers(members), open)
    decreases members, 0
  {
    hide Passes;
    hide KeyText;
    if members == [] {
      PassesEmpty(open);
    } else {
      var m := members[0];
      PassesKey(m, open);
      PassesValue(m.value, open);
      PassesBlank(m.after, open);
      PassesJoined(KeyText(m), Print(m.value), open);
      PassesJoined(KeyText(m) + Print(m.value), m.after, open);
      PassesMembers(members[1..], open);
      PassesPlain(',', open);
      PassesJoined(",", PrintMembers(members[1..]), open);
      PassesEmpty(open);
      PassesJoined(MemberText(m, Print(m.value)), MoreMembers(members[1..]), open);
    }
  }

  /** What may follow a value: nothing, whitespace, a comma or a closing bracket. */
  predicate Delimited(rest: string) {
    rest == "" || IsWs(rest[0]) || IsStop(rest[0])
  }

  lemma {:induction false} BareTaken(text: string, rest: string)
    requires forall k :: 0 <= k < |text| ==> ScalarChar(text[k])
    requires Delimited(rest)
    ensures BareLength(text + rest) == |text|
  {
    if text == "" {
      assert text + rest == rest;
    } else {
      assert (text + rest)[1..] == text[1..] + rest;
      BareTaken(text[1..], rest);
    }
  }

  lemma BracketedTaken(inner: string, own: char, rest: string)
    requires IsBracket(own) && Passes(inner, own)
    ensures NestLength([own] + inner + [Closer(own)] + rest, own, 0) == Some(|inner| + 2)
  {
    var tail := [Closer(own)] + rest;
    var s := [own] + inner + [Closer(own)] + rest;
    assert s[1..] == inner + tail;
    assert NestLength(inner + tail, own, 1) == Plus(|inner|, NestLength(tail, own, 1));
  }

  lemma ContainerScanned(blank: string, body: string, own: char, rest: string)
    requires IsBracket(own) && Passes(blank, own) && Passes(body, own)
    ensures ValueLength([own] + (blank + body) + [Closer(own)] + rest) == Some(|blank| + |body| + 2)
  {
    PassesJoined(blank, body, own);
    hide Passes;
    hide NestLength;
    var s := [own] + (blank + body) + [Closer(own)] + rest;
    BracketedTaken(blank + body, own, rest);
    assert SpaceLength(s) == 0 && s[0..] == s;
  }

  lemma StringScanned(raw: string, rest: string)
    requires Decode(raw).Some?
    ensures ValueLength("\"" + raw + "\"" + rest) == Some(|raw| + 2)
  {
    hide Decode;
    hide NestLength;
    hide RawLength;
    var body := raw + "\"" + rest;
    var s := "\"" + body;
    Assoc("\"" + raw, "\"", rest);
    Assoc("\"", raw, "\"" + rest);
    Assoc(raw, "\"", rest);
    assert SpaceLength(s) == 0 && s[0..] == s;
    RawTaken(raw, rest);
    assert s[1..] == body;
  }

  lemma ScalarScanned(text: string, rest: string)
    requires ScalarText(text) && Delimited(rest)
    ensures ValueLength(text + rest) == Some(|text|)
  {
    hide NestLength;
    hide RawLength;
    var s := text + rest;
    assert SpaceLength(s) == 0 && s[0..] == s;
    BareTaken(text, rest);
  }

  /** The scanner stops exactly at a value's end. */
  lemma ValueScanned(j: Json, rest: string)
    requires WellFormed(j) && (j.Scalar? ==> Delimited(rest))
    ensures ValueLength(Print(j) + rest) == Some(|Print(j)|)
  {
    hide Passes;
    hide ValueLength;
    hide Decode;
    hide ScalarText;
    hide Delimited;
    hide Blank;
    hide ItemsWellFormed;
    hide MembersWellFormed;
    hide PrintItems;
    hide PrintMembers;
    match j
    case Scalar(text) => ScalarScanned(text, rest);
    case Str(raw) => StringScanned(raw, rest);
    case Arr(blank, items) => ArrayPrinted(blank, items, rest);
    case Obj(blank, members) => ObjectPrinted(blank, members, rest);
  }

  lemma ArrayPrinted(blank: string, items: seq<Item>, rest: string)
    requires Blank(blank) && ItemsWellFormed(items)
    ensures ValueLength(Print(Arr(blank, items)) + rest) == Some(|Print(Arr(blank, items))|)
  {
    hide Passes;
    hide ValueLength;
    hide Blank;
    hide ItemsWellFormed;
    hide PrintItems;
    PassesBlank(blank, '[');
    PassesItems(items, '[');
    assert Print(Arr(blank, items)) == ['['] + (blank + PrintItems(items)) + [']'];
    ContainerScanned(blank, PrintItems(items), '[', rest);
  }

  lemma ObjectPrinted(blank: string, members: seq<Member>, rest: string)
    requires Blank(blank) && MembersWellFormed(members)
    ensures ValueLength(Print(Obj(blank, members)) + rest) == Some(|Print(Obj(blank, members))|)
  {
    hide Passes;
    hide ValueLength;
    hide Blank;
    hide MembersWellFormed;
    hide PrintMembers;
    PassesBlank(blank, '{');
    PassesMembers(members, '{');
    assert Print(Obj(blank, members)) == ['{'] + (blank + PrintMembers(members)) + ['}'];
    ContainerScanned(blank, PrintMembers(members), '{', rest);
  }

  lemma {:induction false} SpaceTaken(b: string, rest: string)
    requires Blank(b) && (rest == "" || !IsSpace(rest[0]))
    ensures SpaceLength(b + rest) == |b|
  {
    if b == "" {
      assert b + rest == rest;
    } else {
      assert (b + rest)[1..] == b[1..] + rest;
      SpaceTaken(b[1..], rest);
    }
  }

  /** From offset `i` the text reads `rest`. */
  predicate Reads(text: string, i: nat, rest: string) {
    i <= |text| && text[i..] == rest
  }

  lemma Moved(text: string, i: nat, a: string, b: string)
    requires Reads(text, i, a + b)
    ensures Reads(text, i + |a|, b)
  {
    assert (a + b)[|a|..] == b;
    assert text[i..][|a|..] == text[i + |a|..];
  }

  lemma FirstRead(text: string, i: nat, rest: string)
    requires Reads(text, i, rest) && rest != ""
    ensures i < |text| && text[i] == rest[0]
  {
    assert text[i] == text[i..][0];
  }

  lemma FirstOf(text: string, i: nat, a: string, b: string)
    requires Reads(text, i, a + b)
    ensures i + |a| <= |text| && text[i..i + |a|] == a
  {
    assert text[i..i + |a|] == text[i..][..|a|];
    assert (a + b)[..|a|] == a;
  }

  lemma BlankSkipped(text: string, i: nat, b: string, rest: string)
    requires Reads(text, i, b + rest) && Blank(b) && (rest == "" || !IsSpace(rest[0]))
    ensures SkipWs(text, i) == i + |b| && Reads(text, i + |b|, rest)
  {
    SpaceTaken(b, rest);
    Moved(text, i, b, rest);
  }

  lemma KeyScanned(text: string, i: nat, raw: string, rest: string)
    requires Reads(text, i, "\"" + (raw + ("\"" + rest))) && Decode(raw).Some?
    ensures i < |text| && text[i] == '\"'
    ensures ScanString(text, i) == Some(i + |raw| + 2) && i + |raw| + 1 <= |text| && text[i + 1..i + |raw| + 1] == raw
    ensures Reads(text, i + |raw| + 2, rest)
  {
    hide Decode;
    hide RawLength;
    FirstRead(text, i, "\"" + (raw + ("\"" + rest)));
    Moved(text, i, "\"", raw + ("\"" + rest));
    FirstOf(text, i + 1, raw, "\"" + rest);
    Moved(text, i + 1, raw, "\"" + rest);
    Moved(text, i + 1 + |raw|, "\"", rest);
    StringAt(text, i, raw, rest);
    hide Reads;
    hide ScanString;
  }

  lemma RawTakenFrom(raw: string, rest: string)
    requires Decode(raw).Some?
    ensures RawLength(raw + ("\"" + rest)) == Some(|raw|)
  {
    hide Decode;
    hide RawLength;
    RawTaken(raw, rest);
    Assoc(raw, "\"", rest);
  }

  lemma StringAt(text: string, i: nat, raw: string, rest: string)
    requires i < |text| && Reads(text, i + 1, raw + ("\"" + rest)) && Decode(raw).Some?
    ensures ScanString(text, i) == Some(i + |raw| + 2)
  {
    hide Decode;
    hide RawLength;
    RawTakenFrom(raw, rest);
  }

  lemma ColonScanned(text: string, i: nat, m: Member, rest: string)
    requires Reads(text, i, m.beforeColon + (":" + (m.afterColon + rest)))
    requires Blank(m.beforeColon) && Blank(m.afterColon) && rest != "" && !IsSpace(rest[0])
    ensures var colon := i + |m.beforeColon|;
            && SkipWs(text, i) == colon < |text| && text[colon] == ':'
            && SkipWs(text, colon + 1) == colon + 1 + |m.afterColon|
            && Reads(text, colon + 1 + |m.afterColon|, rest)
  {
    hide SkipWs;
    BlankSkipped(text, i, m.beforeColon, ":" + (m.afterColon + rest));
    var colon := i + |m.beforeColon|;
    FirstRead(text, colon, ":" + (m.afterColon + rest));
    Moved(text, colon, ":", m.afterColon + rest);
    BlankSkipped(text, colon + 1, m.afterColon, rest);
  }

  lemma ValueFound(text: string, i: nat, j: Json, rest: string)
    requires Reads(text, i, Print(j) + rest) && WellFormed(j) && (j.Scalar? ==> Delimited(rest))
    ensures ScanValue(text, i) == Some(i + |Print(j)|)
    ensures Reads(text, i + |Print(j)|, rest)
  {
    hide WellFormed;
    hide Print;
    hide ValueLength;
    ValueScanned(j, rest);
    Moved(text, i, Print(j), rest);
  }

  /** A member's text from its key on, the value and the rest given as `value`. */
  function Keyed(m: Member, value: string): string {
    "\"" + (m.raw + ("\"" + (m.beforeColon + (":" + (m.afterColon + value)))))
  }

  function FromKey(m: Member, tail: string): string {
    Keyed(m, Print(m.value) + (m.after + tail))
  }

  lemma MemberReads(m: Member, tail: string)
    ensures MemberText(m, Print(m.value)) + tail == m.before + FromKey(m, tail)
  {
    hide Print;
    Assoc(KeyText(m) + Print(m.value), m.after, tail);
    Assoc(KeyText(m), Print(m.value), m.after + tail);
    var v := Print(m.value) + (m.after + tail);
    Assoc(m.before + "\"" + m.raw + "\"", ColonText(m), v);
    Assoc(m.beforeColon + ":", m.afterColon, v);
    Assoc(m.beforeColon, ":", m.afterColon + v);
    var c := m.beforeColon + (":" + (m.afterColon + v));
    Assoc(m.before + "\"" + m.raw, "\"", c);
    Assoc(m.before + "\"", m.raw, "\"" + c);
    Assoc(m.before, "\"", m.raw + ("\"" + c));
  }

  /** The span of a member that starts, whitespace included, at `at`. */
  function SpanOf(at: nat, m: Member): Span
    requires Decode(m.raw).Some?
  {
    var valueStart := at + |KeyText(m)|;
    var valueEnd := valueStart + |Print(m.value)|;
    Span(KeyOf(m), valueStart, valueEnd, at + |m.before|, valueEnd)
  }

  function SpansOf(at: nat, members: seq<Member>): (r: seq<Span>)
    requires MembersWellFormed(members)
    ensures |r| == |members|
    decreases |members|
  {
    if members == [] then []
    else [SpanOf(at, members[0])] + SpansOf(at + |MemberText(members[0], Print(members[0].value))| + 1, members[1..])
  }

  /** From `i`, the scanner reads the member's key, its colon at `colon`, and comes to its value at `valueStart`. */
  ghost predicate HeadAt(text: string, i: nat, keyEnd: nat, colon: nat, valueStart: nat, m: Member) {
    && i + 1 < keyEnd <= colon < valueStart <= |text|
    && text[i] == '\"' && text[colon] == ':'
    && ScanString(text, i) == Some(keyEnd)
    && text[i + 1..keyEnd - 1] == m.raw
    && SkipWs(text, keyEnd) == colon
    && SkipWs(text, colon + 1) == valueStart
  }

  lemma HeadScanned(text: string, i: nat, m: Member, value: string)
    requires Reads(text, i, Keyed(m, value))
    requires MemberBlanks(m) && value != "" && !IsSpace(value[0])
    ensures var keyEnd := i + |m.raw| + 2;
            var colon := keyEnd + |m.beforeColon|;
            var valueStart := colon + 1 + |m.afterColon|;
            HeadAt(text, i, keyEnd, colon, valueStart, m) && Reads(text, valueStart, value)
  {
    hide Decode;
    hide ScanString;
    hide SkipWs;
    KeyScanned(text, i, m.raw, m.beforeColon + (":" + (m.afterColon + value)));
    ColonScanned(text, i + |m.raw| + 2, m, value);
    InText(text, i + |m.raw| + 2 + |m.beforeColon| + 1 + |m.afterColon|, value);
    hide Reads;
  }

  lemma InText(text: string, i: nat, rest: string)
    requires Reads(text, i, rest)
    ensures i <= |text|
  {
  }

  /** From its value on, the scanner reads the member out, and stops at what follows it. */
  ghost predicate TailAt(text: string, valueStart: nat, valueEnd: nat, next: nat) {
    && valueStart <= valueEnd <= next < |text|
    && ScanValue(text, valueStart) == Some(valueEnd)
    && SkipWs(text, valueEnd) == next
  }

  lemma TailScanned(text: string, valueStart: nat, m: Member, tail: string)
    requires Reads(text, valueStart, Print(m.value) + (m.after + tail))
    requires WellFormed(m.value) && Blank(m.after) && tail != "" && (tail[0] == ',' || tail[0] == '}')
    ensures var valueEnd := valueStart + |Print(m.value)|;
            var next := valueEnd + |m.after|;
            TailAt(text, valueStart, valueEnd, next) && Reads(text, next, tail)
  {
    hide Print;
    hide WellFormed;
    hide ScanValue;
    hide SkipWs;
    hide Reads;
    ValueFound(text, valueStart, m.value, m.after + tail);
    BlankSkipped(text, valueStart + |Print(m.value)|, m.after, tail);
    FirstRead(text, valueStart + |Print(m.value)| + |m.after|, tail);
  }

  /** Where the scanner looks for another key once it stands at `next`. */
  function NextKey(text: string, next: nat): nat
    requires next < |text|
  {
    if text[next] == ',' then SkipWs(text, next + 1) else next
  }

  /** The scanner finds the member `span` at `i`, and `next` is where it stops. */
  ghost predicate FoundAt(text: string, i: nat, next: nat, span: Span) {
    i < next < |text| && text[i] == '\"' && MemberAt(text, i) == Some((span, NextKey(text, next)))
  }

  lemma MemberAssembled(text: string, i: nat, keyEnd: nat, colon: nat, valueStart: nat, valueEnd: nat, next: nat,
      m: Member)
    requires HeadAt(text, i, keyEnd, colon, valueStart, m) && Decode(m.raw).Some?
    requires TailAt(text, valueStart, valueEnd, next)
    ensures FoundAt(text, i, next, Span(KeyOf(m), valueStart, valueEnd, i, valueEnd))
  {
    hide Decode;
    hide ScanString;
    hide ScanValue;
    hide SkipWs;
  }

  lemma KeyLength(m: Member)
    ensures |KeyText(m)| == |m.before| + |m.raw| + 2 + |m.beforeColon| + 1 + |m.afterColon|
  {
  }

  lemma MemberLengths(m: Member)
    ensures |KeyText(m)| == |m.before| + |m.raw| + 2 + |m.beforeColon| + 1 + |m.afterColon|
    ensures |MemberText(m, Print(m.value))| == |KeyText(m)| + |Print(m.value)| + |m.after|
  {
    hide Print;
  }

  lemma ValueStart(j: Json, rest: string)
    requires WellFormed(j)
    ensures Print(j) + rest != "" && !IsSpace((Print(j) + rest)[0])
  {
    FirstNotSpace(j);
    hide Print;
  }

  /** The member's offsets, where its text starts at `at`. */
  ghost predicate HeadFrom(text: string, at: nat, m: Member) {
    var i := at + |m.before|;
    var colon := i + |m.raw| + 2 + |m.beforeColon|;
    HeadAt(text, i, i + |m.raw| + 2, colon, colon + 1 + |m.afterColon|, m)
  }

  lemma HeadFound(text: string, at: nat, m: Member, tail: string)
    requires Reads(text, at + |m.before|, FromKey(m, tail))
    requires MemberBlanks(m) && WellFormed(m.value)
    ensures HeadFrom(text, at, m)
    ensures Reads(text, at + |KeyText(m)|, Print(m.value) + (m.after + tail))
  {
    hide Print;
    hide WellFormed;
    hide Decode;
    hide Reads;
    hide KeyText;
    hide HeadAt;
    hide Keyed;
    hide IsSpace;
    ValueStart(m.value, m.after + tail);
    KeyLength(m);
    HeadScanned(text, at + |m.before|, m, Print(m.value) + (m.after + tail));
  }

  lemma MemberFinished(text: string, at: nat, m: Member, tail: string)
    requires HeadFrom(text, at, m) && Decode(m.raw).Some? && WellFormed(m.value) && Blank(m.after)
    requires Reads(text, at + |KeyText(m)|, Print(m.value) + (m.after + tail))
    requires tail != "" && (tail[0] == ',' || tail[0] == '}')
    ensures FoundAt(text, at + |m.before|, at + |MemberText(m, Print(m.value))|, SpanOf(at, m))
    ensures Reads(text, at + |MemberText(m, Print(m.value))|, tail)
  {
    MemberLengths(m);
    hide Print;
    hide WellFormed;
    hide Decode;
    hide Reads;
    hide KeyText;
    hide MemberText;
    hide HeadAt;
    hide TailAt;
    hide FoundAt;
    var i := at + |m.before|;
    var keyEnd := i + |m.raw| + 2;
    var colon := keyEnd + |m.beforeColon|;
    var valueStart := colon + 1 + |m.afterColon|;
    var valueEnd := valueStart + |Print(m.value)|;
    TailScanned(text, valueStart, m, tail);
    MemberAssembled(text, i, keyEnd, colon, valueStart, valueEnd, valueEnd + |m.after|, m);
  }

  lemma MemberScanned(text: string, at: nat, m: Member, tail: string)
    requires Reads(text, at + |m.before|, FromKey(m, tail))
    requires MemberBlanks(m) && WellFormed(m.value)
    requires tail != "" && (tail[0] == ',' || tail[0] == '}')
    ensures FoundAt(text, at + |m.before|, at + |MemberText(m, Print(m.value))|, SpanOf(at, m))
    ensures Reads(text, at + |MemberText(m, Print(m.value))|, tail)
  {
    hide Print;
    hide WellFormed;
    hide Decode;
    hide Reads;
    hide KeyText;
    hide MemberText;
    hide FromKey;
    hide HeadFrom;
    hide FoundAt;
    HeadFound(text, at, m, tail);
    MemberFinished(text, at, m, tail);
  }

  lemma FirstNotSpace(j: Json)
    requires WellFormed(j)
    ensures Print(j) != "" && !IsSpace(Print(j)[0])
  {
  }

  /** The rest of an object from one of its members on. */
  function FromMembers(members: seq<Member>, rest: string): string {
    PrintMembers(members) + ("}" + rest)
  }

  lemma KeyStarts(m: Member, tail: string)
    ensures FromKey(m, tail) != "" && FromKey(m, tail)[0] == '\"'
  {
    hide Print;
  }

  lemma FromMembersReads(members: seq<Member>, rest: string)
    requires members != []
    ensures FromMembers(members, rest)
         == members[0].before + FromKey(members[0], MoreMembers(members[1..]) + ("}" + rest))
  {
    hide Print;
    hide PrintMembers;
    hide MemberText;
    hide FromKey;
    MembersText(members, rest);
    MemberReads(members[0], MoreMembers(members[1..]) + ("}" + rest));
  }

  lemma SpansCons(text: string, i: nat, next: nat, span: Span, more: seq<Span>)
    requires FoundAt(text, i, next, span)
    requires NextKey(text, next) <= |text| && MembersAt(text, NextKey(text, next)) == Some(more)
    ensures MembersAt(text, i) == Some([span] + more)
  {
    hide MemberAt;
    hide NextKey;
  }

  lemma NoMoreMembers(text: string, next: nat)
    requires next < |text| && text[next] == '}'
    ensures NextKey(text, next) == next && MembersAt(text, next) == Some([])
  {
  }

  lemma KeyAfterComma(text: string, next: nat, members: seq<Member>, rest: string)
    requires members != [] && MembersWellFormed(members)
    requires Reads(text, next, "," + FromMembers(members, rest))
    ensures next < |text| && Reads(text, next + 1, FromMembers(members, rest))
    ensures NextKey(text, next) == next + 1 + |members[0].before|
    ensures Reads(text, next + 1 + |members[0].before|, FromKey(members[0], MoreMembers(members[1..]) + ("}" + rest)))
  {
    var key := FromKey(members[0], MoreMembers(members[1..]) + ("}" + rest));
    KeyStarts(members[0], MoreMembers(members[1..]) + ("}" + rest));
    hide FromKey;
    hide Print;
    hide WellFormed;
    hide Decode;
    FirstRead(text, next, "," + FromMembers(members, rest));
    Moved(text, next, ",", FromMembers(members, rest));
    FromMembersReads(members, rest);
    hide FromMembers;
    hide Reads;
    BlankSkipped(text, next + 1, members[0].before, key);
  }

  lemma FirstWellFormed(members: seq<Member>)
    requires members != [] && MembersWellFormed(members)
    ensures MemberBlanks(members[0]) && Blank(members[0].before) && Decode(members[0].raw).Some?
    ensures WellFormed(members[0].value) && MembersWellFormed(members[1..])
  {
    hide Decode;
    hide Blank;
  }

  lemma SpansFrom(at: nat, members: seq<Member>)
    requires members != [] && MembersWellFormed(members) && Decode(members[0].raw).Some?
        && MembersWellFormed(members[1..])
    ensures SpansOf(at, members)
         == [SpanOf(at, members[0])] + SpansOf(at + |MemberText(members[0], Print(members[0].value))| + 1, members[1..])
  {
    hide Decode;
    hide Print;
    hide MemberText;
    hide MembersWellFormed;
  }

  lemma TailFrom(members: seq<Member>, rest: string)
    requires members != []
    ensures var tail := MoreMembers(members[1..]) + ("}" + rest);
            && tail != "" && (tail[0] == ',' || tail[0] == '}')
            && (members[1..] == [] ==> tail[0] == '}')
            && (members[1..] != [] ==> tail == "," + FromMembers(members[1..], rest))
  {
    hide Print;
    hide PrintMembers;
    if members[1..] != [] {
      Assoc(",", PrintMembers(members[1..]), "}" + rest);
    }
  }

  /** On printed members the scanner returns exactly their spans, in order. */
  lemma {:induction false} MembersScanned(text: string, at: nat, members: seq<Member>, rest: string)
    requires members != [] && MembersWellFormed(members)
    requires Reads(text, at + |members[0].before|, FromKey(members[0], MoreMembers(members[1..]) + ("}" + rest)))
    ensures at + |members[0].before| <= |text|
    ensures MembersAt(text, at + |members[0].before|) == Some(SpansOf(at, members))
    decreases |members|
  {
    hide FromKey;
    hide FromMembers;
    hide MoreMembers;
    hide MemberBlanks;
    hide Blank;
    hide Print;
    hide WellFormed;
    hide MembersWellFormed;
    hide Decode;
    hide MemberText;
    hide SpanOf;
    hide SpansOf;
    hide Reads;
    hide MembersAt;
    hide NextKey;
    hide FoundAt;
    var m, more := members[0], members[1..];
    var tail := MoreMembers(more) + ("}" + rest);
    FirstWellFormed(members);
    SpansFrom(at, members);
    TailFrom(members, rest);
    var next := at + |MemberText(m, Print(m.value))|;
    MemberScanned(text, at, m, tail);
    FirstRead(text, next, tail);
    if more == [] {
      NoMoreMembers(text, next);
      NoSpans(next + 1);
      SpansCons(text, at + |m.before|, next, SpanOf(at, m), []);
    } else {
      KeyAfterComma(text, next, more, rest);
      MembersScanned(text, next + 1, more, rest);
      SpansCons(text, at + |m.before|, next, SpanOf(at, m), SpansOf(next + 1, more));
    }
    KeyInText(text, at + |m.before|, m, tail);
  }

  lemma NoSpans(at: nat)
    ensures MembersWellFormed([]) && SpansOf(at, []) == []
  {
  }

  lemma KeyInText(text: string, i: nat, m: Member, tail: string)
    requires Reads(text, i, FromKey(m, tail))
    ensures i < |text|
  {
  }

  lemma EmptyObjectScanned(text: string, at: nat, blank: string, rest: string)
    requires Blank(blank) && Reads(text, at + 1, blank + ("}" + rest))
    ensures SkipWs(text, at + 1) <= |text| && MembersAt(text, SkipWs(text, at + 1)) == Some([])
  {
    hide SkipWs;
    BlankSkipped(text, at + 1, blank, "}" + rest);
    FirstRead(text, at + 1 + |blank|, "}" + rest);
    NoMoreMembers(text, at + 1 + |blank|);
  }

  lemma FirstKeyReached(text: string, at: nat, members: seq<Member>, rest: string)
    requires members != [] && Blank(members[0].before)
    requires Reads(text, at + 1, FromMembers(members, rest))
    ensures at + 1 <= |text| && SkipWs(text, at + 1) == at + 1 + |members[0].before| <= |text|
    ensures Reads(text, at + 1 + |members[0].before|, FromKey(members[0], MoreMembers(members[1..]) + ("}" + rest)))
  {
    hide MoreMembers;
    hide FromKey;
    hide FromMembers;
    hide Reads;
    hide SkipWs;
    var tail := MoreMembers(members[1..]) + ("}" + rest);
    InText(text, at + 1, FromMembers(members, rest));
    KeyStarts(members[0], tail);
    FromMembersReads(members, rest);
    BlankSkipped(text, at + 1, members[0].before, FromKey(members[0], tail));
    InText(text, at + 1 + |members[0].before|, FromKey(members[0], tail));
  }

  lemma FullObjectScanned(text: string, at: nat, members: seq<Member>, rest: string)
    requires members != [] && MembersWellFormed(members)
    requires Reads(text, at + 1, FromMembers(members, rest))
    ensures at + 1 <= |text|
    ensures SkipWs(text, at + 1) <= |text| && MembersAt(text, SkipWs(text, at + 1)) == Some(SpansOf(at + 1, members))
  {
    hide MembersWellFormed;
    hide WellFormed;
    hide MemberBlanks;
    hide Decode;
    hide Blank;
    hide MoreMembers;
    hide SpansOf;
    hide MembersAt;
    hide FromKey;
    hide FromMembers;
    hide Reads;
    hide SkipWs;
    FirstWellFormed(members);
    FirstKeyReached(text, at, members, rest);
    MembersScanned(text, at + 1, members, rest);
  }

  /** The members the scanner finds in a printed object are the object's. */
  lemma ObjectScanned(text: string, at: nat, blank: string, members: seq<Member>, rest: string)
    requires WellFormed(Obj(blank, members))
    requires Reads(text, at, "{" + (blank + FromMembers(members, rest)))
    ensures at < |text| && MembersOf(text, at) == Some(SpansOf(at + 1, members))
  {
    FirstRead(text, at, "{" + (blank + FromMembers(members, rest)));
    Moved(text, at, "{", blank + FromMembers(members, rest));
    hide Print;
    hide MembersAt;
    hide SkipWs;
    if members == [] {
      assert FromMembers(members, rest) == "}" + rest;
      EmptyObjectScanned(text, at, blank, rest);
    } else {
      assert blank + FromMembers(members, rest) == FromMembers(members, rest);
      FullObjectScanned(text, at, members, rest);
    }
  }

  lemma ObjectReads(blank: string, members: seq<Member>, rest: string)
    ensures Print(Obj(blank, members)) + rest == "{" + (blank + FromMembers(members, rest))
  {
    hide PrintMembers;
    Assoc("{" + blank + PrintMembers(members), "}", rest);
    Assoc("{" + blank, PrintMembers(members), "}" + rest);
    Assoc("{", blank, PrintMembers(members) + ("}" + rest));
  }
}
