// How the config editor writes a value: `JSON.stringify` with two spaces, indented again to where it goes.
module ConfigRender {
  import opened Strings
  import opened Options
  import opened Json

  predicate IsUnit(u: int) {
    0 <= u < 0xD800 || 0xE000 <= u < 0x11_0000
  }

  predicate IsText(units: Units) {
    forall k :: 0 <= k < |units| ==> IsUnit(units[k])
  }

  /** A value `JSON.stringify` can write: scalars spelled as JSON spells them, no unpaired surrogates. */
  predicate Storable(v: Tree)
    decreases v, 1
  {
    match v
    case Atom(text) => ScalarText(text)
    case Text(units) => IsText(units)
    case List(items) => ItemsStorable(items)
    case Object(entries) => EntriesStorable(entries)
  }

  predicate ItemsStorable(items: seq<Tree>)
    decreases items, 0
  {
    items == [] || (Storable(items[0]) && ItemsStorable(items[1..]))
  }

  predicate EntriesStorable(entries: seq<Entry>)
    decreases entries, 0
  {
    entries == [] || (IsText(entries[0].key) && Storable(entries[0].value) && EntriesStorable(entries[1..]))
  }

  function HexChar(n: int): char
    requires 0 <= n < 16
  {
    if n < 10 then (n + '0' as int) as char else (n - 10 + 'a' as int) as char
  }

  function EncodeUnit(u: int): string
    requires IsUnit(u)
  {
    if u == 34 then "\\\""
    else if u == 92 then "\\\\"
    else if u == 8 then "\\b"
    else if u == 12 then "\\f"
    else if u == 10 then "\\n"
    else if u == 13 then "\\r"
    else if u == 9 then "\\t"
    else if u < 0x20 then "\\u00" + [HexChar(u / 16), HexChar(u % 16)]
    else [u as char]
  }

  function Encode(units: Units): string
    requires IsText(units)
  {
    if units == [] then "" else EncodeUnit(units[0]) + Encode(units[1..])
  }

  lemma HexRoundTrip(n: int)
    requires 0 <= n < 16
    ensures HexDigit(HexChar(n)) == Some(n)
  {
  }

  lemma ControlDecoded(u: int, rest: string)
    requires 0 <= u < 0x20 && u !in {8, 9, 10, 12, 13} && Decode(rest).Some?
    ensures Decode(EncodeUnit(u) + rest) == Some([u] + Decode(rest).value)
  {
    var s := EncodeUnit(u) + rest;
    HexRoundTrip(0);
    HexRoundTrip(u / 16);
    HexRoundTrip(u % 16);
    assert s[1] == 'u' && s[2] == HexChar(0) && s[3] == HexChar(0);
    assert s[4] == HexChar(u / 16) && s[5] == HexChar(u % 16);
    assert s[6..] == rest;
    assert u / 16 * 16 + u % 16 == u;
  }

  lemma UnitDecoded(u: int, rest: string)
    requires IsUnit(u) && Decode(rest).Some?
    ensures Decode(EncodeUnit(u) + rest) == Some([u] + Decode(rest).value)
  {
    if u == 34 || u == 92 || u == 8 || u == 12 || u == 10 || u == 13 || u == 9 {
      assert (EncodeUnit(u) + rest)[2..] == rest;
    } else if u < 0x20 {
      ControlDecoded(u, rest);
    } else {
      assert (EncodeUnit(u) + rest)[1..] == rest;
    }
  }

  /** A written key or string reads back as the one that was written. */
  lemma {:induction false} DecodeEncode(units: Units)
    requires IsText(units)
    ensures Decode(Encode(units)) == Some(units)
  {
    if units != [] {
      DecodeEncode(units[1..]);
      UnitDecoded(units[0], Encode(units[1..]));
      hide Decode;
      hide EncodeUnit;
      assert units == [units[0]] + units[1..];
    }
  }

  lemma UnitOneLine(u: int)
    requires IsUnit(u)
    ensures Text.OneLine(EncodeUnit(u))
  {
    if 0 <= u < 0x20 {
      assert HexChar(u / 16) != '\n' && HexChar(u % 16) != '\n';
    }
  }

  lemma {:induction false} EncodeOneLine(units: Units)
    requires IsText(units)
    ensures Text.OneLine(Encode(units))
  {
    if units != [] {
      UnitOneLine(units[0]);
      EncodeOneLine(units[1..]);
    }
  }

  // Layout

  function Layout(v: Tree, indent: string): Json
    requires Storable(v)
    decreases v, 1
  {
    match v
    case Atom(text) => Scalar(text)
    case Text(units) => Str(Encode(units))
    case List(items) => Arr("", LayoutItems(items, indent))
    case Object(entries) => Obj("", LayoutMembers(entries, indent))
  }

  /** The whitespace after an item: nothing before a comma, a new line before the closing bracket. */
  function Close(more: nat, indent: string): string {
    if more == 0 then "\n" + indent else ""
  }

  function LayoutItems(items: seq<Tree>, indent: string): (r: seq<Item>)
    requires ItemsStorable(items)
    ensures |r| == |items|
    decreases items, 0
  {
    if items == [] then []
    else
      [Item("\n" + (indent + "  "), Layout(items[0], indent + "  "), Close(|items| - 1, indent))]
      + LayoutItems(items[1..], indent)
  }

  function LayoutMember(key: Units, value: Json, more: nat, indent: string): Member
    requires IsText(key)
  {
    Member("\n" + (indent + "  "), Encode(key), "", " ", value, Close(more, indent))
  }

  function LayoutMembers(entries: seq<Entry>, indent: string): (r: seq<Member>)
    requires EntriesStorable(entries)
    ensures |r| == |entries|
    decreases entries, 0
  {
    if entries == [] then []
    else
      [LayoutMember(entries[0].key, Layout(entries[0].value, indent + "  "), |entries| - 1, indent)]
      + LayoutMembers(entries[1..], indent)
  }

  lemma {:induction false} LayoutMeans(v: Tree, indent: string)
    requires Storable(v) && Blank(indent)
    ensures WellFormed(Layout(v, indent)) && Meaning(Layout(v, indent)) == v
    decreases v, 1
  {
    match v
    case Atom(_) =>
    case Text(units) => DecodeEncode(units);
    case List(items) => LayoutItemsMean(items, indent);
    case Object(entries) => LayoutMembersMean(entries, indent);
  }

  lemma {:induction false} LayoutItemsMean(items: seq<Tree>, indent: string)
    requires ItemsStorable(items) && Blank(indent)
    ensures ItemsWellFormed(LayoutItems(items, indent)) && ItemsMeaning(LayoutItems(items, indent)) == items
    decreases items, 0
  {
    if items != [] {
      LayoutMeans(items[0], indent + "  ");
      LayoutItemsMean(items[1..], indent);
      hide Layout;
      hide WellFormed;
      hide Meaning;
      assert LayoutItems(items, indent)[1..] == LayoutItems(items[1..], indent);
    }
  }

  lemma {:induction false} LayoutMembersMean(entries: seq<Entry>, indent: string)
    requires EntriesStorable(entries) && Blank(indent)
    ensures MembersWellFormed(LayoutMembers(entries, indent))
    ensures MembersMeaning(LayoutMembers(entries, indent)) == entries
    decreases entries, 0
  {
    if entries != [] {
      LayoutMeans(entries[0].value, indent + "  ");
      LayoutMembersMean(entries[1..], indent);
      DecodeEncode(entries[0].key);
      hide Layout;
      hide WellFormed;
      hide Meaning;
      hide Decode;
      hide Encode;
      var members := LayoutMembers(entries, indent);
      assert members[1..] == LayoutMembers(entries[1..], indent);
      assert entries == [entries[0]] + entries[1..];
      assert entries[0] == Entry(KeyOf(members[0]), Meaning(members[0].value));
    }
  }

  // Indenting again

  function JoinWith(lines: seq<string>, separator: string): string {
    if |lines| == 0 then ""
    else if |lines| == 1 then lines[0]
    else lines[0] + separator + JoinWith(lines[1..], separator)
  }

  function Stringify(v: Tree): string
    requires Storable(v)
  {
    Print(Layout(v, ""))
  }

  function Render(v: Tree, indent: string): string
    requires Storable(v)
  {
    JoinWith(Text.Split(Stringify(v)), "\n" + indent)
  }

  function Reindent(s: string, indent: string): string {
    if s == "" then ""
    else (if s[0] == '\n' then "\n" + indent else [s[0]]) + Reindent(s[1..], indent)
  }

  lemma {:induction false} SplitJoinedWith(s: string, indent: string)
    ensures JoinWith(Text.Split(s), "\n" + indent) == Reindent(s, indent)
  {
    if s != "" {
      SplitJoinedWith(s[1..], indent);
      var rest := Text.Split(s[1..]);
      var all := Text.Split(s);
      if s[0] == '\n' {
        assert all[1..] == rest;
      } else {
        assert all[1..] == rest[1..];
        if |rest| > 1 {
          Assoc([s[0]], rest[0] + ("\n" + indent), JoinWith(rest[1..], "\n" + indent));
          Assoc([s[0]], rest[0], "\n" + indent);
        }
      }
    }
  }

  lemma {:induction false} ReindentJoined(a: string, b: string, indent: string)
    ensures Reindent(a + b, indent) == Reindent(a, indent) + Reindent(b, indent)
  {
    if a == "" {
      assert a + b == b;
    } else {
      assert (a + b)[1..] == a[1..] + b;
      ReindentJoined(a[1..], b, indent);
      Assoc(if a[0] == '\n' then "\n" + indent else [a[0]], Reindent(a[1..], indent), Reindent(b, indent));
    }
  }

  lemma {:induction false} ReindentOneLine(s: string, indent: string)
    requires Text.OneLine(s)
    ensures Reindent(s, indent) == s
  {
    if s != "" {
      ReindentOneLine(s[1..], indent);
    }
  }

  lemma NewLineReindented(indent: string, outer: string)
    requires Text.OneLine(indent)
    ensures Reindent("\n" + indent, outer) == "\n" + (outer + indent)
  {
    ReindentOneLine(indent, outer);
    ReindentJoined("\n", indent, outer);
    assert Reindent("\n", outer) == "\n" + outer;
    Assoc("\n", outer, indent);
  }

  lemma CloseReindented(more: nat, indent: string, outer: string)
    requires Text.OneLine(indent)
    ensures Reindent(Close(more, indent), outer) == Close(more, outer + indent)
  {
    if more == 0 {
      NewLineReindented(indent, outer);
    }
  }

  lemma {:induction false} LayoutReindented(v: Tree, indent: string, outer: string)
    requires Storable(v) && Text.OneLine(indent)
    ensures Reindent(Print(Layout(v, indent)), outer) == Print(Layout(v, outer + indent))
    decreases v, 1
  {
    match v
    case Atom(text) => ReindentOneLine(text, outer);
    case Text(units) =>
      EncodeOneLine(units);
      ReindentOneLine("\"" + Encode(units) + "\"", outer);
    case List(items) =>
      LayoutItemsReindented(items, indent, outer);
      Bracketed("[", PrintItems(LayoutItems(items, indent)), "]", outer);
    case Object(entries) =>
      LayoutMembersReindented(entries, indent, outer);
      Bracketed("{", PrintMembers(LayoutMembers(entries, indent)), "}", outer);
  }

  lemma Bracketed(open: string, body: string, close: string, outer: string)
    requires |open| == |close| == 1 && Text.OneLine(open) && Text.OneLine(close)
    ensures Reindent(open + "" + body + close, outer) == open + "" + Reindent(body, outer) + close
  {
    assert open + "" == open;
    ReindentJoined(open + body, close, outer);
    ReindentJoined(open, body, outer);
    ReindentOneLine(open, outer);
    ReindentOneLine(close, outer);
  }

  lemma {:induction false} LayoutItemsReindented(items: seq<Tree>, indent: string, outer: string)
    requires ItemsStorable(items) && Text.OneLine(indent)
    ensures Reindent(PrintItems(LayoutItems(items, indent)), outer) == PrintItems(LayoutItems(items, outer + indent))
    decreases items, 0
  {
    if items != [] {
      var inner := indent + "  ";
      var value := Print(Layout(items[0], inner));
      LayoutReindented(items[0], inner, outer);
      Assoc(outer, indent, "  ");
      LayoutItemsReindented(items[1..], indent, outer);
      NewLineReindented(inner, outer);
      CloseReindented(|items| - 1, indent, outer);
      hide Layout;
      hide Print;
      hide Reindent;
      var here, there := LayoutItems(items, indent), LayoutItems(items, outer + indent);
      assert here[1..] == LayoutItems(items[1..], indent) && there[1..] == LayoutItems(items[1..], outer + indent);
      ReindentJoined(ItemText(here[0], value), MoreItems(here[1..]), outer);
      ReindentJoined(here[0].before + value, here[0].after, outer);
      ReindentJoined(here[0].before, value, outer);
      MoreItemsReindented(here[1..], there[1..], outer);
    }
  }

  lemma MoreItemsReindented(here: seq<Item>, there: seq<Item>, outer: string)
    requires |here| == |there| && Reindent(PrintItems(here), outer) == PrintItems(there)
    ensures Reindent(MoreItems(here), outer) == MoreItems(there)
  {
    if here != [] {
      ReindentJoined(",", PrintItems(here), outer);
      ReindentOneLine(",", outer);
    }
  }

  lemma MoreMembersReindented(here: seq<Member>, there: seq<Member>, outer: string)
    requires |here| == |there| && Reindent(PrintMembers(here), outer) == PrintMembers(there)
    ensures Reindent(MoreMembers(here), outer) == MoreMembers(there)
  {
    if here != [] {
      ReindentJoined(",", PrintMembers(here), outer);
      ReindentOneLine(",", outer);
    }
  }

  lemma KeyReindented(key: Units, here: Json, there: Json, more: nat, indent: string, outer: string)
    requires IsText(key) && Text.OneLine(indent)
    ensures Reindent(KeyText(LayoutMember(key, here, more, indent)), outer)
         == KeyText(LayoutMember(key, there, more, outer + indent))
  {
    var inner := indent + "  ";
    var quoted := "\"" + Encode(key) + "\"" + ("" + ":" + " ");
    EncodeOneLine(key);
    hide Encode;
    NewLineReindented(inner, outer);
    Assoc(outer, indent, "  ");
    ReindentOneLine(quoted, outer);
    ReindentJoined("\n" + inner, quoted, outer);
    hide Reindent;
    forall start: string ensures start + "\"" + Encode(key) + "\"" + ("" + ":" + " ") == start + quoted {
      Assoc(start, "\"", Encode(key));
      Assoc(start, "\"" + Encode(key), "\"");
      Assoc(start, "\"" + Encode(key) + "\"", "" + ":" + " ");
    }
  }

  lemma {:induction false} LayoutMembersReindented(entries: seq<Entry>, indent: string, outer: string)
    requires EntriesStorable(entries) && Text.OneLine(indent)
    ensures Reindent(PrintMembers(LayoutMembers(entries, indent)), outer)
        == PrintMembers(LayoutMembers(entries, outer + indent))
    decreases entries, 0
  {
    if entries != [] {
      var inner := indent + "  ";
      var value := Print(Layout(entries[0].value, inner));
      LayoutReindented(entries[0].value, inner, outer);
      Assoc(outer, indent, "  ");
      LayoutMembersReindented(entries[1..], indent, outer);
      CloseReindented(|entries| - 1, indent, outer);
      hide Layout;
      hide Print;
      hide Reindent;
      hide KeyText;
      var here, there := LayoutMembers(entries, indent), LayoutMembers(entries, outer + indent);
      KeyReindented(entries[0].key, here[0].value, there[0].value, |entries| - 1, indent, outer);
      assert here[1..] == LayoutMembers(entries[1..], indent)
          && there[1..] == LayoutMembers(entries[1..], outer + indent);
      ReindentJoined(MemberText(here[0], value), MoreMembers(here[1..]), outer);
      ReindentJoined(KeyText(here[0]) + value, here[0].after, outer);
      ReindentJoined(KeyText(here[0]), value, outer);
      MoreMembersReindented(here[1..], there[1..], outer);
    }
  }

  /** A rendered value is the print of its layout at the new indentation, so it parses back to the value. */
  lemma RenderIsLayout(v: Tree, indent: string)
    requires Storable(v)
    ensures Render(v, indent) == Print(Layout(v, indent))
  {
    SplitJoinedWith(Stringify(v), indent);
    LayoutReindented(v, "", indent);
    assert indent + "" == indent;
  }
}
