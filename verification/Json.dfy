// JSON text as a concrete syntax tree: every character of a document is in the tree, whitespace included. The grammar
// is sections 2 to 7 of RFC 8259.
module Json {
  import opened Options
  import Text

  /** A string as a sequence of code units, which is what a decoded key is compared as. */
  type Units = seq<int>

  datatype Json =
    | Scalar(text: string)
    | Str(raw: string)
    | Arr(blank: string, items: seq<Item>)
    | Obj(blank: string, members: seq<Member>)

  datatype Item = Item(before: string, value: Json, after: string)

  datatype Member = Member(before: string, raw: string, beforeColon: string, afterColon: string, value: Json,
      after: string)

  datatype Document = Document(lead: string, root: Json, trail: string)

  // Printing

  function Print(j: Json): string
    decreases j, 1
  {
    match j
    case Scalar(text) => text
    case Str(raw) => "\"" + raw + "\""
    case Arr(blank, items) => "[" + blank + PrintItems(items) + "]"
    case Obj(blank, members) => "{" + blank + PrintMembers(members) + "}"
  }

  function PrintItems(items: seq<Item>): string
    decreases items, 0
  {
    if items == [] then ""
    else ItemText(items[0], Print(items[0].value)) + MoreItems(items[1..])
  }

  function MoreItems(items: seq<Item>): string
    decreases items, 1
  {
    if items == [] then "" else "," + PrintItems(items)
  }

  function ItemText(item: Item, value: string): string {
    item.before + value + item.after
  }

  function MemberText(m: Member, value: string): string {
    KeyText(m) + value + m.after
  }

  function MoreMembers(members: seq<Member>): string
    decreases members, 1
  {
    if members == [] then "" else "," + PrintMembers(members)
  }

  function ColonText(m: Member): string {
    m.beforeColon + ":" + m.afterColon
  }

  function KeyText(m: Member): string {
    m.before + "\"" + m.raw + "\"" + ColonText(m)
  }

  function PrintMembers(members: seq<Member>): string
    decreases members, 0
  {
    if members == [] then ""
    else MemberText(members[0], Print(members[0].value)) + MoreMembers(members[1..])
  }

  function PrintDocument(d: Document): string {
    d.lead + Print(d.root) + d.trail
  }

  // Well-formedness

  predicate IsWs(c: char) {
    c == ' ' || c == '\t' || c == '\n' || c == '\r'
  }

  predicate Blank(s: string) {
    forall k :: 0 <= k < |s| ==> IsWs(s[k])
  }

  /** A character of a number or of `true`, `false` or `null`. */
  predicate ScalarChar(c: char) {
    '0' <= c <= '9' || 'a' <= c <= 'z' || 'A' <= c <= 'Z' || c == '+' || c == '-' || c == '.'
  }

  /** What may follow a number's fraction: nothing, or an exponent. */
  predicate ExponentText(s: string) {
    s == "" || ((s[0] == 'e' || s[0] == 'E')
      && var t := if |s| > 1 && (s[1] == '+' || s[1] == '-') then s[2..] else s[1..];
      t != "" && Text.DigitRun(t) == |t|)
  }

  predicate FractionText(s: string) {
    if s == "" || s[0] != '.' then ExponentText(s)
    else Text.DigitRun(s[1..]) > 0 && ExponentText(s[1 + Text.DigitRun(s[1..])..])
  }

  predicate NumberText(s: string) {
    var t := if s != "" && s[0] == '-' then s[1..] else s;
    var n := Text.DigitRun(t);
    n > 0 && (t[0] == '0' ==> n == 1) && FractionText(t[n..])
  }

  predicate LiteralText(s: string) {
    s == "true" || s == "false" || s == "null" || NumberText(s)
  }

  predicate ScalarText(s: string) {
    s != "" && (forall k :: 0 <= k < |s| ==> ScalarChar(s[k])) && LiteralText(s)
  }

  predicate WellFormed(j: Json)
    decreases j, 1
  {
    match j
    case Scalar(text) => ScalarText(text)
    case Str(raw) => Decode(raw).Some?
    case Arr(blank, items) => Blank(blank) && (items != [] ==> blank == "") && ItemsWellFormed(items)
    case Obj(blank, members) => Blank(blank) && (members != [] ==> blank == "") && MembersWellFormed(members)
  }

  predicate ItemsWellFormed(items: seq<Item>)
    decreases items, 0
  {
    items == [] || (Blank(items[0].before) && WellFormed(items[0].value) && Blank(items[0].after)
      && ItemsWellFormed(items[1..]))
  }

  predicate MemberBlanks(m: Member) {
    Blank(m.before) && Decode(m.raw).Some? && Blank(m.beforeColon) && Blank(m.afterColon) && Blank(m.after)
  }

  predicate MembersWellFormed(members: seq<Member>)
    decreases members, 0
  {
    members == [] || (MemberBlanks(members[0]) && WellFormed(members[0].value) && MembersWellFormed(members[1..]))
  }

  predicate DocumentWellFormed(d: Document) {
    Blank(d.lead) && WellFormed(d.root) && Blank(d.trail)
  }

  // String contents

  function HexDigit(c: char): Option<int> {
    if '0' <= c <= '9' then Some(c as int - '0' as int)
    else if 'a' <= c <= 'f' then Some(c as int - 'a' as int + 10)
    else if 'A' <= c <= 'F' then Some(c as int - 'A' as int + 10)
    else None
  }

  function Escaped(c: char): Option<int> {
    match c
    case '\"' => Some('\"' as int)
    case '\\' => Some('\\' as int)
    case '/' => Some('/' as int)
    case 'b' => Some(8)
    case 'f' => Some(12)
    case 'n' => Some(10)
    case 'r' => Some(13)
    case 't' => Some(9)
    case _ => None
  }

  /** The units a string's raw text stands for, or nothing where the text is no string contents. */
  function Decode(raw: string): Option<Units> {
    if raw == "" then Some([])
    else if raw[0] == '\\' then
      if |raw| < 2 then None
      else if raw[1] == 'u' then
        if |raw| < 6 then None
        else
          var a :- HexDigit(raw[2]);
          var b :- HexDigit(raw[3]);
          var c :- HexDigit(raw[4]);
          var d :- HexDigit(raw[5]);
          var rest :- Decode(raw[6..]);
          Some([((a * 16 + b) * 16 + c) * 16 + d] + rest)
      else
        var unit :- Escaped(raw[1]);
        var rest :- Decode(raw[2..]);
        Some([unit] + rest)
    else if raw[0] == '\"' || (raw[0] as int) < 0x20 then None
    else
      var rest :- Decode(raw[1..]);
      Some([raw[0] as int] + rest)
  }

  // What a document means

  datatype Tree =
    | Atom(text: string)
    | Text(units: Units)
    | List(items: seq<Tree>)
    | Object(entries: seq<Entry>)

  datatype Entry = Entry(key: Units, value: Tree)

  function KeyOf(m: Member): Units
    requires Decode(m.raw).Some?
  {
    Decode(m.raw).value
  }

  function Meaning(j: Json): Tree
    requires WellFormed(j)
    decreases j, 1
  {
    match j
    case Scalar(text) => Atom(text)
    case Str(raw) => Text(Decode(raw).value)
    case Arr(_, items) => List(ItemsMeaning(items))
    case Obj(_, members) => Object(MembersMeaning(members))
  }

  function ItemsMeaning(items: seq<Item>): (r: seq<Tree>)
    requires ItemsWellFormed(items)
    ensures |r| == |items|
    decreases items, 0
  {
    if items == [] then [] else [Meaning(items[0].value)] + ItemsMeaning(items[1..])
  }

  function MembersMeaning(members: seq<Member>): (r: seq<Entry>)
    requires MembersWellFormed(members)
    ensures |r| == |members|
    decreases members, 0
  {
    if members == [] then []
    else [Entry(KeyOf(members[0]), Meaning(members[0].value))] + MembersMeaning(members[1..])
  }

  // Parsing

  function BlankLength(s: string): (n: nat)
    ensures n <= |s| && Blank(s[..(n)])
    ensures n < |s| ==> !IsWs(s[n])
  {
    if s == "" || !IsWs(s[0]) then 0
    else
      var n := BlankLength(s[1..]);
      assert s[..n + 1] == [s[0]] + s[1..][..n];
      n + 1
  }

  function ScalarLength(s: string): (n: nat)
    ensures n <= |s|
    ensures forall k :: 0 <= k < n ==> ScalarChar(s[k])
    ensures n < |s| ==> !ScalarChar(s[n])
  {
    if s == "" || !ScalarChar(s[0]) then 0 else 1 + ScalarLength(s[1..])
  }

  /** The characters before the quote that closes a string, from just after the quote that opens it. */
  function RawLength(s: string): (n: Option<nat>)
    ensures n.Some? ==> n.value < |s| && s[n.value] == '\"'
  {
    if s == "" then None
    else if s[0] == '\"' then Some(0)
    else if s[0] == '\\' then
      if |s| < 2 then None
      else
        var n :- RawLength(s[2..]);
        Some(n + 2)
    else
      var n :- RawLength(s[1..]);
      Some(n + 1)
  }

  /** String contents and the text after the closing quote. */
  function TakeRaw(s: string): (r: Option<(string, string)>)
    ensures r.Some? ==> |r.value.1| < |s| && s == r.value.0 + "\"" + r.value.1 && Decode(r.value.0).Some?
  {
    var n :- RawLength(s);
    if Decode(s[..n]).Some? then Some((s[..n], s[n + 1..])) else None
  }

  function ParseValue(s: string): (r: Option<(Json, string)>)
    ensures r.Some? ==> |r.value.1| < |s|
    decreases |s|, 0
  {
    if s == "" then None
    else if s[0] == '\"' then
      var (raw, rest) :- TakeRaw(s[1..]);
      Some((Str(raw), rest))
    else if s[0] == '[' then
      var n := BlankLength(s[1..]);
      if n + 1 < |s| && s[n + 1] == ']' then Some((Arr(s[1..n + 1], []), s[n + 2..]))
      else
        var (items, rest) :- ParseItems(s[1..]);
        Some((Arr("", items), rest))
    else if s[0] == '{' then
      var n := BlankLength(s[1..]);
      if n + 1 < |s| && s[n + 1] == '}' then Some((Obj(s[1..n + 1], []), s[n + 2..]))
      else
        var (members, rest) :- ParseMembers(s[1..]);
        Some((Obj("", members), rest))
    else
      var n := ScalarLength(s);
      if n == 0 || !LiteralText(s[..n]) then None else Some((Scalar(s[..n]), s[n..]))
  }

  /** One array item, with the whitespace around it. */
  function ParseItem(s: string): (r: Option<(Item, string)>)
    ensures r.Some? ==> |r.value.1| < |s|
    decreases |s|, 1
  {
    var n := BlankLength(s);
    var (value, rest) :- ParseValue(s[n..]);
    var m := BlankLength(rest);
    Some((Item(s[..n], value, rest[..m]), rest[m..]))
  }

  /** Array items up to and including the closing bracket. */
  function ParseItems(s: string): (r: Option<(seq<Item>, string)>)
    ensures r.Some? ==> |r.value.1| < |s|
    decreases |s|, 2
  {
    var (item, rest) :- ParseItem(s);
    if rest == "" then None
    else if rest[0] == ']' then Some(([item], rest[1..]))
    else if rest[0] == ',' then
      var (items, more) :- ParseItems(rest[1..]);
      Some(([item] + items, more))
    else None
  }

  /** The colon after a key, the whitespace on both sides of it, and the text that follows. */
  function ParseColon(s: string): (r: Option<(string, string, string)>)
    ensures r.Some? ==> |r.value.2| < |s|
  {
    var m := BlankLength(s);
    if m == |s| || s[m] != ':' then None
    else
      var rest := s[m + 1..];
      var k := BlankLength(rest);
      Some((s[..m], rest[..k], rest[k..]))
  }

  /** A member up to its value: everything but the value and what follows it. */
  function ParseKey(s: string): (r: Option<(Member, string)>)
    ensures r.Some? ==> |r.value.1| < |s|
  {
    var n := BlankLength(s);
    if n == |s| || s[n] != '\"' then None
    else
      var (raw, afterRaw) :- TakeRaw(s[n + 1..]);
      var (beforeColon, afterColon, rest) :- ParseColon(afterRaw);
      Some((Member(s[..n], raw, beforeColon, afterColon, Scalar(""), ""), rest))
  }

  function ParseMember(s: string): (r: Option<(Member, string)>)
    ensures r.Some? ==> |r.value.1| < |s|
    decreases |s|, 1
  {
    var (head, afterKey) :- ParseKey(s);
    var (value, rest) :- ParseValue(afterKey);
    var m := BlankLength(rest);
    Some((head.(value := value, after := rest[..m]), rest[m..]))
  }

  /** Object members up to and including the closing brace. */
  function ParseMembers(s: string): (r: Option<(seq<Member>, string)>)
    ensures r.Some? ==> |r.value.1| < |s|
    decreases |s|, 2
  {
    var (member, rest) :- ParseMember(s);
    if rest == "" then None
    else if rest[0] == '}' then Some(([member], rest[1..]))
    else if rest[0] == ',' then
      var (members, more) :- ParseMembers(rest[1..]);
      Some(([member] + members, more))
    else None
  }

  function Parse(s: string): Option<Document> {
    var n := BlankLength(s);
    var (root, rest) :- ParseValue(s[n..]);
    if Blank(rest) then Some(Document(s[..n], root, rest)) else None
  }
}
