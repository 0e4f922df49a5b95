// The config editor of `src/config/configFile.ts`: it edits JSON text in place, by offset, without reprinting it.
module ConfigFile {
  import opened Options
  import opened Space
  import opened Json
  import opened JsonScan
  import opened ConfigTree
  import opened ConfigRender

  /** The offset after the last newline before `offset`. */
  function LineStart(text: string, offset: nat): (start: nat)
    requires offset <= |text|
    ensures start <= offset
  {
    if offset == 0 || text[offset - 1] == '\n' then offset else LineStart(text, offset - 1)
  }

  /** The whitespace before `offset` on its line, if that is all there is before it. */
  function IndentAt(text: string, offset: nat): string
    requires offset <= |text|
  {
    var line := text[LineStart(text, offset)..offset];
    if Spaces(line) then line else ""
  }

  function IndentOr(text: string, offset: nat): string
    requires offset <= |text|
  {
    if IndentAt(text, offset) == "" then "  " else IndentAt(text, offset)
  }

  // Locating

  datatype Found = Hit(span: Span) | Miss(owner: nat, missing: Path)

  function FindSpan(spans: seq<Span>, key: Units): (i: nat)
    ensures i <= |spans|
  {
    if spans == [] || spans[0].key == key then 0 else 1 + FindSpan(spans[1..], key)
  }

  ghost predicate FoundIn(found: Found, text: string) {
    match found
    case Hit(span) => SpanIn(span, text)
    case Miss(owner, missing) => owner < |text| && text[owner] == '{' && missing != []
  }

  ghost predicate Suffix(p: Path, q: Path) {
    |p| <= |q| && p == q[|q| - |p|..]
  }

  /** The member at the end of the path, or the object to add to and the keys missing from there. */
  function LocateFrom(text: string, owner: nat, path: Path): (r: Option<Found>)
    requires path != [] && owner < |text| && text[owner] == '{'
    ensures r.Some? ==> FoundIn(r.value, text)
    ensures r.Some? && r.value.Miss? ==> Suffix(r.value.missing, path)
    decreases |path|
  {
    var spans :- MembersOf(text, owner);
    var i := FindSpan(spans, path[0]);
    if i == |spans| then Some(Miss(owner, path))
    else if |path| == 1 then Some(Hit(spans[i]))
    else if spans[i].valueStart >= |text| || text[spans[i].valueStart] != '{' then Some(Miss(owner, path))
    else
      LocateFrom(text, spans[i].valueStart, path[1..])
  }

  function Locate(text: string, path: Path): (r: Option<Found>)
    requires path != []
    ensures r.Some? ==> FoundIn(r.value, text)
  {
    var root := SkipWs(text, 0);
    if root == |text| || text[root] != '{' then None else LocateFrom(text, root, path)
  }

  // Splicing

  /** The offset of the line's start where only whitespace comes between, and otherwise the offset itself. */
  function LineTrim(text: string, start: nat): (r: nat)
    requires start <= |text|
    ensures r <= start
  {
    if Spaces(text[LineStart(text, start)..start]) then LineStart(text, start) else start
  }

  function SkipTabs(text: string, i: nat): (j: nat)
    requires i <= |text|
    ensures i <= j <= |text|
    decreases |text| - i
  {
    if i < |text| && (text[i] == ' ' || text[i] == '\t') then SkipTabs(text, i + 1) else i
  }

  function SkipLineEnd(text: string, i: nat): (j: nat)
    requires i <= |text|
    ensures i <= j <= |text|
  {
    var k := SkipTabs(text, i);
    if k < |text| && text[k] == '\n' then k + 1 else k
  }

  function RemoveMember(text: string, span: Span): string
    requires SpanIn(span, text)
  {
    var after := SkipWs(text, span.memberEnd);
    if after < |text| && text[after] == ',' then
      text[..LineTrim(text, span.memberStart)] + text[SkipLineEnd(text, after + 1)..]
    else
      var before := TrimBack(text, span.memberStart);
      if before > 0 && text[before - 1] == ',' then text[..before - 1] + text[span.memberEnd..]
      else text[..LineTrim(text, span.memberStart)] + text[span.memberEnd..]
  }

  function Quoted(key: Units): string
    requires IsText(key)
  {
    "\"" + Encode(key) + "\""
  }

  function InsertMember(text: string, owner: nat, key: Units, v: Tree): Option<string>
    requires owner < |text| && text[owner] == '{' && IsText(key) && Storable(v)
  {
    var existing :- MembersOf(text, owner);
    var end :- ScanValue(text, owner);
    if existing == [] then
      var indent := IndentAt(text, owner);
      var inner := indent + "  ";
      Some(text[..owner + 1] + "\n" + inner + Quoted(key) + ": " + Render(v, inner) + "\n" + indent + text[end - 1..])
    else
      var last := existing[|existing| - 1];
      var indent := IndentOr(text, last.memberStart);
      Some(text[..last.memberEnd] + (",\n" + indent + Quoted(key) + ": " + Render(v, indent)) + text[last.memberEnd..])
  }

  // Editing

  predicate PathText(path: Path) {
    forall k :: 0 <= k < |path| ==> IsText(path[k])
  }

  lemma {:induction false} NestStorable(path: Path, v: Tree)
    requires PathText(path) && Storable(v)
    ensures Storable(Nest(path, v))
  {
    if path != [] {
      NestStorable(path[1..], v);
      var entries := [Entry(path[0], Nest(path[1..], v))];
      assert EntriesStorable(entries[1..]);
      assert EntriesStorable(entries);
    }
  }

  /** Setting from the object at `owner` on. */
  function SetFrom(text: string, owner: nat, path: Path, v: Tree): Option<string>
    requires path != [] && PathText(path) && Storable(v) && owner < |text| && text[owner] == '{'
  {
    var found :- LocateFrom(text, owner, path);
    match found
    case Hit(span) =>
      Some(text[..span.valueStart] + Render(v, IndentOr(text, span.memberStart)) + text[span.valueEnd..])
    case Miss(at, missing) =>
      assert forall k :: 0 <= k < |missing| ==> missing[k] == path[|path| - |missing| + k];
      NestStorable(missing[1..], v);
      InsertMember(text, at, missing[0], Nest(missing[1..], v))
  }

  function SetText(text: string, path: Path, v: Tree): Option<string>
    requires path != [] && PathText(path) && Storable(v)
  {
    var root := SkipWs(text, 0);
    if root == |text| || text[root] != '{' then None else SetFrom(text, root, path, v)
  }

  /** `{}` with nothing but whitespace in it. */
  predicate EmptyBraces(s: string) {
    |s| >= 2 && s[0] == '{' && s[|s| - 1] == '}' && Spaces(s[1..|s| - 1])
  }

  /** The ancestors a clear goes on to, from the innermost outward. */
  function PruneText(text: string, path: Path): Option<string>
    decreases |path|
  {
    if path == [] then Some(text)
    else
      var parent :- Locate(text, path);
      if parent.Miss? || !EmptyBraces(Trimmed(text[parent.span.valueStart..parent.span.valueEnd])) then Some(text)
      else PruneText(RemoveMember(text, parent.span), path[..|path| - 1])
  }

  function ClearText(text: string, path: Path): Option<string>
    requires path != []
  {
    var found :- Locate(text, path);
    PruneText(if found.Hit? then RemoveMember(text, found.span) else text, path[..|path| - 1])
  }

  /** A dotted path, which always names at least one key. */
  type Target = p: Path | p != [] witness [[]]

  function ClearAll(text: string, paths: seq<Target>): Option<string>
    decreases |paths|
  {
    if paths == [] then Some(text)
    else
      var out :- ClearText(text, paths[0]);
      ClearAll(out, paths[1..])
  }

  datatype Setting = Setting(path: Path, value: Tree)

  predicate CanSet(s: Setting) {
    s.path != [] && PathText(s.path) && Storable(s.value)
  }

  type Change = s: Setting | CanSet(s) witness Setting([[]], Atom("0"))

  function SetAll(text: string, settings: seq<Change>): Option<string>
    decreases |settings|
  {
    if settings == [] then Some(text)
    else
      var out :- SetText(text, settings[0].path, settings[0].value);
      SetAll(out, settings[1..])
  }

  /**
   * The edited text, or nothing where the editor throws: text it cannot find its way in, or that does not parse
   * after.
   */
  function EditText(text: string, clears: seq<Target>, changes: seq<Change>): Option<string> {
    var cleared :- ClearAll(if Spaces(text) then "{}\n" else text, clears);
    var out :- SetAll(cleared, changes);
    if Parse(out).Some? then Some(out) else None
  }

  // The loops, against the functions above

  method LocateLoop(text: string, segments: Path) returns (found: Option<Found>)
    requires segments != []
    ensures found == Locate(text, segments)
  {
    var owner: nat := SkipWsLoop(text, 0);
    if owner == |text| || text[owner] != '{' {
      return None;
    }
    var depth := 0;
    assert segments[0..] == segments;
    hide MembersOf;
    hide SkipWs;
    while true
      invariant 0 <= depth < |segments| && owner < |text| && text[owner] == '{'
      invariant LocateFrom(text, owner, segments[depth..]) == Locate(text, segments)
      decreases |segments| - depth
    {
      var members := MembersOfLoop(text, owner);
      if members.None? {
        return None;
      }
      var i := FindSpan(members.value, segments[depth]);
      if i == |members.value| {
        return Some(Miss(owner, segments[depth..]));
      }
      if depth == |segments| - 1 {
        return Some(Hit(members.value[i]));
      }
      var start: nat := members.value[i].valueStart;
      if start >= |text| || text[start] != '{' {
        return Some(Miss(owner, segments[depth..]));
      }
      assert segments[depth..][1..] == segments[depth + 1..];
      owner, depth := start, depth + 1;
    }
  }

  method RemoveMemberLoop(text: string, member: Span) returns (out: string)
    requires SpanIn(member, text)
    ensures out == RemoveMember(text, member)
  {
    hide SkipWs;
    hide LineStart;
    hide Spaces;
    var start, end := member.memberStart, member.memberEnd;
    var after := SkipWsLoop(text, end);
    if after < |text| && text[after] == ',' {
      end := after + 1;
      while end < |text| && (text[end] == ' ' || text[end] == '\t')
        invariant after + 1 <= end <= |text|
        invariant SkipTabs(text, end) == SkipTabs(text, after + 1)
      {
        end := end + 1;
      }
      if end < |text| && text[end] == '\n' {
        end := end + 1;
      }
      var lineStart := LineStart(text, start);
      if Spaces(text[lineStart..start]) {
        start := lineStart;
      }
      return text[..start] + text[end..];
    }
    var before := start;
    while before > 0 && IsSpace(text[before - 1])
      invariant 0 <= before <= start
      invariant TrimBack(text, before) == TrimBack(text, start)
    {
      before := before - 1;
    }
    if before > 0 && text[before - 1] == ',' {
      start := before - 1;
    } else {
      var lineStart := LineStart(text, start);
      if Spaces(text[lineStart..start]) {
        start := lineStart;
      }
    }
    return text[..start] + text[end..];
  }

  method NestLoop(missing: Path, value: Tree) returns (built: Tree)
    requires missing != []
    ensures built == Nest(missing[1..], value)
  {
    built := value;
    var i := |missing| - 1;
    assert missing[|missing|..] == [];
    while i >= 1
      invariant 0 <= i < |missing|
      invariant built == Nest(missing[i + 1..], value)
    {
      assert missing[i..][1..] == missing[i + 1..];
      built := Object([Entry(missing[i], built)]);
      i := i - 1;
    }
  }

  method ClearLoop(text: string, segments: Path) returns (r: Option<string>)
    requires segments != []
    ensures r == ClearText(text, segments)
  {
    hide Locate;
    hide RemoveMember;
    hide EmptyBraces;
    hide Trimmed;
    var out := text;
    var found := LocateLoop(out, segments);
    if found.None? {
      return None;
    }
    if found.value.Hit? {
      out := RemoveMemberLoop(out, found.value.span);
    }
    var depth := |segments| - 1;
    while depth > 0
      invariant 0 <= depth < |segments|
      invariant PruneText(out, segments[..depth]) == ClearText(text, segments)
    {
      var up := segments[..depth];
      var parent := LocateLoop(out, up);
      if parent.None? {
        return None;
      }
      if parent.value.Miss? {
        break;
      }
      if !EmptyBraces(Trimmed(out[parent.value.span.valueStart..parent.value.span.valueEnd])) {
        break;
      }
      out := RemoveMemberLoop(out, parent.value.span);
      assert up[..depth - 1] == segments[..depth - 1];
      depth := depth - 1;
    }
    return Some(out);
  }

  method EditConfigText(text: string, clears: seq<Target>, changes: seq<Change>) returns (r: Option<string>)
    ensures r == EditText(text, clears, changes)
  {
    hide Parse;
    hide ClearText;
    hide SetText;
    var out := if Spaces(text) then "{}\n" else text;
    ghost var cleared := ClearAll(out, clears);
    assert clears[0..] == clears;
    for i := 0 to |clears|
      invariant ClearAll(out, clears[i..]) == cleared
    {
      assert clears[i..][1..] == clears[i + 1..];
      var next := ClearLoop(out, clears[i]);
      if next.None? {
        return None;
      }
      out := next.value;
    }
    assert cleared == Some(out);
    ghost var done := SetAll(out, changes);
    assert changes[0..] == changes;
    for i := 0 to |changes|
      invariant SetAll(out, changes[i..]) == done
    {
      assert changes[i..][1..] == changes[i + 1..];
      var next := SetLoop(out, changes[i].path, changes[i].value);
      if next.None? {
        return None;
      }
      out := next.value;
    }
    return if Parse(out).Some? then Some(out) else None;
  }

  /** One setting: over the value the path leads to, or into the object the path stops in. */
  method SetLoop(text: string, segments: Path, value: Tree) returns (r: Option<string>)
    requires segments != [] && PathText(segments) && Storable(value)
    ensures r == SetText(text, segments, value)
  {
    hide LocateFrom;
    hide InsertMember;
    hide Render;
    hide IndentOr;
    hide Storable;
    var found := LocateLoop(text, segments);
    if found.None? {
      return None;
    }
    if found.value.Hit? {
      var span := found.value.span;
      return Some(text[..span.valueStart] + Render(value, IndentOr(text, span.memberStart)) + text[span.valueEnd..]);
    }
    var missing := found.value.missing;
    assert forall k :: 0 <= k < |missing| ==> missing[k] == segments[|segments| - |missing| + k];
    var built := NestLoop(missing, value);
    NestStorable(missing[1..], value);
    r := InsertMember(text, found.value.owner, missing[0], built);
  }
}
