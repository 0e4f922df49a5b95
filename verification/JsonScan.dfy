// The offset scanners of `src/config/configFile.ts`: they find where a value ends without parsing it.
module JsonScan {
  import opened Options
  import opened Space
  import opened Json

  predicate IsStop(c: char) {
    c == ',' || c == '}' || c == ']'
  }

  /** Characters up to a comma, a closing bracket or whitespace. */
  function BareLength(s: string): (n: nat)
    ensures n <= |s|
  {
    if s == "" || IsStop(s[0]) || IsSpace(s[0]) then 0 else 1 + BareLength(s[1..])
  }

  function Closer(open: char): char {
    if open == '{' then '}' else ']'
  }

  /**
   * How many characters it takes, from inside `depth` brackets of one kind, to close the outermost of them. Brackets
   * of the other kind are not counted, and strings are stepped over.
   */
  function NestLength(s: string, open: char, depth: int): (n: Option<nat>)
    ensures n.Some? ==> 0 < n.value <= |s|
  {
    if s == "" then None
    else if s[0] == '\"' then
      var n :- RawLength(s[1..]);
      var more :- NestLength(s[n + 2..], open, depth);
      Some(n + 2 + more)
    else if s[0] == open then
      var more :- NestLength(s[1..], open, depth + 1);
      Some(1 + more)
    else if s[0] == Closer(open) then
      if depth == 1 then Some(1)
      else
        var more :- NestLength(s[1..], open, depth - 1);
        Some(1 + more)
    else
      var more :- NestLength(s[1..], open, depth);
      Some(1 + more)
  }

  function ValueLength(s: string): (n: Option<nat>)
    ensures n.Some? ==> n.value <= |s|
    ensures n.Some? && s != "" && s[0] == '{' ==> n.value > 0
  {
    var blank := SpaceLength(s);
    var rest := s[blank..];
    if rest != "" && rest[0] == '\"' then
      var n :- RawLength(rest[1..]);
      Some(blank + n + 2)
    else if rest != "" && (rest[0] == '{' || rest[0] == '[') then
      var n :- NestLength(rest, rest[0], 0);
      Some(blank + n)
    else Some(blank + BareLength(rest))
  }

  // The same, by offset into a whole text.

  function SkipWs(text: string, i: nat): (j: nat)
    requires i <= |text|
    ensures i <= j <= |text|
  {
    i + SpaceLength(text[i..])
  }

  /** The offset after the string that starts at `i`, or nothing where it never ends. */
  function ScanString(text: string, i: nat): (j: Option<nat>)
    requires i < |text|
    ensures j.Some? ==> i + 1 < j.value <= |text|
  {
    var n :- RawLength(text[i + 1..]);
    Some(i + n + 2)
  }

  function ScanValue(text: string, i: nat): (j: Option<nat>)
    requires i <= |text|
    ensures j.Some? ==> i <= j.value <= |text|
    ensures j.Some? && i < |text| && text[i] == '{' ==> i < j.value
  {
    var n :- ValueLength(text[i..]);
    Some(i + n)
  }

  datatype Span = Span(key: Units, valueStart: nat, valueEnd: nat, memberStart: nat, memberEnd: nat)

  ghost predicate SpanIn(span: Span, text: string) {
    span.memberStart < span.valueStart <= span.valueEnd == span.memberEnd <= |text|
  }

  /** The member whose key starts at `i`, and where the next one would. */
  function MemberAt(text: string, i: nat): (r: Option<(Span, nat)>)
    requires i < |text|
    ensures r.Some? ==> SpanIn(r.value.0, text) && i < r.value.1 <= |text|
  {
    if text[i] != '\"' then None
    else
      var keyEnd :- ScanString(text, i);
      var key :- Decode(text[i + 1..keyEnd - 1]);
      var colon := SkipWs(text, keyEnd);
      if colon == |text| || text[colon] != ':' then None
      else
        var valueStart := SkipWs(text, colon + 1);
        var valueEnd :- ScanValue(text, valueStart);
        var next := SkipWs(text, valueEnd);
        Some((Span(key, valueStart, valueEnd, i, valueEnd),
              if next < |text| && text[next] == ',' then SkipWs(text, next + 1) else next))
  }

  function MembersAt(text: string, i: nat): (r: Option<seq<Span>>)
    requires i <= |text|
    ensures r.Some? ==> forall k :: 0 <= k < |r.value| ==> SpanIn(r.value[k], text)
    decreases |text| - i
  {
    if i == |text| || text[i] == '}' then Some([])
    else
      var (span, next) :- MemberAt(text, i);
      var more :- MembersAt(text, next);
      Some([span] + more)
  }

  /** The members of the object that opens at `objStart`. */
  function MembersOf(text: string, objStart: nat): (r: Option<seq<Span>>)
    requires objStart < |text|
    ensures r.Some? ==> forall k :: 0 <= k < |r.value| ==> SpanIn(r.value[k], text)
  {
    MembersAt(text, SkipWs(text, objStart + 1))
  }

  // The loops, against the functions above.

  method SkipWsLoop(text: string, start: nat) returns (i: nat)
    requires start <= |text|
    ensures i == SkipWs(text, start)
  {
    i := start;
    while i < |text| && IsSpace(text[i])
      invariant start <= i <= |text|
      invariant SkipWs(text, i) == SkipWs(text, start)
    {
      assert text[i..][1..] == text[i + 1..];
      i := i + 1;
    }
  }

  /** Where a string from `start` on ends, once the scan has come to `i` without meeting its quote. */
  ghost predicate StringFrom(text: string, start: nat, i: nat)
    requires start < |text|
  {
    && (i <= |text| && RawLength(text[i..]).Some? ==>
       ScanString(text, start) == Some(i + RawLength(text[i..]).value + 1))
    && (i > |text| || RawLength(text[i..]).None? ==> ScanString(text, start) == None)
  }

  lemma StringBegins(text: string, start: nat)
    requires start < |text|
    ensures StringFrom(text, start, start + 1)
  {
  }

  lemma StringEscape(text: string, start: nat, i: nat)
    requires start < |text| && i < |text| && text[i] == '\\' && StringFrom(text, start, i)
    ensures StringFrom(text, start, i + 2)
  {
    hide ScanString;
    if i + 2 <= |text| {
      assert text[i..][2..] == text[i + 2..];
    }
  }

  lemma StringPast(text: string, start: nat, i: nat)
    requires start < |text| && i < |text| && text[i] != '\\' && text[i] != '\"' && StringFrom(text, start, i)
    ensures StringFrom(text, start, i + 1)
  {
    hide ScanString;
    assert text[i..][1..] == text[i + 1..];
  }

  lemma StringEnds(text: string, start: nat, i: nat)
    requires start < |text| && StringFrom(text, start, i) && (i < |text| ==> text[i] == '\"')
    ensures ScanString(text, start) == if i < |text| then Some(i + 1) else None
  {
    hide ScanString;
  }

  method ScanStringLoop(text: string, start: nat) returns (end: Option<nat>)
    requires start < |text|
    ensures end == ScanString(text, start)
  {
    hide StringFrom;
    hide ScanString;
    var i := start + 1;
    StringBegins(text, start);
    while i < |text|
      invariant start < i && StringFrom(text, start, i)
      decreases |text| - i
    {
      if text[i] == '\\' {
        StringEscape(text, start, i);
        i := i + 2;
        continue;
      }
      if text[i] == '\"' {
        StringEnds(text, start, i);
        return Some(i + 1);
      }
      StringPast(text, start, i);
      i := i + 1;
    }
    StringEnds(text, start, i);
    return None;
  }

  function NestFrom(text: string, i: nat, depth: int, open: char): Option<nat>
    requires i <= |text|
  {
    var n :- NestLength(text[i..], open, depth);
    Some(i + n)
  }

  method ScanNestLoop(text: string, start: nat, open: char) returns (end: Option<nat>)
    requires start < |text|
    ensures end == NestFrom(text, start, 0, open)
  {
    var i, depth := start, 0;
    while i < |text|
      invariant start <= i <= |text|
      invariant NestFrom(text, start, 0, open) == NestFrom(text, i, depth, open)
    {
      var c := text[i];
      assert text[i..][1..] == text[i + 1..];
      hide RawLength;
      if c == '\"' {
        var e := ScanStringLoop(text, i);
        if e.None? {
          return None;
        }
        assert text[i..][e.value - i..] == text[e.value..];
        i := e.value;
        continue;
      }
      if c == open {
        depth := depth + 1;
      } else if c == Closer(open) {
        depth := depth - 1;
        if depth == 0 {
          return Some(i + 1);
        }
      }
      i := i + 1;
    }
    return None;
  }

  /** Where a value that starts at `i`, after `start`'s whitespace, ends. */
  lemma ValueFrom(text: string, start: nat, i: nat)
    requires start <= |text| && i == SkipWs(text, start)
    ensures i < |text| && text[i] == '\"' ==> ScanValue(text, start) == ScanString(text, i)
    ensures i < |text| && (text[i] == '{' || text[i] == '[') ==> ScanValue(text, start) == NestFrom(text, i, 0, text[i])
    ensures i < |text| && !(text[i] == '\"' || text[i] == '{' || text[i] == '[') ==>
              ScanValue(text, start) == Some(i + BareLength(text[i..]))
    ensures i == |text| ==> ScanValue(text, start) == Some(i)
  {
    hide RawLength;
    hide NestLength;
    assert text[start..][i - start..] == text[i..];
    if i < |text| {
      assert text[i..][1..] == text[i + 1..];
    } else {
      assert text[i..] == "";
    }
  }

  method ScanBareLoop(text: string, start: nat) returns (i: nat)
    requires start <= |text|
    ensures i == start + BareLength(text[start..])
  {
    i := start;
    while i < |text| && !(IsStop(text[i]) || IsSpace(text[i]))
      invariant start <= i <= |text|
      invariant i + BareLength(text[i..]) == start + BareLength(text[start..])
    {
      assert text[i..][1..] == text[i + 1..];
      i := i + 1;
    }
  }

  method ScanValueLoop(text: string, start: nat) returns (end: Option<nat>)
    requires start <= |text|
    ensures end == ScanValue(text, start)
  {
    hide ScanValue;
    hide ScanString;
    hide NestFrom;
    hide SkipWs;
    hide BareLength;
    var i := SkipWsLoop(text, start);
    ValueFrom(text, start, i);
    if i < |text| && text[i] == '\"' {
      end := ScanStringLoop(text, i);
    } else if i < |text| && (text[i] == '{' || text[i] == '[') {
      end := ScanNestLoop(text, i, text[i]);
    } else if i < |text| {
      i := ScanBareLoop(text, i);
      end := Some(i);
    } else {
      end := Some(i);
    }
  }

  method ScanMember(text: string, memberStart: nat) returns (r: Option<(Span, nat)>)
    requires memberStart < |text|
    ensures r == MemberAt(text, memberStart)
  {
    hide Decode;
    hide ScanString;
    hide ScanValue;
    hide SkipWs;
    if text[memberStart] != '\"' {
      return None;
    }
    var keyEnd := ScanStringLoop(text, memberStart);
    if keyEnd.None? {
      return None;
    }
    var key := Decode(text[memberStart + 1..keyEnd.value - 1]);
    if key.None? {
      return None;
    }
    var i := SkipWsLoop(text, keyEnd.value);
    if i == |text| || text[i] != ':' {
      return None;
    }
    var valueStart := SkipWsLoop(text, i + 1);
    var valueEnd := ScanValueLoop(text, valueStart);
    if valueEnd.None? {
      return None;
    }
    i := SkipWsLoop(text, valueEnd.value);
    if i < |text| && text[i] == ',' {
      i := SkipWsLoop(text, i + 1);
    }
    return Some((Span(key.value, valueStart, valueEnd.value, memberStart, valueEnd.value), i));
  }

  function After(found: seq<Span>, rest: Option<seq<Span>>): Option<seq<Span>> {
    if rest.None? then None else Some(found + rest.value)
  }

  lemma AfterOne(found: seq<Span>, span: Span, rest: Option<seq<Span>>)
    ensures After(found, After([span], rest)) == After(found + [span], rest)
    ensures After([], rest) == rest
  {
    if rest.Some? {
      assert found + ([span] + rest.value) == (found + [span]) + rest.value;
      assert [] + rest.value == rest.value;
    }
  }

  method MembersOfLoop(text: string, objStart: nat) returns (out: Option<seq<Span>>)
    requires objStart < |text|
    ensures out == MembersOf(text, objStart)
  {
    hide MemberAt;
    var found: seq<Span> := [];
    var i := SkipWsLoop(text, objStart + 1);
    AfterOne([], Span([], 0, 0, 0, 0), MembersAt(text, i));
    while i < |text| && text[i] != '}'
      invariant i <= |text|
      invariant After(found, MembersAt(text, i)) == MembersOf(text, objStart)
      decreases |text| - i
    {
      var member := ScanMember(text, i);
      if member.None? {
        return None;
      }
      AfterOne(found, member.value.0, MembersAt(text, member.value.1));
      found := found + [member.value.0];
      i := member.value.1;
    }
    assert found + [] == found;
    return Some(found);
  }
}
