// Reading a unified patch back and applying it: the partner of the printer in `Hunks`.
module Patch {
  import opened Options
  import opened Text
  import opened Hunks

  /** The rest of the text after `literal`, if it starts with it. */
  function After(literal: string, text: string): Option<string> {
    if literal <= text then Some(text[|literal|..]) else None
  }

  /** A decimal number at the start of the text, and what follows it. */
  function TakeNumber(text: string): Option<(nat, string)> {
    var n := DigitRun(text);
    if n == 0 then None else Some((Number(text[..n]), text[n..]))
  }

  /** `start,count`, and what follows it. */
  function TakeRange(text: string): Option<(nat, nat, string)> {
    var (start, afterStart) :- TakeNumber(text);
    var afterComma :- After(",", afterStart);
    var (count, rest) :- TakeNumber(afterComma);
    Some((start, count, rest))
  }

  /** The four numbers of a hunk header. */
  function ParseHeader(line: string): Option<(nat, nat, nat, nat)> {
    var oldSide :- After("@@ -", line);
    var (oldStart, oldCount, afterOld) :- TakeRange(oldSide);
    var newSide :- After(" +", afterOld);
    var (newStart, newCount, afterNew) :- TakeRange(newSide);
    if afterNew == " @@" then Some((oldStart, oldCount, newStart, newCount)) else None
  }

  function ParseOp(line: string): Option<Op> {
    if line == "" then None
    else if line[0] == ' ' then Some(Op(Same, line[1..]))
    else if line[0] == '-' then Some(Op(Del, line[1..]))
    else if line[0] == '+' then Some(Op(Ins, line[1..]))
    else None
  }

  /** Body lines until the header's two counts are used up, and the lines after them. */
  function ParseBody(lines: seq<string>, oldLeft: nat, newLeft: nat): (r: Option<(seq<Op>, seq<string>)>)
    ensures r.Some? ==> |r.value.1| <= |lines|
  {
    if oldLeft == 0 && newLeft == 0 then Some(([], lines))
    else if lines == [] then None
    else
      var op :- ParseOp(lines[0]);
      var oldOne, newOne := if op.kind == Ins then 0 else 1, if op.kind == Del then 0 else 1;
      if oldLeft < oldOne || newLeft < newOne then None
      else
        var (ops, rest) :- ParseBody(lines[1..], oldLeft - oldOne, newLeft - newOne);
        Some(([op] + ops, rest))
  }

  function ParseHunks(lines: seq<string>): Option<seq<Hunk>>
    decreases |lines|
  {
    if lines == [] then Some([])
    else
      var (oldStart, oldCount, newStart, newCount) :- ParseHeader(lines[0]);
      var (body, rest) :- ParseBody(lines[1..], oldCount, newCount);
      var more :- ParseHunks(rest);
      Some([Hunk(oldStart, oldCount, newStart, newCount, body)] + more)
  }

  function ParsePatch(patch: string): Option<seq<Hunk>> {
    ParseHunks(Split(patch))
  }

  /**
   * The hunks applied to `source`, of which `at` lines are already copied into the `made` lines of the result. Each
   * hunk must start at or after that point, on both sides, and its context and deletions must match.
   */
  function Apply(hs: seq<Hunk>, source: seq<string>, at: nat, made: nat): Option<seq<string>>
    requires at <= |source|
  {
    if hs == [] then Some(source[at..])
    else
      var h := hs[0];
      var from, to := h.oldStart - 1, h.oldStart - 1 + h.oldCount;
      if !(at <= from && to <= |source|) then None
      else if h.newStart - 1 != made + from - at then None
      else if Old(h.body) != source[from..to] || |New(h.body)| != h.newCount then None
      else
        var rest :- Apply(hs[1..], source, to, h.newStart - 1 + h.newCount);
        Some(source[at..from] + New(h.body) + rest)
  }

  lemma {:induction false} NumberTaken(n: nat, rest: string)
    requires rest == "" || !IsDigit(rest[0])
    ensures TakeNumber(Decimal(n) + rest) == Some((n, rest))
  {
    var digits := Decimal(n);
    DigitRunOf(digits, rest);
    assert (digits + rest)[..|digits|] == digits && (digits + rest)[|digits|..] == rest;
    NumberOfDecimal(n);
  }

  lemma LiteralTaken(literal: string, rest: string)
    ensures After(literal, literal + rest) == Some(rest)
  {
    assert (literal + rest)[|literal|..] == rest;
  }

  lemma RangeTaken(start: nat, count: nat, rest: string)
    requires rest == "" || !IsDigit(rest[0])
    ensures TakeRange(Range(start, count) + rest) == Some((start, count, rest))
  {
    var tail := Decimal(count) + rest;
    assert Range(start, count) + rest == Decimal(start) + ("," + tail);
    NumberTaken(start, "," + tail);
    LiteralTaken(",", tail);
    NumberTaken(count, rest);
  }

  lemma HeaderParsed(h: Hunk)
    ensures ParseHeader(Header(h)) == Some((h.oldStart, h.oldCount, h.newStart, h.newCount))
  {
    var afterOld := " +" + (Range(h.newStart, h.newCount) + " @@");
    assert Header(h) == "@@ -" + (Range(h.oldStart, h.oldCount) + afterOld);
    LiteralTaken("@@ -", Range(h.oldStart, h.oldCount) + afterOld);
    RangeTaken(h.oldStart, h.oldCount, afterOld);
    LiteralTaken(" +", Range(h.newStart, h.newCount) + " @@");
    RangeTaken(h.newStart, h.newCount, " @@");
  }

  lemma {:induction false} BodyParsed(body: seq<Op>, rest: seq<string>)
    ensures ParseBody(OpLines(body) + rest, |Old(body)|, |New(body)|) == Some((body, rest))
  {
    var lines := OpLines(body) + rest;
    if body == [] {
      assert lines == rest;
    } else {
      BodyParsed(body[1..], rest);
      assert lines[1..] == OpLines(body[1..]) + rest;
      assert lines[0] == OpLine(body[0]);
      assert ParseOp(OpLine(body[0])) == Some(body[0]);
      assert body == [body[0]] + body[1..];
    }
  }

  ghost predicate Counted(hs: seq<Hunk>) {
    forall i :: 0 <= i < |hs| ==> hs[i].oldCount == |Old(hs[i].body)| && hs[i].newCount == |New(hs[i].body)|
  }

  /** What the printer prints, the parser reads back, whatever text the lines hold. */
  lemma {:induction false} HunksParsed(hs: seq<Hunk>)
    requires Counted(hs)
    ensures ParseHunks(PrintHunks(hs)) == Some(hs)
  {
    if hs != [] {
      HunksParsed(hs[1..]);
      HeaderParsed(hs[0]);
      HunkParsed(hs[0], Header(hs[0]), PrintHunks(hs[1..]), hs[1..]);
      assert hs == [hs[0]] + hs[1..];
    }
  }

  lemma HunkParsed(h: Hunk, header: string, rest: seq<string>, more: seq<Hunk>)
    requires h.oldCount == |Old(h.body)| && h.newCount == |New(h.body)|
    requires ParseHeader(header) == Some((h.oldStart, h.oldCount, h.newStart, h.newCount))
    requires ParseHunks(rest) == Some(more)
    ensures ParseHunks(([header] + OpLines(h.body)) + rest) == Some([h] + more)
  {
    hide ParseHeader;
    var lines := ([header] + OpLines(h.body)) + rest;
    BodyParsed(h.body, rest);
    assert lines[1..] == OpLines(h.body) + rest;
    HunkAssembled(lines, header, h, rest, more);
  }

  lemma HunkAssembled(lines: seq<string>, header: string, h: Hunk, rest: seq<string>, more: seq<Hunk>)
    requires lines != [] && lines[0] == header
    requires ParseHeader(header) == Some((h.oldStart, h.oldCount, h.newStart, h.newCount))
    requires ParseBody(lines[1..], h.oldCount, h.newCount) == Some((h.body, rest))
    requires ParseHunks(rest) == Some(more)
    ensures ParseHunks(lines) == Some([h] + more)
  {
    hide ParseHeader;
  }

  /** Applied to the old side, the hunks of a script give its new side, the gaps between them copied. */
  lemma {:induction false} HunksApplied(ops: seq<Op>, keep: seq<bool>, gap: nat, k: nat)
    requires gap <= k <= |ops| == |keep|
    requires AllSame(ops[gap..k])
    requires forall n :: k <= n < |ops| && !keep[n] ==> ops[n].kind == Same
    ensures |Old(ops[..gap])| <= |Old(ops)|
    ensures Apply(HunksFrom(ops, keep, k), Old(ops), |Old(ops[..gap])|, |New(ops[..gap])|) == Some(New(ops[gap..]))
    decreases |ops| - k
  {
    hide Old;
    hide New;
    hide HunkAt;
    SidesWhole(ops, gap);
    SidesSplit(ops, gap, k);
    SameSides(ops[gap..k]);
    if k == |ops| {
      assert ops[gap..k] == ops[gap..];
      assert Old(ops)[|Old(ops[..gap])|..] == Old(ops[gap..]);
    } else if !keep[k] {
      assert ops[gap..k + 1] == ops[gap..k] + [ops[k]];
      HunksApplied(ops, keep, gap, k + 1);
    } else {
      var end := RunEnd(keep, k);
      assert ops[end..end] == [];
      HunksApplied(ops, keep, end, end);
      HunkApplied(ops, gap, k, end, HunksFrom(ops, keep, end));
    }
  }

  lemma HunkApplied(ops: seq<Op>, gap: nat, k: nat, end: nat, hs: seq<Hunk>)
    requires gap <= k < end <= |ops| && AllSame(ops[gap..k])
    requires |Old(ops[..end])| <= |Old(ops)|
    requires Apply(hs, Old(ops), |Old(ops[..end])|, |New(ops[..end])|) == Some(New(ops[end..]))
    ensures |Old(ops[..gap])| <= |Old(ops)|
    ensures Apply([HunkAt(ops, k, end)] + hs, Old(ops), |Old(ops[..gap])|, |New(ops[..gap])|) == Some(New(ops[gap..]))
  {
    hide Old;
    hide New;
    hide Apply;
    hide AllSame;
    HunkFits(ops, gap, k, end);
    ApplyStep(HunkAt(ops, k, end), hs, Old(ops), |Old(ops[..gap])|, |New(ops[..gap])|, New(ops[end..]));
  }

  /** Where a hunk cut from the script sits in the two sides. */
  lemma HunkFits(ops: seq<Op>, gap: nat, k: nat, end: nat)
    requires gap <= k <= end <= |ops| && AllSame(ops[gap..k])
    ensures var h, source, at := HunkAt(ops, k, end), Old(ops), |Old(ops[..gap])|;
            var from, to := h.oldStart - 1, h.oldStart - 1 + h.oldCount;
            && at <= from <= to <= |source|
            && h.newStart - 1 == |New(ops[..gap])| + from - at
            && to == |Old(ops[..end])| && h.newStart - 1 + h.newCount == |New(ops[..end])|
            && Old(h.body) == source[from..to]
            && source[at..from] + New(h.body) + New(ops[end..]) == New(ops[gap..])
  {
    hide Old;
    hide New;
    SidesWhole(ops, k);
    SidesWhole(ops, end);
    SidesSplit(ops, gap, k);
    SidesSplit(ops, k, end);
    SidesSplit(ops, gap, end);
    SameSides(ops[gap..k]);
    Sliced(Old(ops[..gap]), Old(ops[gap..k]), Old(ops[k..end]), Old(ops[end..]), Old(ops));
    assert New(ops[gap..]) == New(ops[gap..end]) + New(ops[end..]);
    SidesAppend(ops[gap..k], ops[k..end]);
    assert ops[gap..k] + ops[k..end] == ops[gap..end];
  }

  lemma Sliced<T>(a: seq<T>, b: seq<T>, c: seq<T>, d: seq<T>, whole: seq<T>)
    requires whole == a + b + c + d
    ensures whole[|a|..|a| + |b|] == b && whole[|a| + |b|..|a| + |b| + |c|] == c
  {
  }

  lemma ApplyStep(h: Hunk, hs: seq<Hunk>, source: seq<string>, at: nat, made: nat, rest: seq<string>)
    requires at <= h.oldStart - 1 && h.oldStart - 1 + h.oldCount <= |source|
    requires h.newStart - 1 == made + h.oldStart - 1 - at && |New(h.body)| == h.newCount
    requires Old(h.body) == source[h.oldStart - 1..h.oldStart - 1 + h.oldCount]
    requires Apply(hs, source, h.oldStart - 1 + h.oldCount, h.newStart - 1 + h.newCount) == Some(rest)
    ensures Apply([h] + hs, source, at, made) == Some(source[at..h.oldStart - 1] + New(h.body) + rest)
  {
    var all := [h] + hs;
    assert all[1..] == hs;
  }
}
