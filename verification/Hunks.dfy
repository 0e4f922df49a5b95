// Unified hunks: how `src/botPrs/lineDiff.ts` prints an edit script, and how such a patch is read and applied.
module Hunks {
  import opened Text

  const CONTEXT := 3

  datatype Kind = Same | Del | Ins

  datatype Op = Op(kind: Kind, line: string)

  /** One hunk. An empty range starts at the next line number, which is this printer's convention. */
  datatype Hunk = Hunk(oldStart: nat, oldCount: nat, newStart: nat, newCount: nat, body: seq<Op>)

  /** The text the script starts from. */
  function Old(ops: seq<Op>): seq<string> {
    if ops == [] then []
    else (if ops[0].kind == Ins then [] else [ops[0].line]) + Old(ops[1..])
  }

  /** The text the script ends at. */
  function New(ops: seq<Op>): seq<string> {
    if ops == [] then []
    else (if ops[0].kind == Del then [] else [ops[0].line]) + New(ops[1..])
  }

  function Count(ops: seq<Op>, kind: Kind): nat {
    if ops == [] then 0
    else (if ops[0].kind == kind then 1 else 0) + Count(ops[1..], kind)
  }

  lemma {:induction false} CountAppend(ops: seq<Op>, more: seq<Op>, kind: Kind)
    ensures Count(ops + more, kind) == Count(ops, kind) + Count(more, kind)
  {
    if ops == [] {
      assert ops + more == more;
    } else {
      assert (ops + more)[1..] == ops[1..] + more;
      CountAppend(ops[1..], more, kind);
    }
  }

  lemma SidesAppend(ops: seq<Op>, more: seq<Op>)
    ensures Old(ops + more) == Old(ops) + Old(more)
    ensures New(ops + more) == New(ops) + New(more)
  {
    OldAppend(ops, more);
    NewAppend(ops, more);
  }

  lemma {:induction false} OldAppend(ops: seq<Op>, more: seq<Op>)
    ensures Old(ops + more) == Old(ops) + Old(more)
  {
    if ops == [] {
      assert ops + more == more;
    } else {
      assert (ops + more)[1..] == ops[1..] + more;
      OldAppend(ops[1..], more);
    }
  }

  lemma {:induction false} NewAppend(ops: seq<Op>, more: seq<Op>)
    ensures New(ops + more) == New(ops) + New(more)
  {
    if ops == [] {
      assert ops + more == more;
    } else {
      assert (ops + more)[1..] == ops[1..] + more;
      NewAppend(ops[1..], more);
    }
  }

  lemma SidesSplit(ops: seq<Op>, i: nat, j: nat)
    requires i <= j <= |ops|
    ensures Old(ops[..j]) == Old(ops[..i]) + Old(ops[i..j])
    ensures New(ops[..j]) == New(ops[..i]) + New(ops[i..j])
    ensures Old(ops[i..]) == Old(ops[i..j]) + Old(ops[j..])
    ensures New(ops[i..]) == New(ops[i..j]) + New(ops[j..])
  {
    assert ops[..j] == ops[..i] + ops[i..j];
    SidesAppend(ops[..i], ops[i..j]);
    assert ops[i..] == ops[i..j] + ops[j..];
    SidesAppend(ops[i..j], ops[j..]);
  }

  lemma SidesWhole(ops: seq<Op>, j: nat)
    requires j <= |ops|
    ensures Old(ops) == Old(ops[..j]) + Old(ops[j..])
    ensures New(ops) == New(ops[..j]) + New(ops[j..])
  {
    assert ops == ops[..j] + ops[j..];
    SidesAppend(ops[..j], ops[j..]);
  }

  predicate AllSame(ops: seq<Op>) {
    forall k :: 0 <= k < |ops| ==> ops[k].kind == Same
  }

  lemma {:induction false} SameSides(ops: seq<Op>)
    requires AllSame(ops)
    ensures Old(ops) == New(ops) && |Old(ops)| == |ops|
  {
    if ops != [] {
      SameSides(ops[1..]);
    }
  }

  /** Within three lines of a change: what belongs in a hunk. */
  ghost predicate Near(ops: seq<Op>, n: int) {
    exists k :: 0 <= k < |ops| && ops[k].kind != Same && k - 3 <= n <= k + 3
  }

  /** The marks the printer makes, one an op. */
  ghost predicate Marks(keep: seq<bool>, ops: seq<Op>) {
    |keep| == |ops| && forall n :: 0 <= n < |ops| ==> (keep[n] <==> Near(ops, n))
  }

  function RunEnd(keep: seq<bool>, k: nat): (end: nat)
    requires k <= |keep|
    ensures k <= end <= |keep|
    ensures forall n :: k <= n < end ==> keep[n]
    ensures end < |keep| ==> !keep[end]
    decreases |keep| - k
  {
    if k < |keep| && keep[k] then RunEnd(keep, k + 1) else k
  }

  function HunkAt(ops: seq<Op>, lo: nat, hi: nat): Hunk
    requires lo <= hi <= |ops|
  {
    Hunk(1 + |Old(ops[..lo])|, |Old(ops[lo..hi])|, 1 + |New(ops[..lo])|, |New(ops[lo..hi])|, ops[lo..hi])
  }

  /** A hunk for each maximal run of marked ops from position `k` on. */
  function HunksFrom(ops: seq<Op>, keep: seq<bool>, k: nat): seq<Hunk>
    requires k <= |ops| == |keep|
    decreases |ops| - k
  {
    if k == |ops| then []
    else if !keep[k] then HunksFrom(ops, keep, k + 1)
    else [HunkAt(ops, k, RunEnd(keep, k))] + HunksFrom(ops, keep, RunEnd(keep, k))
  }

  function Range(start: nat, count: nat): string {
    Decimal(start) + "," + Decimal(count)
  }

  function Header(h: Hunk): string {
    "@@ -" + Range(h.oldStart, h.oldCount) + " +" + Range(h.newStart, h.newCount) + " @@"
  }

  function Sign(kind: Kind): char {
    match kind
    case Same => ' '
    case Del => '-'
    case Ins => '+'
  }

  function OpLine(op: Op): string {
    [Sign(op.kind)] + op.line
  }

  function OpLines(ops: seq<Op>): (lines: seq<string>)
    ensures |lines| == |ops|
  {
    if ops == [] then [] else [OpLine(ops[0])] + OpLines(ops[1..])
  }

  function PrintHunks(hs: seq<Hunk>): seq<string> {
    if hs == [] then [] else ([Header(hs[0])] + OpLines(hs[0].body)) + PrintHunks(hs[1..])
  }

  lemma {:induction false} OpLinesAppend(ops: seq<Op>, op: Op)
    ensures OpLines(ops + [op]) == OpLines(ops) + [OpLine(op)]
  {
    if ops == [] {
      assert ops + [op] == [op];
    } else {
      assert (ops + [op])[1..] == ops[1..] + [op];
      OpLinesAppend(ops[1..], op);
    }
  }

  method MarkNear(ops: seq<Op>) returns (keep: array<bool>)
    ensures fresh(keep) && Marks(keep[..], ops)
  {
    keep := new bool[|ops|](_ => false);
    var k := 0;
    while k < |ops|
      invariant 0 <= k <= |ops|
      invariant forall n :: 0 <= n < |ops| ==> (keep[n] <==> NearBefore(ops, n, k))
    {
      if ops[k].kind != Same {
        var first := if k < CONTEXT then 0 else k - CONTEXT;
        var last := if |ops| - 1 < k + CONTEXT then |ops| - 1 else k + CONTEXT;
        var n := first;
        while n <= last
          invariant first <= n <= last + 1
          invariant forall m :: 0 <= m < |ops| ==> (keep[m] <==> NearBefore(ops, m, k) || first <= m < n)
        {
          keep[n] := true;
          n := n + 1;
        }
      }
      forall n | 0 <= n < |ops| ensures NearBefore(ops, n, k + 1) <==>
          NearBefore(ops, n, k) || (ops[k].kind != Same && k - CONTEXT <= n <= k + CONTEXT) {
      }
      k := k + 1;
    }
    forall n | 0 <= n < |ops| ensures NearBefore(ops, n, |ops|) <==> Near(ops, n) {
    }
  }

  ghost predicate NearBefore(ops: seq<Op>, n: int, end: int)
    requires end <= |ops|
  {
    exists k :: 0 <= k < end && ops[k].kind != Same && k - CONTEXT <= n <= k + CONTEXT
  }

  /** One op further on, the line counters are the sides' lengths again. */
  lemma CountersStep(ops: seq<Op>, start: nat, k: nat)
    requires start <= k < |ops|
    ensures |Old(ops[..k + 1])| == |Old(ops[..k])| + (if ops[k].kind != Ins then 1 else 0)
    ensures |New(ops[..k + 1])| == |New(ops[..k])| + (if ops[k].kind != Del then 1 else 0)
    ensures OpLines(ops[start..k + 1]) == OpLines(ops[start..k]) + [OpLine(ops[k])]
  {
    SidesSplit(ops, k, k + 1);
    assert ops[k..k + 1] == [ops[k]];
    assert ops[start..k + 1] == ops[start..k] + [ops[k]];
    OpLinesAppend(ops[start..k], ops[k]);
  }

  lemma UnmarkedIsSame(ops: seq<Op>, keep: seq<bool>, k: nat)
    requires Marks(keep, ops) && k < |ops| && !keep[k]
    ensures ops[k].kind == Same
  {
    assert ops[k].kind != Same ==> Near(ops, k);
  }

  /** The run from `lo` to `hi` is one hunk, printed after what is already out. */
  lemma HunkPrinted(ops: seq<Op>, marks: seq<bool>, lo: nat, hi: nat, out: seq<string>)
    requires lo < hi <= |ops| == |marks|
    requires forall n :: lo <= n < hi ==> marks[n]
    requires hi < |marks| ==> !marks[hi]
    requires out + PrintHunks(HunksFrom(ops, marks, lo)) == PrintHunks(HunksFrom(ops, marks, 0))
    ensures |Old(ops[..hi])| == |Old(ops[..lo])| + HunkAt(ops, lo, hi).oldCount
    ensures |New(ops[..hi])| == |New(ops[..lo])| + HunkAt(ops, lo, hi).newCount
    ensures out + ([Header(HunkAt(ops, lo, hi))] + OpLines(ops[lo..hi])) + PrintHunks(HunksFrom(ops, marks, hi))
         == PrintHunks(HunksFrom(ops, marks, 0))
  {
    hide Header;
    RunEndIs(marks, lo, hi);
    SidesSplit(ops, lo, hi);
    var rest := HunksFrom(ops, marks, hi);
    var all := [HunkAt(ops, lo, hi)] + rest;
    assert HunksFrom(ops, marks, lo) == all && all[1..] == rest;
    var lines := [Header(HunkAt(ops, lo, hi))] + OpLines(ops[lo..hi]);
    assert out + (lines + PrintHunks(rest)) == (out + lines) + PrintHunks(rest);
  }

  /** The body of one hunk: ops while they are marked, the counters moved past them. */
  method HunkBody(ops: seq<Op>, keep: seq<bool>, start: nat, oldStart: nat, newStart: nat)
    returns (body: seq<string>, end: nat, oldLine: nat, newLine: nat)
    requires start <= |ops| == |keep|
    requires oldStart == 1 + |Old(ops[..start])| && newStart == 1 + |New(ops[..start])|
    ensures end == RunEnd(keep, start)
    ensures body == OpLines(ops[start..(end)])
    ensures oldLine == 1 + |Old(ops[..(end)])| && newLine == 1 + |New(ops[..(end)])|
  {
    body, end, oldLine, newLine := [], start, oldStart, newStart;
    assert ops[start..start] == [];
    while end < |ops| && keep[end]
      invariant start <= end <= |ops|
      invariant forall n :: start <= n < end ==> keep[n]
      invariant oldLine == 1 + |Old(ops[..end])| && newLine == 1 + |New(ops[..end])|
      invariant body == OpLines(ops[start..end])
    {
      CountersStep(ops, start, end);
      body := body + [OpLine(ops[end])];
      if ops[end].kind != Ins { oldLine := oldLine + 1; }
      if ops[end].kind != Del { newLine := newLine + 1; }
      end := end + 1;
    }
    RunEndIs(keep, start, end);
  }

  /** The hunk lines for a script, under the line counters the printer runs along it. */
  method HunkLines(ops: seq<Op>) returns (out: seq<string>, ghost marks: seq<bool>)
    ensures Marks(marks, ops)
    ensures out == PrintHunks(HunksFrom(ops, marks, 0))
  {
    var kept := MarkNear(ops);
    var keep := kept[..];
    marks := keep;
    out := [];
    var oldLine, newLine, k := 1, 1, 0;
    while k < |ops|
      invariant 0 <= k <= |ops|
      invariant oldLine == 1 + |Old(ops[..k])| && newLine == 1 + |New(ops[..k])|
      invariant out + PrintHunks(HunksFrom(ops, marks, k)) == PrintHunks(HunksFrom(ops, marks, 0))
    {
      if !keep[k] {
        UnmarkedIsSame(ops, marks, k);
        CountersStep(ops, k, k);
        oldLine, newLine, k := oldLine + 1, newLine + 1, k + 1;
      } else {
        var body, end, oldEnd, newEnd := HunkBody(ops, keep, k, oldLine, newLine);
        HunkPrinted(ops, marks, k, end, out);
        out := out + (["@@ -" + Range(oldLine, oldEnd - oldLine) + " +" + Range(newLine, newEnd - newLine) + " @@"]
          + body);
        oldLine, newLine, k := oldEnd, newEnd, end;
      }
    }
    assert out + [] == out;
  }

  lemma {:induction false} RunEndIs(keep: seq<bool>, k: nat, end: nat)
    requires k <= end <= |keep|
    requires forall n :: k <= n < end ==> keep[n]
    requires end < |keep| ==> !keep[end]
    ensures RunEnd(keep, k) == end
    decreases end - k
  {
    if k < end {
      RunEndIs(keep, k + 1, end);
    }
  }

  // Which ops a patch shows.

  /** Op `n` is in the `i`th of the runs `[los[i], his[i])`, for some `i`. */
  ghost predicate Shown(los: seq<nat>, his: seq<nat>, n: int) {
    |los| == |his| && exists i :: 0 <= i < |los| && los[i] <= n < his[i]
  }

  ghost predicate Apart(los: seq<nat>, his: seq<nat>) {
    |los| == |his| && forall i, j :: 0 <= i < j < |los| ==> his[i] < los[j]
  }

  ghost predicate CutAt(h: Hunk, ops: seq<Op>, lo: nat, hi: nat) {
    lo < hi <= |ops| && h == HunkAt(ops, lo, hi)
  }

  ghost predicate CutFrom(hs: seq<Hunk>, ops: seq<Op>, los: seq<nat>, his: seq<nat>) {
    && |los| == |his| == |hs|
    && forall i :: 0 <= i < |hs| ==> CutAt(hs[i], ops, los[i], his[i])
  }

  lemma ShownCons(lo: nat, hi: nat, los: seq<nat>, his: seq<nat>, n: int)
    requires |los| == |his|
    ensures Shown([lo] + los, [hi] + his, n) <==> lo <= n < hi || Shown(los, his, n)
  {
    var allLos, allHis := [lo] + los, [hi] + his;
    if lo <= n < hi {
      assert allLos[0] <= n < allHis[0];
    }
    if Shown(los, his, n) {
      var i :| 0 <= i < |los| && los[i] <= n < his[i];
      assert allLos[i + 1] <= n < allHis[i + 1];
    }
    if Shown(allLos, allHis, n) {
      var i :| 0 <= i < |allLos| && allLos[i] <= n < allHis[i];
      if i > 0 {
        assert los[i - 1] <= n < his[i - 1];
      }
    }
  }

  ghost predicate RunsFrom(ops: seq<Op>, keep: seq<bool>, k: nat, los: seq<nat>, his: seq<nat>)
    requires k <= |ops| == |keep|
  {
    && CutFrom(HunksFrom(ops, keep, k), ops, los, his) && Apart(los, his)
    && (forall i :: 0 <= i < |los| ==> k <= los[i] && (k < |ops| && !keep[k] ==> k < los[i]))
    && (forall n :: k <= n < |ops| ==> (keep[n] <==> Shown(los, his, n)))
  }

  lemma ShownRun(keep: seq<bool>, k: nat, end: nat, los: seq<nat>, his: seq<nat>)
    requires k < end <= |keep| && |los| == |his|
    requires forall n :: k <= n < end ==> keep[n]
    requires forall i :: 0 <= i < |los| ==> end <= los[i]
    requires forall n :: end <= n < |keep| ==> (keep[n] <==> Shown(los, his, n))
    ensures forall n :: k <= n < |keep| ==> (keep[n] <==> Shown([k] + los, [end] + his, n))
  {
    forall n | k <= n < |keep| ensures keep[n] <==> Shown([k] + los, [end] + his, n) {
      ShownCons(k, end, los, his, n);
    }
  }

  lemma CutCons(hs: seq<Hunk>, ops: seq<Op>, lo: nat, hi: nat, los: seq<nat>, his: seq<nat>)
    requires CutFrom(hs, ops, los, his) && Apart(los, his)
    requires lo < hi <= |ops|
    requires forall i :: 0 <= i < |los| ==> hi < los[i]
    ensures CutFrom([HunkAt(ops, lo, hi)] + hs, ops, [lo] + los, [hi] + his) && Apart([lo] + los, [hi] + his)
  {
    assert CutAt(HunkAt(ops, lo, hi), ops, lo, hi);
  }

  lemma RunsCons(ops: seq<Op>, keep: seq<bool>, k: nat, los: seq<nat>, his: seq<nat>)
    requires k < |ops| == |keep| && keep[k]
    requires RunsFrom(ops, keep, RunEnd(keep, k), los, his)
    ensures RunsFrom(ops, keep, k, [k] + los, [RunEnd(keep, k)] + his)
  {
    var end := RunEnd(keep, k);
    ShownRun(keep, k, end, los, his);
    CutCons(HunksFrom(ops, keep, end), ops, k, end, los, his);
  }

  lemma {:induction false} RunsOf(ops: seq<Op>, keep: seq<bool>, k: nat) returns (los: seq<nat>, his: seq<nat>)
    requires k <= |ops| == |keep|
    ensures RunsFrom(ops, keep, k, los, his)
    decreases |ops| - k
  {
    if k == |ops| {
      los, his := [], [];
    } else if !keep[k] {
      los, his := RunsOf(ops, keep, k + 1);
    } else {
      los, his := RunsOf(ops, keep, RunEnd(keep, k));
      RunsCons(ops, keep, k, los, his);
      los, his := [k] + los, [RunEnd(keep, k)] + his;
    }
  }

  /**
   * A patch shows exactly the ops within three lines of a change. Its hunks are the script's runs of such ops, each
   * header counting its own body, and between two hunks there is at least one op that neither shows.
   */
  lemma EveryChangeOnce(ops: seq<Op>, marks: seq<bool>) returns (los: seq<nat>, his: seq<nat>)
    requires Marks(marks, ops)
    ensures CutFrom(HunksFrom(ops, marks, 0), ops, los, his) && Apart(los, his)
    ensures forall n :: 0 <= n < |ops| ==> (Near(ops, n) <==> Shown(los, his, n))
  {
    los, his := RunsOf(ops, marks, 0);
  }
}
