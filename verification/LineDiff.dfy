// The line differ of `src/botPrs/lineDiff.ts`: trimming, the table and the walk over it.
module LineDiff {
  import opened Options
  import opened Text
  import opened DiffLines
  import Lcs
  import Hunks
  import Patch

  type Op = Hunks.Op

  const MAX_LINES := 2000

  /** A cell of the differ's `Uint16Array`. */
  newtype uint16 = n: int | 0 <= n < 0x1_0000

  /** The walk the differ takes, asked of the true lengths instead of a table. */
  function EditScript(a: seq<string>, b: seq<string>): seq<Op>
    decreases |a| + |b|
  {
    if a == [] && b == [] then []
    else if a != [] && b != [] && a[0] == b[0] then
      [Hunks.Op(Hunks.Same, a[0])] + EditScript(a[1..], b[1..])
    else if b == [] || (a != [] && Lcs.Length(a[1..], b) >= Lcs.Length(a, b[1..])) then
      [Hunks.Op(Hunks.Del, a[0])] + EditScript(a[1..], b)
    else
      [Hunks.Op(Hunks.Ins, b[0])] + EditScript(a, b[1..])
  }

  /** The script reads as the old lines one way and as the new lines the other, and is as short as the table says. */
  lemma {:induction false} ScriptOfLines(a: seq<string>, b: seq<string>)
    ensures Hunks.Old(EditScript(a, b)) == a
    ensures Hunks.New(EditScript(a, b)) == b
    ensures Hunks.Count(EditScript(a, b), Hunks.Del) == |a| - Lcs.Length(a, b)
    ensures Hunks.Count(EditScript(a, b), Hunks.Ins) == |b| - Lcs.Length(a, b)
    decreases |a| + |b|
  {
    var script := EditScript(a, b);
    if a == [] && b == [] {
    } else if a != [] && b != [] && a[0] == b[0] {
      ScriptOfLines(a[1..], b[1..]);
      assert script[1..] == EditScript(a[1..], b[1..]);
    } else if b == [] || (a != [] && Lcs.Length(a[1..], b) >= Lcs.Length(a, b[1..])) {
      ScriptOfLines(a[1..], b);
      assert script[1..] == EditScript(a[1..], b);
    } else {
      ScriptOfLines(a, b[1..]);
      assert script[1..] == EditScript(a, b[1..]);
    }
  }

  ghost function Kept(ops: seq<Op>): seq<string> {
    if ops == [] then []
    else (if ops[0].kind == Hunks.Same then [ops[0].line] else []) + Kept(ops[1..])
  }

  lemma {:induction false} KeptIsCommon(ops: seq<Op>)
    ensures Lcs.Common(Kept(ops), Hunks.Old(ops), Hunks.New(ops))
    ensures |Kept(ops)| + Hunks.Count(ops, Hunks.Del) == |Hunks.Old(ops)|
    ensures |Kept(ops)| + Hunks.Count(ops, Hunks.Ins) == |Hunks.New(ops)|
  {
    if ops != [] {
      KeptIsCommon(ops[1..]);
      var k, o, n := Kept(ops[1..]), Hunks.Old(ops[1..]), Hunks.New(ops[1..]);
      Lcs.SubsequenceCons(k, o, ops[0].line);
      Lcs.SubsequenceCons(k, n, ops[0].line);
      hide Lcs.Subsequence;
      assert [] + k == k && [] + o == o && [] + n == n;
    }
  }

  /** No script between the same two texts, however found, changes fewer lines. */
  lemma NoShorterScript(ops: seq<Op>)
    ensures var a, b := Hunks.Old(ops), Hunks.New(ops);
            |a| + |b| - 2 * Lcs.Length(a, b) <= Hunks.Count(ops, Hunks.Del) + Hunks.Count(ops, Hunks.Ins)
  {
    KeptIsCommon(ops);
    Lcs.UpperBound(Kept(ops), Hunks.Old(ops), Hunks.New(ops));
  }

  /** Where row `i` and column `j` of the table are in its one flat array. */
  function Cell(i: nat, j: nat, width: nat): (k: nat)
    requires j < width
  {
    i * width + j
  }

  lemma {:induction false} CellInBounds(i: nat, j: nat, rows: nat, width: nat)
    requires i < rows && j < width
    ensures Cell(i, j, width) < rows * width
  {
    assert (i + 1) * width <= rows * width by { if i + 1 < rows { MulMonotone(i + 1, rows, width); } }
    assert (i + 1) * width == i * width + width;
  }

  lemma MulMonotone(m: nat, n: nat, width: nat)
    requires m <= n
    ensures m * width <= n * width
  {
  }

  lemma {:induction false} CellsDiffer(i: nat, j: nat, p: nat, q: nat, width: nat)
    requires j < width && q < width && (i != p || j != q)
    ensures Cell(i, j, width) != Cell(p, q, width)
  {
    if i < p {
      MulMonotone(i + 1, p, width);
      assert (i + 1) * width == i * width + width;
    } else if p < i {
      MulMonotone(p + 1, i, width);
      assert (p + 1) * width == p * width + width;
    }
  }

  /** Every cell the bottom-up fill has reached, and the zero edge it starts from, holds the length for its suffixes. */
  ghost predicate Filled(lcs: seq<uint16>, a: seq<string>, b: seq<string>, i: nat, j: nat)
    requires i <= |a| && j <= |b|
    requires |lcs| == (|a| + 1) * (|b| + 1)
  {
    forall p: nat, q: nat | p <= |a| && q <= |b| && (p == |a| || q == |b| || p > i || (p == i && q >= j)) ::
      CellHolds(lcs, a, b, p, q)
  }

  ghost predicate CellHolds(lcs: seq<uint16>, a: seq<string>, b: seq<string>, p: nat, q: nat)
    requires p <= |a| && q <= |b|
    requires |lcs| == (|a| + 1) * (|b| + 1)
  {
    CellInBounds(p, q, |a| + 1, |b| + 1);
    lcs[Cell(p, q, |b| + 1)] as int == Lcs.Length(a[p..], b[q..])
  }

  lemma FilledStep(lcs: seq<uint16>, a: seq<string>, b: seq<string>, i: nat, j: nat, v: uint16)
    requires i < |a| && j < |b|
    requires |lcs| == (|a| + 1) * (|b| + 1)
    requires Filled(lcs, a, b, i, j + 1)
    requires v as int == Lcs.Length(a[i..], b[j..])
    ensures Cell(i, j, |b| + 1) < |lcs|
    ensures Filled(lcs[Cell(i, j, |b| + 1) := v], a, b, i, j)
  {
    CellInBounds(i, j, |a| + 1, |b| + 1);
    var after := lcs[Cell(i, j, |b| + 1) := v];
    forall p: nat, q: nat | p <= |a| && q <= |b| && (p == |a| || q == |b| || p > i || (p == i && q >= j))
      ensures CellHolds(after, a, b, p, q)
    {
      CellInBounds(p, q, |a| + 1, |b| + 1);
      if p != i || q != j {
        CellsDiffer(i, j, p, q, |b| + 1);
        assert CellHolds(lcs, a, b, p, q);
      }
    }
  }

  method FillTable(a: seq<string>, b: seq<string>) returns (lcs: array<uint16>)
    requires |a| <= MAX_LINES && |b| <= MAX_LINES
    ensures fresh(lcs)
    ensures lcs.Length == (|a| + 1) * (|b| + 1)
    ensures Filled(lcs[..], a, b, 0, 0)
  {
    var width := |b| + 1;
    lcs := new uint16[(|a| + 1) * width](_ => 0);
    forall p: nat, q: nat | p <= |a| && q <= |b| && (p == |a| || q == |b|) ensures CellHolds(lcs[..], a, b, p, q) {
      CellInBounds(p, q, |a| + 1, width);
    }
    var i := |a|;
    while i > 0
      invariant 0 <= i <= |a|
      invariant Filled(lcs[..], a, b, i, 0)
    {
      i := i - 1;
      var j := |b|;
      while j > 0
        invariant 0 <= j <= |b|
        invariant Filled(lcs[..], a, b, i, j)
      {
        j := j - 1;
        assert CellHolds(lcs[..], a, b, i + 1, j + 1) && CellHolds(lcs[..], a, b, i + 1, j)
            && CellHolds(lcs[..], a, b, i, j + 1);
        CellInBounds(i + 1, j + 1, |a| + 1, width);
        CellInBounds(i + 1, j, |a| + 1, width);
        CellInBounds(i, j + 1, |a| + 1, width);
        var v :=
          if a[i] == b[j] then lcs[Cell(i + 1, j + 1, width)] + 1
          else if lcs[Cell(i + 1, j, width)] < lcs[Cell(i, j + 1, width)] then lcs[Cell(i, j + 1, width)]
          else lcs[Cell(i + 1, j, width)];
        FilledStep(lcs[..], a, b, i, j, v);
        lcs[Cell(i, j, width)] := v;
      }
    }
  }

  /** What the table answers when the walk asks which way to step. */
  lemma TableAnswers(lcs: seq<uint16>, a: seq<string>, b: seq<string>, i: nat, j: nat)
    requires i < |a| && j < |b|
    requires |lcs| == (|a| + 1) * (|b| + 1) && Filled(lcs, a, b, 0, 0)
    ensures Cell(i + 1, j, |b| + 1) < |lcs| && Cell(i, j + 1, |b| + 1) < |lcs|
    ensures lcs[Cell(i + 1, j, |b| + 1)] >= lcs[Cell(i, j + 1, |b| + 1)]
       <==> Lcs.Length(a[i..][1..], b[j..]) >= Lcs.Length(a[i..], b[j..][1..])
  {
    CellInBounds(i + 1, j, |a| + 1, |b| + 1);
    CellInBounds(i, j + 1, |a| + 1, |b| + 1);
    assert CellHolds(lcs, a, b, i + 1, j) && CellHolds(lcs, a, b, i, j + 1);
    assert a[i..][1..] == a[i + 1..] && b[j..][1..] == b[j + 1..];
  }

  /** One step of the walk, from position `(i, j)` to `(p, q)`, adds the script's next op. */
  lemma WalkStep(a: seq<string>, b: seq<string>, i: nat, j: nat, op: Op, p: nat, q: nat, ops: seq<Op>)
    requires i <= p <= |a| && j <= q <= |b|
    requires EditScript(a[i..], b[j..]) == [op] + EditScript(a[p..], b[q..])
    requires ops + EditScript(a[i..], b[j..]) == EditScript(a, b)
    ensures (ops + [op]) + EditScript(a[p..], b[q..]) == EditScript(a, b)
    ensures Hunks.Count(ops + [op], Hunks.Ins) == Hunks.Count(ops, Hunks.Ins) + (if op.kind.Ins? then 1 else 0)
    ensures Hunks.Count(ops + [op], Hunks.Del) == Hunks.Count(ops, Hunks.Del) + (if op.kind.Del? then 1 else 0)
  {
    var rest := EditScript(a[p..], b[q..]);
    assert (ops + [op]) + rest == ops + ([op] + rest);
    Hunks.CountAppend(ops, [op], Hunks.Ins);
    Hunks.CountAppend(ops, [op], Hunks.Del);
  }

  method DiffOps(a: seq<string>, b: seq<string>) returns (ops: seq<Op>, additions: nat, deletions: nat)
    requires |a| <= MAX_LINES && |b| <= MAX_LINES
    ensures ops == EditScript(a, b)
    ensures additions == |b| - Lcs.Length(a, b)
    ensures deletions == |a| - Lcs.Length(a, b)
  {
    var width := |b| + 1;
    var lcs := FillTable(a, b);
    ghost var table := lcs[..];
    var i, j := 0, 0;
    ops, additions, deletions := [], 0, 0;
    while i < |a| || j < |b|
      invariant 0 <= i <= |a| && 0 <= j <= |b|
      invariant ops + EditScript(a[i..], b[j..]) == EditScript(a, b)
      invariant additions == Hunks.Count(ops, Hunks.Ins) && deletions == Hunks.Count(ops, Hunks.Del)
      invariant lcs[..] == table
      decreases |a| - i + |b| - j
    {
      if i < |a| && j < |b| {
        TableAnswers(table, a, b, i, j);
      }
      if i < |a| && j < |b| && a[i] == b[j] {
        var op := Hunks.Op(Hunks.Same, a[i]);
        WalkStep(a, b, i, j, op, i + 1, j + 1, ops);
        ops := ops + [op];
        i, j := i + 1, j + 1;
      } else if j >= |b| || (i < |a| && lcs[Cell(i + 1, j, width)] >= lcs[Cell(i, j + 1, width)]) {
        var op := Hunks.Op(Hunks.Del, a[i]);
        WalkStep(a, b, i, j, op, i + 1, j, ops);
        ops := ops + [op];
        i, deletions := i + 1, deletions + 1;
      } else {
        var op := Hunks.Op(Hunks.Ins, b[j]);
        WalkStep(a, b, i, j, op, i, j + 1, ops);
        ops := ops + [op];
        j, additions := j + 1, additions + 1;
      }
    }
    assert ops + [] == ops;
    ScriptOfLines(a, b);
  }

  // The whole differ: lines, trimming, the middle, and the patch.

  function CommonHead(a: seq<string>, b: seq<string>): (n: nat)
    ensures n <= |a| && n <= |b| && a[..(n)] == b[..(n)]
    ensures n < |a| && n < |b| ==> a[n] != b[n]
  {
    if a != [] && b != [] && a[0] == b[0] then
      var n := CommonHead(a[1..], b[1..]);
      assert a[..n + 1] == [a[0]] + a[1..][..n] && b[..n + 1] == [b[0]] + b[1..][..n];
      n + 1
    else 0
  }

  function CommonTail(a: seq<string>, b: seq<string>): (n: nat)
    ensures n <= |a| && n <= |b| && a[|a| - n..] == b[|b| - n..]
  {
    if a != [] && b != [] && a[|a| - 1] == b[|b| - 1] then 1 + CommonTail(a[..|a| - 1], b[..|b| - 1]) else 0
  }

  /** The shared head and tail the differ leaves out of its table, and the middles it keeps. */
  datatype Parts = Parts(head: seq<string>, a: seq<string>, b: seq<string>, tail: seq<string>)

  function Trim(a: seq<string>, b: seq<string>): (p: Parts)
    ensures p.head + p.a + p.tail == a && p.head + p.b + p.tail == b
  {
    var head := CommonHead(a, b);
    var restA, restB := a[head..], b[head..];
    var tail := CommonTail(restA, restB);
    Concat3(a, head, tail);
    Concat3(b, head, tail);
    Parts(a[..head], a[head..|a| - tail], b[head..|b| - tail], a[|a| - tail..])
  }

  lemma Concat3(a: seq<string>, head: nat, tail: nat)
    requires head + tail <= |a|
    ensures a[..head] + a[head..|a| - tail] + a[|a| - tail..] == a
    ensures a[|a| - tail..] == a[head..][|a| - head - tail..]
  {
  }

  function AsKept(lines: seq<string>): (ops: seq<Op>)
    ensures |ops| == |lines|
  {
    seq(|lines|, k requires 0 <= k < |lines| => Hunks.Op(Hunks.Same, lines[k]))
  }

  lemma {:induction false} AsKeptSides(lines: seq<string>)
    ensures Hunks.Old(AsKept(lines)) == lines && Hunks.New(AsKept(lines)) == lines
    ensures Hunks.Count(AsKept(lines), Hunks.Ins) == 0 && Hunks.Count(AsKept(lines), Hunks.Del) == 0
  {
    if lines != [] {
      AsKeptSides(lines[1..]);
      assert AsKept(lines)[1..] == AsKept(lines[1..]);
    }
  }

  /** The script for whole texts: kept head, the middle's script, kept tail. */
  function WholeScript(a: seq<string>, b: seq<string>): seq<Op> {
    var p := Trim(a, b);
    AsKept(p.head) + EditScript(p.a, p.b) + AsKept(p.tail)
  }

  lemma Framed(head: seq<string>, middle: seq<Op>, tail: seq<string>)
    ensures var ops := AsKept(head) + middle + AsKept(tail);
            && Hunks.Old(ops) == head + Hunks.Old(middle) + tail
            && Hunks.New(ops) == head + Hunks.New(middle) + tail
            && Hunks.Count(ops, Hunks.Ins) == Hunks.Count(middle, Hunks.Ins)
            && Hunks.Count(ops, Hunks.Del) == Hunks.Count(middle, Hunks.Del)
  {
    AsKeptSides(head);
    AsKeptSides(tail);
    Hunks.SidesAppend(AsKept(head), middle);
    Hunks.SidesAppend(AsKept(head) + middle, AsKept(tail));
    forall kind: Hunks.Kind ensures Hunks.Count(AsKept(head) + middle + AsKept(tail), kind)
        == Hunks.Count(AsKept(head), kind) + Hunks.Count(middle, kind) + Hunks.Count(AsKept(tail), kind) {
      Hunks.CountAppend(AsKept(head), middle, kind);
      Hunks.CountAppend(AsKept(head) + middle, AsKept(tail), kind);
    }
  }

  lemma TrimKeepsOptimum(p: Parts)
    ensures Lcs.Length(p.head + p.a + p.tail, p.head + p.b + p.tail) == |p.head| + Lcs.Length(p.a, p.b) + |p.tail|
  {
    Lcs.SharedTail(p.a, p.b, p.tail);
    Lcs.SharedHead(p.a + p.tail, p.b + p.tail, p.head);
    assert p.head + (p.a + p.tail) == p.head + p.a + p.tail;
    assert p.head + (p.b + p.tail) == p.head + p.b + p.tail;
  }

  /** Trimming costs nothing: the script still spans both texts and is as short as any over the whole of them. */
  lemma WholeScriptOptimal(a: seq<string>, b: seq<string>)
    ensures Hunks.Old(WholeScript(a, b)) == a && Hunks.New(WholeScript(a, b)) == b
    ensures Hunks.Count(WholeScript(a, b), Hunks.Ins) == |b| - Lcs.Length(a, b)
    ensures Hunks.Count(WholeScript(a, b), Hunks.Del) == |a| - Lcs.Length(a, b)
    ensures |Trim(a, b).b| - Lcs.Length(Trim(a, b).a, Trim(a, b).b) == |b| - Lcs.Length(a, b)
    ensures |Trim(a, b).a| - Lcs.Length(Trim(a, b).a, Trim(a, b).b) == |a| - Lcs.Length(a, b)
  {
    var p := Trim(a, b);
    ScriptOfLines(p.a, p.b);
    Framed(p.head, EditScript(p.a, p.b), p.tail);
    TrimKeepsOptimum(p);
  }

  datatype Diff = Diff(patch: Option<string>, additions: Option<nat>, deletions: Option<nat>)

  /** Where the differ gives up: a changed middle longer than the table allows. */
  predicate TooLong(a: seq<string>, b: seq<string>) {
    |Trim(a, b).a| > MAX_LINES || |Trim(a, b).b| > MAX_LINES
  }

  lemma TailStep(a: seq<string>, b: seq<string>, tail: nat)
    requires tail < |a| && tail < |b| && a[|a| - 1 - tail] == b[|b| - 1 - tail]
    ensures CommonTail(a[..|a| - tail], b[..|b| - tail]) == 1 + CommonTail(a[..|a| - tail - 1], b[..|b| - tail - 1])
  {
    var ra, rb := a[..|a| - tail], b[..|b| - tail];
    assert ra[..|ra| - 1] == a[..|a| - tail - 1] && rb[..|rb| - 1] == b[..|b| - tail - 1];
  }

  lemma HeadStep(a: seq<string>, b: seq<string>, head: nat)
    requires head < |a| && head < |b| && a[head] == b[head]
    ensures CommonHead(a[head..], b[head..]) == 1 + CommonHead(a[head + 1..], b[head + 1..])
  {
    assert a[head..][1..] == a[head + 1..] && b[head..][1..] == b[head + 1..];
  }

  lemma CommonTailStops(a: seq<string>, b: seq<string>)
    requires a == [] || b == [] || a[|a| - 1] != b[|b| - 1]
    ensures CommonTail(a, b) == 0
  {
  }

  method HeadLength(a: seq<string>, b: seq<string>) returns (head: nat)
    ensures head == CommonHead(a, b)
  {
    head := 0;
    while head < |a| && head < |b| && a[head] == b[head]
      invariant head <= |a| && head <= |b|
      invariant head + CommonHead(a[head..], b[head..]) == CommonHead(a, b)
    {
      HeadStep(a, b, head);
      head := head + 1;
    }
  }

  method TailLength(a: seq<string>, b: seq<string>) returns (tail: nat)
    ensures tail == CommonTail(a, b)
  {
    tail := 0;
    assert a[..|a|] == a && b[..|b|] == b;
    while tail < |a| && tail < |b| && a[|a| - 1 - tail] == b[|b| - 1 - tail]
      invariant tail <= |a| && tail <= |b|
      invariant tail + CommonTail(a[..|a| - tail], b[..|b| - tail]) == CommonTail(a, b)
    {
      TailStep(a, b, tail);
      tail := tail + 1;
    }
    CommonTailStops(a[..|a| - tail], b[..|b| - tail]);
  }

  /** The differ gives up exactly when what is left between the common head and tail is longer than 2000 lines. */
  lemma TooLongSays(a: seq<string>, b: seq<string>, head: nat, tail: nat)
    requires head + tail <= |a| && head + tail <= |b|
    requires a[..head] == b[..head] && a[|a| - tail..] == b[|b| - tail..]
    requires head < |a| && head < |b| ==> a[head] != b[head]
    requires head + tail < |a| && head + tail < |b| ==> a[|a| - tail - 1] != b[|b| - tail - 1]
    ensures TooLong(a, b) <==> |a| - head - tail > 2000 || |b| - head - tail > 2000
  {
    HeadOf(a, b, head);
    TailOfRest(a, b, head, tail);
    Trimmed(a, b, head, tail);
    hide Trim;
    hide CommonHead;
    hide CommonTail;
  }

  lemma TailOfRest(a: seq<string>, b: seq<string>, head: nat, tail: nat)
    requires head + tail <= |a| && head + tail <= |b| && a[|a| - tail..] == b[|b| - tail..]
    requires head + tail < |a| && head + tail < |b| ==> a[|a| - tail - 1] != b[|b| - tail - 1]
    ensures CommonTail(a[head..], b[head..]) == tail
  {
    SameEnds(a, b, head, tail);
    TailOf(a[head..], b[head..], tail);
    hide CommonTail;
  }

  lemma SameEnds(a: seq<string>, b: seq<string>, head: nat, tail: nat)
    requires head + tail <= |a| && head + tail <= |b| && a[|a| - tail..] == b[|b| - tail..]
    ensures var ra, rb := a[head..], b[head..];
            forall i :: |ra| - tail <= i < |ra| ==> ra[i] == rb[i + |rb| - |ra|]
  {
    var ra, rb := a[head..], b[head..];
    forall i | |ra| - tail <= i < |ra| ensures ra[i] == rb[i + |rb| - |ra|] {
      assert ra[i] == a[|a| - tail..][i + tail - |ra|];
      assert rb[i + |rb| - |ra|] == b[|b| - tail..][i + tail - |ra|];
    }
  }

  lemma {:induction false} HeadOf(a: seq<string>, b: seq<string>, head: nat)
    requires head <= |a| && head <= |b| && a[..head] == b[..head]
    requires head < |a| && head < |b| ==> a[head] != b[head]
    ensures CommonHead(a, b) == head
  {
    if head > 0 {
      assert a[0] == a[..head][0] == b[..head][0] == b[0];
      assert a[1..][..head - 1] == a[..head][1..] && b[1..][..head - 1] == b[..head][1..];
      HeadOf(a[1..], b[1..], head - 1);
    }
  }

  lemma {:induction false} TailOf(a: seq<string>, b: seq<string>, tail: nat)
    requires tail <= |a| && tail <= |b|
    requires forall i :: |a| - tail <= i < |a| ==> a[i] == b[i + |b| - |a|]
    requires tail < |a| && tail < |b| ==> a[|a| - tail - 1] != b[|b| - tail - 1]
    ensures CommonTail(a, b) == tail
  {
    if tail > 0 {
      assert a[|a| - 1] == b[|b| - 1];
      TailOf(a[..|a| - 1], b[..|b| - 1], tail - 1);
    }
  }

  /** Between two kept lines the deletions all come before the insertions. */
  predicate DeletesFirst(ops: seq<Op>) {
    forall k :: 0 < k < |ops| && ops[k].kind == Hunks.Del ==> ops[k - 1].kind != Hunks.Ins
  }

  lemma DeletionsFirst(a: seq<string>, b: seq<string>)
    ensures DeletesFirst(WholeScript(a, b))
  {
    hide EditScript;
    hide Trim;
    var p := Trim(a, b);
    MiddleFirst(p.a, p.b);
    FrameFirst(AsKept(p.head), EditScript(p.a, p.b), AsKept(p.tail));
  }

  lemma FrameFirst(head: seq<Op>, middle: seq<Op>, tail: seq<Op>)
    requires DeletesFirst(middle)
    requires forall op :: op in head || op in tail ==> op.kind == Hunks.Same
    ensures DeletesFirst(head + middle + tail)
  {
    var ops := head + middle + tail;
    forall k | 0 < k < |ops| && ops[k].kind == Hunks.Del ensures ops[k - 1].kind != Hunks.Ins {
      assert ops[k] in head || ops[k] in tail || (k >= |head| && ops[k] == middle[k - |head|]);
      assert ops[k - 1] in head || (k > |head| && ops[k - 1] == middle[k - |head| - 1]);
    }
  }

  lemma ConsFirst(op: Op, rest: seq<Op>)
    requires DeletesFirst(rest) && (op.kind == Hunks.Ins && rest != [] ==> rest[0].kind != Hunks.Del)
    ensures DeletesFirst([op] + rest)
  {
    var ops := [op] + rest;
    assert forall k :: 0 < k < |ops| ==> ops[k] == rest[k - 1];
  }

  lemma {:induction false} MiddleFirst(a: seq<string>, b: seq<string>)
    ensures DeletesFirst(EditScript(a, b))
    decreases |a| + |b|
  {
    hide DeletesFirst;
    var ops := EditScript(a, b);
    if ops == [] {
      NothingFirst();
    } else if ops[0].kind == Hunks.Same {
      MiddleFirst(a[1..], b[1..]);
      ConsFirst(ops[0], EditScript(a[1..], b[1..]));
    } else if ops[0].kind == Hunks.Del {
      MiddleFirst(a[1..], b);
      ConsFirst(ops[0], EditScript(a[1..], b));
    } else {
      MiddleFirst(a, b[1..]);
      NoDeletionNext(a, b);
      ConsFirst(ops[0], EditScript(a, b[1..]));
    }
  }

  lemma NothingFirst()
    ensures DeletesFirst([])
  {
  }

  lemma NoDeletionNext(a: seq<string>, b: seq<string>)
    requires EditScript(a, b) != [] && EditScript(a, b)[0].kind == Hunks.Ins
    ensures EditScript(a, b[1..]) != [] ==> EditScript(a, b[1..])[0].kind != Hunks.Del
  {
    if a != [] && |b| > 1 {
      Lcs.LongerBelow(a[1..], b);
    }
  }

  lemma NoChangeSameText(ops: seq<Op>)
    ensures Hunks.Count(ops, Hunks.Ins) + Hunks.Count(ops, Hunks.Del) == 0 <==> Hunks.AllSame(ops)
    ensures Hunks.AllSame(ops) ==> Hunks.Old(ops) == Hunks.New(ops)
  {
    if ops != [] {
      NoChangeSameText(ops[1..]);
    }
    if Hunks.AllSame(ops) {
      Hunks.SameSides(ops);
    }
  }

  lemma {:induction false} EqualTextsEqualLength(a: seq<string>)
    ensures Lcs.Length(a, a) == |a|
  {
    if a != [] {
      EqualTextsEqualLength(a[1..]);
    }
  }

  lemma {:induction false} PrintedOneLine(ops: seq<Op>)
    requires AllOneLine(Hunks.Old(ops)) && AllOneLine(Hunks.New(ops))
    ensures AllOneLine(Hunks.OpLines(ops))
  {
    if ops != [] {
      assert Hunks.Old(ops[1..]) == Hunks.Old(ops)[|Hunks.Old(ops)| - |Hunks.Old(ops[1..])|..];
      assert Hunks.New(ops[1..]) == Hunks.New(ops)[|Hunks.New(ops)| - |Hunks.New(ops[1..])|..];
      PrintedOneLine(ops[1..]);
      assert ops[0].kind != Hunks.Ins ==> Hunks.Old(ops)[0] == ops[0].line;
      assert ops[0].kind != Hunks.Del ==> Hunks.New(ops)[0] == ops[0].line;
    }
  }

  /** The patch printed for a script. */
  ghost predicate Prints(patch: string, ops: seq<Op>) {
    exists marks :: Hunks.Marks(marks, ops) && patch == Join(Hunks.PrintHunks(Hunks.HunksFrom(ops, marks, 0)))
  }

  /** What the differ reports for two texts, given as their lines. */
  ghost predicate DiffOf(diff: Diff, a: seq<string>, b: seq<string>) {
    && (diff.additions.None? <==> TooLong(a, b)) && (diff.deletions.None? <==> TooLong(a, b))
    && (diff.patch.None? <==> TooLong(a, b) || a == b)
    && (diff.additions.Some? ==> diff.additions.value == |b| - Lcs.Length(a, b))
    && (diff.deletions.Some? ==> diff.deletions.value == |a| - Lcs.Length(a, b))
    && (diff.patch.Some? ==> Prints(diff.patch.value, WholeScript(a, b)))
  }

  lemma Trimmed(a: seq<string>, b: seq<string>, head: nat, tail: nat)
    requires head == CommonHead(a, b) && tail == CommonTail(a[head..], b[head..])
    ensures Trim(a, b) == Parts(a[..head], a[head..|a| - tail], b[head..|b| - tail], a[|a| - tail..])
  {
    hide CommonHead;
    hide CommonTail;
  }

  method LineDiff(before: string, after: string) returns (diff: Diff)
    ensures DiffOf(diff, SplitLines(before), SplitLines(after))
    ensures forall a, b :: Holds(before, a) && Holds(after, b) ==> DiffOf(diff, a, b)
    ensures diff.additions.Some? && '\r' !in before && '\r' !in after ==>
        (diff.patch.None? <==> before == after || EndedOnce(before, after) || EndedOnce(after, before))
  {
    hide Holds;
    hide EndedOnce;
    hide SplitLines;
    hide Trim;
    hide CommonHead;
    hide CommonTail;
    hide EditScript;
    hide Prints;
    hide Lcs.Length;
    hide DiffOf;
    var a, b := SplitLines(before), SplitLines(after);
    var head := HeadLength(a, b);
    var tail := TailLength(a[head..], b[head..]);
    Concat3(a, head, tail);
    Concat3(b, head, tail);
    var midA, midB := a[head..|a| - tail], b[head..|b| - tail];
    Trimmed(a, b, head, tail);
    if |midA| > MAX_LINES || |midB| > MAX_LINES {
      TooLongFound(a, b);
      DiffMeant(before, after, Diff(None, None, None));
      return Diff(None, None, None);
    }
    var middle, additions, deletions := DiffOps(midA, midB);
    var ops := AsKept(a[..head]) + middle + AsKept(a[|a| - tail..]);
    var changed := additions + deletions > 0;
    var patch := PatchText(changed, ops);
    diff := Diff(patch, Some(additions), Some(deletions));
    assert ops == WholeScript(a, b);
    DiffFound(a, b, diff);
    DiffMeant(before, after, diff);
  }

  lemma NoPatch(a: seq<string>, b: seq<string>, diff: Diff)
    requires DiffOf(diff, a, b) && diff.additions.Some?
    ensures diff.patch.None? <==> a == b
  {
    hide TooLong;
  }

  /** What the differ reports is of the lines the two files hold, however they end them. */
  lemma DiffMeant(before: string, after: string, diff: Diff)
    requires DiffOf(diff, SplitLines(before), SplitLines(after))
    ensures forall a, b :: Holds(before, a) && Holds(after, b) ==> DiffOf(diff, a, b)
    ensures diff.additions.Some? && '\r' !in before && '\r' !in after ==>
        (diff.patch.None? <==> before == after || EndedOnce(before, after) || EndedOnce(after, before))
  {
    hide DiffOf;
    hide SplitLines;
    forall a, b | Holds(before, a) && Holds(after, b) ensures DiffOf(diff, a, b) {
      LinesOf(before, a);
      LinesOf(after, b);
    }
    if diff.additions.Some? && '\r' !in before && '\r' !in after {
      SameLines(before, after);
      NoPatch(SplitLines(before), SplitLines(after), diff);
    }
  }

  method PatchText(changed: bool, ops: seq<Op>) returns (patch: Option<string>)
    ensures patch.Some? <==> changed
    ensures changed ==> Prints(patch.value, ops)
  {
    if changed {
      var lines, marks := Hunks.HunkLines(ops);
      patch := Some(Join(lines));
    } else {
      patch := None;
    }
  }

  lemma DiffFound(a: seq<string>, b: seq<string>, diff: Diff)
    requires !TooLong(a, b) && diff.additions.Some? && diff.deletions.Some?
    requires diff.additions.value == |Trim(a, b).b| - Lcs.Length(Trim(a, b).a, Trim(a, b).b)
    requires diff.deletions.value == |Trim(a, b).a| - Lcs.Length(Trim(a, b).a, Trim(a, b).b)
    requires diff.patch.Some? <==> diff.additions.value + diff.deletions.value > 0
    requires diff.patch.Some? ==> Prints(diff.patch.value, WholeScript(a, b))
    ensures DiffOf(diff, a, b)
  {
    WholeScriptOptimal(a, b);
    ChangedIffDifferent(a, b);
  }

  lemma TooLongFound(a: seq<string>, b: seq<string>)
    requires TooLong(a, b)
    ensures DiffOf(Diff(None, None, None), a, b)
  {
    hide Trim;
  }

  lemma ChangedIffDifferent(a: seq<string>, b: seq<string>)
    ensures |a| + |b| - 2 * Lcs.Length(a, b) == 0 <==> a == b
  {
    WholeScriptOptimal(a, b);
    NoChangeSameText(WholeScript(a, b));
    if a == b {
      EqualTextsEqualLength(a);
    }
  }

  /** A printed patch reads back as hunks that, applied to the old lines, give the new ones. */
  lemma PatchRoundTrip(before: string, after: string, patch: string)
    requires var a, b := SplitLines(before), SplitLines(after);
             a != b && Prints(patch, WholeScript(a, b))
    ensures Patch.ParsePatch(patch).Some?
    ensures Patch.Apply(Patch.ParsePatch(patch).value, SplitLines(before), 0, 0) == Some(SplitLines(after))
  {
    var a, b := SplitLines(before), SplitLines(after);
    var ops := WholeScript(a, b);
    var marks :| Hunks.Marks(marks, ops) && patch == Join(Hunks.PrintHunks(Hunks.HunksFrom(ops, marks, 0)));
    SplitLinesOneLine(before);
    SplitLinesOneLine(after);
    WholeScriptOptimal(a, b);
    HunksOneLine(ops, marks, 0);
    var lines := Hunks.PrintHunks(Hunks.HunksFrom(ops, marks, 0));
    NoChangeSameText(ops);
    SomeHunk(ops, marks);
    SplitJoin(lines);
    HunksCounted(ops, marks, 0);
    Patch.HunksParsed(Hunks.HunksFrom(ops, marks, 0));
    forall n | 0 <= n < |ops| && !marks[n] ensures ops[n].kind == Hunks.Same {
      Hunks.UnmarkedIsSame(ops, marks, n);
    }
    assert ops[0..0] == [] && ops[..0] == [] && ops[0..] == ops;
    Patch.HunksApplied(ops, marks, 0, 0);
  }

  /** So the patch of two files, whatever their line ends, applied to the lines of the one gives those of the other. */
  lemma PatchOfFiles(before: string, after: string, a: seq<string>, b: seq<string>, patch: string)
    requires Holds(before, a) && Holds(after, b) && a != b && Prints(patch, WholeScript(a, b))
    ensures Patch.ParsePatch(patch).Some?
    ensures Patch.Apply(Patch.ParsePatch(patch).value, a, 0, 0) == Some(b)
  {
    LinesOf(before, a);
    LinesOf(after, b);
    PatchRoundTrip(before, after, patch);
  }

  lemma SomeHunk(ops: seq<Op>, marks: seq<bool>)
    requires Hunks.Marks(marks, ops) && !Hunks.AllSame(ops)
    ensures Hunks.HunksFrom(ops, marks, 0) != []
  {
    var los, his := Hunks.EveryChangeOnce(ops, marks);
    var k :| 0 <= k < |ops| && ops[k].kind != Hunks.Same;
    assert Hunks.Near(ops, k);
  }

  lemma {:induction false} HunksCounted(ops: seq<Op>, keep: seq<bool>, k: nat)
    requires k <= |ops| == |keep|
    ensures Patch.Counted(Hunks.HunksFrom(ops, keep, k))
    decreases |ops| - k
  {
    if k < |ops| {
      HunksCounted(ops, keep, if keep[k] then Hunks.RunEnd(keep, k) else k + 1);
    }
  }

  lemma DigitsOneLine(s: string)
    requires AllDigits(s)
    ensures OneLine(s)
  {
  }

  lemma HeaderOneLine(h: Hunks.Hunk)
    ensures OneLine(Hunks.Header(h))
  {
    DigitsOneLine(Decimal(h.oldStart));
    DigitsOneLine(Decimal(h.oldCount));
    DigitsOneLine(Decimal(h.newStart));
    DigitsOneLine(Decimal(h.newCount));
  }

  lemma PartsOneLine(x: seq<string>, y: seq<string>, z: seq<string>)
    requires AllOneLine(x + y + z)
    ensures AllOneLine(y)
  {
    forall k | 0 <= k < |y| ensures OneLine(y[k]) {
      assert y[k] == (x + y + z)[|x| + k];
    }
  }

  lemma {:induction false} HunksOneLine(ops: seq<Op>, keep: seq<bool>, k: nat)
    requires k <= |ops| == |keep|
    requires AllOneLine(Hunks.Old(ops)) && AllOneLine(Hunks.New(ops))
    ensures AllOneLine(Hunks.PrintHunks(Hunks.HunksFrom(ops, keep, k)))
    decreases |ops| - k
  {
    if k < |ops| && !keep[k] {
      HunksOneLine(ops, keep, k + 1);
    } else if k < |ops| {
      var end := Hunks.RunEnd(keep, k);
      var h, hs := Hunks.HunkAt(ops, k, end), Hunks.HunksFrom(ops, keep, end);
      HunksOneLine(ops, keep, end);
      HeaderOneLine(h);
      Hunks.SidesWhole(ops, end);
      Hunks.SidesSplit(ops, k, end);
      PartsOneLine(Hunks.Old(ops[..k]), Hunks.Old(ops[k..end]), Hunks.Old(ops[end..]));
      PartsOneLine(Hunks.New(ops[..k]), Hunks.New(ops[k..end]), Hunks.New(ops[end..]));
      PrintedOneLine(ops[k..end]);
      assert ([h] + hs)[1..] == hs;
    }
  }
}
