// What a read adds to an error group: its marks and its daily counts (`src/appErrors/groups.ts`). An instant is
// milliseconds since 1970 and a day the number of whole UTC days since then.
module AppErrorGroups {
  import opened Options

  const DAY_MS := 86_400_000
  const QUIET_MS := 3 * DAY_MS
  const RETENTION_DAYS := 14
  const MAX_LOOKBACK_MS := RETENTION_DAYS * DAY_MS

  datatype Row = Row(firstSeen: int, lastSeen: int, count: nat)

  /** What the command's output is checked for before a row is taken. */
  predicate Reported(row: Row) {
    row.count >= 1 && row.firstSeen <= row.lastSeen
  }

  function Day(at: int): int {
    at / DAY_MS
  }

  datatype DayCount = DayCount(day: int, count: nat)

  function Max(a: int, b: int): int {
    if a < b then b else a
  }

  function Min(a: int, b: int): int {
    if a < b then a else b
  }

  function ReadSince(okAt: Option<int>, now: int): int {
    var floor := now - MAX_LOOKBACK_MS;
    match okAt
    case None => floor
    case Some(at) => Max(at, floor)
  }

  // Spreading a count

  /** The first day of a row inside the read. */
  function FirstDay(row: Row, since: int): int {
    Day(Min(Max(row.firstSeen, since), row.lastSeen))
  }

  function Days(row: Row, since: int): (n: nat)
    ensures 1 <= n <= RETENTION_DAYS + 1
  {
    Min(Day(row.lastSeen) - FirstDay(row, since), RETENTION_DAYS) + 1
  }

  function Dealt(n: nat, share: nat, rest: nat, i: nat): nat {
    share + if i + 1 == n then rest else 0
  }

  /** The days from the `i`th on with what each is dealt, a day dealt nothing left out. */
  function Dealing(d: int, n: nat, share: nat, rest: nat, i: nat): seq<DayCount>
    requires i <= n
    decreases n - i
  {
    if i == n then []
    else
      var count := Dealt(n, share, rest, i);
      (if count > 0 then [DayCount(d + i, count)] else []) + Dealing(d, n, share, rest, i + 1)
  }

  function Spread(row: Row, since: int): seq<DayCount> {
    var n := Days(row, since);
    Dealing(FirstDay(row, since), n, row.count / n, row.count % n, 0)
  }

  lemma DayStart(day: int, at: int)
    ensures Day(day * DAY_MS) == day && (day * DAY_MS <= at <==> day <= Day(at))
  {
  }

  /** The day of an instant is the UTC day it is in, and a row's first is that of its first sighting in the read. */
  lemma DaySays(row: Row, since: int)
    requires row.firstSeen <= row.lastSeen
    ensures forall at :: Day(at) * 86_400_000 <= at < (Day(at) + 1) * 86_400_000
    ensures FirstDay(row, since) == Day(if since <= row.firstSeen then row.firstSeen
                                        else if since <= row.lastSeen then since else row.lastSeen)
    ensures ReadSince(None, since) == since - 1_209_600_000
  {
  }

  lemma Shares(count: nat, n: nat)
    requires n > 0
    ensures count == count / n * n + count % n && 0 <= count % n < n && count / n >= 0
  {
  }

  /** The days from a row's first in the read to its last, at most fifteen of them. */
  method ListDays(row: Row, since: int) returns (days: seq<int>)
    ensures |days| == Days(row, since) && forall i :: 0 <= i < |days| ==> days[i] == FirstDay(row, since) + i
  {
    hide Day;
    var end := row.lastSeen;
    var start := Min(Max(row.firstSeen, since), end);
    ghost var d := FirstDay(row, since);
    days := [];
    var at := Day(start) * DAY_MS;
    DayStart(d, start);
    DayStart(d, end);
    while at <= end && |days| <= RETENTION_DAYS
      invariant at == (d + |days|) * DAY_MS && |days| <= Days(row, since)
      invariant at <= end <==> d + |days| <= Day(end)
      invariant forall i :: 0 <= i < |days| ==> days[i] == d + i
      decreases RETENTION_DAYS + 1 - |days|
    {
      DayStart(d + |days|, end);
      DayStart(d + |days| + 1, end);
      days := days + [Day(at)];
      at := at + DAY_MS;
    }
  }

  method SpreadCounts(row: Row, since: int) returns (out: seq<DayCount>)
    ensures out == Spread(row, since)
  {
    hide Days;
    hide FirstDay;
    var days := ListDays(row, since);
    var n := |days|;
    Shares(row.count, n);
    var share := row.count / n;
    var rest := row.count - share * n;
    out := [];
    var i := n;
    while i > 0
      invariant 0 <= i <= n
      invariant out == Dealing(FirstDay(row, since), n, share, rest, i)
    {
      i := i - 1;
      var count := Dealt(n, share, rest, i);
      if count > 0 {
        out := [DayCount(days[i], count)] + out;
      }
    }
  }

  function Total(counts: seq<DayCount>): nat {
    if counts == [] then 0 else counts[0].count + Total(counts[1..])
  }

  predicate InOrder(counts: seq<DayCount>) {
    forall i, j :: 0 <= i < j < |counts| ==> counts[i].day < counts[j].day
  }

  lemma OneMore(share: nat, k: nat)
    ensures share * (k + 1) == share * k + share
  {
  }

  lemma TotalCons(c: DayCount, more: seq<DayCount>)
    ensures Total([c] + more) == c.count + Total(more)
  {
    assert ([c] + more)[1..] == more;
  }

  lemma {:induction false} DealingTotal(d: int, n: nat, share: nat, rest: nat, i: nat)
    requires i < n
    ensures Total(Dealing(d, n, share, rest, i)) == share * (n - i) + rest
    decreases n - i
  {
    TotalCons(DayCount(d + i, Dealt(n, share, rest, i)), Dealing(d, n, share, rest, i + 1));
    assert [] + Dealing(d, n, share, rest, i + 1) == Dealing(d, n, share, rest, i + 1);
    OneMore(share, n - i - 1);
    if i + 1 < n {
      DealingTotal(d, n, share, rest, i + 1);
    } else {
      assert share * (n - i) == share;
    }
  }

  /** Days in order from the `i`th on, each with what it is dealt. */
  ghost predicate Dealer(out: seq<DayCount>, d: int, n: nat, share: nat, rest: nat, i: nat) {
    && InOrder(out) && |out| <= n - i
    && forall k :: 0 <= k < |out| ==>
       d + i <= out[k].day < d + n && out[k].count > 0 && out[k].count == Dealt(n, share, rest, out[k].day - d)
  }

  lemma DealerCons(later: seq<DayCount>, d: int, n: nat, share: nat, rest: nat, i: nat)
    requires i < n && Dealer(later, d, n, share, rest, i + 1)
    ensures Dealer(later, d, n, share, rest, i)
    ensures Dealt(n, share, rest, i) > 0 ==>
        Dealer([DayCount(d + i, Dealt(n, share, rest, i))] + later, d, n, share, rest, i)
  {
    hide Dealt;
    var out := [DayCount(d + i, Dealt(n, share, rest, i))] + later;
    assert forall k :: 0 < k < |out| ==> out[k] == later[k - 1];
  }

  lemma {:induction false} DealingDays(d: int, n: nat, share: nat, rest: nat, i: nat)
    requires i <= n
    ensures Dealer(Dealing(d, n, share, rest, i), d, n, share, rest, i)
    decreases n - i
  {
    if i < n {
      hide Dealer;
      DealingDays(d, n, share, rest, i + 1);
      DealerCons(Dealing(d, n, share, rest, i + 1), d, n, share, rest, i);
      assert [] + Dealing(d, n, share, rest, i + 1) == Dealing(d, n, share, rest, i + 1);
    }
  }

  lemma {:induction false} DealingLast(d: int, n: nat, share: nat, rest: nat, i: nat)
    requires i < n && share + rest > 0
    ensures var out := Dealing(d, n, share, rest, i);
            out != [] && out[|out| - 1] == DayCount(d + n - 1, share + rest)
    decreases n - i
  {
    if i + 1 < n {
      DealingLast(d, n, share, rest, i + 1);
    }
  }

  lemma DaysReach(row: Row, since: int)
    ensures FirstDay(row, since) + Days(row, since) - 1 <= Day(row.lastSeen)
    ensures FirstDay(row, since) + Days(row, since) - 1 == Day(row.lastSeen)
        <==> Day(row.lastSeen) - FirstDay(row, since) <= RETENTION_DAYS
  {
    hide Day;
    hide FirstDay;
  }

  /**
   * The counts of a read's days add up to the row's, on at most fifteen days, none before the read's first or after
   * the row's last.
   */
  lemma SpreadSums(row: Row, since: int)
    ensures var out := Spread(row, since);
            && Total(out) == row.count && |out| <= 15 && InOrder(out)
            && forall k :: 0 <= k < |out| ==>
                 out[k].count > 0 && FirstDay(row, since) <= out[k].day <= Day(row.lastSeen)
  {
    DaysReach(row, since);
    hide Day;
    hide FirstDay;
    hide Days;
    hide Dealt;
    hide Dealing;
    hide InOrder;
    var n := Days(row, since);
    Shares(row.count, n);
    DealingTotal(FirstDay(row, since), n, row.count / n, row.count % n, 0);
    DealingDays(FirstDay(row, since), n, row.count / n, row.count % n, 0);
  }

  /**
   * The spread is even: every day but the last has the same count, and the last has the rest besides, less than one
   * for each day.
   */
  lemma SpreadEven(row: Row, since: int, j: nat, k: nat)
    requires j < k < |Spread(row, since)|
    ensures var out := Spread(row, since);
            && out[j].count <= out[k].count < out[j].count + Days(row, since)
            && (k + 1 < |out| ==> out[j].count == out[k].count)
  {
    hide Day;
    hide FirstDay;
    hide Days;
    hide Dealing;
    var n := Days(row, since);
    Shares(row.count, n);
    DealingDays(FirstDay(row, since), n, row.count / n, row.count % n, 0);
    EvenlyDealt(Spread(row, since), FirstDay(row, since), n, row.count / n, row.count % n, j, k);
  }

  lemma EvenlyDealt(out: seq<DayCount>, d: int, n: nat, share: nat, rest: nat, j: nat, k: nat)
    requires Dealer(out, d, n, share, rest, 0) && j < k < |out| && rest < n
    ensures out[j].count <= out[k].count < out[j].count + n
    ensures k + 1 < |out| ==> out[j].count == out[k].count
  {
    assert out[j].day < out[k].day;
    assert k + 1 < |out| ==> out[k].day < out[k + 1].day;
  }

  /**
   * A row's last sighting is on the spread's last day exactly when no more than fourteen days passed since its first
   * in the read.
   */
  lemma SpreadReaches(row: Row, since: int)
    requires Reported(row)
    ensures var out := Spread(row, since);
            && out != []
            && (out[|out| - 1].day == Day(row.lastSeen) <==> Day(row.lastSeen) - FirstDay(row, since) <= 14)
  {
    DaysReach(row, since);
    hide Day;
    hide FirstDay;
    hide Days;
    hide Dealing;
    var n := Days(row, since);
    Shares(row.count, n);
    if row.count / n == 0 {
      assert row.count % n == row.count;
    }
    DealingLast(FirstDay(row, since), n, row.count / n, row.count % n, 0);
  }

  /**
   * So it is for every row a read asked for and got: none is older than the read's lower bound or newer than the
   * read.
   */
  lemma ReadReaches(row: Row, okAt: Option<int>, now: int)
    requires Reported(row) && row.lastSeen <= now
    ensures var out := Spread(row, ReadSince(okAt, now)); out != [] && out[|out| - 1].day == Day(row.lastSeen)
  {
    SpreadReaches(row, ReadSince(okAt, now));
  }

  // Counts kept over many reads

  /** A day's count added to the one held. */
  function Added(held: map<int, nat>, counts: seq<DayCount>): map<int, nat>
    decreases |counts|
  {
    if counts == [] then held
    else
      var c := counts[|counts| - 1];
      var before := Added(held, counts[..|counts| - 1]);
      before[c.day := CountOn(before, c.day) + c.count]
  }

  function CountOn(held: map<int, nat>, day: int): nat {
    if day in held then held[day] else 0
  }

  function Within(held: map<int, nat>, day: int, n: nat): nat {
    if n == 0 then 0 else Within(held, day, n - 1) + CountOn(held, day + n - 1)
  }

  lemma {:induction false} OneAdded(held: map<int, nat>, c: DayCount, day: int, n: nat)
    ensures Within(held[c.day := CountOn(held, c.day) + c.count], day, n)
         == Within(held, day, n) + if day <= c.day < day + n then c.count else 0
  {
    if n > 0 {
      OneAdded(held, c, day, n - 1);
    }
  }

  lemma {:induction false} TotalLast(counts: seq<DayCount>)
    requires counts != []
    ensures Total(counts) == Total(counts[..|counts| - 1]) + counts[|counts| - 1].count
  {
    if |counts| > 1 {
      TotalLast(counts[1..]);
      assert counts[1..][..|counts| - 2] == counts[..|counts| - 1][1..];
    }
  }

  lemma {:induction false} AllAdded(held: map<int, nat>, counts: seq<DayCount>, day: int, n: nat)
    requires forall k :: 0 <= k < |counts| ==> day <= counts[k].day < day + n
    ensures Within(Added(held, counts), day, n) == Within(held, day, n) + Total(counts)
    decreases |counts|
  {
    if counts != [] {
      var before := counts[..|counts| - 1];
      AllAdded(held, before, day, n);
      TotalLast(counts);
      OneAdded(Added(held, before), counts[|counts| - 1], day, n);
    }
  }

  datatype Read = Read(row: Row, since: int)

  function Kept(done: seq<Read>): map<int, nat> {
    if done == [] then map[]
    else
      var r := done[|done| - 1];
      Added(Kept(done[..|done| - 1]), Spread(r.row, r.since))
  }

  function Counted(done: seq<Read>): nat {
    if done == [] then 0 else Counted(done[..|done| - 1]) + done[|done| - 1].row.count
  }

  /** Over any run of reads, the daily counts kept add up to every count they reported. */
  lemma {:induction false} CountsKept(done: seq<Read>, day: int, n: nat)
    requires forall k :: 0 <= k < |done| ==>
               day <= FirstDay(done[k].row, done[k].since) && Day(done[k].row.lastSeen) < day + n
    ensures Within(Kept(done), day, n) == Counted(done)
  {
    if done == [] {
      NoneWithin(day, n);
    } else {
      var r := done[|done| - 1];
      CountsKept(done[..|done| - 1], day, n);
      SpreadSums(r.row, r.since);
      AllAdded(Kept(done[..|done| - 1]), Spread(r.row, r.since), day, n);
    }
  }

  lemma {:induction false} NoneWithin(day: int, n: nat)
    ensures Within(map[], day, n) == 0
  {
    if n > 0 {
      NoneWithin(day, n - 1);
    }
  }

  // Marks

  datatype Marks = Marks(firstSeen: int, lastSeen: int, returnedAt: Option<int>)

  function MergeGroup(existing: Option<Marks>, row: Row): Marks {
    var gap := if existing.None? then 0 else row.firstSeen - existing.value.lastSeen;
    Marks(
      if existing.Some? && existing.value.firstSeen < row.firstSeen then existing.value.firstSeen else row.firstSeen,
      if existing.Some? && existing.value.lastSeen > row.lastSeen then existing.value.lastSeen else row.lastSeen,
      if gap >= QUIET_MS then Some(row.firstSeen) else if existing.None? then None else existing.value.returnedAt)
  }

  function Merged(rows: seq<Row>): Marks
    requires rows != []
  {
    var n := |rows| - 1;
    MergeGroup(if n == 0 then None else Some(Merged(rows[..n])), rows[n])
  }

  /** The row came back after a quiet period: every sighting reported before it ended that long before it began. */
  ghost predicate Returns(rows: seq<Row>, k: nat)
    requires k < |rows|
  {
    k > 0 && forall j :: 0 <= j < k ==> rows[j].lastSeen + 259_200_000 <= rows[k].firstSeen
  }

  /** The first sighting is the earliest reported, the last the latest, and the return the last row that came back. */
  ghost predicate MarksMean(m: Marks, rows: seq<Row>) {
    && (forall k :: 0 <= k < |rows| ==> m.firstSeen <= rows[k].firstSeen && rows[k].lastSeen <= m.lastSeen)
    && (exists k :: 0 <= k < |rows| && rows[k].firstSeen == m.firstSeen)
    && (exists k :: 0 <= k < |rows| && rows[k].lastSeen == m.lastSeen)
    && (m.returnedAt.None? ==> forall k :: 0 <= k < |rows| ==> !Returns(rows, k))
    && (m.returnedAt.Some? ==> exists k :: 0 <= k < |rows| && IsReturn(rows, k, m.returnedAt.value))
  }

  ghost predicate IsReturn(rows: seq<Row>, k: nat, at: int)
    requires k < |rows|
  {
    rows[k].firstSeen == at && Returns(rows, k) && forall j :: k < j < |rows| ==> !Returns(rows, j)
  }

  lemma ReturnsBefore(rows: seq<Row>, k: nat)
    requires k + 1 < |rows|
    ensures Returns(rows, k) <==> Returns(rows[..|rows| - 1], k)
  {
    var before := rows[..|rows| - 1];
    assert forall j :: 0 <= j <= k ==> rows[j] == before[j];
  }

  lemma ReturnsNow(m: Marks, rows: seq<Row>)
    requires |rows| > 1 && MarksMean(m, rows[..|rows| - 1])
    ensures var n := |rows| - 1; Returns(rows, n) <==> rows[n].firstSeen - m.lastSeen >= QUIET_MS
  {
    var before := rows[..|rows| - 1];
    assert forall j :: 0 <= j < |before| ==> rows[j] == before[j];
  }

  lemma SpanMerged(m: Marks, rows: seq<Row>)
    requires |rows| > 1 && MarksMean(m, rows[..|rows| - 1])
    ensures var w := MergeGroup(Some(m), rows[|rows| - 1]);
            && (forall k :: 0 <= k < |rows| ==> w.firstSeen <= rows[k].firstSeen && rows[k].lastSeen <= w.lastSeen)
            && (exists k :: 0 <= k < |rows| && rows[k].firstSeen == w.firstSeen)
            && (exists k :: 0 <= k < |rows| && rows[k].lastSeen == w.lastSeen)
  {
    hide Returns;
    hide IsReturn;
    var n := |rows| - 1;
    var before := rows[..n];
    assert forall j :: 0 <= j < n ==> rows[j] == before[j];
    var f :| 0 <= f < n && before[f].firstSeen == m.firstSeen;
    var l :| 0 <= l < n && before[l].lastSeen == m.lastSeen;
    var w := MergeGroup(Some(m), rows[n]);
    assert rows[if w.firstSeen == m.firstSeen then f else n].firstSeen == w.firstSeen;
    assert rows[if w.lastSeen == m.lastSeen then l else n].lastSeen == w.lastSeen;
  }

  lemma ReturnMerged(m: Marks, rows: seq<Row>)
    requires |rows| > 1 && MarksMean(m, rows[..|rows| - 1])
    ensures var w := MergeGroup(Some(m), rows[|rows| - 1]);
            && (w.returnedAt.None? ==> forall k :: 0 <= k < |rows| ==> !Returns(rows, k))
            && (w.returnedAt.Some? ==> exists k :: 0 <= k < |rows| && IsReturn(rows, k, w.returnedAt.value))
  {
    var n := |rows| - 1;
    ReturnsNow(m, rows);
    forall k | 0 <= k < n ensures Returns(rows, k) <==> Returns(rows[..n], k) {
      ReturnsBefore(rows, k);
    }
    hide Returns;
    var w := MergeGroup(Some(m), rows[n]);
    if Returns(rows, n) {
      assert IsReturn(rows, n, rows[n].firstSeen);
    } else if m.returnedAt.Some? {
      var k :| 0 <= k < n && IsReturn(rows[..n], k, m.returnedAt.value);
      assert IsReturn(rows, k, m.returnedAt.value);
    }
  }

  lemma {:induction false} MergedMeans(rows: seq<Row>)
    requires rows != []
    ensures MarksMean(Merged(rows), rows)
  {
    var n := |rows| - 1;
    if n > 0 {
      MergedMeans(rows[..n]);
      var m := Merged(rows[..n]);
      SpanMerged(m, rows);
      ReturnMerged(m, rows);
    }
  }

  /** A return is marked inside the group's span, a quiet period or more after its first sighting. */
  lemma ReturnInSpan(rows: seq<Row>)
    requires rows != [] && forall k :: 0 <= k < |rows| ==> Reported(rows[k])
    ensures var m := Merged(rows); m.returnedAt.Some? ==> m.firstSeen + QUIET_MS <= m.returnedAt.value <= m.lastSeen
  {
    MergedMeans(rows);
    var m := Merged(rows);
    if m.returnedAt.Some? {
      var k :| 0 <= k < |rows| && IsReturn(rows, k, m.returnedAt.value);
      assert m.firstSeen <= rows[0].firstSeen <= rows[0].lastSeen;
    }
  }
}
