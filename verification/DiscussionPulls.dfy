// Pulling an issue's tracker comments into its discussion file (`src/discussions/pullDesk.ts`).
module DiscussionPulls {
  import opened Options

  /** A tracker comment; a note in the file is the comment it was made from. An instant is an integer. */
  datatype Comment = Comment(id: string, at: int, author: string, body: string)

  predicate OneEach(cs: seq<Comment>) {
    forall i, j :: 0 <= i < j < |cs| ==> cs[i].id != cs[j].id
  }

  predicate OldestFirst(cs: seq<Comment>) {
    forall i, j :: 0 <= i < j < |cs| ==> cs[i].at <= cs[j].at
  }

  /** Later than the newest comment pulled so far. */
  predicate After(c: Comment, pulled: Option<int>) {
    pulled.None? || c.at > pulled.value
  }

  // Folding a listing

  function Insert(c: Comment, cs: seq<Comment>): (r: seq<Comment>)
    ensures |r| == |cs| + 1 && forall x :: x in r <==> x in cs || x == c
  {
    if cs == [] || cs[|cs| - 1].at <= c.at then cs + [c]
    else
      assert cs == cs[..|cs| - 1] + [cs[|cs| - 1]];
      Insert(c, cs[..|cs| - 1]) + [cs[|cs| - 1]]
  }

  /** A stable sort by the instant created. */
  function Sorted(cs: seq<Comment>): (r: seq<Comment>)
    ensures |r| == |cs| && forall x :: x in r <==> x in cs
  {
    if cs == [] then []
    else
      assert cs == cs[..|cs| - 1] + [cs[|cs| - 1]];
      Insert(cs[|cs| - 1], Sorted(cs[..|cs| - 1]))
  }

  function Strangers(cs: seq<Comment>, ours: set<string>): (r: seq<Comment>)
    ensures forall x :: x in r <==> x in cs && x.id !in ours
  {
    if cs == [] then []
    else
      assert cs == cs[..|cs| - 1] + [cs[|cs| - 1]];
      Strangers(cs[..|cs| - 1], ours) + if cs[|cs| - 1].id in ours then [] else [cs[|cs| - 1]]
  }

  function Newest(cs: seq<Comment>, pulled: Option<int>): (r: Option<int>)
    ensures forall x :: x in cs ==> !After(x, r)
    ensures r == pulled || exists x :: x in cs && r == Some(x.at)
    ensures pulled.Some? ==> r.Some? && r.value >= pulled.value
  {
    if cs == [] then pulled
    else
      var c := cs[|cs| - 1];
      assert cs == cs[..|cs| - 1] + [c];
      var before := Newest(cs[..|cs| - 1], pulled);
      if After(c, before) then Some(c.at) else before
  }

  lemma OneFolded(cs: seq<Comment>, i: nat, pulled: Option<int>, ours: set<string>)
    requires i < |cs|
    ensures Newest(cs[..i + 1], pulled) == if After(cs[i], Newest(cs[..i], pulled)) then Some(cs[i].at)
        else Newest(cs[..i], pulled)
    ensures Strangers(cs[..i + 1], ours) == Strangers(cs[..i], ours) + if cs[i].id in ours then [] else [cs[i]]
  {
    assert cs[..i + 1][..i] == cs[..i];
  }

  method Fold(pulled: Option<int>, ours: set<string>, comments: seq<Comment>)
    returns (newest: Option<int>, notes: seq<Comment>, skipped: nat)
    ensures newest == Newest(Sorted(comments), pulled) && notes == Strangers(Sorted(comments), ours)
    ensures skipped == |comments| - |notes|
  {
    hide Sorted;
    hide Newest;
    hide Strangers;
    var ordered := Sorted(comments);
    newest, notes, skipped := pulled, [], 0;
    assert Newest([], pulled) == pulled && Strangers([], ours) == [] by {
      NoneFolded(pulled, ours);
    }
    for i := 0 to |ordered|
      invariant newest == Newest(ordered[..i], pulled) && notes == Strangers(ordered[..i], ours)
      invariant skipped + |notes| == i
    {
      var comment := ordered[i];
      OneFolded(ordered, i, pulled, ours);
      if comment.id in ours {
        skipped := skipped + 1;
      } else {
        notes := notes + [comment];
      }
      if newest.None? || comment.at > newest.value {
        newest := Some(comment.at);
      }
    }
    assert ordered[..|ordered|] == ordered;
  }

  lemma NoneFolded(pulled: Option<int>, ours: set<string>)
    ensures Newest([], pulled) == pulled && Strangers([], ours) == []
  {
  }

  lemma LastKeeps(cs: seq<Comment>, last: Comment)
    requires OldestFirst(cs) && OneEach(cs) && forall x :: x in cs ==> x.at <= last.at && x.id != last.id
    ensures OldestFirst(cs + [last]) && OneEach(cs + [last])
  {
  }

  lemma {:induction false} InsertKeeps(c: Comment, cs: seq<Comment>)
    requires OldestFirst(cs) && OneEach(cs) && forall x :: x in cs ==> x.id != c.id
    ensures OldestFirst(Insert(c, cs)) && OneEach(Insert(c, cs))
  {
    if cs != [] && cs[|cs| - 1].at > c.at {
      var n := |cs| - 1;
      InsertKeeps(c, cs[..n]);
      forall x | x in cs[..n] ensures x.at <= cs[n].at && x.id != cs[n].id {
      }
      LastKeeps(Insert(c, cs[..n]), cs[n]);
    } else {
      LastKeeps(cs, c);
    }
  }

  lemma {:induction false} SortedKeeps(cs: seq<Comment>)
    requires OneEach(cs)
    ensures OldestFirst(Sorted(cs)) && OneEach(Sorted(cs))
  {
    if cs != [] {
      var n := |cs| - 1;
      SortedKeeps(cs[..n]);
      forall x | x in Sorted(cs[..n]) ensures x.id != cs[n].id {
        assert x in cs[..n];
      }
      InsertKeeps(cs[n], Sorted(cs[..n]));
    }
  }

  lemma Joined(a: seq<Comment>, b: seq<Comment>)
    requires OneEach(a) && OldestFirst(a) && OneEach(b) && OldestFirst(b)
    requires forall x, y :: x in a && y in b ==> x.at <= y.at && x.id != y.id
    ensures OneEach(a + b) && OldestFirst(a + b)
  {
    var all := a + b;
    forall i, j | 0 <= i < j < |all| ensures all[i].id != all[j].id && all[i].at <= all[j].at {
      if i < |a| <= j {
        assert a[i] in a && b[j - |a|] in b;
      }
    }
  }

  lemma BeforeLast(cs: seq<Comment>, x: Comment)
    requires cs != [] && OneEach(cs) && OldestFirst(cs) && x in cs[..|cs| - 1]
    ensures x.at <= cs[|cs| - 1].at && x.id != cs[|cs| - 1].id
  {
    var j :| 0 <= j < |cs| - 1 && cs[..|cs| - 1][j] == x;
    assert cs[j] == x;
  }

  lemma AllButLast(cs: seq<Comment>)
    requires cs != [] && OneEach(cs) && OldestFirst(cs)
    ensures OneEach(cs[..|cs| - 1]) && OldestFirst(cs[..|cs| - 1])
    ensures OneEach([cs[|cs| - 1]]) && OldestFirst([cs[|cs| - 1]])
  {
  }

  lemma {:induction false} StrangersKeep(cs: seq<Comment>, ours: set<string>)
    requires OldestFirst(cs) && OneEach(cs)
    ensures OldestFirst(Strangers(cs, ours)) && OneEach(Strangers(cs, ours))
  {
    hide OldestFirst;
    hide OneEach;
    if cs == [] {
      NoneFirst();
    } else {
      var n := |cs| - 1;
      AllButLast(cs);
      StrangersKeep(cs[..n], ours);
      var before := Strangers(cs[..n], ours);
      if cs[n].id !in ours {
        forall x | x in before ensures x.at <= cs[n].at && x.id != cs[n].id {
          BeforeLast(cs, x);
        }
        Joined(before, [cs[n]]);
      } else {
        assert before + [] == before;
      }
    }
  }

  lemma NoneFirst()
    ensures OldestFirst([]) && OneEach([])
  {
  }

  // One issue, its file and its tracker, as steps

  /** A file's front matter and the notes pulled into it. */
  datatype File = File(pulled: Option<int>, published: Option<string>, notes: seq<Comment>)

  /** A pull under way: the tracker asked, or its answer on the way to the file. */
  datatype Flight = Asking(since: Option<int>, published: Option<string>)
                  | Answered(since: Option<int>, published: Option<string>, comments: seq<Comment>)

  /** `folded` is every comment a pull has put in the file or skipped as the harness's own. */
  datatype Issue = Issue(tracker: seq<Comment>, sent: set<string>, file: File, flight: Option<Flight>,
      folded: set<Comment>)

  datatype Event =
    | Post(c: Comment)
    | Record(id: string)
    | Publish(id: string)
    | Pull
    | List
    | Fail
    | Write(ok: bool)

  function Since(cs: seq<Comment>, pulled: Option<int>): (r: seq<Comment>)
    ensures forall x :: x in r <==> x in cs && After(x, pulled)
  {
    if cs == [] then []
    else
      assert cs == cs[..|cs| - 1] + [cs[|cs| - 1]];
      Since(cs[..|cs| - 1], pulled) + if After(cs[|cs| - 1], pulled) then [cs[|cs| - 1]] else []
  }

  predicate Enabled(s: Issue, e: Event) {
    match e
    case Post(c) => forall x :: x in s.tracker ==> x.id != c.id
    case List => s.flight.Some? && s.flight.value.Asking?
    case Fail => s.flight.Some? && s.flight.value.Asking?
    case Write(_) => s.flight.Some? && s.flight.value.Answered?
    case _ => true
  }

  function Ours(s: Issue, published: Option<string>): set<string> {
    s.sent + if published.Some? then {published.value} else {}
  }

  function Written(file: File, f: Flight, ours: set<string>): File
    requires f.Answered?
  {
    var notes := Strangers(Sorted(f.comments), ours);
    var pulled := Newest(Sorted(f.comments), f.since);
    if notes != [] || pulled != f.since then file.(notes := file.notes + notes, pulled := pulled) else file
  }

  function Apply(s: Issue, e: Event): Issue
    requires Enabled(s, e)
  {
    match e
    case Post(c) => s.(tracker := s.tracker + [c])
    case Record(id) => s.(sent := s.sent + {id})
    case Publish(id) => s.(file := s.file.(published := Some(id)))
    case Pull => if s.flight.Some? then s else s.(flight := Some(Asking(s.file.pulled, s.file.published)))
    case List =>
      var f := s.flight.value;
      s.(flight := Some(Answered(f.since, f.published, Since(s.tracker, f.since))))
    case Fail => s.(flight := None)
    case Write(ok) =>
      if !ok then s.(flight := None)
      else
        var f := s.flight.value;
        s.(file := Written(s.file, f, Ours(s, f.published)), flight := None,
           folded := s.folded + set c | c in f.comments)
  }

  ghost predicate FileOk(s: Issue) {
    && OneEach(s.file.notes) && OldestFirst(s.file.notes)
    && (forall c :: c in s.file.notes ==> c in s.folded)
    && (forall c :: c in s.folded ==> c in s.tracker && !After(c, s.file.pulled))
  }

  ghost predicate FlightOk(s: Issue) {
    s.flight.Some? ==>
      && s.flight.value.since == s.file.pulled
      && (s.flight.value.Answered? ==>
            && OneEach(s.flight.value.comments)
            && forall c :: c in s.flight.value.comments ==> c in s.tracker && After(c, s.file.pulled))
  }

  ghost predicate Inv(s: Issue) {
    OneEach(s.tracker) && FileOk(s) && FlightOk(s)
  }

  lemma {:induction false} SinceKeeps(cs: seq<Comment>, pulled: Option<int>)
    requires OneEach(cs)
    ensures OneEach(Since(cs, pulled))
  {
    if cs != [] {
      var n := |cs| - 1;
      SinceKeeps(cs[..n], pulled);
      var before := Since(cs[..n], pulled);
      forall i | 0 <= i < |before| ensures before[i].id != cs[n].id {
        assert before[i] in before;
        var j :| 0 <= j < n && cs[..n][j] == before[i];
        assert cs[j] == before[i];
      }
    }
  }

  lemma IdTold(cs: seq<Comment>, x: Comment, y: Comment)
    requires OneEach(cs) && x in cs && y in cs && x.id == y.id
    ensures x == y
  {
  }

  lemma WrittenMeans(s: Issue)
    requires FlightOk(s) && Enabled(s, Write(true))
    ensures var f := s.flight.value;
            var t := Apply(s, Write(true));
            && t.file.notes == s.file.notes + Strangers(Sorted(f.comments), Ours(s, f.published))
            && t.file.pulled == Newest(Sorted(f.comments), s.file.pulled)
  {
    hide Sorted;
    hide Strangers;
    hide Newest;
    hide OneEach;
    assert s.file.notes + [] == s.file.notes;
  }

  lemma NotesKept(s: Issue, notes: seq<Comment>, ours: set<string>)
    requires Inv(s) && Enabled(s, Write(true)) && notes == Strangers(Sorted(s.flight.value.comments), ours)
    ensures OneEach(s.file.notes + notes) && OldestFirst(s.file.notes + notes)
  {
    hide OneEach;
    hide OldestFirst;
    hide Sorted;
    hide Strangers;
    var f := s.flight.value;
    SortedKeeps(f.comments);
    StrangersKeep(Sorted(f.comments), ours);
    forall x, y | x in s.file.notes && y in notes ensures x.at <= y.at && x.id != y.id {
      assert y in f.comments && After(y, s.file.pulled);
      assert x in s.folded && !After(x, s.file.pulled);
      if x.id == y.id {
        IdTold(s.tracker, x, y);
      }
    }
    Joined(s.file.notes, notes);
  }

  /** What a write leaves in the file: the notes it had, then the listing's, oldest first and none twice. */
  lemma WriteKeeps(s: Issue)
    requires Inv(s) && Enabled(s, Write(true))
    ensures Inv(Apply(s, Write(true)))
  {
    hide OneEach;
    hide OldestFirst;
    hide Sorted;
    hide Strangers;
    hide Newest;
    hide Written;
    var f := s.flight.value;
    var t := Apply(s, Write(true));
    WrittenMeans(s);
    NotesKept(s, Strangers(Sorted(f.comments), Ours(s, f.published)), Ours(s, f.published));
    forall c | c in t.folded ensures c in t.tracker && !After(c, t.file.pulled) {
      if c in s.folded {
        assert !After(c, s.file.pulled);
      } else {
        assert c in Sorted(f.comments);
      }
    }
  }

  lemma StepKeeps(s: Issue, e: Event)
    requires Inv(s) && Enabled(s, e)
    ensures Inv(Apply(s, e))
  {
    if e.Write? && e.ok {
      WriteKeeps(s);
    } else {
      if e.List? {
        SinceKeeps(s.tracker, s.file.pulled);
      }
      hide Written;
    }
  }

  ghost predicate RunOf(states: seq<Issue>, events: seq<Event>) {
    && |states| == |events| + 1
    && states[0] == Issue([], {}, File(None, None, []), None, {})
    && forall k :: 0 <= k < |events| ==> Enabled(states[k], events[k]) && states[k + 1] == Apply(states[k], events[k])
  }

  lemma {:induction false} Reachable(states: seq<Issue>, events: seq<Event>, k: nat)
    requires RunOf(states, events) && k <= |events|
    ensures Inv(states[k])
  {
    hide Apply;
    hide Enabled;
    hide Inv;
    if k == 0 {
      NoneYet();
    } else {
      Reachable(states, events, k - 1);
      StepKeeps(states[k - 1], events[k - 1]);
    }
  }

  lemma NoneYet()
    ensures Inv(Issue([], {}, File(None, None, []), None, {}))
  {
  }

  /**
   * Whatever the tracker does and however pulls fail, no comment is in the file twice, and the notes are oldest
   * first.
   */
  lemma NeverTwice(states: seq<Issue>, events: seq<Event>, k: nat)
    requires RunOf(states, events) && k <= |events|
    ensures OneEach(states[k].file.notes) && OldestFirst(states[k].file.notes)
    ensures forall c :: c in states[k].file.notes ==> c in states[k].tracker
  {
    Reachable(states, events, k);
  }

  /** What the harness knows for its own: every comment it recorded as sent, and the one last published. */
  lemma {:induction false} OursAre(states: seq<Issue>, events: seq<Event>, k: nat)
    requires RunOf(states, events) && k <= |events|
    ensures forall id :: id in states[k].sent <==> exists m :: 0 <= m < k && events[m] == Record(id)
    ensures states[k].file.published.None? <==> forall m :: 0 <= m < k ==> !events[m].Publish?
    ensures states[k].file.published.Some? ==>
              exists m :: 0 <= m < k && events[m] == Publish(states[k].file.published.value)
                && forall j :: m < j < k ==> !events[j].Publish?
  {
    if k > 0 {
      OursAre(states, events, k - 1);
      var e := events[k - 1];
      OursStep(states[k - 1], e);
      hide Apply;
      hide Enabled;
      if e.Record? {
        assert events[k - 1] == Record(e.id);
      } else if !e.Publish? && states[k].file.published.Some? {
        var m :| 0 <= m < k - 1 && events[m] == Publish(states[k].file.published.value)
                 && forall j :: m < j < k - 1 ==> !events[j].Publish?;
      }
    }
  }

  lemma OursStep(s: Issue, e: Event)
    requires Enabled(s, e)
    ensures Apply(s, e).sent == s.sent + if e.Record? then {e.id} else {}
    ensures Apply(s, e).file.published == if e.Publish? then Some(e.id) else s.file.published
  {
    hide Sorted;
    hide Strangers;
    hide Newest;
  }

  /**
   * A pull that lists and writes takes exactly the comments later than the newest one pulled before; those it skips
   * are the harness's own.
   */
  lemma PullTakes(s: Issue, c: Comment)
    requires Inv(s) && s.flight.None? && c in s.tracker
    ensures var t := Apply(Apply(Apply(s, Pull), List), Write(true));
            && (c in t.folded <==> c in s.folded || After(c, s.file.pulled))
            && (c !in s.folded ==>
               (c in t.file.notes <==> After(c, s.file.pulled) && c.id !in Ours(s, s.file.published)))
  {
    hide OneEach;
    hide OldestFirst;
    hide Sorted;
    hide Strangers;
    hide Newest;
    var u := Apply(Apply(s, Pull), List);
    StepKeeps(s, Pull);
    StepKeeps(Apply(s, Pull), List);
    WrittenMeans(u);
  }

  /** A comment the file is already past is never taken. */
  ghost predicate Passed(s: Issue, c: Comment) {
    c in s.tracker && c !in s.folded && !After(c, s.file.pulled)
  }

  lemma PassedStays(s: Issue, e: Event, c: Comment)
    requires Inv(s) && Enabled(s, e) && Passed(s, c)
    ensures Passed(Apply(s, e), c)
  {
    if e.Write? && e.ok {
      var f := s.flight.value;
      assert c !in f.comments;
      assert Newest(Sorted(f.comments), f.since).value >= f.since.value;
    }
  }

  lemma {:induction false} PassedOn(states: seq<Issue>, events: seq<Event>, i: nat, k: nat, c: Comment)
    requires RunOf(states, events) && i <= k <= |events| && Passed(states[i], c)
    ensures Passed(states[k], c)
  {
    hide Apply;
    hide Enabled;
    hide Passed;
    if i < k {
      PassedOn(states, events, i, k - 1, c);
      Reachable(states, events, k - 1);
      PassedStays(states[k - 1], events[k - 1], c);
    }
  }

  // Which comments are taken

  ghost predicate IsAnswered(s: Issue) {
    s.flight.Some? && s.flight.value.Answered?
  }

  ghost predicate NoWrite(events: seq<Event>, from: nat, end: nat)
    requires end <= |events|
  {
    forall m :: from <= m < end ==> !events[m].Write?
  }

  /** An answer already on its way when the comment is posted has one dated as late or later, and is written. */
  ghost predicate Overtaken(states: seq<Issue>, events: seq<Event>, i: nat, c: Comment)
    requires RunOf(states, events) && i < |events|
  {
    && IsAnswered(states[i])
    && (exists x :: x in states[i].flight.value.comments && x.at >= c.at)
    && exists j :: i < j < |events| && events[j] == Write(true) && NoWrite(events, i, j)
  }

  /** The comment is later than all the file has, and no answer overtakes it. */
  ghost predicate InReach(states: seq<Issue>, events: seq<Event>, i: nat, c: Comment)
    requires RunOf(states, events) && i < |events|
  {
    After(c, states[i].file.pulled) && !Overtaken(states, events, i, c)
  }

  /** A pull that lists once the comment is there, and writes. */
  ghost predicate PulledBetween(events: seq<Event>, i: nat, k: nat)
    requires k <= |events|
  {
    exists m, n :: i < m < n < k && events[m] == List && events[n] == Write(true) && NoWrite(events, m, n)
  }

  lemma AnswerKept(s: Issue, e: Event)
    requires Enabled(s, e) && IsAnswered(s) && !e.Write?
    ensures var t := Apply(s, e); t.flight == s.flight && t.folded == s.folded && t.file.pulled == s.file.pulled
    ensures forall x :: x in s.tracker ==> x in Apply(s, e).tracker
  {
  }

  lemma {:induction false} AnswerStays(states: seq<Issue>, events: seq<Event>, m: nat, n: nat, c: Comment)
    requires RunOf(states, events) && m <= n <= |events| && IsAnswered(states[m]) && NoWrite(events, m, n)
    ensures states[n].flight == states[m].flight && states[n].folded == states[m].folded
    ensures states[n].file.pulled == states[m].file.pulled && (c in states[m].tracker ==> c in states[n].tracker)
  {
    hide Apply;
    hide Enabled;
    if m < n {
      AnswerStays(states, events, m, n - 1, c);
      AnswerKept(states[n - 1], events[n - 1]);
    }
  }

  lemma FoldedStays(s: Issue, e: Event, c: Comment)
    requires Enabled(s, e) && c in s.folded
    ensures c in Apply(s, e).folded
  {
    hide Written;
  }

  lemma {:induction false} FoldedOn(states: seq<Issue>, events: seq<Event>, m: nat, n: nat, c: Comment)
    requires RunOf(states, events) && m <= n <= |events| && c in states[m].folded
    ensures c in states[n].folded
  {
    hide Apply;
    hide Enabled;
    if m < n {
      FoldedOn(states, events, m, n - 1, c);
      FoldedStays(states[n - 1], events[n - 1], c);
    }
  }

  lemma PostedFresh(states: seq<Issue>, events: seq<Event>, i: nat, c: Comment)
    requires RunOf(states, events) && i < |events| && events[i] == Post(c)
    ensures c !in states[i].tracker && c !in states[i].folded
        && (IsAnswered(states[i]) ==> c !in states[i].flight.value.comments)
    ensures states[i + 1] == states[i].(tracker := states[i].tracker + [c])
  {
    Reachable(states, events, i);
  }

  // Out of reach, it is lost

  lemma OvertakingWrite(s: Issue, c: Comment, x: Comment)
    requires Inv(s) && Enabled(s, Write(true)) && c in s.tracker && c !in s.folded
    requires c !in s.flight.value.comments && x in s.flight.value.comments && x.at >= c.at
    ensures Passed(Apply(s, Write(true)), c)
  {
    hide Sorted;
    hide Strangers;
    hide Newest;
    hide Written;
    WrittenMeans(s);
    assert x in Sorted(s.flight.value.comments);
  }

  lemma {:induction false} OutOfReach(states: seq<Issue>, events: seq<Event>, i: nat, k: nat, c: Comment)
    requires RunOf(states, events) && i < k <= |events| && events[i] == Post(c) && !InReach(states, events, i, c)
    ensures c !in states[k].folded
  {
    PostedFresh(states, events, i, c);
    if !After(c, states[i].file.pulled) {
      PassedOn(states, events, i + 1, k, c);
    } else {
      var j :| i < j < |events| && events[j] == Write(true) && NoWrite(events, i, j);
      var x :| x in states[i].flight.value.comments && x.at >= c.at;
      if k <= j {
        AnswerStays(states, events, i, k, c);
      } else {
        AnswerStays(states, events, i + 1, j, c);
        Reachable(states, events, j);
        OvertakingWrite(states[j], c, x);
        PassedOn(states, events, j + 1, k, c);
      }
    }
  }

  // In reach, the next pull that is written has it

  /** Later than all the file has, and in any answer on its way, unless that is the one it was posted under. */
  ghost predicate Awaited(states: seq<Issue>, events: seq<Event>, i: nat, k: nat, c: Comment)
    requires RunOf(states, events) && i < k <= |events|
  {
    var s := states[k];
    && c in s.tracker && After(c, s.file.pulled)
    && (IsAnswered(s) ==> c in s.flight.value.comments || (s.flight == states[i].flight && NoWrite(events, i, k)))
  }

  lemma WrittenFolds(s: Issue, c: Comment)
    requires Enabled(s, Write(true)) && c in s.flight.value.comments
    ensures c in Apply(s, Write(true)).folded
  {
    hide Written;
  }

  lemma WrittenBefore(s: Issue, c: Comment)
    requires Inv(s) && Enabled(s, Write(true)) && After(c, s.file.pulled)
    requires forall x :: x in s.flight.value.comments ==> x.at < c.at
    ensures After(c, Apply(s, Write(true)).file.pulled)
  {
    hide Sorted;
    hide Strangers;
    hide Newest;
    hide Written;
    WrittenMeans(s);
  }

  lemma ListedHas(s: Issue, c: Comment)
    requires Inv(s) && Enabled(s, List) && c in s.tracker && After(c, s.file.pulled)
    ensures c in Apply(s, List).flight.value.comments
  {
  }

  lemma AwaitedKept(states: seq<Issue>, events: seq<Event>, i: nat, k: nat, c: Comment)
    requires RunOf(states, events) && i < k < |events| && events[i] == Post(c) && InReach(states, events, i, c)
    requires Inv(states[k]) && Awaited(states, events, i, k, c)
    ensures c in states[k + 1].folded || Awaited(states, events, i, k + 1, c)
  {
    hide Inv;
    var s, e := states[k], events[k];
    match e
    case List => ListedHas(s, c);
    case Write(ok) =>
      if ok {
        if c in s.flight.value.comments {
          WrittenFolds(s, c);
        } else {
          forall x | x in s.flight.value.comments ensures x.at < c.at {
            assert !Overtaken(states, events, i, c);
          }
          WrittenBefore(s, c);
          hide Written;
        }
      }
    case _ =>
  }

  lemma {:induction false} AwaitedOn(states: seq<Issue>, events: seq<Event>, i: nat, k: nat, c: Comment)
    requires RunOf(states, events) && i < k <= |events| && events[i] == Post(c) && InReach(states, events, i, c)
    ensures c in states[k].folded || Awaited(states, events, i, k, c)
  {
    if k == i + 1 {
      PostedFresh(states, events, i, c);
    } else {
      AwaitedOn(states, events, i, k - 1, c);
      Reachable(states, events, k - 1);
      hide Apply;
      hide Enabled;
      hide Awaited;
      hide InReach;
      if c in states[k - 1].folded {
        FoldedStays(states[k - 1], events[k - 1], c);
      } else {
        AwaitedKept(states, events, i, k - 1, c);
      }
    }
  }

  lemma {:induction false} TakenByPull(states: seq<Issue>, events: seq<Event>, i: nat, k: nat, c: Comment)
    requires RunOf(states, events) && i < k <= |events| && events[i] == Post(c) && InReach(states, events, i, c)
    requires PulledBetween(events, i, k)
    ensures c in states[k].folded
  {
    var m, n :| i < m < n < k && events[m] == List && events[n] == Write(true) && NoWrite(events, m, n);
    AwaitedOn(states, events, i, m, c);
    Reachable(states, events, m);
    if c in states[m].folded {
      FoldedOn(states, events, m, k, c);
    } else {
      ListedHas(states[m], c);
      AnswerStays(states, events, m + 1, n, c);
      WrittenFolds(states[n], c);
      FoldedOn(states, events, n + 1, k, c);
    }
  }

  /**
   * A posted comment is taken exactly when it is later than all the file has and no answer already on its way
   * overtakes it: then by the first pull that lists after it and is written, once; otherwise never.
   */
  lemma ExactlyOnce(states: seq<Issue>, events: seq<Event>, i: nat, k: nat, c: Comment)
    requires RunOf(states, events) && i < k <= |events| && events[i] == Post(c)
    ensures c in states[k].folded ==> InReach(states, events, i, c)
    ensures PulledBetween(events, i, k) ==> (c in states[k].folded <==> InReach(states, events, i, c))
    ensures OneEach(states[k].file.notes) && (c in states[k].file.notes ==> c in states[k].folded)
  {
    Reachable(states, events, k);
    if !InReach(states, events, i, c) {
      OutOfReach(states, events, i, k, c);
    } else if PulledBetween(events, i, k) {
      TakenByPull(states, events, i, k, c);
    }
  }

  /** Two comments of one instant: the second, posted after the first was pulled, never reaches the file. */
  lemma TieIsLost(a: Comment, b: Comment)
    requires a.id != b.id && a.at == b.at
    ensures var s := Apply(Apply(Apply(Apply(Issue([], {}, File(None, None, []), None, {}), Post(a)), Pull), List),
        Write(true));
            && Enabled(s, Post(b)) && Passed(Apply(s, Post(b)), b)
  {
    hide Sorted;
    hide Strangers;
    hide Newest;
    hide Since;
    NoneYet();
    var s := Issue([], {}, File(None, None, []), None, {});
    StepKeeps(s, Post(a));
    s := Apply(s, Post(a));
    assert s.tracker == [a];
    PullTakes(s, a);
    var t := Apply(Apply(Apply(s, Pull), List), Write(true));
    StepKeeps(s, Pull);
    StepKeeps(Apply(s, Pull), List);
    StepKeeps(Apply(Apply(s, Pull), List), Write(true));
    assert a in t.folded && !After(a, t.file.pulled);
    assert t.tracker == [a];
  }

  /** Posted while the answer is on its way, and dated before a comment in it: lost when that is written. */
  lemma OvertakenIsLost(a: Comment, b: Comment)
    requires a.id != b.id && b.at <= a.at
    ensures var listed := Apply(Apply(Apply(Issue([], {}, File(None, None, []), None, {}), Post(a)), Pull), List);
            && Enabled(listed, Post(b)) && After(b, listed.file.pulled)
            && Passed(Apply(Apply(listed, Post(b)), Write(true)), b)
  {
    hide Sorted;
    hide Strangers;
    hide Newest;
    hide Written;
    var none := Issue([], {}, File(None, None, []), None, {});
    NoneYet();
    StepKeeps(none, Post(a));
    var s := Apply(none, Post(a));
    assert s.tracker == [a];
    StepKeeps(s, Pull);
    StepKeeps(Apply(s, Pull), List);
    var listed := Apply(Apply(s, Pull), List);
    assert a in listed.flight.value.comments;
    StepKeeps(listed, Post(b));
    OvertakingWrite(Apply(listed, Post(b)), b, a);
  }

  // The desk

  /** The desk's own fields, over what each issue's file and tracker hold. */
  class PullDesk {
    var lastPulledAt: map<nat, int>
    var inFlight: map<nat, Flight>
    ghost var issues: map<nat, Issue>

    /**
     * The pulls in flight are the issues' own, at most one for each, and every issue is as a run of its steps leaves
     * it.
     */
    ghost predicate Valid()
      reads this
    {
      && inFlight.Keys <= issues.Keys
      && forall n :: n in issues ==>
           Inv(issues[n]) && issues[n].flight == if n in inFlight then Some(inFlight[n]) else None
    }

    /** A pull of an issue already being pulled shares that run; a pull of one with no file is refused. */
    method StartPull(n: nat, file: Option<File>, now: int) returns (started: bool)
      requires Valid() && (if file.Some? then n in issues && issues[n].file == file.value else n !in issues)
      modifies this
      ensures Valid()
      ensures started <==> file.Some? && n !in old(inFlight)
      ensures issues == if file.Some? then old(issues)[n := Apply(old(issues[n]), Pull)] else old(issues)
      ensures lastPulledAt == if started then old(lastPulledAt)[n := now] else old(lastPulledAt)
    {
      hide Inv;
      if n in inFlight {
        return false;
      }
      if file.None? {
        return false;
      }
      StepKeeps(issues[n], Pull);
      lastPulledAt := lastPulledAt[n := now];
      inFlight := inFlight[n := Asking(file.value.pulled, file.value.published)];
      issues := issues[n := Apply(issues[n], Pull)];
      return true;
    }

    /** The tracker's answer, or its failure, which ends the pull. */
    method Listed(n: nat, comments: Option<seq<Comment>>)
      requires Valid() && n in issues && Enabled(issues[n], List)
      requires comments.Some? ==> comments.value == Since(issues[n].tracker, issues[n].flight.value.since)
      modifies this`inFlight, this`issues
      ensures Valid()
      ensures issues == old(issues)[n := Apply(old(issues[n]), if comments.Some? then List else Fail)]
    {
      hide Inv;
      ghost var e := if comments.Some? then List else Fail;
      StepKeeps(issues[n], e);
      issues := issues[n := Apply(issues[n], e)];
      if comments.None? {
        inFlight := inFlight - {n};
      } else {
        var f := inFlight[n];
        inFlight := inFlight[n := Answered(f.since, f.published, comments.value)];
      }
    }

    /** The fold of the answer into the file, which is written once, whole or not at all. */
    method Finish(n: nat, sent: set<string>, file: File, ok: bool) returns (left: File)
      requires Valid() && n in issues && Enabled(issues[n], Write(ok))
      requires file == issues[n].file && sent == issues[n].sent
      modifies this`inFlight, this`issues
      ensures Valid() && n !in inFlight
      ensures issues == old(issues)[n := Apply(old(issues[n]), Write(ok))] && left == issues[n].file
    {
      hide Inv;
      hide Sorted;
      hide Strangers;
      hide Newest;
      var f := inFlight[n];
      var ours := sent + if f.published.Some? then {f.published.value} else {};
      var pulled, notes, skipped := Fold(f.since, ours, f.comments);
      StepKeeps(issues[n], Write(ok));
      issues := issues[n := Apply(issues[n], Write(ok))];
      inFlight := inFlight - {n};
      left := file;
      if (|notes| > 0 || pulled != f.since) && ok {
        left := file.(notes := file.notes + notes, pulled := pulled);
      }
    }
  }
}
