// Which issues a mark on an issue covers: `watchCascadeTargets` and `cascadeToChildren` of `src/issueRelations.ts`.
module IssueRelations {
  import opened Sequences

  /** An issue with the numbers of its children; whether its type is a container's is taken as given. */
  datatype Issue = Issue(number: int, container: bool, children: seq<int>)

  /** The issues the mirror holds, by number. */
  type Mirror = m: map<int, Issue> | forall n :: n in m ==> m[n].number == n witness map[]

  /** The numbers below a number, seen from a root issue the mirror need not hold. */
  function Kids(root: Issue, held: Mirror, n: int): seq<int> {
    if n == root.number then root.children else if n in held then held[n].children else []
  }

  /** A chain of child links down from the root. */
  ghost predicate Chain(root: Issue, held: Mirror, p: seq<int>) {
    p != [] && p[0] == root.number && forall k :: 0 <= k < |p| - 1 ==> p[k + 1] in Kids(root, held, p[k])
  }

  ghost predicate Reaches(root: Issue, held: Mirror, n: int) {
    exists p :: Chain(root, held, p) && p[|p| - 1] == n
  }

  lemma ReachesSelf(root: Issue, held: Mirror)
    ensures Reaches(root, held, root.number)
  {
    assert Chain(root, held, [root.number]);
  }

  lemma ReachesKid(root: Issue, held: Mirror, n: int, kid: int)
    requires Reaches(root, held, n) && kid in Kids(root, held, n)
    ensures Reaches(root, held, kid)
  {
    var p :| Chain(root, held, p) && p[|p| - 1] == n;
    var q := p + [kid];
    assert Chain(root, held, q);
    assert q[|q| - 1] == kid;
  }

  /** Whatever is closed under child links and has the root has everything the root reaches. */
  lemma {:induction false} ClosedReaches(root: Issue, held: Mirror, seen: set<int>, p: seq<int>)
    requires root.number in seen && Chain(root, held, p)
    requires forall n, kid :: n in seen && kid in Kids(root, held, n) ==> kid in seen
    ensures p[|p| - 1] in seen
    decreases |p|
  {
    if |p| > 1 {
      var q := p[..|p| - 1];
      assert Chain(root, held, q);
      ClosedReaches(root, held, seen, q);
      assert p[|p| - 1] in Kids(root, held, q[|q| - 1]);
    }
  }

  /** Every number there can be: the root's, and all children's. */
  function Universe(root: Issue, held: Mirror): set<int> {
    {root.number} + (set kid | kid in root.children) + (set n, kid | n in held && kid in held[n].children :: kid)
  }

  lemma KidInUniverse(root: Issue, held: Mirror, n: int, kid: int)
    requires kid in Kids(root, held, n)
    ensures kid in Universe(root, held)
  {
  }

  /** A stable sort by number. */
  function Insert(n: int, s: seq<int>): (r: seq<int>)
    ensures multiset(r) == multiset(s) + multiset{n}
  {
    if s == [] || n < s[0] then [n] + s
    else
      assert s == [s[0]] + s[1..];
      [s[0]] + Insert(n, s[1..])
  }

  function Sorted(s: seq<int>): (r: seq<int>)
    ensures multiset(r) == multiset(s)
  {
    if s == [] then []
    else
      assert s == s[..|s| - 1] + [s[|s| - 1]];
      Insert(s[|s| - 1], Sorted(s[..|s| - 1]))
  }

  lemma SortedSame(s: seq<int>, n: int)
    ensures n in Sorted(s) <==> n in s
  {
    assert n in multiset(Sorted(s)) <==> n in multiset(s);
  }

  /** The issues still to expand stand for their own numbers. */
  ghost predicate QueueOk(root: Issue, held: Mirror, queue: seq<Issue>) {
    forall k :: 0 <= k < |queue| ==> queue[k].children == Kids(root, held, queue[k].number)
  }

  ghost predicate Waits(queue: seq<Issue>, n: int) {
    exists k :: 0 <= k < |queue| && queue[k].number == n
  }

  /** Every seen number that does not wait to be expanded has all its children seen. */
  ghost predicate Expanded(root: Issue, held: Mirror, seen: set<int>, queue: seq<Issue>) {
    forall n, kid :: n in seen && !Waits(queue, n) && kid in Kids(root, held, n) ==> kid in seen
  }

  ghost predicate SeenOk(root: Issue, held: Mirror, seen: set<int>, targets: seq<int>) {
    && (forall n :: n in seen <==> n in targets) && Distinct(targets)
    && seen <= Universe(root, held) && forall n :: n in seen ==> Reaches(root, held, n)
  }

  /** How much is left to do: numbers not seen, and issues that wait. */
  function Left(root: Issue, held: Mirror, seen: set<int>, queue: seq<Issue>): nat {
    |Universe(root, held) - seen| + |queue|
  }

  lemma OneLess(root: Issue, held: Mirror, seen: set<int>, queue: seq<Issue>)
    requires queue != []
    ensures Left(root, held, seen, queue[1..]) == Left(root, held, seen, queue) - 1
  {
  }

  lemma OneMore(root: Issue, held: Mirror, seen: set<int>, queue: seq<Issue>, kid: int, later: seq<Issue>)
    requires kid !in seen && kid in Universe(root, held) && |later| <= |queue| + 1
    ensures Left(root, held, seen + {kid}, later) <= Left(root, held, seen, queue)
  {
    hide Universe;
    assert Universe(root, held) - seen == (Universe(root, held) - (seen + {kid})) + {kid};
  }

  lemma SeenMore(root: Issue, held: Mirror, seen: set<int>, targets: seq<int>, kid: int)
    requires SeenOk(root, held, seen, targets) && kid !in seen
    requires Reaches(root, held, kid) && kid in Universe(root, held)
    ensures SeenOk(root, held, seen + {kid}, targets + [kid])
  {
    hide Universe;
    hide Reaches;
    assert forall k :: 0 <= k < |targets| ==> targets[k] in targets;
  }

  lemma OneMoreSeen(queue: seq<Issue>, seen: set<int>, kid: int)
    requires QueueSeen(queue, seen)
    ensures QueueSeen(queue, seen + {kid})
  {
  }

  lemma OneQueued(root: Issue, held: Mirror, queue: seq<Issue>, seen: set<int>, kid: int)
    requires QueueOk(root, held, queue) && QueueSeen(queue, seen) && kid in held && kid in seen && kid != root.number
    ensures var later := queue + [held[kid]];
            QueueOk(root, held, later) && QueueSeen(later, seen) && Waits(later, kid)
  {
    assert (queue + [held[kid]])[|queue|].number == kid;
  }

  /** One child met: targeted and queued the first time only. */
  method Meet(root: Issue, held: Mirror, kid: int, seen: set<int>, targets: seq<int>, queue: seq<Issue>)
    returns (seen2: set<int>, targets2: seq<int>, queue2: seq<Issue>)
    requires SeenOk(root, held, seen, targets) && QueueOk(root, held, queue)
    requires Reaches(root, held, kid) && kid in Universe(root, held) && root.number in seen
    requires QueueSeen(queue, seen)
    ensures QueueSeen(queue2, seen2)
    ensures SeenOk(root, held, seen2, targets2) && QueueOk(root, held, queue2)
    ensures seen2 == seen + {kid} && queue <= queue2 && targets <= targets2
    ensures Left(root, held, seen2, queue2) <= Left(root, held, seen, queue)
    ensures kid !in seen && Kids(root, held, kid) != [] ==> Waits(queue2, kid)
  {
    if kid in seen {
      assert seen + {kid} == seen;
      return seen, targets, queue;
    }
    hide Universe;
    hide Reaches;
    hide Left;
    hide SeenOk;
    hide QueueOk;
    hide QueueSeen;
    hide Waits;
    SeenMore(root, held, seen, targets, kid);
    OneMoreSeen(queue, seen, kid);
    seen2, targets2, queue2 := seen + {kid}, targets + [kid], queue;
    if kid in held {
      queue2 := queue + [held[kid]];
      OneQueued(root, held, queue, seen2, kid);
    }
    OneMore(root, held, seen, queue, kid, queue2);
  }

  method WatchCascadeTargets(issue: Issue, held: Mirror) returns (targets: seq<int>)
    ensures Distinct(targets) && targets != [] && targets[0] == issue.number
    ensures !issue.container ==> targets == [issue.number]
    ensures issue.container ==> forall n :: n in targets <==> Reaches(issue, held, n)
  {
    targets := [issue.number];
    if !issue.container {
      return;
    }
    var seen := {issue.number};
    var queue := [issue];
    ReachesSelf(issue, held);
    assert queue[0].number == issue.number;
    while queue != []
      invariant SeenOk(issue, held, seen, targets) && QueueOk(issue, held, queue)
      invariant issue.number in seen && targets != [] && targets[0] == issue.number
      invariant QueueSeen(queue, seen)
      invariant Expanded(issue, held, seen, queue)
      decreases Left(issue, held, seen, queue)
    {
      targets, seen, queue := Expand(issue, held, targets, seen, queue);
    }
    forall n | Reaches(issue, held, n) ensures n in seen {
      var p :| Chain(issue, held, p) && p[|p| - 1] == n;
      ClosedReaches(issue, held, seen, p);
    }
  }

  /** What has been seen since, and has children, waits to be expanded. */
  ghost predicate NewWait(root: Issue, held: Mirror, seen: set<int>, now: set<int>, queue: seq<Issue>) {
    forall n :: n in now && n !in seen && Kids(root, held, n) != [] ==> Waits(queue, n)
  }

  ghost predicate QueueSeen(queue: seq<Issue>, seen: set<int>) {
    forall k :: 0 <= k < |queue| ==> queue[k].number in seen
  }

  lemma NewWaits(root: Issue, held: Mirror, seen: set<int>, now: set<int>, queue: seq<Issue>, kid: int,
      after: set<int>, later: seq<Issue>)
    requires NewWait(root, held, seen, now, queue) && queue <= later && after == now + {kid}
    requires kid !in now && Kids(root, held, kid) != [] ==> Waits(later, kid)
    ensures NewWait(root, held, seen, after, later)
  {
    hide Kids;
    WaitsOn(queue, later);
    hide Waits;
  }

  ghost predicate AllIn(kids: seq<int>, i: nat, seen: set<int>)
    requires i <= |kids|
  {
    forall k :: 0 <= k < i ==> kids[k] in seen
  }

  lemma FirstWaiting(root: Issue, held: Mirror, targets: seq<int>, seen: set<int>, queue: seq<Issue>)
    requires SeenOk(root, held, seen, targets) && QueueOk(root, held, queue) && queue != [] && QueueSeen(queue, seen)
    ensures Reaches(root, held, queue[0].number) && queue[0].children == Kids(root, held, queue[0].number)
    ensures QueueOk(root, held, queue[1..]) && QueueSeen(queue[1..], seen)
        && NewWait(root, held, seen, seen, queue[1..])
    ensures Left(root, held, seen, queue[1..]) < Left(root, held, seen, queue)
  {
    OneLess(root, held, seen, queue);
    hide Left;
    hide Kids;
    hide Universe;
    hide Reaches;
  }

  /** The first waiting issue's children, lowest number first. */
  method Expand(root: Issue, held: Mirror, targets: seq<int>, seen: set<int>, queue: seq<Issue>)
    returns (targets2: seq<int>, seen2: set<int>, queue2: seq<Issue>)
    requires SeenOk(root, held, seen, targets) && QueueOk(root, held, queue) && queue != []
    requires root.number in seen && targets != [] && targets[0] == root.number
    requires QueueSeen(queue, seen) && Expanded(root, held, seen, queue)
    ensures SeenOk(root, held, seen2, targets2) && QueueOk(root, held, queue2)
    ensures root.number in seen2 && targets2 != [] && targets2[0] == root.number
    ensures QueueSeen(queue2, seen2) && Expanded(root, held, seen2, queue2)
    ensures Left(root, held, seen2, queue2) < Left(root, held, seen, queue)
  {
    hide Left;
    hide Universe;
    hide SeenOk;
    hide QueueOk;
    hide Kids;
    hide Sorted;
    hide Expanded;
    hide Reaches;
    hide Waits;
    hide NewWait;
    hide QueueSeen;
    var next := queue[0];
    FirstWaiting(root, held, targets, seen, queue);
    targets2, seen2, queue2 := targets, seen, queue[1..];
    var kids := Sorted(next.children);
    for i := 0 to |kids|
      invariant SeenOk(root, held, seen2, targets2) && QueueOk(root, held, queue2)
      invariant seen <= seen2 && queue[1..] <= queue2 && targets <= targets2
      invariant AllIn(kids, i, seen2) && QueueSeen(queue2, seen2) && NewWait(root, held, seen, seen2, queue2)
      invariant Left(root, held, seen2, queue2) < Left(root, held, seen, queue)
    {
      SortedSame(next.children, kids[i]);
      ReachesKid(root, held, next.number, kids[i]);
      KidInUniverse(root, held, next.number, kids[i]);
      ghost var now, was := seen2, queue2;
      seen2, targets2, queue2 := Meet(root, held, kids[i], seen2, targets2, queue2);
      NewWaits(root, held, seen, now, was, kids[i], seen2, queue2);
    }
    forall kid | kid in Kids(root, held, next.number) ensures kid in seen2 {
      SortedSame(next.children, kid);
      assert AllIn(kids, |kids|, seen2);
    }
    ExpandedNow(root, held, seen, queue, seen2, queue2);
  }

  lemma WaitsBehind(queue: seq<Issue>, n: int)
    requires queue != [] && n != queue[0].number
    ensures Waits(queue, n) ==> Waits(queue[1..], n)
  {
    if Waits(queue, n) {
      var k :| 0 <= k < |queue| && queue[k].number == n;
      assert queue[1..][k - 1].number == n;
    }
  }

  lemma ExpandedNow(root: Issue, held: Mirror, seen: set<int>, queue: seq<Issue>, seen2: set<int>, queue2: seq<Issue>)
    requires queue != [] && Expanded(root, held, seen, queue) && seen <= seen2 && queue[1..] <= queue2
    requires forall kid :: kid in Kids(root, held, queue[0].number) ==> kid in seen2
    requires NewWait(root, held, seen, seen2, queue2)
    ensures Expanded(root, held, seen2, queue2)
  {
    WaitsOn(queue[1..], queue2);
    hide Waits;
    hide Kids;
    forall n, kid | n in seen2 && !Waits(queue2, n) && kid in Kids(root, held, n) ensures kid in seen2 {
      if n in seen && n != queue[0].number {
        WaitsBehind(queue, n);
      }
    }
  }

  lemma WaitsOn(a: seq<Issue>, b: seq<Issue>)
    requires a <= b
    ensures forall n :: Waits(a, n) ==> Waits(b, n)
  {
    forall n | Waits(a, n) ensures Waits(b, n) {
      var k :| 0 <= k < |a| && a[k].number == n;
      assert b[k].number == n;
    }
  }

  // Marks

  /** A mark on a number covers it and, where it is a container the mirror holds, everything beneath it. */
  ghost predicate Covers(held: Mirror, number: int, n: int) {
    if number in held && held[number].container then Reaches(held[number], held, n) else n == number
  }

  ghost predicate Covered(held: Mirror, numbers: set<int>, n: int) {
    exists number :: number in numbers && Covers(held, number, n)
  }

  function Elements(s: seq<int>): set<int> {
    set n | n in s
  }

  method CascadeToChildren(numbers: seq<int>, held: Mirror) returns (out: set<int>)
    ensures forall n :: n in out <==> Covered(held, Elements(numbers), n)
  {
    out := {};
    for i := 0 to |numbers|
      invariant forall n :: n in out <==> Covered(held, Elements(numbers[..i]), n)
    {
      var number := numbers[i];
      ghost var was := out;
      assert Elements(numbers[..i + 1]) == Elements(numbers[..i]) + {number};
      if number !in held {
        out := out + {number};
      } else {
        var targets := WatchCascadeTargets(held[number], held);
        out := out + set n | n in targets;
      }
      forall n ensures n in out <==> n in was || Covers(held, number, n) {
      }
      CoveredMore(held, Elements(numbers[..i]), number);
    }
    assert numbers[..|numbers|] == numbers;
  }

  lemma CoveredMore(held: Mirror, numbers: set<int>, number: int)
    ensures forall n :: Covered(held, numbers + {number}, n) <==> Covered(held, numbers, n) || Covers(held, number, n)
  {
  }

  /** Marking two sets of issues covers what marking each of them covers. */
  lemma CoversUnion(held: Mirror, a: set<int>, b: set<int>, n: int)
    ensures Covered(held, a + b, n) <==> Covered(held, a, n) || Covered(held, b, n)
  {
  }

  lemma {:induction false} ChainDown(root: Issue, held: Mirror, below: Issue, p: seq<int>)
    requires root.number in held && held[root.number] == root && below.number in held && held[below.number] == below
    requires Reaches(root, held, below.number) && Chain(below, held, p)
    ensures Reaches(root, held, p[|p| - 1])
    decreases |p|
  {
    if |p| > 1 {
      var q := p[..|p| - 1];
      assert Chain(below, held, q);
      ChainDown(root, held, below, q);
      assert p[|p| - 1] in Kids(below, held, q[|q| - 1]);
      ReachesKid(root, held, q[|q| - 1], p[|p| - 1]);
    }
  }

  /** What a covered issue covers is covered already. */
  lemma CoversDown(held: Mirror, number: int, mid: int, n: int)
    requires Covers(held, number, mid) && Covers(held, mid, n)
    ensures Covers(held, number, n)
  {
    if number in held && held[number].container && mid in held && held[mid].container {
      var p :| Chain(held[mid], held, p) && p[|p| - 1] == n;
      ChainDown(held[number], held, held[mid], p);
    }
  }

  /** Cascading what has been cascaded adds nothing, however the child links run in circles. */
  lemma CascadeOnce(held: Mirror, numbers: set<int>, once: set<int>, n: int)
    requires forall k :: k in once <==> Covered(held, numbers, k)
    ensures Covered(held, once, n) <==> Covered(held, numbers, n)
  {
    if Covered(held, once, n) {
      var mid :| mid in once && Covers(held, mid, n);
      var number :| number in numbers && Covers(held, number, mid);
      CoversDown(held, number, mid, n);
    }
    if Covered(held, numbers, n) {
      if n in held && held[n].container {
        ReachesSelf(held[n], held);
      }
      assert Covers(held, n, n);
    }
  }
}
