// The close-out pass of `src/delivery/closeOut.ts`, and the desk that applies what it orders.
module CloseOut {
  import opened Sequences
  import opened Options
  import opened IssueOrigins

  datatype Issue = Issue(number: nat, closed: bool)

  datatype Status = Open | Done | Declined

  /** A close-out row on the bench. */
  datatype Task = Task(id: string, origin: Option<string>, status: Status, resolution: string, detail: string)

  datatype Step =
    | File(origin: string, detail: string)
    | Settle(taskId: string, status: Status, resolution: string)
    | Reopen(taskId: string, detail: string)

  /** What a pass looks at besides the rows; `detail` writes what a row says of a goal. */
  datatype World = World(issues: seq<Issue>, deliveries: seq<string>, shortfalls: set<string>,
      openedGoals: Option<set<string>>,
                         validating: set<string>, watchCleared: Option<set<string>>, detail: string -> string)

  const DESK_SETTLED := "Settled by the harness \U{2014} "
  const CLOSED := "the tracker shows it closed"
  const UNLISTED := "the tracker no longer lists it open"
  const UNDELIVERED := "the goal went back into production \U{2014} there is no delivery to close it out"

  predicate DeskSettled(t: Task) {
    DESK_SETTLED <= t.resolution
  }

  /** The last issue with the reference, as a map built from a list keeps it. */
  function IssueAt(issues: seq<Issue>, origin: string): Option<Issue> {
    if issues == [] then None
    else
      var last := issues[|issues| - 1];
      if HeadRef(last.number) == origin then Some(last) else IssueAt(issues[..|issues| - 1], origin)
  }

  function TaskAt(tasks: seq<Task>, origin: string): Option<Task> {
    if tasks == [] then None
    else
      var last := tasks[|tasks| - 1];
      if (if last.origin.Some? then last.origin.value else "") == origin then Some(last)
      else TaskAt(tasks[..|tasks| - 1], origin)
  }

  predicate ReadyToFile(w: World, origin: string) {
    && (w.openedGoals.None? || origin in w.openedGoals.value)
    && origin !in w.validating
    && (w.watchCleared.None? || origin in w.watchCleared.value)
  }

  function CloseOutStep(w: World, origin: string, existing: Option<Task>, issue: Option<Issue>): Option<Step> {
    if existing.Some? && existing.value.status != Open then
      if DeskSettled(existing.value) && issue.Some? && !issue.value.closed && ReadyToFile(w, origin) then
        Some(Reopen(existing.value.id, w.detail(origin)))
      else None
    else if issue.Some? && issue.value.closed then
      if existing.Some? then Some(Settle(existing.value.id, Done, CLOSED)) else None
    else if issue.None? then
      if existing.Some? && w.issues != [] then Some(Settle(existing.value.id, Done, UNLISTED)) else None
    else if existing.None? && !ReadyToFile(w, origin) then None
    else Some(File(origin, w.detail(origin)))
  }

  function StepFor(w: World, tasks: seq<Task>, origin: string): Option<Step> {
    if !IsGoal(origin) || origin in w.shortfalls then None
    else CloseOutStep(w, origin, TaskAt(tasks, origin), IssueAt(w.issues, origin))
  }

  function DeliverySteps(w: World, tasks: seq<Task>, deliveries: seq<string>): seq<Step> {
    if deliveries == [] then []
    else
      var step := StepFor(w, tasks, deliveries[0]);
      (if step.Some? then [step.value] else []) + DeliverySteps(w, tasks, deliveries[1..])
  }

  predicate Undelivered(w: World, t: Task) {
    t.status == Open && t.origin.Some? && t.origin.value != "" && t.origin.value !in w.deliveries
  }

  function DeclineUndelivered(w: World, tasks: seq<Task>): seq<Step> {
    if tasks == [] then []
    else
      (if Undelivered(w, tasks[0]) then [Settle(tasks[0].id, Declined, DESK_SETTLED + UNDELIVERED)] else [])
      + DeclineUndelivered(w, tasks[1..])
  }

  function CloseOutPass(w: World, tasks: seq<Task>): seq<Step> {
    DeliverySteps(w, tasks, w.deliveries) + DeclineUndelivered(w, tasks)
  }

  lemma StepNext(w: World, tasks: seq<Task>, deliveries: seq<string>, i: nat, before: seq<Step>)
    requires i < |deliveries|
    ensures var step := StepFor(w, tasks, deliveries[i]);
            before + DeliverySteps(w, tasks, deliveries[i..])
            == (if step.Some? then before + [step.value] else before) + DeliverySteps(w, tasks, deliveries[i + 1..])
  {
    hide StepFor;
    assert deliveries[i..][1..] == deliveries[i + 1..];
  }

  lemma StepsDone(w: World, tasks: seq<Task>)
    ensures DeliverySteps(w, tasks, []) == []
  {
  }

  method CloseOutPassLoop(w: World, tasks: seq<Task>) returns (steps: seq<Step>)
    ensures steps == CloseOutPass(w, tasks)
  {
    hide CloseOutStep;
    hide TaskAt;
    hide IssueAt;
    hide IsGoal;
    hide DeclineUndelivered;
    StepsDone(w, tasks);
    hide DeliverySteps;
    steps := [];
    assert w.deliveries[0..] == w.deliveries;
    for i := 0 to |w.deliveries|
      invariant steps + DeliverySteps(w, tasks, w.deliveries[i..]) == DeliverySteps(w, tasks, w.deliveries)
    {
      var origin := w.deliveries[i];
      StepNext(w, tasks, w.deliveries, i, steps);
      if !IsGoal(origin) {
        continue;
      }
      if origin in w.shortfalls {
        continue;
      }
      var step := CloseOutStep(w, origin, TaskAt(tasks, origin), IssueAt(w.issues, origin));
      if step.Some? {
        steps := steps + [step.value];
      }
    }
    assert w.deliveries[|w.deliveries|..] == [] && steps + [] == steps;
    var declined := DeclineUndeliveredLoop(w, tasks);
    steps := steps + declined;
  }

  method DeclineUndeliveredLoop(w: World, tasks: seq<Task>) returns (steps: seq<Step>)
    ensures steps == DeclineUndelivered(w, tasks)
  {
    steps := [];
    assert tasks[0..] == tasks;
    for i := 0 to |tasks|
      invariant steps + DeclineUndelivered(w, tasks[i..]) == DeclineUndelivered(w, tasks)
    {
      assert tasks[i..][1..] == tasks[i + 1..];
      if !Undelivered(w, tasks[i]) {
        continue;
      }
      steps := steps + [Settle(tasks[i].id, Declined, DESK_SETTLED + UNDELIVERED)];
    }
  }

  // What the desk does with the steps

  /** Ids for new rows, by the goal they are for. */
  type Mint = string -> string

  function Applied(tasks: seq<Task>, step: Step, mint: Mint): seq<Task> {
    match step
    case File(origin, detail) =>
      if TaskAt(tasks, origin).Some? then
        Mapped(tasks, (t: Task) => if t.origin == Some(origin) then t.(detail := detail) else t)
      else tasks + [Task(mint(origin), Some(origin), Open, "", detail)]
    case Settle(id, status, resolution) =>
      Mapped(tasks, (t: Task) => if t.id == id && t.status == Open then
        t.(status := status, resolution := resolution) else t)
    case Reopen(id, detail) =>
      Mapped(tasks, (t: Task) => if t.id == id && t.status != Open then
        t.(status := Open, resolution := "", detail := detail) else t)
  }

  function Mapped(tasks: seq<Task>, f: Task -> Task): (r: seq<Task>)
    ensures |r| == |tasks|
    ensures forall k :: 0 <= k < |tasks| ==> r[k] == f(tasks[k])
  {
    if tasks == [] then [] else [f(tasks[0])] + Mapped(tasks[1..], f)
  }

  function AppliedAll(tasks: seq<Task>, steps: seq<Step>, mint: Mint): seq<Task>
    decreases |steps|
  {
    if steps == [] then tasks else AppliedAll(Applied(tasks, steps[0], mint), steps[1..], mint)
  }

  function RunDesk(w: World, tasks: seq<Task>, mint: Mint): seq<Task> {
    AppliedAll(tasks, CloseOutPass(w, tasks), mint)
  }

  // What a pass orders

  /** One row to a goal, as the desk keeps them, and ids that name one row. */
  predicate Keyed(tasks: seq<Task>) {
    forall i, j :: 0 <= i < j < |tasks| ==>
      tasks[i].id != tasks[j].id && (tasks[i].origin.Some? ==> tasks[i].origin != tasks[j].origin)
  }

  lemma {:induction false} TaskThere(tasks: seq<Task>, origin: string)
    requires origin != "" && TaskAt(tasks, origin).Some?
    ensures var t := TaskAt(tasks, origin).value; t in tasks && t.origin == Some(origin)
  {
    var n := |tasks| - 1;
    if tasks[n].origin != Some(origin) {
      TaskThere(tasks[..n], origin);
    }
  }

  lemma {:induction false} TaskFound(tasks: seq<Task>, k: nat, origin: string)
    requires Keyed(tasks) && k < |tasks| && tasks[k].origin == Some(origin) && origin != ""
    ensures TaskAt(tasks, origin) == Some(tasks[k])
  {
    var n := |tasks| - 1;
    if k < n {
      TaskFound(tasks[..n], k, origin);
    }
  }

  lemma SameTask(tasks: seq<Task>, t: Task, u: Task)
    requires Keyed(tasks) && t in tasks && u in tasks && (t.id == u.id || (t.origin.Some? && t.origin == u.origin))
    ensures t == u
  {
  }

  /** The row a step is about. */
  predicate About(step: Step, t: Task) {
    match step
    case File(origin, _) => t.origin == Some(origin)
    case Settle(id, _, _) => t.id == id
    case Reopen(id, _) => t.id == id
  }

  lemma GoalNamed(origin: string)
    requires IsGoal(origin)
    ensures origin != ""
  {
  }

  lemma {:induction false} DeliveryStepFrom(w: World, tasks: seq<Task>, deliveries: seq<string>, k: nat)
    requires k < |DeliverySteps(w, tasks, deliveries)|
    ensures exists origin ::
              origin in deliveries && StepFor(w, tasks, origin) == Some(DeliverySteps(w, tasks, deliveries)[k])
    decreases |deliveries|
  {
    hide StepFor;
    var step := StepFor(w, tasks, deliveries[0]);
    var rest := DeliverySteps(w, tasks, deliveries[1..]);
    if step.Some? && k == 0 {
      assert deliveries[0] in deliveries;
    } else {
      var j := if step.Some? then k - 1 else k;
      assert DeliverySteps(w, tasks, deliveries)[k] == rest[j];
      DeliveryStepFrom(w, tasks, deliveries[1..], j);
    }
  }

  lemma {:induction false} DeclineFrom(w: World, tasks: seq<Task>, k: nat)
    requires k < |DeclineUndelivered(w, tasks)|
    ensures exists t ::
              && t in tasks && Undelivered(w, t)
              && DeclineUndelivered(w, tasks)[k] == Settle(t.id, Declined, DESK_SETTLED + UNDELIVERED)
    decreases |tasks|
  {
    hide Undelivered;
    var rest := DeclineUndelivered(w, tasks[1..]);
    if Undelivered(w, tasks[0]) && k == 0 {
      assert tasks[0] in tasks;
    } else {
      var j := if Undelivered(w, tasks[0]) then k - 1 else k;
      assert DeclineUndelivered(w, tasks)[k] == rest[j];
      DeclineFrom(w, tasks[1..], j);
    }
  }

  /** A step a pass orders for a goal is about that goal's row, if it has one. */
  lemma StepAbout(w: World, tasks: seq<Task>, origin: string, t: Task)
    requires Keyed(tasks) && t in tasks && StepFor(w, tasks, origin).Some? && About(StepFor(w, tasks, origin).value, t)
    ensures t.origin == Some(origin)
  {
    GoalNamed(origin);
    if TaskAt(tasks, origin).Some? {
      TaskThere(tasks, origin);
      SameTaskIfSame(tasks, t, TaskAt(tasks, origin).value);
    }
  }

  lemma SameTaskIfSame(tasks: seq<Task>, t: Task, u: Task)
    requires Keyed(tasks) && t in tasks && u in tasks
    ensures t.id == u.id ==> t == u
  {
    if t.id == u.id {
      SameTask(tasks, t, u);
    }
  }

  /** A row that a person settled is never reopened: only one the desk settled is, and only while its issue is open. */
  lemma ReopensOnlyItsOwn(w: World, tasks: seq<Task>, k: nat)
    requires Keyed(tasks) && k < |CloseOutPass(w, tasks)| && CloseOutPass(w, tasks)[k].Reopen?
    ensures exists t :: t in tasks && t.id == CloseOutPass(w, tasks)[k].taskId && t.status != Open && DeskSettled(t)
              && t.origin.Some? && t.origin.value in w.deliveries && t.origin.value !in w.shortfalls
  {
    var first := DeliverySteps(w, tasks, w.deliveries);
    if k < |first| {
      DeliveryStepFrom(w, tasks, w.deliveries, k);
      var origin :| origin in w.deliveries && StepFor(w, tasks, origin) == Some(first[k]);
      GoalNamed(origin);
      TaskThere(tasks, origin);
    } else {
      DeclineFrom(w, tasks, k - |first|);
    }
  }

  /** In a pass no row gets two steps. */
  lemma OneStepEach(w: World, tasks: seq<Task>, i: nat, j: nat, t: Task)
    requires Keyed(tasks) && Distinct(w.deliveries) && t in tasks
    requires i < j < |CloseOutPass(w, tasks)|
    requires About(CloseOutPass(w, tasks)[i], t)
    ensures !About(CloseOutPass(w, tasks)[j], t)
  {
    var first := DeliverySteps(w, tasks, w.deliveries);
    var n := |first|;
    if i < n {
      DeliveryStepFrom(w, tasks, w.deliveries, i);
      var origin :| origin in w.deliveries && StepFor(w, tasks, origin) == Some(first[i]);
      StepAbout(w, tasks, origin, t);
      if j < n {
        OneDeliveryStep(w, tasks, w.deliveries, i, j, t);
      } else {
        DeclineFrom(w, tasks, j - n);
        var u :| u in tasks && Undelivered(w, u)
            && DeclineUndelivered(w, tasks)[j - n] == Settle(u.id, Declined, DESK_SETTLED + UNDELIVERED);
        SameTaskIfSame(tasks, t, u);
      }
    } else {
      OneDecline(w, tasks, i - n, j - n, t);
    }
  }

  lemma {:induction false} OneDeliveryStep(w: World, tasks: seq<Task>, deliveries: seq<string>, i: nat, j: nat, t: Task)
    requires Keyed(tasks) && Distinct(deliveries) && t in tasks
    requires i < j < |DeliverySteps(w, tasks, deliveries)|
    requires About(DeliverySteps(w, tasks, deliveries)[i], t)
    ensures !About(DeliverySteps(w, tasks, deliveries)[j], t)
    decreases |deliveries|
  {
    hide StepFor;
    hide About;
    var step := StepFor(w, tasks, deliveries[0]);
    var rest := DeliverySteps(w, tasks, deliveries[1..]);
    var all := DeliverySteps(w, tasks, deliveries);
    if step.Some? && i == 0 {
      assert all[j] == rest[j - 1];
      DeliveryStepFrom(w, tasks, deliveries[1..], j - 1);
      var origin :| origin in deliveries[1..] && StepFor(w, tasks, origin) == Some(rest[j - 1]);
      StepAbout(w, tasks, deliveries[0], t);
      if About(all[j], t) {
        StepAbout(w, tasks, origin, t);
      }
    } else {
      var d := if step.Some? then 1 else 0;
      assert all[i] == rest[i - d] && all[j] == rest[j - d];
      OneDeliveryStep(w, tasks, deliveries[1..], i - d, j - d, t);
    }
  }

  lemma {:induction false} OneDecline(w: World, tasks: seq<Task>, i: nat, j: nat, t: Task)
    requires Keyed(tasks) && i < j < |DeclineUndelivered(w, tasks)|
    requires About(DeclineUndelivered(w, tasks)[i], t)
    ensures !About(DeclineUndelivered(w, tasks)[j], t)
    decreases |tasks|
  {
    hide Undelivered;
    var all, rest := DeclineUndelivered(w, tasks), DeclineUndelivered(w, tasks[1..]);
    if Undelivered(w, tasks[0]) && i == 0 {
      assert all[j] == rest[j - 1];
      DeclineFrom(w, tasks[1..], j - 1);
      var u :| u in tasks[1..] && Undelivered(w, u)
          && rest[j - 1] == Settle(u.id, Declined, DESK_SETTLED + UNDELIVERED);
      var k :| 0 <= k < |tasks[1..]| && tasks[1..][k] == u;
      assert tasks[k + 1].id != tasks[0].id;
    } else {
      var d := if Undelivered(w, tasks[0]) then 1 else 0;
      assert all[i] == rest[i - d] && all[j] == rest[j - d];
      OneDecline(w, tasks[1..], i - d, j - d, t);
    }
  }

  // What applying a pass leaves

  lemma {:induction false} NoTask(tasks: seq<Task>, origin: string)
    requires origin != "" && forall k :: 0 <= k < |tasks| ==> tasks[k].origin != Some(origin)
    ensures TaskAt(tasks, origin).None?
  {
    if tasks != [] {
      NoTask(tasks[..|tasks| - 1], origin);
    }
  }

  lemma NoneThere(tasks: seq<Task>, origin: string)
    requires Keyed(tasks) && origin != "" && TaskAt(tasks, origin).None?
    ensures forall k :: 0 <= k < |tasks| ==> tasks[k].origin != Some(origin)
  {
    forall k | 0 <= k < |tasks| ensures tasks[k].origin != Some(origin) {
      if tasks[k].origin == Some(origin) {
        TaskFound(tasks, k, origin);
      }
    }
  }

  /**
   * Applying a step changes only the row it is about, never a row's id or goal, and adds at most the one row it
   * files.
   */
  lemma AppliedRows(tasks: seq<Task>, step: Step, mint: Mint)
    requires step.File? ==> step.origin != ""
    ensures var r := Applied(tasks, step, mint);
            && |tasks| <= |r| <= |tasks| + 1
            && (forall k :: 0 <= k < |tasks| ==>
                  r[k].id == tasks[k].id && r[k].origin == tasks[k].origin
                    && (!About(step, tasks[k]) ==> r[k] == tasks[k]))
            && (|r| > |tasks| ==> step.File? && TaskAt(tasks, step.origin).None?
                                  && r[|tasks|] == Task(mint(step.origin), Some(step.origin), Open, "", step.detail))
  {
    hide TaskAt;
  }

  lemma AppliedKeyed(tasks: seq<Task>, step: Step, mint: Mint)
    requires Keyed(tasks) && (step.File? ==> step.origin != "")
    requires step.File? && TaskAt(tasks, step.origin).None? ==> forall k :: 0 <= k < |tasks| ==>
        tasks[k].id != mint(step.origin)
    ensures Keyed(Applied(tasks, step, mint))
  {
    AppliedRows(tasks, step, mint);
    if step.File? && TaskAt(tasks, step.origin).None? {
      NoneThere(tasks, step.origin);
    }
    hide Applied;
    hide TaskAt;
  }

  /** The row of any other goal is as it was. */
  lemma AppliedOther(tasks: seq<Task>, step: Step, mint: Mint, origin: string)
    requires Keyed(tasks) && Keyed(Applied(tasks, step, mint)) && origin != ""
    requires step.File? ==> step.origin != "" && step.origin != origin
    requires forall k :: 0 <= k < |tasks| && tasks[k].origin == Some(origin) ==> !About(step, tasks[k])
    ensures TaskAt(Applied(tasks, step, mint), origin) == TaskAt(tasks, origin)
  {
    hide Applied;
    hide Keyed;
    hide TaskAt;
    hide About;
    var r := Applied(tasks, step, mint);
    AppliedRows(tasks, step, mint);
    if TaskAt(tasks, origin).Some? {
      TaskThere(tasks, origin);
      var k :| 0 <= k < |tasks| && tasks[k] == TaskAt(tasks, origin).value;
      assert r[k] == tasks[k];
      TaskFound(r, k, origin);
    } else {
      NoneThere(tasks, origin);
      assert |r| > |tasks| ==> r[|tasks|].origin != Some(origin);
      NoTask(r, origin);
    }
  }

  /** Nothing is left for a pass to do about a goal but to write its row's detail again, the same as it is. */
  predicate Quiet(w: World, tasks: seq<Task>, origin: string) {
    var step := StepFor(w, tasks, origin);
    step.None?
    || (TaskAt(tasks, origin).Some? && step == Some(File(origin, w.detail(origin)))
       && TaskAt(tasks, origin).value.detail == w.detail(origin))
  }

  lemma NotDeskSettled()
    ensures !(DESK_SETTLED <= CLOSED) && !(DESK_SETTLED <= UNLISTED)
  {
    assert DESK_SETTLED[0] == 'S' && CLOSED[0] == 't' && UNLISTED[0] == 't';
  }

  /** What a step makes of the row it is for. */
  function Row(step: Step, existing: Option<Task>, mint: Mint): Option<Task> {
    match step
    case File(origin, detail) =>
      if existing.Some? then Some(existing.value.(detail := detail))
          else Some(Task(mint(origin), Some(origin), Open, "", detail))
    case Settle(_, status, resolution) =>
      if existing.None? || existing.value.status != Open then existing
      else Some(existing.value.(status := status, resolution := resolution))
    case Reopen(_, detail) =>
      if existing.None? || existing.value.status == Open then existing
      else Some(existing.value.(status := Open, resolution := "", detail := detail))
  }

  lemma RowFiled(tasks: seq<Task>, step: Step, mint: Mint, origin: string)
    requires Keyed(Applied(tasks, step, mint)) && origin != "" && step.File? && step.origin == origin
    requires TaskAt(tasks, origin).None?
    ensures TaskAt(Applied(tasks, step, mint), origin) == Row(step, None, mint)
  {
    var r := Applied(tasks, step, mint);
    assert r[|tasks|].origin == Some(origin);
    TaskFound(r, |tasks|, origin);
  }

  lemma RowKept(tasks: seq<Task>, step: Step, mint: Mint, k: nat)
    requires k < |tasks|
    requires if step.File? then tasks[k].origin == Some(step.origin) && TaskAt(tasks, step.origin).Some?
             else step.taskId == tasks[k].id
    ensures var r := Applied(tasks, step, mint);
            k < |r| && r[k].origin == tasks[k].origin && Row(step, Some(tasks[k]), mint) == Some(r[k])
  {
    hide TaskAt;
  }

  lemma RowAfter(tasks: seq<Task>, step: Step, mint: Mint, origin: string)
    requires Keyed(tasks) && Keyed(Applied(tasks, step, mint)) && origin != ""
    requires step.File? ==> step.origin == origin
    requires !step.File? ==> TaskAt(tasks, origin).Some? && step.taskId == TaskAt(tasks, origin).value.id
    ensures TaskAt(Applied(tasks, step, mint), origin) == Row(step, TaskAt(tasks, origin), mint)
  {
    var r := Applied(tasks, step, mint);
    if TaskAt(tasks, origin).Some? {
      TaskThere(tasks, origin);
      hide TaskAt;
      hide Applied;
      hide Row;
      hide Keyed;
      var k :| 0 <= k < |tasks| && tasks[k] == TaskAt(tasks, origin).value;
      RowKept(tasks, step, mint, k);
      TaskFound(r, k, origin);
    } else {
      RowFiled(tasks, step, mint, origin);
    }
  }

  lemma StepRow(w: World, tasks: seq<Task>, origin: string)
    requires StepFor(w, tasks, origin).Some?
    ensures var step, t := StepFor(w, tasks, origin).value, TaskAt(tasks, origin);
            && IsGoal(origin) && origin !in w.shortfalls
            && (step.File? ==> step == File(origin, w.detail(origin)) && IssueAt(w.issues, origin).Some?
                               && !IssueAt(w.issues, origin).value.closed && (t.Some? ==> t.value.status == Open))
            && (step.Settle? ==> t.Some? && t.value.status == Open && step.taskId == t.value.id && step.status == Done
                                 && (step.resolution == CLOSED || step.resolution == UNLISTED))
            && (step.Reopen? ==>
               t.Some? && t.value.status != Open && step.taskId == t.value.id && step.detail == w.detail(origin)
                                 && IssueAt(w.issues, origin).Some? && !IssueAt(w.issues, origin).value.closed)
  {
    hide TaskAt;
    hide IssueAt;
    hide IsGoal;
    hide ReadyToFile;
  }

  lemma StepQuiets(w: World, tasks: seq<Task>, origin: string, mint: Mint)
    requires Keyed(tasks) && StepFor(w, tasks, origin).Some?
    requires Keyed(Applied(tasks, StepFor(w, tasks, origin).value, mint))
    ensures Quiet(w, Applied(tasks, StepFor(w, tasks, origin).value, mint), origin)
  {
    StepRow(w, tasks, origin);
    GoalNamed(origin);
    NotDeskSettled();
    hide IsGoal;
    hide IssueAt;
    hide ReadyToFile;
    hide TaskAt;
    hide Applied;
    hide Keyed;
    RowAfter(tasks, StepFor(w, tasks, origin).value, mint, origin);
  }

  // The deliveries, one by one

  /** The ids a pass may find: those the rows had, and those minted for the goals it files. */
  ghost predicate IdsOk(w: World, first: seq<Task>, tasks: seq<Task>, mint: Mint) {
    forall k :: 0 <= k < |tasks| ==>
      (exists j :: 0 <= j < |first| && first[j].id == tasks[k].id)
      || (tasks[k].origin.Some? && tasks[k].id == mint(tasks[k].origin.value))
  }

  ghost predicate Fresh(tasks: seq<Task>, mint: Mint) {
    && (forall a, b :: mint(a) == mint(b) ==> a == b)
    && forall k, a :: 0 <= k < |tasks| ==> tasks[k].id != mint(a)
  }

  lemma IdsApplied(w: World, first: seq<Task>, tasks: seq<Task>, step: Step, mint: Mint)
    requires IdsOk(w, first, tasks, mint) && (step.File? ==> step.origin != "")
    ensures IdsOk(w, first, Applied(tasks, step, mint), mint)
  {
    AppliedRows(tasks, step, mint);
    hide Applied;
  }

  lemma MintFresh(w: World, first: seq<Task>, tasks: seq<Task>, mint: Mint, origin: string)
    requires IdsOk(w, first, tasks, mint) && Fresh(first, mint) && Keyed(tasks) && origin != ""
        && TaskAt(tasks, origin).None?
    ensures forall k :: 0 <= k < |tasks| ==> tasks[k].id != mint(origin)
  {
    NoneThere(tasks, origin);
  }

  /** The rows as they are once some deliveries have been gone through: those goals quiet, every other row untouched. */
  ghost predicate Through(w: World, first: seq<Task>, tasks: seq<Task>, mint: Mint, done: seq<string>,
      left: seq<string>) {
    && Keyed(tasks) && IdsOk(w, first, tasks, mint)
    && (forall k :: 0 <= k < |left| && IsGoal(left[k]) ==> TaskAt(tasks, left[k]) == TaskAt(first, left[k]))
    && (forall k :: 0 <= k < |done| ==> Quiet(w, tasks, done[k]))
    && (forall k :: 0 <= k < |done| && IsGoal(done[k]) ==> TaskAt(tasks, done[k]) == Come(w, first, done[k], mint))
  }

  /** What a pass makes of a goal's row. */
  function Come(w: World, first: seq<Task>, origin: string, mint: Mint): Option<Task> {
    var step, was := StepFor(w, first, origin), TaskAt(first, origin);
    if step.None? then was else Row(step.value, was, mint)
  }

  /** The rows of goals that are not delivered are as they were. */
  ghost predicate Apart(w: World, first: seq<Task>, tasks: seq<Task>) {
    && |first| <= |tasks|
    && (forall k :: 0 <= k < |first| ==> tasks[k].id == first[k].id && tasks[k].origin == first[k].origin)
    && (forall k :: 0 <= k < |first| && !(first[k].origin.Some? && first[k].origin.value in w.deliveries) ==>
       tasks[k] == first[k])
    && (forall k :: |first| <= k < |tasks| ==> tasks[k].origin.Some? && tasks[k].origin.value in w.deliveries)
  }

  lemma QuietSame(w: World, tasks: seq<Task>, later: seq<Task>, origin: string)
    requires Quiet(w, tasks, origin) && (IsGoal(origin) ==> TaskAt(later, origin) == TaskAt(tasks, origin))
    ensures Quiet(w, later, origin)
  {
    hide TaskAt;
    hide IsGoal;
    hide CloseOutStep;
  }

  lemma StepsAbout(w: World, tasks: seq<Task>, origin: string, other: string)
    requires Keyed(tasks) && StepFor(w, tasks, origin).Some? && origin != other && other != ""
    ensures forall k :: 0 <= k < |tasks| && tasks[k].origin == Some(other) ==>
        !About(StepFor(w, tasks, origin).value, tasks[k])
  {
    forall k | 0 <= k < |tasks| && tasks[k].origin == Some(other)
      ensures !About(StepFor(w, tasks, origin).value, tasks[k]) {
      if About(StepFor(w, tasks, origin).value, tasks[k]) {
        StepAbout(w, tasks, origin, tasks[k]);
      }
    }
  }

  lemma SameStep(w: World, first: seq<Task>, tasks: seq<Task>, origin: string)
    requires IsGoal(origin) ==> TaskAt(tasks, origin) == TaskAt(first, origin)
    ensures StepFor(w, tasks, origin) == StepFor(w, first, origin)
  {
    hide TaskAt;
    hide CloseOutStep;
    hide IsGoal;
  }

  lemma DistinctApart(done: seq<string>, next: string, left: seq<string>)
    requires Distinct(done + [next] + left)
    ensures (forall k :: 0 <= k < |done| ==> done[k] != next) && (forall k :: 0 <= k < |left| ==> left[k] != next)
  {
    var all := done + [next] + left;
    assert all[|done|] == next;
    assert forall k :: 0 <= k < |done| ==> all[k] == done[k];
    assert forall k :: 0 <= k < |left| ==> all[|done| + 1 + k] == left[k];
  }

  lemma OtherKept(w: World, tasks: seq<Task>, next: string, mint: Mint, other: string)
    requires Keyed(tasks) && StepFor(w, tasks, next).Some? && Keyed(Applied(tasks, StepFor(w, tasks, next).value, mint))
    requires next != other && IsGoal(other)
    ensures TaskAt(Applied(tasks, StepFor(w, tasks, next).value, mint), other) == TaskAt(tasks, other)
  {
    hide Applied;
    hide TaskAt;
    StepRow(w, tasks, next);
    GoalNamed(next);
    GoalNamed(other);
    hide StepFor;
    hide IsGoal;
    hide Keyed;
    StepsAbout(w, tasks, next, other);
    AppliedOther(tasks, StepFor(w, tasks, next).value, mint, other);
  }

  lemma OneKeyed(w: World, first: seq<Task>, tasks: seq<Task>, mint: Mint, next: string)
    requires Fresh(first, mint) && Keyed(tasks) && IdsOk(w, first, tasks, mint) && StepFor(w, tasks, next).Some?
    ensures Keyed(Applied(tasks, StepFor(w, tasks, next).value, mint))
    ensures IdsOk(w, first, Applied(tasks, StepFor(w, tasks, next).value, mint), mint)
  {
    hide Applied;
    hide TaskAt;
    StepRow(w, tasks, next);
    GoalNamed(next);
    hide StepFor;
    hide IsGoal;
    hide Keyed;
    hide IdsOk;
    hide Fresh;
    var step := StepFor(w, tasks, next).value;
    if TaskAt(tasks, next).None? {
      MintFresh(w, first, tasks, mint, next);
    }
    AppliedKeyed(tasks, step, mint);
    IdsApplied(w, first, tasks, step, mint);
  }

  lemma StepComes(w: World, first: seq<Task>, tasks: seq<Task>, next: string, mint: Mint)
    requires Keyed(tasks) && StepFor(w, tasks, next).Some? && StepFor(w, first, next) == StepFor(w, tasks, next)
    requires TaskAt(tasks, next) == TaskAt(first, next)
    requires Keyed(Applied(tasks, StepFor(w, tasks, next).value, mint))
    ensures TaskAt(Applied(tasks, StepFor(w, tasks, next).value, mint), next) == Come(w, first, next, mint)
  {
    hide Applied;
    hide TaskAt;
    hide Row;
    hide Keyed;
    StepRow(w, tasks, next);
    GoalNamed(next);
    RowAfter(tasks, StepFor(w, tasks, next).value, mint, next);
    hide StepFor;
  }

  /** Applying the step of the next delivery. */
  lemma ThroughOne(w: World, first: seq<Task>, tasks: seq<Task>, mint: Mint, done: seq<string>, next: string,
      left: seq<string>)
    requires Fresh(first, mint) && Distinct(done + [next] + left)
    requires Through(w, first, tasks, mint, done, [next] + left) && StepFor(w, first, next).Some?
    ensures Through(w, first, Applied(tasks, StepFor(w, first, next).value, mint), mint, done + [next], left)
  {
    hide Applied;
    hide TaskAt;
    hide StepFor;
    hide Quiet;
    hide IsGoal;
    hide IdsOk;
    hide Keyed;
    hide Fresh;
    assert ([next] + left)[0] == next;
    DistinctApart(done, next, left);
    hide Distinct;
    SameStep(w, first, tasks, next);
    OneKeyed(w, first, tasks, mint, next);
    StepQuiets(w, tasks, next, mint);
    StepRow(w, first, next);
    StepComes(w, first, tasks, next, mint);
    var r := Applied(tasks, StepFor(w, tasks, next).value, mint);
    hide Come;
    forall k | 0 <= k < |left| && IsGoal(left[k]) ensures TaskAt(r, left[k]) == TaskAt(first, left[k]) {
      assert ([next] + left)[k + 1] == left[k];
      OtherKept(w, tasks, next, mint, left[k]);
    }
    forall k | 0 <= k < |done + [next]|
      ensures Quiet(w, r, (done + [next])[k])
      ensures IsGoal((done + [next])[k]) ==> TaskAt(r, (done + [next])[k]) == Come(w, first, (done + [next])[k], mint) {
      if k < |done| {
        var o := done[k];
        if IsGoal(o) {
          OtherKept(w, tasks, next, mint, o);
        }
        QuietSame(w, tasks, r, o);
      }
    }
  }

  lemma ThroughNone(w: World, first: seq<Task>, tasks: seq<Task>, mint: Mint, done: seq<string>, next: string,
      left: seq<string>)
    requires Through(w, first, tasks, mint, done, [next] + left) && StepFor(w, first, next).None?
    ensures Through(w, first, tasks, mint, done + [next], left)
  {
    hide TaskAt;
    hide StepFor;
    hide IsGoal;
    hide IdsOk;
    hide Keyed;
    assert ([next] + left)[0] == next;
    SameStep(w, first, tasks, next);
    forall k | 0 <= k < |left| && IsGoal(left[k]) ensures TaskAt(tasks, left[k]) == TaskAt(first, left[k]) {
      assert ([next] + left)[k + 1] == left[k];
    }
  }

  lemma ApartOne(w: World, first: seq<Task>, tasks: seq<Task>, mint: Mint, next: string)
    requires Apart(w, first, tasks) && Keyed(tasks) && StepFor(w, tasks, next).Some? && next in w.deliveries
    ensures Apart(w, first, Applied(tasks, StepFor(w, tasks, next).value, mint))
  {
    hide Applied;
    hide TaskAt;
    hide StepFor;
    hide IsGoal;
    hide Keyed;
    StepRow(w, tasks, next);
    GoalNamed(next);
    var step := StepFor(w, tasks, next).value;
    AppliedRows(tasks, step, mint);
    forall k | 0 <= k < |tasks| && !(tasks[k].origin.Some? && tasks[k].origin.value in w.deliveries)
      ensures !About(step, tasks[k]) {
      if About(step, tasks[k]) {
        StepAbout(w, tasks, next, tasks[k]);
      }
    }
    hide About;
  }

  /** Going through the deliveries left. */
  lemma {:induction false} ThroughAll(w: World, first: seq<Task>, tasks: seq<Task>, mint: Mint, done: seq<string>,
      left: seq<string>)
    returns (r: seq<Task>)
    requires Fresh(first, mint) && done + left == w.deliveries && Distinct(w.deliveries)
    requires Through(w, first, tasks, mint, done, left) && Apart(w, first, tasks)
    ensures r == AppliedAll(tasks, DeliverySteps(w, first, left), mint)
    ensures Through(w, first, r, mint, w.deliveries, []) && Apart(w, first, r)
    decreases |left|
  {
    hide Applied;
    hide TaskAt;
    hide StepFor;
    hide Through;
    hide Apart;
    hide Fresh;
    hide Distinct;
    if left == [] {
      assert done == w.deliveries;
      r := tasks;
    } else {
      var next, rest := left[0], left[1..];
      assert left == [next] + rest && done + [next] + rest == w.deliveries;
      assert next in w.deliveries by { assert w.deliveries[|done|] == next; }
      var step := StepFor(w, first, next);
      var more := DeliverySteps(w, first, rest);
      if step.Some? {
        ThroughOne(w, first, tasks, mint, done, next, rest);
        StepSame(w, first, tasks, mint, done, next, rest);
        ApartOne(w, first, tasks, mint, next);
        r := ThroughAll(w, first, Applied(tasks, step.value, mint), mint, done + [next], rest);
        assert ([step.value] + more)[1..] == more;
      } else {
        ThroughNone(w, first, tasks, mint, done, next, rest);
        r := ThroughAll(w, first, tasks, mint, done + [next], rest);
        assert [] + more == more;
      }
    }
  }

  lemma StepSame(w: World, first: seq<Task>, tasks: seq<Task>, mint: Mint, done: seq<string>, next: string,
      left: seq<string>)
    requires Through(w, first, tasks, mint, done, [next] + left)
    ensures Keyed(tasks) && StepFor(w, tasks, next) == StepFor(w, first, next)
  {
    hide TaskAt;
    hide StepFor;
    hide IsGoal;
    hide IdsOk;
    hide Keyed;
    assert ([next] + left)[0] == next;
    SameStep(w, first, tasks, next);
  }

  // The rows of goals no longer delivered

  /** The rows as they are once the first `i` have been looked at for a delivery that is gone. */
  ghost predicate Looked(w: World, first: seq<Task>, was: seq<Task>, tasks: seq<Task>, i: nat)
    requires i <= |first|
  {
    && Keyed(tasks) && Apart(w, first, was) && |tasks| == |was|
    && (forall k :: 0 <= k < |tasks| ==> tasks[k].id == was[k].id && tasks[k].origin == was[k].origin)
    && (forall k :: i <= k < |tasks| ==> tasks[k] == was[k])
    && (forall k :: 0 <= k < |tasks| && tasks[k].origin.Some? && tasks[k].origin.value in w.deliveries ==>
       tasks[k] == was[k])
    && (forall k :: 0 <= k < i ==> !Undelivered(w, tasks[k]))
    && (forall k :: 0 <= k < i && !Delivered(w, tasks[k]) ==> tasks[k] == Dropped(w, was[k]))
  }

  predicate Delivered(w: World, t: Task) {
    t.origin.Some? && t.origin.value in w.deliveries
  }

  /** The row as it is left once its goal is seen to have no delivery. */
  function Dropped(w: World, t: Task): Task {
    if Undelivered(w, t) then t.(status := Declined, resolution := DESK_SETTLED + UNDELIVERED) else t
  }

  lemma DeclinesOne(tasks: seq<Task>, i: nat, why: string, mint: Mint)
    requires Keyed(tasks) && i < |tasks| && tasks[i].status == Open
    ensures var r := Applied(tasks, Settle(tasks[i].id, Declined, why), mint);
            r == tasks[i := tasks[i].(status := Declined, resolution := why)] && Keyed(r)
  {
  }

  lemma LookedOne(w: World, first: seq<Task>, was: seq<Task>, tasks: seq<Task>, i: nat, mint: Mint)
    requires i < |first| && Looked(w, first, was, tasks, i)
    ensures Undelivered(w, first[i]) ==>
              Looked(w, first, was, Applied(tasks, Settle(first[i].id, Declined, DESK_SETTLED + UNDELIVERED), mint),
                i + 1)
    ensures !Undelivered(w, first[i]) ==> Looked(w, first, was, tasks, i + 1)
  {
    assert tasks[i].id == first[i].id && tasks[i].origin == first[i].origin;
    if Undelivered(w, first[i]) {
      assert tasks[i] == first[i];
      DeclinesOne(tasks, i, DESK_SETTLED + UNDELIVERED, mint);
      hide Applied;
    }
  }

  lemma {:induction false} LookedAll(w: World, first: seq<Task>, was: seq<Task>, tasks: seq<Task>, i: nat, mint: Mint)
    returns (r: seq<Task>)
    requires i <= |first| && Looked(w, first, was, tasks, i)
    ensures r == AppliedAll(tasks, DeclineUndelivered(w, first[i..]), mint) && Looked(w, first, was, r, |first|)
    decreases |first| - i
  {
    hide Applied;
    hide Looked;
    hide Undelivered;
    if i == |first| {
      assert first[i..] == [];
      r := tasks;
    } else {
      assert first[i..][0] == first[i] && first[i..][1..] == first[i + 1..];
      LookedOne(w, first, was, tasks, i, mint);
      var more := DeclineUndelivered(w, first[i + 1..]);
      if Undelivered(w, first[i]) {
        var step := Settle(first[i].id, Declined, DESK_SETTLED + UNDELIVERED);
        r := LookedAll(w, first, was, Applied(tasks, step, mint), i + 1, mint);
        assert ([step] + more)[1..] == more;
      } else {
        r := LookedAll(w, first, was, tasks, i + 1, mint);
        assert [] + more == more;
      }
    }
  }

  lemma {:induction false} AppliedTwo(tasks: seq<Task>, a: seq<Step>, b: seq<Step>, mint: Mint)
    ensures AppliedAll(tasks, a + b, mint) == AppliedAll(AppliedAll(tasks, a, mint), b, mint)
    decreases |a|
  {
    hide Applied;
    if a == [] {
      assert a + b == b;
    } else {
      assert (a + b)[1..] == a[1..] + b;
      AppliedTwo(Applied(tasks, a[0], mint), a[1..], b, mint);
    }
  }

  /** All goals quiet, and no row left open for a goal that is not delivered. */
  ghost predicate AtRest(w: World, tasks: seq<Task>) {
    && Keyed(tasks)
    && (forall k :: 0 <= k < |w.deliveries| ==> Quiet(w, tasks, w.deliveries[k]))
    && (forall k :: 0 <= k < |tasks| ==> !Undelivered(w, tasks[k]))
  }

  lemma DeliveredSame(w: World, was: seq<Task>, tasks: seq<Task>, origin: string)
    requires Keyed(was) && Keyed(tasks) && |tasks| == |was| && origin in w.deliveries && origin != ""
    requires forall k :: 0 <= k < |tasks| ==> tasks[k].origin == was[k].origin
    requires forall k :: 0 <= k < |tasks| && tasks[k].origin.Some? && tasks[k].origin.value in w.deliveries ==>
        tasks[k] == was[k]
    ensures TaskAt(tasks, origin) == TaskAt(was, origin)
  {
    if TaskAt(was, origin).Some? {
      TaskThere(was, origin);
      var k :| 0 <= k < |was| && was[k] == TaskAt(was, origin).value;
      TaskFound(tasks, k, origin);
    } else {
      NoneThere(was, origin);
      NoTask(tasks, origin);
    }
  }

  lemma StartsThrough(w: World, tasks: seq<Task>, mint: Mint)
    requires Keyed(tasks)
    ensures Through(w, tasks, tasks, mint, [], w.deliveries) && Apart(w, tasks, tasks)
  {
    hide TaskAt;
    hide IsGoal;
  }

  lemma RowsDropped(w: World, first: seq<Task>, was: seq<Task>, tasks: seq<Task>)
    requires Looked(w, first, was, tasks, |first|)
    ensures |tasks| >= |first| && forall k :: 0 <= k < |first| && !Delivered(w, first[k]) ==>
        tasks[k] == Dropped(w, first[k])
  {
    hide Keyed;
    hide Dropped;
    hide Undelivered;
  }

  lemma ComesToRest(w: World, first: seq<Task>, was: seq<Task>, tasks: seq<Task>, mint: Mint)
    requires Through(w, first, was, mint, w.deliveries, []) && Looked(w, first, was, tasks, |first|)
    ensures AtRest(w, tasks)
    ensures forall k :: 0 <= k < |w.deliveries| && IsGoal(w.deliveries[k]) ==>
        TaskAt(tasks, w.deliveries[k]) == Come(w, first, w.deliveries[k], mint)
  {
    forall k | 0 <= k < |w.deliveries| && IsGoal(w.deliveries[k])
      ensures TaskAt(tasks, w.deliveries[k]) == Come(w, first, w.deliveries[k], mint) {
      GoalNamed(w.deliveries[k]);
      DeliveredSame(w, was, tasks, w.deliveries[k]);
    }
    hide Come;
    forall k | 0 <= k < |w.deliveries| ensures Quiet(w, tasks, w.deliveries[k]) {
      var o := w.deliveries[k];
      if IsGoal(o) {
        GoalNamed(o);
        DeliveredSame(w, was, tasks, o);
      }
      QuietSame(w, was, tasks, o);
    }
    hide TaskAt;
    hide StepFor;
    hide Quiet;
    hide IsGoal;
    hide Keyed;
    hide IdsOk;
  }

  lemma DeskRests(w: World, tasks: seq<Task>, mint: Mint)
    requires Keyed(tasks) && Distinct(w.deliveries) && Fresh(tasks, mint)
    ensures AtRest(w, RunDesk(w, tasks, mint))
    ensures forall k :: 0 <= k < |w.deliveries| && IsGoal(w.deliveries[k]) ==>
        TaskAt(RunDesk(w, tasks, mint), w.deliveries[k]) == Come(w, tasks, w.deliveries[k], mint)
    ensures var r := RunDesk(w, tasks, mint);
            |r| >= |tasks| && forall k :: 0 <= k < |tasks| && !Delivered(w, tasks[k]) ==> r[k] == Dropped(w, tasks[k])
  {
    hide Come;
    hide Dropped;
    hide IsGoal;
    hide TaskAt;
    hide Through;
    hide Apart;
    hide Looked;
    hide Applied;
    hide AtRest;
    hide Fresh;
    hide StepFor;
    hide Undelivered;
    StartsThrough(w, tasks, mint);
    assert [] + w.deliveries == w.deliveries;
    var was := ThroughAll(w, tasks, tasks, mint, [], w.deliveries);
    StartsLooked(w, tasks, was, mint);
    var r := LookedAll(w, tasks, was, was, 0, mint);
    assert tasks[0..] == tasks;
    AppliedTwo(tasks, DeliverySteps(w, tasks, w.deliveries), DeclineUndelivered(w, tasks), mint);
    ComesToRest(w, tasks, was, r, mint);
    RowsDropped(w, tasks, was, r);
  }

  /** A row of no delivered goal is declined if it was open for one, saying why, and is otherwise as it was. */
  lemma DroppedAfter(w: World, tasks: seq<Task>, mint: Mint, k: nat)
    requires Keyed(tasks) && Distinct(w.deliveries) && Fresh(tasks, mint) && k < |tasks|
    requires tasks[k].origin.Some? ==> tasks[k].origin.value !in w.deliveries
    ensures var t, r := tasks[k], RunDesk(w, tasks, mint);
            && |r| >= |tasks|
            && r[k] == if t.status == Open && t.origin.Some? && t.origin.value != "" then
                 t.(status := Declined, resolution := DESK_SETTLED + UNDELIVERED) else t
  {
    hide RunDesk;
    hide Keyed;
    hide Distinct;
    hide Fresh;
    hide AtRest;
    DeskRests(w, tasks, mint);
  }

  /** Where the goal may have its row: it is open, its validation is over, and it has been watched long enough. */
  predicate MayFile(w: World, goal: string) {
    goal !in w.validating && (w.openedGoals.Some? ==> goal in w.openedGoals.value)
    && (w.watchCleared.Some? ==> goal in w.watchCleared.value)
  }

  /**
   * Which delivered goals have an open row after a pass: those whose issue is listed open, that had one, or may have
   * one and had none but such as the desk settled itself; where no issue is listed at all, those that had one; and of
   * goals sent back as short, those that had one. It says what there is to say of the goal now.
   */
  lemma OpenAfter(w: World, tasks: seq<Task>, mint: Mint, goal: string)
    requires Keyed(tasks) && Distinct(w.deliveries) && Fresh(tasks, mint)
    requires goal in w.deliveries && IsGoal(goal)
    ensures var was, now, issue := TaskAt(tasks, goal), TaskAt(RunDesk(w, tasks, mint), goal), IssueAt(w.issues, goal);
            var had := was.Some? && was.value.status == Open;
            now.Some? && now.value.status == Open <==>
            if goal in w.shortfalls then had
            else if issue.None? then had && w.issues == []
            else !issue.value.closed
                 && (had || (MayFile(w, goal) && (was.None? || DESK_SETTLED <= was.value.resolution)))
    ensures var now, issue := TaskAt(RunDesk(w, tasks, mint), goal), IssueAt(w.issues, goal);
            now.Some? && now.value.status == Open && issue.Some? && goal !in w.shortfalls ==>
              now.value.detail == w.detail(goal)
  {
    hide TaskAt;
    hide IssueAt;
    hide IsGoal;
    hide RunDesk;
    hide AtRest;
    hide Keyed;
    hide Distinct;
    hide Fresh;
    DeskRests(w, tasks, mint);
    var k :| 0 <= k < |w.deliveries| && w.deliveries[k] == goal;
  }

  predicate LastIssue(issues: seq<Issue>, origin: string, k: int) {
    && 0 <= k < |issues| && HeadRef(issues[k].number) == origin
    && forall j :: k < j < |issues| ==> HeadRef(issues[j].number) != origin
  }

  /** A goal's issue is the last listed under its reference, and there is none where none is listed. */
  lemma {:induction false} IssueAtLast(issues: seq<Issue>, origin: string, k: int)
    requires LastIssue(issues, origin, k)
    ensures IssueAt(issues, origin) == Some(issues[k])
  {
    hide HeadRef;
    var n := |issues| - 1;
    if k < n {
      assert forall j :: 0 <= j < n ==> issues[..n][j] == issues[j];
      IssueAtLast(issues[..n], origin, k);
    }
  }

  lemma {:induction false} NoIssueAt(issues: seq<Issue>, origin: string)
    ensures IssueAt(issues, origin).None? <==> forall k :: 0 <= k < |issues| ==> HeadRef(issues[k].number) != origin
  {
    hide HeadRef;
    if issues != [] {
      var n := |issues| - 1;
      NoIssueAt(issues[..n], origin);
      assert forall k :: 0 <= k < n ==> issues[..n][k] == issues[k];
    }
  }

  lemma StartsLooked(w: World, first: seq<Task>, was: seq<Task>, mint: Mint)
    requires Through(w, first, was, mint, w.deliveries, []) && Apart(w, first, was)
    ensures Looked(w, first, was, was, 0)
  {
    hide Keyed;
    hide Quiet;
    hide IdsOk;
    hide Apart;
  }

  lemma QuietApplied(w: World, tasks: seq<Task>, origin: string, mint: Mint)
    requires Keyed(tasks) && Quiet(w, tasks, origin) && StepFor(w, tasks, origin).Some?
    ensures Applied(tasks, StepFor(w, tasks, origin).value, mint) == tasks
  {
    StepRow(w, tasks, origin);
    GoalNamed(origin);
    hide IsGoal;
    hide IssueAt;
    var t := TaskAt(tasks, origin).value;
    TaskThere(tasks, origin);
    hide StepFor;
    hide TaskAt;
    var r := Applied(tasks, StepFor(w, tasks, origin).value, mint);
    forall k | 0 <= k < |tasks| ensures r[k] == tasks[k] {
      if tasks[k].origin == Some(origin) {
        SameTask(tasks, tasks[k], t);
      }
    }
  }

  lemma {:induction false} QuietAll(w: World, tasks: seq<Task>, deliveries: seq<string>, mint: Mint)
    requires Keyed(tasks) && forall k :: 0 <= k < |deliveries| ==> Quiet(w, tasks, deliveries[k])
    ensures AppliedAll(tasks, DeliverySteps(w, tasks, deliveries), mint) == tasks
    ensures forall k :: 0 <= k < |DeliverySteps(w, tasks, deliveries)| ==> DeliverySteps(w, tasks, deliveries)[k].File?
    decreases |deliveries|
  {
    hide Applied;
    hide StepFor;
    hide Keyed;
    if deliveries != [] {
      var next, rest := deliveries[0], deliveries[1..];
      assert Quiet(w, tasks, next);
      QuietAll(w, tasks, rest, mint);
      var step := StepFor(w, tasks, next);
      if step.Some? {
        QuietApplied(w, tasks, next, mint);
        var more := DeliverySteps(w, tasks, rest);
        var all := [step.value] + more;
        assert all[1..] == more;
        assert forall k :: 0 <= k < |all| ==> all[k] == if k == 0 then step.value else more[k - 1];
      } else {
        assert [] + DeliverySteps(w, tasks, rest) == DeliverySteps(w, tasks, rest);
      }
    }
  }

  lemma {:induction false} NoneUndelivered(w: World, tasks: seq<Task>)
    requires forall k :: 0 <= k < |tasks| ==> !Undelivered(w, tasks[k])
    ensures DeclineUndelivered(w, tasks) == []
  {
    if tasks != [] {
      NoneUndelivered(w, tasks[1..]);
    }
  }

  /** Run again on the same world, the desk settles nothing, reopens nothing, files nothing new and changes no row. */
  lemma RunsOnce(w: World, tasks: seq<Task>, mint: Mint, again: Mint)
    requires Keyed(tasks) && Distinct(w.deliveries) && Fresh(tasks, mint)
    ensures var r := RunDesk(w, tasks, mint);
            && RunDesk(w, r, again) == r
            && forall k :: 0 <= k < |CloseOutPass(w, r)| ==> CloseOutPass(w, r)[k].File?
  {
    DeskRests(w, tasks, mint);
    var r := RunDesk(w, tasks, mint);
    hide Applied;
    hide StepFor;
    hide Quiet;
    hide Undelivered;
    QuietAll(w, r, w.deliveries, again);
    NoneUndelivered(w, r);
    var steps := DeliverySteps(w, r, w.deliveries);
    assert steps + [] == steps;
  }
}
