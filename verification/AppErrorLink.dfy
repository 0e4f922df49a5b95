// Linking an error group to a goal: the windows, the evidence and the decision of `src/appErrors/link.ts`.
module AppErrorLink {
  import opened Sequences
  import opened Options

  const DAY_MS := 86_400_000
  const LANDING_HORIZON_MS := 30 * DAY_MS

  datatype Landing = Landing(goal: string, sha: string, at: int)

  /**
   * What the clone said of each commit: in the environment's deploy, and in the one before; nothing where it could
   * not say.
   */
  datatype Verdicts = Verdicts(deployed: map<string, bool>, previous: map<string, bool>)

  /** A window's goals, in the order their first landing was met, with the commits of each. */
  datatype Goal = Goal(name: string, shas: seq<string>)

  datatype Window = Known(goals: seq<Goal>) | Undecided

  function Names(goals: seq<Goal>): (names: seq<string>)
    ensures |names| == |goals| && forall k :: 0 <= k < |goals| ==> names[k] == goals[k].name
  {
    if goals == [] then [] else [goals[0].name] + Names(goals[1..])
  }

  /** A map's `set`: the commit added to its goal where that stands, or to a new goal at the end. */
  function Put(goals: seq<Goal>, name: string, sha: string): seq<Goal> {
    if goals == [] then [Goal(name, [sha])]
    else if goals[0].name == name then [Goal(name, goals[0].shas + [sha])] + goals[1..]
    else [goals[0]] + Put(goals[1..], name, sha)
  }

  ghost predicate Holds(goals: seq<Goal>, name: string, sha: string) {
    exists k :: 0 <= k < |goals| && goals[k].name == name && sha in goals[k].shas
  }

  lemma {:induction false} PutNames(goals: seq<Goal>, name: string, sha: string)
    requires Distinct(Names(goals))
    ensures Distinct(Names(Put(goals, name, sha)))
    ensures forall n :: n in Names(Put(goals, name, sha)) <==> n in Names(goals) || n == name
  {
    if goals != [] && goals[0].name != name {
      var rest := goals[1..];
      assert Names(goals) == [goals[0].name] + Names(rest);
      assert Distinct(Names(rest)) by {
        assert forall k :: 0 <= k < |rest| ==> Names(goals)[k + 1] == Names(rest)[k];
      }
      PutNames(rest, name, sha);
      var more := Put(rest, name, sha);
      assert Put(goals, name, sha)[1..] == more;
      assert Names(Put(goals, name, sha)) == [goals[0].name] + Names(more);
      assert goals[0].name !in Names(rest) by {
        forall k | 0 <= k < |rest| ensures Names(rest)[k] != goals[0].name {
          assert Names(goals)[k + 1] == Names(rest)[k] && Names(goals)[0] == goals[0].name;
        }
      }
    } else if goals != [] {
      assert Put(goals, name, sha)[1..] == goals[1..];
      assert Names(Put(goals, name, sha)) == Names(goals);
    }
  }

  lemma {:induction false} PutHolds(goals: seq<Goal>, name: string, sha: string, n: string, s: string)
    ensures Holds(Put(goals, name, sha), n, s) <==> Holds(goals, n, s) || (n == name && s == sha)
  {
    var put := Put(goals, name, sha);
    if goals == [] {
      assert put[0] == Goal(name, [sha]);
    } else if goals[0].name == name {
      assert put == [Goal(name, goals[0].shas + [sha])] + goals[1..];
      HoldsCons(put[0], goals[1..], n, s);
      HoldsCons(goals[0], goals[1..], n, s);
      assert goals == [goals[0]] + goals[1..];
    } else {
      PutHolds(goals[1..], name, sha, n, s);
      HoldsCons(goals[0], Put(goals[1..], name, sha), n, s);
      HoldsCons(goals[0], goals[1..], n, s);
      assert goals == [goals[0]] + goals[1..];
    }
  }

  lemma HoldsCons(g: Goal, more: seq<Goal>, n: string, s: string)
    ensures Holds([g] + more, n, s) <==> (g.name == n && s in g.shas) || Holds(more, n, s)
  {
    var all := [g] + more;
    if Holds(more, n, s) {
      var k :| 0 <= k < |more| && more[k].name == n && s in more[k].shas;
      assert all[k + 1] == more[k];
    }
    if g.name == n && s in g.shas {
      assert all[0] == g;
    }
    if Holds(all, n, s) {
      var k :| 0 <= k < |all| && all[k].name == n && s in all[k].shas;
      assert k > 0 ==> more[k - 1] == all[k];
    }
  }

  // Windows

  /** Where a landing stands to a window: in it, out of it, or not to be said. */
  datatype Standing = In | Out | Unsaid

  function Said(m: map<string, bool>, sha: string): Option<bool> {
    if sha in m then Some(m[sha]) else None
  }

  function DeployStanding(changedAt: int, v: Verdicts, l: Landing): Standing {
    if l.at < changedAt - LANDING_HORIZON_MS then Out
    else
      var deployed := Said(v.deployed, l.sha);
      if deployed == Some(false) then Out
      else
        var previous := if deployed.None? then None else Said(v.previous, l.sha);
        if deployed.None? || previous.None? then Unsaid else if previous.value then Out else In
  }

  datatype Status = Reached | Absent | Unclear

  datatype Reading = Reading(status: Status, at: int)

  function ArrivalStanding(anchor: int, lookback: int, reach: map<string, Reading>, l: Landing): Standing {
    if l.at > anchor then Out
    else if l.sha in reach && reach[l.sha].status == Reached then
      if anchor - lookback <= reach[l.sha].at <= anchor then In else Out
    else if (l.sha in reach && reach[l.sha].status == Absent) || l.at < anchor - LANDING_HORIZON_MS then Out
    else Unsaid
  }

  /** The goals of the landings in a window, or nothing once one of them cannot be placed. */
  function WindowOf(landings: seq<Landing>, standing: Landing -> Standing): Window {
    if landings == [] then Known([])
    else
      var l := landings[|landings| - 1];
      var w := WindowOf(landings[..|landings| - 1], standing);
      if w.Undecided? then w
      else match standing(l)
           case Out => w
           case Unsaid => Undecided
           case In => Known(Put(w.goals, l.goal, l.sha))
  }

  method DeployWindow(changedAt: int, landings: seq<Landing>, v: Option<Verdicts>) returns (w: Window)
    ensures w == if v.None? then Undecided else WindowOf(landings, l => DeployStanding(changedAt, v.value, l))
  {
    if v.None? {
      return Undecided;
    }
    ghost var standing := l => DeployStanding(changedAt, v.value, l);
    var goals: seq<Goal> := [];
    for i := 0 to |landings|
      invariant WindowOf(landings[..i], standing) == Known(goals)
    {
      var landing := landings[i];
      assert landings[..i + 1][..i] == landings[..i];
      if landing.at < changedAt - LANDING_HORIZON_MS {
        continue;
      }
      var deployed := Said(v.value.deployed, landing.sha);
      if deployed == Some(false) {
        continue;
      }
      var previous := if deployed.None? then None else Said(v.value.previous, landing.sha);
      if deployed.None? || previous.None? {
        UndecidedStays(landings, standing, i + 1);
        return Undecided;
      }
      if previous.value {
        continue;
      }
      goals := Put(goals, landing.goal, landing.sha);
    }
    assert landings[..|landings|] == landings;
    return Known(goals);
  }

  method ArrivalWindow(anchor: int, lookback: int, landings: seq<Landing>, reach: map<string, Reading>)
      returns (w: Window)
    ensures w == WindowOf(landings, l => ArrivalStanding(anchor, lookback, reach, l))
  {
    ghost var standing := l => ArrivalStanding(anchor, lookback, reach, l);
    var from := anchor - lookback;
    var goals: seq<Goal> := [];
    for i := 0 to |landings|
      invariant WindowOf(landings[..i], standing) == Known(goals)
    {
      var landing := landings[i];
      assert landings[..i + 1][..i] == landings[..i];
      if landing.at > anchor {
        continue;
      }
      if landing.sha in reach && reach[landing.sha].status == Reached {
        if from <= reach[landing.sha].at <= anchor {
          goals := Put(goals, landing.goal, landing.sha);
        }
        continue;
      }
      if (landing.sha in reach && reach[landing.sha].status == Absent) || landing.at < anchor - LANDING_HORIZON_MS {
        continue;
      }
      UndecidedStays(landings, standing, i + 1);
      return Undecided;
    }
    assert landings[..|landings|] == landings;
    return Known(goals);
  }

  lemma {:induction false} UndecidedStays(landings: seq<Landing>, standing: Landing -> Standing, i: nat)
    requires i <= |landings| && WindowOf(landings[..i], standing).Undecided?
    ensures WindowOf(landings, standing).Undecided?
    decreases |landings|
  {
    var n := |landings| - 1;
    if i <= n {
      assert landings[..n][..i] == landings[..i];
      UndecidedStays(landings[..n], standing, i);
    } else {
      assert landings[..i] == landings;
    }
  }

  /** A window is decided exactly when every landing can be placed. */
  lemma {:induction false} KnownWhen(landings: seq<Landing>, standing: Landing -> Standing)
    ensures WindowOf(landings, standing).Known? <==> forall k :: 0 <= k < |landings| ==> standing(landings[k]) != Unsaid
  {
    if landings != [] {
      var n := |landings| - 1;
      var before := landings[..n];
      KnownWhen(before, standing);
      hide Put;
      assert forall k :: 0 <= k < n ==> before[k] == landings[k];
    }
  }

  /** A window's goals are distinct, and hold exactly the commits of the landings in it. */
  ghost predicate Right(landings: seq<Landing>, standing: Landing -> Standing, goals: seq<Goal>) {
    && Distinct(Names(goals))
    && (forall name, sha :: Holds(goals, name, sha) <==> InWindow(landings, standing, name, sha))
    && (forall name :: name in Names(goals) <==> HasLanding(landings, standing, name))
  }

  ghost predicate HasLanding(landings: seq<Landing>, standing: Landing -> Standing, name: string) {
    exists sha :: InWindow(landings, standing, name, sha)
  }

  lemma {:induction false} WindowHolds(landings: seq<Landing>, standing: Landing -> Standing)
    requires WindowOf(landings, standing).Known?
    ensures Right(landings, standing, WindowOf(landings, standing).goals)
  {
    hide Right;
    if landings == [] {
      NoneRight(standing);
    } else {
      var n := |landings| - 1;
      WindowHolds(landings[..n], standing);
      var goals := WindowOf(landings[..n], standing).goals;
      if standing(landings[n]) == In {
        InRight(landings, standing, goals);
      } else {
        OutRight(landings, standing, goals);
      }
    }
  }

  lemma NoneRight(standing: Landing -> Standing)
    ensures Right([], standing, [])
  {
  }

  lemma OutRight(landings: seq<Landing>, standing: Landing -> Standing, goals: seq<Goal>)
    requires landings != [] && standing(landings[|landings| - 1]) != In
    requires Right(landings[..|landings| - 1], standing, goals)
    ensures Right(landings, standing, goals)
  {
    InWindowStep(landings, standing);
    hide InWindow;
    hide Holds;
    hide Names;
    hide Distinct;
    var before := landings[..|landings| - 1];
    forall name ensures HasLanding(landings, standing, name) <==> HasLanding(before, standing, name) {
      if HasLanding(landings, standing, name) {
        var sha :| InWindow(landings, standing, name, sha);
        assert InWindow(before, standing, name, sha);
      }
      if HasLanding(before, standing, name) {
        var sha :| InWindow(before, standing, name, sha);
        assert InWindow(landings, standing, name, sha);
      }
    }
  }

  lemma InRight(landings: seq<Landing>, standing: Landing -> Standing, goals: seq<Goal>)
    requires landings != [] && standing(landings[|landings| - 1]) == In
    requires Right(landings[..|landings| - 1], standing, goals)
    ensures var l := landings[|landings| - 1]; Right(landings, standing, Put(goals, l.goal, l.sha))
  {
    var l := landings[|landings| - 1];
    var before := landings[..|landings| - 1];
    var put := Put(goals, l.goal, l.sha);
    InWindowStep(landings, standing);
    PutNames(goals, l.goal, l.sha);
    hide InWindow;
    hide Names;
    hide Distinct;
    hide Put;
    forall name, sha ensures Holds(put, name, sha) <==> InWindow(landings, standing, name, sha) {
      PutHolds(goals, l.goal, l.sha, name, sha);
    }
    hide Holds;
    assert InWindow(landings, standing, l.goal, l.sha);
    forall name ensures HasLanding(landings, standing, name) <==> HasLanding(before, standing, name) || name == l.goal {
      if HasLanding(landings, standing, name) {
        var sha :| InWindow(landings, standing, name, sha);
        assert name == l.goal || InWindow(before, standing, name, sha);
      }
      if HasLanding(before, standing, name) {
        var sha :| InWindow(before, standing, name, sha);
        assert InWindow(landings, standing, name, sha);
      }
    }
  }

  ghost predicate InWindow(landings: seq<Landing>, standing: Landing -> Standing, name: string, sha: string) {
    exists k :: 0 <= k < |landings| && landings[k].goal == name && landings[k].sha == sha && standing(landings[k]) == In
  }

  lemma InWindowStep(landings: seq<Landing>, standing: Landing -> Standing)
    requires landings != []
    ensures forall name, sha :: InWindow(landings, standing, name, sha) <==>
              InWindow(landings[..|landings| - 1], standing, name, sha)
              || (landings[|landings| - 1].goal == name && landings[|landings| - 1].sha == sha
                  && standing(landings[|landings| - 1]) == In)
  {
    var n := |landings| - 1;
    forall name, sha ensures InWindow(landings, standing, name, sha) <==>
        InWindow(landings[..n], standing, name, sha)
        || (landings[n].goal == name && landings[n].sha == sha && standing(landings[n]) == In)
    {
      if InWindow(landings[..n], standing, name, sha) {
        var k :| 0 <= k < n && landings[..n][k].goal == name && landings[..n][k].sha == sha
            && standing(landings[..n][k]) == In;
        assert landings[k] == landings[..n][k];
      }
      if InWindow(landings, standing, name, sha) {
        var k :| 0 <= k <= n && landings[k].goal == name && landings[k].sha == sha && standing(landings[k]) == In;
        assert k < n ==> landings[..n][k] == landings[k];
      }
    }
  }

  // A decided window is decided for good

  /** Verdicts with more of them said, and what was said before unchanged. */
  ghost predicate Completes(v: Verdicts, fuller: Verdicts) {
    && (forall sha :: sha in v.deployed ==> sha in fuller.deployed && fuller.deployed[sha] == v.deployed[sha])
    && (forall sha :: sha in v.previous ==> sha in fuller.previous && fuller.previous[sha] == v.previous[sha])
  }

  lemma {:induction false} SameStandings(landings: seq<Landing>, a: Landing -> Standing, b: Landing -> Standing)
    requires forall k :: 0 <= k < |landings| ==> a(landings[k]) == b(landings[k])
    ensures WindowOf(landings, a) == WindowOf(landings, b)
  {
    if landings != [] {
      var n := |landings| - 1;
      assert forall k :: 0 <= k < n ==> landings[..n][k] == landings[k];
      SameStandings(landings[..n], a, b);
    }
  }

  /** A deploy window that is known is the same whatever the clone would have said of what it did not. */
  lemma DeployWindowStands(changedAt: int, landings: seq<Landing>, v: Verdicts, fuller: Verdicts)
    requires Completes(v, fuller)
    requires WindowOf(landings, l => DeployStanding(changedAt, v, l)).Known?
    ensures WindowOf(landings, l => DeployStanding(changedAt, fuller, l))
        == WindowOf(landings, l => DeployStanding(changedAt, v, l))
  {
    var a, b := l => DeployStanding(changedAt, v, l), l => DeployStanding(changedAt, fuller, l);
    KnownWhen(landings, a);
    forall k | 0 <= k < |landings| ensures a(landings[k]) == b(landings[k]) {
      assert a(landings[k]) != Unsaid;
    }
    SameStandings(landings, a, b);
  }

  predicate IsReached(reach: map<string, Reading>, sha: string) {
    sha in reach && reach[sha].status == Reached
  }

  /** A probe that answers what it had not, on the landings recent enough to matter. */
  ghost predicate Probed(anchor: int, landings: seq<Landing>, reach: map<string, Reading>,
      fuller: map<string, Reading>) {
    && (forall sha :: sha in reach && !reach[sha].status.Unclear? ==> sha in fuller && fuller[sha] == reach[sha])
    && (forall k :: 0 <= k < |landings| ==>
          landings[k].at < anchor - LANDING_HORIZON_MS && IsReached(fuller, landings[k].sha) ==>
          IsReached(reach, landings[k].sha))
  }

  lemma ArrivalWindowStands(anchor: int, lookback: int, landings: seq<Landing>, reach: map<string, Reading>,
      fuller: map<string, Reading>)
    requires Probed(anchor, landings, reach, fuller)
    requires WindowOf(landings, l => ArrivalStanding(anchor, lookback, reach, l)).Known?
    ensures WindowOf(landings, l => ArrivalStanding(anchor, lookback, fuller, l))
         == WindowOf(landings, l => ArrivalStanding(anchor, lookback, reach, l))
  {
    var a, b := l => ArrivalStanding(anchor, lookback, reach, l), l => ArrivalStanding(anchor, lookback, fuller, l);
    KnownWhen(landings, a);
    forall k | 0 <= k < |landings| ensures a(landings[k]) == b(landings[k]) {
      assert a(landings[k]) != Unsaid;
    }
    SameStandings(landings, a, b);
  }

  // What a window holds

  /** What the clone says of the landing's commit puts it in the deploy: in it now, and not in the one before. */
  predicate Deployed(changedAt: int, v: Verdicts, l: Landing) {
    && l.at >= changedAt - 2_592_000_000
    && l.sha in v.deployed && v.deployed[l.sha] && l.sha in v.previous && !v.previous[l.sha]
  }

  /** The clone's verdicts settle whether the landing is in the deploy; one more than thirty days old is not. */
  predicate Settled(changedAt: int, v: Verdicts, l: Landing) {
    || l.at < changedAt - 2_592_000_000
    || (l.sha in v.deployed && (!v.deployed[l.sha] || l.sha in v.previous))
  }

  /** A deploy window is decided when every landing is settled, and holds then the commits the deploy brought. */
  lemma DeploySays(changedAt: int, landings: seq<Landing>, v: Verdicts)
    ensures var w := WindowOf(landings, l => DeployStanding(changedAt, v, l));
            && (w.Known? <==> forall k :: 0 <= k < |landings| ==> Settled(changedAt, v, landings[k]))
            && (w.Known? ==> forall name, sha :: Holds(w.goals, name, sha) <==>
                  exists l :: l in landings && l.goal == name && l.sha == sha && Deployed(changedAt, v, l))
  {
    var standing := l => DeployStanding(changedAt, v, l);
    KnownWhen(landings, standing);
    assert forall k :: 0 <= k < |landings| ==>
        (standing(landings[k]) != Unsaid <==> Settled(changedAt, v, landings[k]));
    if WindowOf(landings, standing).Known? {
      WindowHolds(landings, standing);
      hide WindowOf;
      InWindowSays(landings, standing, (l: Landing) => Deployed(changedAt, v, l));
    }
  }

  /** The probe first found the landing's commit there in the period before the anchor. */
  predicate Arrived(anchor: int, lookback: int, reach: map<string, Reading>, l: Landing) {
    && l.at <= anchor && l.sha in reach && reach[l.sha].status == Reached
    && reach[l.sha].at >= anchor - lookback && reach[l.sha].at <= anchor
  }

  /** The probe settles whether the landing arrived: it landed later, or was found or ruled out, or is long past. */
  predicate Placed(anchor: int, reach: map<string, Reading>, l: Landing) {
    || l.at > anchor || (l.sha in reach && !reach[l.sha].status.Unclear?) || l.at < anchor - 2_592_000_000
  }

  lemma ArrivalSays(anchor: int, lookback: int, landings: seq<Landing>, reach: map<string, Reading>)
    ensures var w := WindowOf(landings, l => ArrivalStanding(anchor, lookback, reach, l));
            && (w.Known? <==> forall k :: 0 <= k < |landings| ==> Placed(anchor, reach, landings[k]))
            && (w.Known? ==> forall name, sha :: Holds(w.goals, name, sha) <==>
                  exists l :: l in landings && l.goal == name && l.sha == sha && Arrived(anchor, lookback, reach, l))
  {
    var standing := l => ArrivalStanding(anchor, lookback, reach, l);
    KnownWhen(landings, standing);
    assert forall k :: 0 <= k < |landings| ==>
        (standing(landings[k]) != Unsaid <==> Placed(anchor, reach, landings[k]));
    if WindowOf(landings, standing).Known? {
      WindowHolds(landings, standing);
      hide WindowOf;
      InWindowSays(landings, standing, (l: Landing) => Arrived(anchor, lookback, reach, l));
    }
  }

  lemma InWindowSays(landings: seq<Landing>, standing: Landing -> Standing, there: Landing -> bool)
    requires forall l :: standing(l) == In <==> there(l)
    ensures forall name, sha :: InWindow(landings, standing, name, sha) <==>
        exists l :: l in landings && l.goal == name && l.sha == sha && there(l)
  {
    forall name, sha ensures InWindow(landings, standing, name, sha) <==>
                             exists l :: l in landings && l.goal == name && l.sha == sha && there(l) {
      if l: Landing :| l in landings && l.goal == name && l.sha == sha && there(l) {
        var k :| 0 <= k < |landings| && landings[k] == l;
      }
    }
  }

  // Order

  /** Windows with the same goals and the same commits of each, in whatever order. */
  ghost predicate Same(a: seq<Goal>, b: seq<Goal>) {
    && Distinct(Names(a)) && Distinct(Names(b))
    && (forall name :: name in Names(a) <==> name in Names(b))
    && (forall name, sha :: Holds(a, name, sha) <==> Holds(b, name, sha))
  }

  /** Landings in another order make a window that is decided if the first is, with the same goals and commits. */
  lemma OrderDoesNotMatter(landings: seq<Landing>, other: seq<Landing>, standing: Landing -> Standing)
    requires forall l :: l in landings <==> l in other
    ensures WindowOf(landings, standing).Known? <==> WindowOf(other, standing).Known?
    ensures WindowOf(landings, standing).Known? ==>
        Same(WindowOf(landings, standing).goals, WindowOf(other, standing).goals)
  {
    KnownWhen(landings, standing);
    KnownWhen(other, standing);
    hide WindowOf;
    if WindowOf(landings, standing).Known? {
      KnownBoth(landings, other, standing);
    }
    if WindowOf(other, standing).Known? {
      KnownBoth(other, landings, standing);
    }
    if WindowOf(landings, standing).Known? {
      WindowHolds(landings, standing);
      WindowHolds(other, standing);
      forall name, sha ensures InWindow(landings, standing, name, sha) <==> InWindow(other, standing, name, sha) {
        InBoth(landings, other, standing, name, sha);
        InBoth(other, landings, standing, name, sha);
      }
      hide InWindow;
      hide Holds;
      hide Names;
      hide Distinct;
      forall name ensures HasLanding(landings, standing, name) <==> HasLanding(other, standing, name) {
        if HasLanding(landings, standing, name) {
          var sha :| InWindow(landings, standing, name, sha);
          assert InWindow(other, standing, name, sha);
        }
        if HasLanding(other, standing, name) {
          var sha :| InWindow(other, standing, name, sha);
          assert InWindow(landings, standing, name, sha);
        }
      }
    }
  }

  lemma KnownBoth(landings: seq<Landing>, other: seq<Landing>, standing: Landing -> Standing)
    requires forall l :: l in landings <==> l in other
    requires forall k :: 0 <= k < |landings| ==> standing(landings[k]) != Unsaid
    ensures forall k :: 0 <= k < |other| ==> standing(other[k]) != Unsaid
  {
    forall k | 0 <= k < |other| ensures standing(other[k]) != Unsaid {
      assert other[k] in landings;
    }
  }

  lemma InBoth(landings: seq<Landing>, other: seq<Landing>, standing: Landing -> Standing, name: string, sha: string)
    requires forall l :: l in landings <==> l in other
    ensures InWindow(landings, standing, name, sha) ==> InWindow(other, standing, name, sha)
  {
    if InWindow(landings, standing, name, sha) {
      var k :| 0 <= k < |landings| && landings[k].goal == name && landings[k].sha == sha && standing(landings[k]) == In;
      assert landings[k] in other;
    }
  }
}
