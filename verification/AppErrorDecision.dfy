// Deciding which goal an error group is linked to, from its window and the evidence in it (`src/appErrors/link.ts`).
module AppErrorDecision {
  import opened Options
  import opened AppErrorLink
  import opened Sequences

  /** A goal with what speaks for it: the frames' files it changed, or the words its title shares. */
  datatype Hit = Hit(name: string, said: seq<string>)

  predicate DistinctHits(hs: seq<Hit>) {
    forall i, j :: 0 <= i < j < |hs| ==> hs[i].name != hs[j].name
  }

  function Best(hs: seq<Hit>): (n: nat)
    ensures forall k :: 0 <= k < |hs| ==> |hs[k].said| <= n
    ensures n > 0 ==> exists k :: 0 <= k < |hs| && |hs[k].said| == n
  {
    if hs == [] then 0
    else
      var m := Best(hs[1..]);
      assert forall k :: 0 < k < |hs| ==> hs[k] == hs[1..][k - 1];
      assert m > 0 ==> exists k :: 0 < k < |hs| && |hs[k].said| == m by {
        if m > 0 {
          var k :| 0 <= k < |hs[1..]| && |hs[1..][k].said| == m;
          assert hs[k + 1] == hs[1..][k];
        }
      }
      if |hs[0].said| > m then |hs[0].said| else m
  }

  function WithScore(hs: seq<Hit>, n: nat): (r: seq<Hit>)
    ensures forall h :: h in r <==> h in hs && |h.said| == n
  {
    if hs == [] then []
    else
      assert hs == [hs[0]] + hs[1..];
      (if |hs[0].said| == n then [hs[0]] else []) + WithScore(hs[1..], n)
  }

  function Leaders(hs: seq<Hit>): seq<Hit> {
    WithScore(hs, Best(hs))
  }

  lemma {:induction false} LeadersDistinct(hs: seq<Hit>, n: nat)
    requires DistinctHits(hs)
    ensures DistinctHits(WithScore(hs, n))
  {
    if hs != [] {
      assert forall k :: 0 <= k < |hs| - 1 ==> hs[1..][k] == hs[k + 1];
      LeadersDistinct(hs[1..], n);
      var rest := WithScore(hs[1..], n);
      forall k | 0 <= k < |rest| ensures rest[k].name != hs[0].name {
        assert rest[k] in rest;
        var j :| 0 <= j < |hs[1..]| && hs[1..][j] == rest[k];
        assert hs[j + 1] == rest[k];
      }
    }
  }

  // Frames

  function Paths(shas: seq<string>, diffs: map<string, seq<string>>): Option<seq<string>> {
    if shas == [] then Some([])
    else
      var before :- Paths(shas[..|shas| - 1], diffs);
      var sha := shas[|shas| - 1];
      if sha in diffs then Some(before + diffs[sha]) else None
  }

  /** The files some changed path is the same file as. */
  function Touched(files: seq<string>, changed: seq<string>, same: (string, string) -> bool): seq<string> {
    if files == [] then []
    else
      (if exists k :: 0 <= k < |changed| && same(files[0], changed[k]) then [files[0]] else [])
      + Touched(files[1..], changed, same)
  }

  /** The goals that touched one of the files, or nothing where a commit's changes are not known. */
  function Hits(goals: seq<Goal>, files: seq<string>, diffs: map<string, seq<string>>,
      same: (string, string) -> bool): Option<seq<Hit>> {
    if goals == [] then Some([])
    else
      var g := goals[|goals| - 1];
      var before :- Hits(goals[..|goals| - 1], files, diffs, same);
      var changed :- Paths(g.shas, diffs);
      var hit := Touched(files, changed, same);
      Some(if hit != [] then before + [Hit(g.name, hit)] else before)
  }

  datatype Evidence = NoEvidence | Unknown | One(name: string, others: nat) | Tied(names: seq<string>)

  function HitNames(hs: seq<Hit>): (names: seq<string>)
    ensures |names| == |hs| && forall k :: 0 <= k < |hs| ==> names[k] == hs[k].name
  {
    if hs == [] then [] else [hs[0].name] + HitNames(hs[1..])
  }

  /** The evidence of the goals that touched the files: the one that touched most of them, or those that tie for it. */
  function Picked(hits: seq<Hit>): Evidence {
    if hits == [] then NoEvidence
    else
      var leaders := Leaders(hits);
      if |leaders| == 1 then One(leaders[0].name, |hits| - 1) else Tied(HitNames(leaders))
  }

  function FrameEvidence(files: seq<string>, goals: seq<Goal>, diffs: map<string, seq<string>>,
      same: (string, string) -> bool): Evidence {
    if files == [] then NoEvidence
    else
      var hits := Hits(goals, files, diffs, same);
      if hits.None? then Unknown else Picked(hits.value)
  }

  method PathsLoop(shas: seq<string>, diffs: map<string, seq<string>>) returns (r: Option<seq<string>>)
    ensures r == Paths(shas, diffs)
  {
    var changed: seq<string> := [];
    for j := 0 to |shas|
      invariant Paths(shas[..j], diffs) == Some(changed)
    {
      assert shas[..j + 1][..j] == shas[..j];
      if shas[j] !in diffs {
        PathsMissing(shas, diffs, j + 1);
        return None;
      }
      changed := changed + diffs[shas[j]];
    }
    assert shas[..|shas|] == shas;
    return Some(changed);
  }

  method FrameEvidenceLoop(files: seq<string>, goals: seq<Goal>, diffs: map<string, seq<string>>,
      same: (string, string) -> bool)
    returns (e: Evidence)
    ensures e == FrameEvidence(files, goals, diffs, same)
  {
    hide Touched;
    hide Paths;
    hide Leaders;
    if files == [] {
      return NoEvidence;
    }
    var touched: seq<Hit> := [];
    for i := 0 to |goals|
      invariant Hits(goals[..i], files, diffs, same) == Some(touched)
    {
      assert goals[..i + 1][..i] == goals[..i];
      var changed := PathsLoop(goals[i].shas, diffs);
      if changed.None? {
        HitsMissing(goals, files, diffs, same, i + 1);
        return Unknown;
      }
      var hit := Touched(files, changed.value, same);
      if hit != [] {
        touched := touched + [Hit(goals[i].name, hit)];
      }
    }
    assert goals[..|goals|] == goals;
    hide Hits;
    if touched == [] {
      return NoEvidence;
    }
    var leaders := Leaders(touched);
    return if |leaders| == 1 then One(leaders[0].name, |touched| - 1) else Tied(HitNames(leaders));
  }

  lemma {:induction false} PathsMissing(shas: seq<string>, diffs: map<string, seq<string>>, i: nat)
    requires i <= |shas| && Paths(shas[..i], diffs).None?
    ensures Paths(shas, diffs).None?
    decreases |shas|
  {
    var n := |shas| - 1;
    if i <= n {
      assert shas[..n][..i] == shas[..i];
      PathsMissing(shas[..n], diffs, i);
    } else {
      assert shas[..i] == shas;
    }
  }

  lemma {:induction false} HitsMissing(goals: seq<Goal>, files: seq<string>, diffs: map<string, seq<string>>,
                                       same: (string, string) -> bool, i: nat)
    requires i <= |goals| && Hits(goals[..i], files, diffs, same).None?
    ensures Hits(goals, files, diffs, same).None?
    decreases |goals|
  {
    hide Touched;
    hide Paths;
    var n := |goals| - 1;
    if i <= n {
      assert goals[..n][..i] == goals[..i];
      HitsMissing(goals[..n], files, diffs, same, i);
    } else {
      assert goals[..i] == goals;
    }
  }

  // Arrivals elsewhere

  /** The names of one window that are also another's. */
  function Narrowed(names: seq<string>, here: seq<string>): (r: seq<string>)
    ensures forall n :: n in r <==> n in names && n in here
  {
    if names == [] then []
    else
      assert names == [names[0]] + names[1..];
      (if names[0] in here then [names[0]] else []) + Narrowed(names[1..], here)
  }

  function Vote(there: Window, here: seq<Goal>): Option<string> {
    if there.Undecided? then None
    else
      var narrowed := Narrowed(Names(there.goals), Names(here));
      if |narrowed| == 1 then Some(narrowed[0]) else None
  }

  function Votes(elsewhere: seq<Window>, here: seq<Goal>): (votes: set<string>) {
    if elsewhere == [] then {}
    else
      var vote := Vote(elsewhere[|elsewhere| - 1], here);
      Votes(elsewhere[..|elsewhere| - 1], here) + if vote.Some? then {vote.value} else {}
  }

  /** The one goal the other environments' arrivals all point at. */
  ghost predicate PointsAt(elsewhere: seq<Window>, here: seq<Goal>, name: string) {
    Votes(elsewhere, here) == {name}
  }

  method TestArrival(elsewhere: seq<Window>, here: seq<Goal>) returns (arrival: Option<string>)
    ensures arrival.Some? ==> PointsAt(elsewhere, here, arrival.value)
    ensures arrival.None? ==> forall name :: !PointsAt(elsewhere, here, name)
  {
    var votes: set<string> := {};
    for i := 0 to |elsewhere|
      invariant votes == Votes(elsewhere[..i], here)
    {
      assert elsewhere[..i + 1][..i] == elsewhere[..i];
      var window := elsewhere[i];
      if window.Undecided? {
        continue;
      }
      var narrowed := Narrowed(Names(window.goals), Names(here));
      if |narrowed| != 1 {
        continue;
      }
      votes := votes + {narrowed[0]};
    }
    assert elsewhere[..|elsewhere|] == elsewhere;
    if |votes| != 1 {
      assert forall name: string :: |{name}| == 1;
      return None;
    }
    var name :| name in votes;
    assert votes == {name} by {
      assert |votes - {name}| == 0;
    }
    return Some(name);
  }

  // The route hint

  function Shared(asked: seq<string>, title: set<string>): seq<string> {
    if asked == [] then [] else (if asked[0] in title then [asked[0]] else []) + Shared(asked[1..], title)
  }

  function Scored(names: seq<string>, asked: seq<string>, titles: string -> set<string>): (hs: seq<Hit>)
    ensures |hs| == |names| && forall k :: 0 <= k < |names| ==> hs[k] == Hit(names[k], Shared(asked, titles(names[k])))
  {
    if names == [] then [] else [Hit(names[0], Shared(asked, titles(names[0])))] + Scored(names[1..], asked, titles)
  }

  /** The words of the operation, nothing where there is none to ask about. */
  function RouteHint(asked: seq<string>, goals: seq<Goal>, titles: string -> set<string>): Option<string> {
    var scored := Scored(Names(goals), asked, titles);
    var leaders := Leaders(scored);
    if Best(scored) > 0 && |leaders| == 1 then Some(leaders[0].name) else None
  }

  // The decision

  datatype How = FrameMatch | ByArrival | ByHint

  datatype Link = Link(goal: Option<string>, how: seq<How>, candidates: Option<nat>, tied: seq<string>)

  function Unlinked(candidates: Option<nat>): Link {
    Link(None, [], candidates, [])
  }

  function ByFrames(e: Evidence, arrival: Option<string>, n: nat): Link
    requires e.One? || e.Tied?
  {
    match e
    case One(name, _) =>
      if arrival == Some(name) then Link(Some(name), [FrameMatch, ByArrival], Some(n), [])
      else Link(Some(name), [FrameMatch], Some(n), [])
    case Tied(names) =>
      if arrival.Some? && arrival.value in names then Link(arrival, [FrameMatch, ByArrival], Some(n), [])
      else Link(None, [], Some(n), names)
  }

  /**
   * What the decision rests on besides the window: the files of the frames, the commits' changes, and the words asked
   * for.
   */
  datatype Facts = Facts(files: seq<string>, diffs: map<string, seq<string>>, same: (string, string) -> bool,
                         asked: seq<string>, titles: string -> set<string>)

  function DecideLink(w: Window, f: Facts, arrival: Option<string>): Link {
    if w.Undecided? then Unlinked(None)
    else if w.goals == [] then Unlinked(Some(0))
    else
      var n := |w.goals|;
      var frames := FrameEvidence(f.files, w.goals, f.diffs, f.same);
      if frames.One? || frames.Tied? then ByFrames(frames, arrival, n)
      else if arrival.Some? then Link(arrival, [ByArrival], Some(n), [])
      else if frames.Unknown? then Unlinked(Some(n))
      else
        var hint := RouteHint(f.asked, w.goals, f.titles);
        if hint.Some? then Link(hint, [ByHint], Some(n), []) else Unlinked(Some(n))
  }

  // A link is to a goal of its window

  lemma {:induction false} HitsNamed(goals: seq<Goal>, files: seq<string>, diffs: map<string, seq<string>>,
      same: (string, string) -> bool)
    requires Distinct(Names(goals)) && Hits(goals, files, diffs, same).Some?
    ensures var hits := Hits(goals, files, diffs, same).value;
            DistinctHits(hits) && forall h :: h in hits ==> h.name in Names(goals) && h.said != []
  {
    hide Touched;
    hide Distinct;
    hide Names;
    if goals != [] {
      var n := |goals| - 1;
      NamesPrefix(goals);
      HitsNamed(goals[..n], files, diffs, same);
      var before := Hits(goals[..n], files, diffs, same).value;
      assert forall h :: h in before ==> h.name != goals[n].name;
    }
  }

  lemma {:induction false} NamesLast(goals: seq<Goal>)
    requires goals != []
    ensures Names(goals) == Names(goals[..|goals| - 1]) + [goals[|goals| - 1].name]
  {
    var n := |goals| - 1;
    if n > 0 {
      var rest := goals[1..];
      NamesLast(rest);
      assert rest[..n - 1] == goals[..n][1..];
      assert rest[n - 1] == goals[n];
    } else {
      assert goals[1..] == [] && goals[..0] == [];
    }
  }

  lemma DistinctLast(before: seq<string>, last: string)
    requires Distinct(before + [last])
    ensures Distinct(before) && last !in before
    ensures forall name :: name in before + [last] <==> name in before || name == last
  {
    var all := before + [last];
    assert forall k :: 0 <= k < |before| ==> all[k] == before[k];
    assert all[|before|] == last;
  }

  lemma NamesPrefix(goals: seq<Goal>)
    requires goals != [] && Distinct(Names(goals))
    ensures var n := |goals| - 1;
            && Distinct(Names(goals[..n])) && goals[n].name !in Names(goals[..n])
            && (forall name :: name in Names(goals) <==> name in Names(goals[..n]) || name == goals[n].name)
  {
    hide Names;
    hide Distinct;
    NamesLast(goals);
    DistinctLast(Names(goals[..|goals| - 1]), goals[|goals| - 1].name);
  }

  lemma HitNamesIn(hs: seq<Hit>, name: string)
    ensures name in HitNames(hs) <==> exists h :: h in hs && h.name == name
  {
    if name in HitNames(hs) {
      var k :| 0 <= k < |hs| && HitNames(hs)[k] == name;
      assert hs[k] in hs;
    }
    if exists h :: h in hs && h.name == name {
      var h :| h in hs && h.name == name;
      var k :| 0 <= k < |hs| && hs[k] == h;
      assert HitNames(hs)[k] == name;
    }
  }

  lemma NotNone(hs: seq<Hit>)
    requires hs != [] && forall h :: h in hs ==> h.said != []
    ensures Leaders(hs) != [] && Best(hs) > 0
  {
    assert hs[0] in hs;
    var k :| 0 <= k < |hs| && |hs[k].said| == Best(hs);
    assert hs[k] in Leaders(hs);
  }

  ghost predicate InNames(e: Evidence, names: seq<string>) {
    match e
    case One(name, _) => name in names
    case Tied(tied) => |tied| >= 2 && Distinct(tied) && forall name :: name in tied ==> name in names
    case _ => true
  }

  lemma LeadersNamed(hits: seq<Hit>, names: seq<string>)
    requires hits != [] && DistinctHits(hits) && forall h :: h in hits ==> h.name in names && h.said != []
    ensures var leaders := Leaders(hits);
            && leaders != [] && leaders[0].name in names
            && Distinct(HitNames(leaders)) && forall name :: name in HitNames(leaders) ==> name in names
  {
    NotNone(hits);
    LeadersDistinct(hits, Best(hits));
    var leaders := Leaders(hits);
    assert forall h :: h in leaders ==> h in hits;
    hide Leaders;
    assert leaders[0] in leaders;
    forall name | name in HitNames(leaders) ensures name in names {
      HitNamesIn(leaders, name);
    }
  }

  /** Whatever the frames point at is in the window, and a tie is between at least two goals. */
  lemma EvidenceInWindow(files: seq<string>, goals: seq<Goal>, diffs: map<string, seq<string>>,
      same: (string, string) -> bool)
    requires Distinct(Names(goals))
    ensures InNames(FrameEvidence(files, goals, diffs, same), Names(goals))
  {
    hide Hits;
    hide Leaders;
    hide Names;
    var hits := Hits(goals, files, diffs, same);
    if files != [] && hits.Some? && hits.value != [] {
      HitsNamed(goals, files, diffs, same);
      LeadersNamed(hits.value, Names(goals));
    }
  }

  lemma HintInWindow(asked: seq<string>, goals: seq<Goal>, titles: string -> set<string>)
    ensures RouteHint(asked, goals, titles).Some? ==> RouteHint(asked, goals, titles).value in Names(goals)
  {
    var scored := Scored(Names(goals), asked, titles);
    if RouteHint(asked, goals, titles).Some? {
      assert Leaders(scored)[0] in scored;
    }
  }

  lemma {:induction false} VotesInWindow(elsewhere: seq<Window>, here: seq<Goal>)
    ensures forall name :: name in Votes(elsewhere, here) ==> name in Names(here)
  {
    if elsewhere != [] {
      VotesInWindow(elsewhere[..|elsewhere| - 1], here);
      var there := elsewhere[|elsewhere| - 1];
      if there.Known? {
        assert forall n :: n in Narrowed(Names(there.goals), Names(here)) ==> n in Names(here);
      }
    }
  }

  lemma ArrivalInWindow(elsewhere: seq<Window>, here: seq<Goal>, name: string)
    requires PointsAt(elsewhere, here, name)
    ensures name in Names(here)
  {
    VotesInWindow(elsewhere, here);
    assert name in Votes(elsewhere, here);
  }

  /**
   * A linked goal is in the window; a tie names at least two goals of it and links none; and an undecided or empty
   * window links nothing. The arrival is one the other environments point at.
   */
  lemma LinkInWindow(w: Window, f: Facts, elsewhere: seq<Window>, arrival: Option<string>)
    requires w.Known? ==> Distinct(Names(w.goals)) && (arrival.Some? ==> PointsAt(elsewhere, w.goals, arrival.value))
    ensures var link := DecideLink(w, f, arrival);
            && (link.goal.Some? ==> w.Known? && link.goal.value in Names(w.goals))
            && (link.tied != [] ==> link.goal.None? && |link.tied| >= 2 && Distinct(link.tied)
                                    && forall name :: name in link.tied ==> name in Names(w.goals))
  {
    hide FrameEvidence;
    hide RouteHint;
    hide Names;
    hide Distinct;
    hide PointsAt;
    if w.Known? {
      EvidenceInWindow(f.files, w.goals, f.diffs, f.same);
      HintInWindow(f.asked, w.goals, f.titles);
      if arrival.Some? {
        ArrivalInWindow(elsewhere, w.goals, arrival.value);
      }
    }
  }

  // The order of the landings does not matter

  /** The same hits in whatever order. */
  ghost predicate SameHits(a: seq<Hit>, b: seq<Hit>) {
    DistinctHits(a) && DistinctHits(b) && forall h :: h in a <==> h in b
  }

  lemma SameBest(a: seq<Hit>, b: seq<Hit>)
    requires forall h :: h in a ==> h in b
    ensures Best(a) <= Best(b)
  {
    if Best(a) > 0 {
      var k :| 0 <= k < |a| && |a[k].said| == Best(a);
      assert a[k] in b;
    }
  }

  lemma SameLeaders(a: seq<Hit>, b: seq<Hit>)
    requires SameHits(a, b)
    ensures Best(a) == Best(b) && SameHits(Leaders(a), Leaders(b))
  {
    SameBest(a, b);
    SameBest(b, a);
    LeadersDistinct(a, Best(a));
    LeadersDistinct(b, Best(b));
  }

  ghost function Elements(hs: seq<Hit>): set<Hit> {
    set h | h in hs
  }

  lemma {:induction false} AsManyElements(hs: seq<Hit>)
    requires DistinctHits(hs)
    ensures |Elements(hs)| == |hs|
  {
    if hs == [] {
      assert Elements(hs) == {};
    } else {
      var n := |hs| - 1;
      AsManyElements(hs[..n]);
      assert forall k :: 0 <= k < n ==> hs[..n][k] == hs[k];
      assert hs == hs[..n] + [hs[n]];
      assert Elements(hs) == Elements(hs[..n]) + {hs[n]};
    }
  }

  lemma SameLength(a: seq<Hit>, b: seq<Hit>)
    requires SameHits(a, b)
    ensures |a| == |b|
  {
    AsManyElements(a);
    AsManyElements(b);
    assert Elements(a) == Elements(b);
  }

  lemma {:induction false} PathsSame(shas: seq<string>, diffs: map<string, seq<string>>)
    ensures Paths(shas, diffs).Some? <==> forall k :: 0 <= k < |shas| ==> shas[k] in diffs
    ensures Paths(shas, diffs).Some? ==>
              forall p :: p in Paths(shas, diffs).value <==> exists sha :: sha in shas && p in diffs[sha]
  {
    if shas != [] {
      var n := |shas| - 1;
      PathsSame(shas[..n], diffs);
      assert shas == shas[..n] + [shas[n]];
      if Paths(shas, diffs).Some? {
        forall p ensures p in Paths(shas, diffs).value <==> exists sha :: sha in shas && p in diffs[sha] {
          if p in diffs[shas[n]] {
            assert shas[n] in shas;
          }
        }
      }
    }
  }

  lemma {:induction false} TouchedSame(files: seq<string>, a: seq<string>, b: seq<string>,
      same: (string, string) -> bool)
    requires forall p :: p in a <==> p in b
    ensures Touched(files, a, same) == Touched(files, b, same)
  {
    if files != [] {
      TouchedSame(files[1..], a, b, same);
      if exists k :: 0 <= k < |a| && same(files[0], a[k]) {
        var k :| 0 <= k < |a| && same(files[0], a[k]);
        assert a[k] in b;
      }
      if exists k :: 0 <= k < |b| && same(files[0], b[k]) {
        var k :| 0 <= k < |b| && same(files[0], b[k]);
        assert b[k] in a;
      }
    }
  }

  function ShasOf(goals: seq<Goal>, name: string): (shas: seq<string>)
    requires name in Names(goals)
  {
    assert goals != [];
    if goals[|goals| - 1].name == name then goals[|goals| - 1].shas
    else
      NamesLast(goals);
      ShasOf(goals[..|goals| - 1], name)
  }

  lemma {:induction false} ShasHeld(goals: seq<Goal>, name: string)
    requires Distinct(Names(goals)) && name in Names(goals)
    ensures forall sha :: sha in ShasOf(goals, name) <==> Holds(goals, name, sha)
  {
    var n := |goals| - 1;
    NamesPrefix(goals);
    forall sha ensures sha in ShasOf(goals, name) <==> Holds(goals, name, sha) {
      HoldsLast(goals, name, sha);
      if goals[n].name != name {
        ShasHeld(goals[..n], name);
      } else {
        HeldNamed(goals[..n], name, sha);
      }
    }
  }

  lemma HoldsLast(goals: seq<Goal>, name: string, sha: string)
    requires goals != []
    ensures var n := |goals| - 1;
            Holds(goals, name, sha) <==> Holds(goals[..n], name, sha) || (goals[n].name == name && sha in goals[n].shas)
  {
    var n := |goals| - 1;
    if Holds(goals, name, sha) {
      var k :| 0 <= k < |goals| && goals[k].name == name && sha in goals[k].shas;
      assert k < n ==> goals[..n][k] == goals[k];
    }
    if Holds(goals[..n], name, sha) {
      var k :| 0 <= k < n && goals[..n][k].name == name && sha in goals[..n][k].shas;
      assert goals[k] == goals[..n][k];
    }
  }

  lemma HeldNamed(goals: seq<Goal>, name: string, sha: string)
    ensures Holds(goals, name, sha) ==> name in Names(goals)
  {
    if Holds(goals, name, sha) {
      var k :| 0 <= k < |goals| && goals[k].name == name && sha in goals[k].shas;
      assert Names(goals)[k] == name;
    }
  }

  /** The hits, goal by goal: what a goal is credited with depends on its own commits alone. */
  ghost predicate Credited(goals: seq<Goal>, files: seq<string>, diffs: map<string, seq<string>>,
      same: (string, string) -> bool, h: Hit) {
    && h.name in Names(goals) && h.said != []
    && var changed := Paths(ShasOf(goals, h.name), diffs);
    changed.Some? && h.said == Touched(files, changed.value, same)
  }

  lemma CreditedBefore(goals: seq<Goal>, files: seq<string>, diffs: map<string, seq<string>>,
      same: (string, string) -> bool, h: Hit)
    requires goals != [] && Distinct(Names(goals))
    ensures var n := |goals| - 1;
            && (h.name != goals[n].name ==>
               (Credited(goals, files, diffs, same, h) <==> Credited(goals[..n], files, diffs, same, h)))
            && (h.name == goals[n].name ==> !Credited(goals[..n], files, diffs, same, h))
            && (h.name == goals[n].name ==>
                  (Credited(goals, files, diffs, same, h) <==>
                     h.said != [] && Paths(goals[n].shas, diffs).Some?
                       && h.said == Touched(files, Paths(goals[n].shas, diffs).value, same)))
  {
    NamesPrefix(goals);
    hide Touched;
    hide Paths;
    hide Names;
    hide Distinct;
  }

  lemma KnownBefore(goals: seq<Goal>, diffs: map<string, seq<string>>)
    requires goals != [] && Distinct(Names(goals))
    ensures AllKnown(goals, diffs)
        <==> AllKnown(goals[..|goals| - 1], diffs) && Paths(goals[|goals| - 1].shas, diffs).Some?
  {
    NamesPrefix(goals);
    hide Paths;
    hide Names;
    hide Distinct;
    var n := |goals| - 1;
    assert forall name :: name in Names(goals[..n]) ==>
        name != goals[n].name && ShasOf(goals, name) == ShasOf(goals[..n], name);
    assert ShasOf(goals, goals[n].name) == goals[n].shas;
  }

  /** Every commit's changes are known. */
  ghost predicate AllKnown(goals: seq<Goal>, diffs: map<string, seq<string>>) {
    forall name :: name in Names(goals) ==> Paths(ShasOf(goals, name), diffs).Some?
  }

  lemma {:induction false} HitsKnown(goals: seq<Goal>, files: seq<string>, diffs: map<string, seq<string>>,
                                     same: (string, string) -> bool)
    requires Distinct(Names(goals))
    ensures Hits(goals, files, diffs, same).Some? <==> AllKnown(goals, diffs)
  {
    hide Touched;
    hide Paths;
    if goals != [] {
      NamesPrefix(goals);
      KnownBefore(goals, diffs);
      hide AllKnown;
      hide Names;
      hide Distinct;
      HitsKnown(goals[..|goals| - 1], files, diffs, same);
    }
  }

  lemma {:induction false} HitsCredited(goals: seq<Goal>, files: seq<string>, diffs: map<string, seq<string>>,
                                        same: (string, string) -> bool, h: Hit)
    requires Distinct(Names(goals)) && Hits(goals, files, diffs, same).Some?
    ensures h in Hits(goals, files, diffs, same).value <==> Credited(goals, files, diffs, same, h)
  {
    hide Touched;
    hide Paths;
    if goals != [] {
      NamesPrefix(goals);
      CreditedBefore(goals, files, diffs, same, h);
      hide Credited;
      hide Names;
      hide Distinct;
      HitsCredited(goals[..|goals| - 1], files, diffs, same, h);
    }
  }

  /** Windows with the same goals and commits credit the same goals with the same files. */
  lemma CreditedSame(a: seq<Goal>, b: seq<Goal>, files: seq<string>, diffs: map<string, seq<string>>,
      same: (string, string) -> bool, h: Hit)
    requires Same(a, b) && Credited(a, files, diffs, same, h)
    ensures Credited(b, files, diffs, same, h)
  {
    ShasSame(a, b, h.name);
    ChangedSame(ShasOf(a, h.name), ShasOf(b, h.name), diffs);
    hide ShasOf;
    hide Paths;
    hide Names;
    TouchedSame(files, Paths(ShasOf(a, h.name), diffs).value, Paths(ShasOf(b, h.name), diffs).value, same);
  }

  lemma ShasSame(a: seq<Goal>, b: seq<Goal>, name: string)
    requires Same(a, b) && name in Names(a)
    ensures name in Names(b) && forall sha :: sha in ShasOf(a, name) <==> sha in ShasOf(b, name)
  {
    hide Holds;
    hide Names;
    hide Distinct;
    hide ShasOf;
    ShasHeld(a, name);
    ShasHeld(b, name);
  }

  lemma ChangedSame(x: seq<string>, y: seq<string>, diffs: map<string, seq<string>>)
    requires forall sha :: sha in x <==> sha in y
    ensures Paths(x, diffs).Some? <==> Paths(y, diffs).Some?
    ensures Paths(x, diffs).Some? ==> forall p :: p in Paths(x, diffs).value <==> p in Paths(y, diffs).value
  {
    PathsSame(x, diffs);
    PathsSame(y, diffs);
    hide Paths;
    KnownAlike(x, y, diffs);
    KnownAlike(y, x, diffs);
  }

  lemma KnownAlike(x: seq<string>, y: seq<string>, diffs: map<string, seq<string>>)
    requires forall sha :: sha in x <==> sha in y
    ensures (forall k :: 0 <= k < |x| ==> x[k] in diffs) ==> forall k :: 0 <= k < |y| ==> y[k] in diffs
  {
    if forall k :: 0 <= k < |x| ==> x[k] in diffs {
      forall k | 0 <= k < |y| ensures y[k] in diffs {
        assert y[k] in x;
      }
    }
  }

  lemma KnownSame(a: seq<Goal>, b: seq<Goal>, diffs: map<string, seq<string>>)
    requires Same(a, b) && AllKnown(a, diffs)
    ensures AllKnown(b, diffs)
  {
    forall name | name in Names(b) ensures Paths(ShasOf(b, name), diffs).Some? {
      ShasSame(a, b, name);
      ChangedSame(ShasOf(a, name), ShasOf(b, name), diffs);
    }
  }

  lemma SameFlip(a: seq<Goal>, b: seq<Goal>)
    requires Same(a, b)
    ensures Same(b, a)
  {
    hide Holds;
    hide Names;
    hide Distinct;
  }

  lemma HitsSame(a: seq<Goal>, b: seq<Goal>, files: seq<string>, diffs: map<string, seq<string>>,
      same: (string, string) -> bool)
    requires Same(a, b)
    ensures Hits(a, files, diffs, same).Some? <==> Hits(b, files, diffs, same).Some?
    ensures Hits(a, files, diffs, same).Some? ==>
        SameHits(Hits(a, files, diffs, same).value, Hits(b, files, diffs, same).value)
  {
    HitsKnown(a, files, diffs, same);
    HitsKnown(b, files, diffs, same);
    SameFlip(a, b);
    if AllKnown(a, diffs) {
      KnownSame(a, b, diffs);
    }
    if AllKnown(b, diffs) {
      KnownSame(b, a, diffs);
    }
    hide AllKnown;
    if Hits(a, files, diffs, same).Some? {
      HitsNamed(a, files, diffs, same);
      HitsNamed(b, files, diffs, same);
      var x, y := Hits(a, files, diffs, same).value, Hits(b, files, diffs, same).value;
      hide Hits;
      hide Credited;
      hide Same;
      forall h ensures h in x <==> h in y {
        HitsCredited(a, files, diffs, same, h);
        HitsCredited(b, files, diffs, same, h);
        if Credited(a, files, diffs, same, h) {
          CreditedSame(a, b, files, diffs, same, h);
        }
        if Credited(b, files, diffs, same, h) {
          CreditedSame(b, a, files, diffs, same, h);
        }
      }
    }
  }

  /** The same evidence: of the same kind, for the same goal, or between the same goals. */
  ghost predicate SameEvidence(a: Evidence, b: Evidence) {
    match (a, b)
    case (Tied(x), Tied(y)) => forall name :: name in x <==> name in y
    case _ => a == b
  }

  lemma NamesOf(x: seq<Hit>, y: seq<Hit>)
    requires SameHits(x, y)
    ensures forall name :: name in HitNames(x) <==> name in HitNames(y)
  {
    forall name ensures name in HitNames(x) <==> name in HitNames(y) {
      HitNamesIn(x, name);
      HitNamesIn(y, name);
    }
  }

  lemma SameCount(x: seq<Hit>, y: seq<Hit>)
    requires SameHits(x, y)
    ensures |x| == |y| && (|x| == 1 ==> x[0] == y[0])
  {
    SameLength(x, y);
    if |x| == 1 {
      assert x[0] in y;
    }
  }

  lemma PickedSame(x: seq<Hit>, y: seq<Hit>)
    requires SameHits(x, y)
    ensures SameEvidence(Picked(x), Picked(y))
  {
    hide SameHits;
    hide Leaders;
    SameCount(x, y);
    SameLeaders(x, y);
    SameCount(Leaders(x), Leaders(y));
    NamesOf(Leaders(x), Leaders(y));
  }

  lemma EvidenceSame(a: seq<Goal>, b: seq<Goal>, files: seq<string>, diffs: map<string, seq<string>>,
      same: (string, string) -> bool)
    requires Same(a, b)
    ensures SameEvidence(FrameEvidence(files, a, diffs, same), FrameEvidence(files, b, diffs, same))
  {
    hide Hits;
    hide Same;
    hide SameHits;
    hide Picked;
    HitsSame(a, b, files, diffs, same);
    var x, y := Hits(a, files, diffs, same), Hits(b, files, diffs, same);
    if x.Some? {
      PickedSame(x.value, y.value);
    }
  }

  // The other environments' arrivals

  ghost predicate SameWindow(a: Window, b: Window) {
    match (a, b)
    case (Known(x), Known(y)) => Same(x, y)
    case _ => a == b
  }

  lemma {:induction false} NarrowedDistinct(names: seq<string>, here: seq<string>)
    requires Distinct(names)
    ensures Distinct(Narrowed(names, here))
  {
    if names != [] {
      assert forall k :: 0 <= k < |names| - 1 ==> names[1..][k] == names[k + 1];
      NarrowedDistinct(names[1..], here);
      var rest := Narrowed(names[1..], here);
      forall k | 0 <= k < |rest| ensures rest[k] != names[0] {
        assert rest[k] in rest;
        var j :| 0 <= j < |names[1..]| && names[1..][j] == rest[k];
        assert names[j + 1] == rest[k];
      }
    }
  }

  lemma Repeated(y: seq<string>)
    requires |y| > 1 && y[0] == y[1]
    ensures !Distinct(y)
  {
  }

  lemma OneName(x: seq<string>, y: seq<string>)
    requires Distinct(y) && |x| == 1 && forall n :: n in x <==> n in y
    ensures y == x
  {
    hide Distinct;
    assert x[0] in y;
    forall k | 0 <= k < |y| ensures y[k] == x[0] {
      assert y[k] in x;
    }
    if |y| > 1 {
      Repeated(y);
    }
  }

  lemma VoteSame(there: Window, that: Window, here: seq<Goal>, hither: seq<Goal>)
    requires SameWindow(there, that) && Same(here, hither)
    ensures Vote(there, here) == Vote(that, hither)
  {
    hide Holds;
    if there.Known? {
      var x, y := Narrowed(Names(there.goals), Names(here)), Narrowed(Names(that.goals), Names(hither));
      NarrowedDistinct(Names(there.goals), Names(here));
      NarrowedDistinct(Names(that.goals), Names(hither));
      hide Names;
      hide Narrowed;
      assert forall n :: n in x <==> n in y;
      if |x| == 1 {
        OneName(x, y);
      }
      if |y| == 1 {
        OneName(y, x);
      }
    }
  }

  lemma {:induction false} VotesSame(elsewhere: seq<Window>, those: seq<Window>, here: seq<Goal>, hither: seq<Goal>)
    requires Same(here, hither)
    requires |elsewhere| == |those| && forall k :: 0 <= k < |elsewhere| ==> SameWindow(elsewhere[k], those[k])
    ensures Votes(elsewhere, here) == Votes(those, hither)
  {
    hide Same;
    hide SameWindow;
    hide Vote;
    if elsewhere != [] {
      var n := |elsewhere| - 1;
      VoteSame(elsewhere[n], those[n], here, hither);
      VotesSame(elsewhere[..n], those[..n], here, hither);
    }
  }

  // The hint

  lemma ScoredHits(names: seq<string>, asked: seq<string>, titles: string -> set<string>, h: Hit)
    ensures h in Scored(names, asked, titles) <==> h.name in names && h.said == Shared(asked, titles(h.name))
  {
    var hs := Scored(names, asked, titles);
    if h in hs {
      var k :| 0 <= k < |hs| && hs[k] == h;
      assert h == Hit(names[k], Shared(asked, titles(names[k])));
    }
    if h.name in names && h.said == Shared(asked, titles(h.name)) {
      var k :| 0 <= k < |names| && names[k] == h.name;
      assert hs[k] == h;
    }
  }

  lemma ScoredDistinct(names: seq<string>, asked: seq<string>, titles: string -> set<string>)
    requires Distinct(names)
    ensures DistinctHits(Scored(names, asked, titles))
  {
    hide Scored;
  }

  lemma ScoredSame(a: seq<Goal>, b: seq<Goal>, asked: seq<string>, titles: string -> set<string>)
    requires Same(a, b)
    ensures SameHits(Scored(Names(a), asked, titles), Scored(Names(b), asked, titles)) && |a| == |b|
  {
    hide Holds;
    hide Names;
    hide Shared;
    var x, y := Scored(Names(a), asked, titles), Scored(Names(b), asked, titles);
    forall h ensures h in x <==> h in y {
      ScoredHits(Names(a), asked, titles, h);
      ScoredHits(Names(b), asked, titles, h);
    }
    ScoredDistinct(Names(a), asked, titles);
    ScoredDistinct(Names(b), asked, titles);
    hide DistinctHits;
    hide Distinct;
    SameCount(x, y);
  }

  lemma HintSame(a: seq<Goal>, b: seq<Goal>, asked: seq<string>, titles: string -> set<string>)
    requires Same(a, b)
    ensures RouteHint(asked, a, titles) == RouteHint(asked, b, titles)
  {
    hide Same;
    hide SameHits;
    hide Leaders;
    hide Scored;
    hide Names;
    ScoredSame(a, b, asked, titles);
    var x, y := Scored(Names(a), asked, titles), Scored(Names(b), asked, titles);
    SameLeaders(x, y);
    SameCount(Leaders(x), Leaders(y));
  }

  // The decision

  /** The same link: to the same goal for the same reasons, out of as many, or tied between the same ones. */
  ghost predicate SameLink(a: Link, b: Link) {
    && a.goal == b.goal && a.how == b.how && a.candidates == b.candidates
    && forall name :: name in a.tied <==> name in b.tied
  }

  lemma DecisionSame(w: Window, v: Window, f: Facts, arrival: Option<string>)
    requires SameWindow(w, v)
    ensures SameLink(DecideLink(w, f, arrival), DecideLink(v, f, arrival))
  {
    hide Same;
    hide FrameEvidence;
    hide RouteHint;
    hide Scored;
    hide SameHits;
    hide Names;
    if w.Known? {
      EvidenceSame(w.goals, v.goals, f.files, f.diffs, f.same);
      HintSame(w.goals, v.goals, f.asked, f.titles);
      ScoredSame(w.goals, v.goals, f.asked, f.titles);
    }
  }

  /** What the arrivals elsewhere say: the one goal they all point at, or nothing. */
  ghost predicate IsArrival(elsewhere: seq<Window>, here: Window, arrival: Option<string>) {
    match arrival
    case Some(name) => here.Known? && PointsAt(elsewhere, here.goals, name)
    case None => here.Known? ==> forall name :: !PointsAt(elsewhere, here.goals, name)
  }

  lemma ArrivalSame(elsewhere: seq<Window>, those: seq<Window>, here: Window, hither: Window,
      arrival: Option<string>, other: Option<string>)
    requires SameWindow(here, hither)
    requires |elsewhere| == |those| && forall k :: 0 <= k < |elsewhere| ==> SameWindow(elsewhere[k], those[k])
    requires IsArrival(elsewhere, here, arrival) && IsArrival(those, hither, other)
    ensures arrival == other
  {
    if here.Known? {
      VotesSame(elsewhere, those, here.goals, hither.goals);
      if arrival.Some? {
        assert PointsAt(those, hither.goals, arrival.value);
        assert arrival.value in Votes(elsewhere, here.goals);
      }
      if other.Some? {
        assert PointsAt(elsewhere, here.goals, other.value);
      }
    }
  }

  function Windows(landings: seq<Landing>, standings: seq<Landing -> Standing>): (ws: seq<Window>)
    ensures |ws| == |standings| && forall k :: 0 <= k < |ws| ==> ws[k] == WindowOf(landings, standings[k])
  {
    seq(|standings|, k requires 0 <= k < |standings| => WindowOf(landings, standings[k]))
  }

  /** The landings in another order decide the same link: here and everywhere the error was seen first. */
  lemma LandingOrder(landings: seq<Landing>, other: seq<Landing>, here: Landing -> Standing,
      elsewhere: seq<Landing -> Standing>,
                     f: Facts, arrival: Option<string>, that: Option<string>)
    requires forall l :: l in landings <==> l in other
    requires IsArrival(Windows(landings, elsewhere), WindowOf(landings, here), arrival)
    requires IsArrival(Windows(other, elsewhere), WindowOf(other, here), that)
    ensures SameLink(DecideLink(WindowOf(landings, here), f, arrival), DecideLink(WindowOf(other, here), f, that))
  {
    hide Same;
    hide IsArrival;
    hide DecideLink;
    hide SameLink;
    hide WindowOf;
    OrderDoesNotMatter(landings, other, here);
    var x, y := Windows(landings, elsewhere), Windows(other, elsewhere);
    forall k | 0 <= k < |x| ensures SameWindow(x[k], y[k]) {
      OrderDoesNotMatter(landings, other, elsewhere[k]);
    }
    ArrivalSame(x, y, WindowOf(landings, here), WindowOf(other, here), arrival, that);
    DecisionSame(WindowOf(landings, here), WindowOf(other, here), f, arrival);
  }
}
