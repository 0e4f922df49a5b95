// Which goal an error group is linked to, and why: the decision told by what the goals changed and are called.
module AppErrorReasons {
  import opened Options
  import opened Sequences
  import opened AppErrorLink
  import opened AppErrorDecision

  // What speaks for a goal

  /** A commit of the goal changed a file that is the same one. */
  ghost predicate ChangedBy(goals: seq<Goal>, f: Facts, name: string, file: string) {
    exists sha, path :: Holds(goals, name, sha) && sha in f.diffs && path in f.diffs[sha] && f.same(file, path)
  }

  /** How many of the frames' files the goal changed. */
  ghost function FrameScore(goals: seq<Goal>, f: Facts, name: string, files: seq<string>): nat {
    if files == [] then 0
    else (if ChangedBy(goals, f, name, files[0]) then 1 else 0) + FrameScore(goals, f, name, files[1..])
  }

  /** How many of the words asked for the goal's title has. */
  function WordScore(asked: seq<string>, title: set<string>): nat {
    if asked == [] then 0 else (if asked[0] in title then 1 else 0) + WordScore(asked[1..], title)
  }

  ghost function FrameScores(goals: seq<Goal>, f: Facts): map<string, nat> {
    map name | name in Names(goals) :: FrameScore(goals, f, name, f.files)
  }

  function WordScores(goals: seq<Goal>, f: Facts): map<string, nat> {
    map name | name in Names(goals) :: WordScore(f.asked, f.titles(name))
  }

  /** Ahead of every other goal. */
  ghost predicate Alone(scores: map<string, nat>, name: string) {
    && name in scores && scores[name] > 0
    && forall other :: other in scores && other != name ==> scores[other] < scores[name]
  }

  /** Behind no other goal. */
  ghost predicate AtTop(scores: map<string, nat>, name: string) {
    && name in scores && scores[name] > 0
    && forall other :: other in scores ==> scores[other] <= scores[name]
  }

  /** Every commit in the window has its changes listed. */
  ghost predicate Listed(goals: seq<Goal>, f: Facts) {
    forall name, sha :: Holds(goals, name, sha) ==> sha in f.diffs
  }

  // The hits say the scores

  ghost predicate Scores(hits: seq<Hit>, scores: map<string, nat>) {
    && DistinctHits(hits) && (forall h :: h in hits ==> h.name in scores && scores[h.name] == |h.said|)
    && forall name :: name in scores && scores[name] > 0 ==> exists h :: h in hits && h.name == name
  }

  lemma TopIsBest(hits: seq<Hit>, scores: map<string, nat>, h: Hit)
    requires Scores(hits, scores) && Best(hits) > 0
    ensures h in Leaders(hits) <==> h in hits && AtTop(scores, h.name)
  {
    hide DistinctHits;
    var best :| 0 <= best < |hits| && |hits[best].said| == Best(hits);
    assert hits[best] in hits;
    if h in Leaders(hits) {
      forall other | other in scores ensures scores[other] <= scores[h.name] {
        if scores[other] > 0 {
          var g :| g in hits && g.name == other;
        }
      }
    }
  }

  lemma NoTop(hits: seq<Hit>, scores: map<string, nat>)
    requires Scores(hits, scores)
    ensures Best(hits) == 0 <==> forall name :: !AtTop(scores, name)
  {
    hide DistinctHits;
    if Best(hits) > 0 {
      var best :| 0 <= best < |hits| && |hits[best].said| == Best(hits);
      assert hits[best] in hits && hits[best] in Leaders(hits);
      TopIsBest(hits, scores, hits[best]);
    }
    if name: string :| AtTop(scores, name) {
      var h :| h in hits && h.name == name;
      var k :| 0 <= k < |hits| && hits[k] == h;
      assert 0 < |hits[k].said| <= Best(hits);
    }
  }

  /** One leader is one goal ahead of every other, and more are those that tie. */
  lemma LeadersTop(hits: seq<Hit>, scores: map<string, nat>)
    requires Scores(hits, scores) && Best(hits) > 0
    ensures var leaders := Leaders(hits);
            && leaders != [] && (forall name :: name in HitNames(leaders) <==> AtTop(scores, name))
            && (|leaders| == 1 ==> Alone(scores, leaders[0].name))
            && (|leaders| > 1 ==> forall name :: !Alone(scores, name))
            && Distinct(HitNames(leaders))
  {
    hide Leaders;
    hide Scores;
    hide Alone;
    hide AtTop;
    var leaders := Leaders(hits);
    LeadersApart(hits, scores);
    forall name ensures name in HitNames(leaders) <==> AtTop(scores, name) {
      HitNamesIn(leaders, name);
      TopNamed(hits, scores, name);
    }
    if |leaders| == 1 {
      OneTop(scores, HitNames(leaders), leaders[0].name);
    } else {
      assert HitNames(leaders)[0] in HitNames(leaders) && HitNames(leaders)[1] in HitNames(leaders);
      MoreTop(scores, HitNames(leaders)[0], HitNames(leaders)[1]);
    }
  }

  lemma LeadersApart(hits: seq<Hit>, scores: map<string, nat>)
    requires Scores(hits, scores) && Best(hits) > 0
    ensures Leaders(hits) != [] && Distinct(HitNames(Leaders(hits)))
  {
    var best :| 0 <= best < |hits| && |hits[best].said| == Best(hits);
    assert hits[best] in hits && hits[best] in Leaders(hits);
    LeadersDistinct(hits, Best(hits));
  }

  lemma TopNamed(hits: seq<Hit>, scores: map<string, nat>, name: string)
    requires Scores(hits, scores) && Best(hits) > 0
    ensures (exists h :: h in Leaders(hits) && h.name == name) <==> AtTop(scores, name)
  {
    hide Leaders;
    hide DistinctHits;
    if AtTop(scores, name) {
      var h :| h in hits && h.name == name;
      TopIsBest(hits, scores, h);
    }
    if h: Hit :| h in Leaders(hits) && h.name == name {
      TopIsBest(hits, scores, h);
    }
  }

  lemma OneTop(scores: map<string, nat>, names: seq<string>, name: string)
    requires names == [name] && forall n :: n in names <==> AtTop(scores, n)
    ensures Alone(scores, name)
  {
    assert name in names;
    forall other | other in scores && other != name ensures scores[other] < scores[name] {
      assert other !in names;
    }
  }

  lemma MoreTop(scores: map<string, nat>, a: string, b: string)
    requires a != b && AtTop(scores, a) && AtTop(scores, b)
    ensures forall name :: !Alone(scores, name)
  {
  }

  // Frames

  lemma PathsListed(goals: seq<Goal>, f: Facts)
    requires Distinct(Names(goals))
    ensures AllKnown(goals, f.diffs) <==> Listed(goals, f)
  {
    hide Paths;
    hide ShasOf;
    forall name | name in Names(goals)
      ensures Paths(ShasOf(goals, name), f.diffs).Some? <==> forall sha :: Holds(goals, name, sha) ==> sha in f.diffs {
      PathsSame(ShasOf(goals, name), f.diffs);
      ShasHeld(goals, name);
    }
    forall name, sha | Holds(goals, name, sha) ensures name in Names(goals) {
      HeldNamed(goals, name, sha);
    }
    hide Names;
    hide Holds;
    hide Distinct;
  }

  lemma ChangedAs(goals: seq<Goal>, f: Facts, name: string, changed: seq<string>, file: string)
    requires forall p :: p in changed <==> exists sha :: Holds(goals, name, sha) && sha in f.diffs && p in f.diffs[sha]
    ensures ChangedBy(goals, f, name, file) <==> exists k :: 0 <= k < |changed| && f.same(file, changed[k])
  {
    hide Holds;
    if ChangedBy(goals, f, name, file) {
      var sha, path :| Holds(goals, name, sha) && sha in f.diffs && path in f.diffs[sha] && f.same(file, path);
      assert path in changed;
      var k :| 0 <= k < |changed| && changed[k] == path;
    }
    if k: int :| 0 <= k < |changed| && f.same(file, changed[k]) {
      assert changed[k] in changed;
    }
  }

  lemma {:induction false} TouchedScore(goals: seq<Goal>, f: Facts, name: string, changed: seq<string>,
                                        files: seq<string>)
    requires forall p :: p in changed <==> exists sha :: Holds(goals, name, sha) && sha in f.diffs && p in f.diffs[sha]
    ensures |Touched(files, changed, f.same)| == FrameScore(goals, f, name, files)
  {
    hide Holds;
    if files != [] {
      ChangedAs(goals, f, name, changed, files[0]);
      hide ChangedBy;
      TouchedScore(goals, f, name, changed, files[1..]);
    }
  }

  /** A goal is credited with as many files as it changed. */
  lemma CreditScore(goals: seq<Goal>, f: Facts, name: string) returns (said: seq<string>)
    requires Distinct(Names(goals)) && AllKnown(goals, f.diffs) && name in Names(goals)
    ensures |said| == FrameScore(goals, f, name, f.files)
    ensures forall other :: Credited(goals, f.files, f.diffs, f.same, Hit(name, other)) <==> other == said && said != []
  {
    hide Touched;
    hide Paths;
    hide ShasOf;
    hide Names;
    var shas := ShasOf(goals, name);
    PathsSame(shas, f.diffs);
    ShasHeld(goals, name);
    var changed := Paths(shas, f.diffs).value;
    hide Holds;
    hide Distinct;
    TouchedScore(goals, f, name, changed, f.files);
    said := Touched(f.files, changed, f.same);
    hide FrameScore;
  }

  lemma HitScores(goals: seq<Goal>, f: Facts)
    requires Distinct(Names(goals)) && AllKnown(goals, f.diffs)
    ensures Hits(goals, f.files, f.diffs, f.same).Some?
    ensures Scores(Hits(goals, f.files, f.diffs, f.same).value, FrameScores(goals, f))
    ensures forall h :: h in Hits(goals, f.files, f.diffs, f.same).value ==> h.said != []
  {
    hide Hits;
    hide Touched;
    hide FrameScore;
    hide Names;
    hide Distinct;
    hide AllKnown;
    HitsKnown(goals, f.files, f.diffs, f.same);
    HitsNamed(goals, f.files, f.diffs, f.same);
    var hits := Hits(goals, f.files, f.diffs, f.same).value;
    forall name | name in Names(goals)
      ensures forall h :: h in hits && h.name == name ==> |h.said| == FrameScore(goals, f, name, f.files)
      ensures FrameScore(goals, f, name, f.files) > 0 ==> exists h :: h in hits && h.name == name {
      var said := CreditScore(goals, f, name);
      forall h | h in hits && h.name == name ensures h.said == said {
        HitsCredited(goals, f.files, f.diffs, f.same, h);
        assert h == Hit(name, h.said);
      }
      if said != [] {
        HitsCredited(goals, f.files, f.diffs, f.same, Hit(name, said));
        assert Hit(name, said) in hits;
      }
    }
    hide Credited;
  }

  // The title's words

  lemma {:induction false} SharedScore(asked: seq<string>, title: set<string>)
    ensures |Shared(asked, title)| == WordScore(asked, title)
  {
    if asked != [] {
      SharedScore(asked[1..], title);
    }
  }

  lemma HintScores(goals: seq<Goal>, f: Facts)
    requires Distinct(Names(goals))
    ensures Scores(Scored(Names(goals), f.asked, f.titles), WordScores(goals, f))
  {
    hide Names;
    hide Shared;
    hide WordScore;
    var scored, names := Scored(Names(goals), f.asked, f.titles), Names(goals);
    ScoredDistinct(names, f.asked, f.titles);
    hide Distinct;
    hide DistinctHits;
    forall h | h in scored ensures h.name in names && |h.said| == WordScore(f.asked, f.titles(h.name)) {
      ScoredHits(names, f.asked, f.titles, h);
      SharedScore(f.asked, f.titles(h.name));
    }
    forall name | name in names ensures exists h :: h in scored && h.name == name {
      var h := Hit(name, Shared(f.asked, f.titles(name)));
      ScoredHits(names, f.asked, f.titles, h);
      assert h in scored;
    }
  }

  /** The hint is the one goal whose title has the most of the words asked for. */
  lemma HintSays(goals: seq<Goal>, f: Facts)
    requires Distinct(Names(goals))
    ensures var hint, scores := RouteHint(f.asked, goals, f.titles), WordScores(goals, f);
            forall name :: hint == Some(name) <==> Alone(scores, name)
  {
    hide Names;
    hide Distinct;
    hide WordScores;
    var scored, scores := Scored(Names(goals), f.asked, f.titles), WordScores(goals, f);
    HintScores(goals, f);
    NoTop(scored, scores);
    if Best(scored) > 0 {
      LeadersTop(scored, scores);
    }
    hide Leaders;
    hide Scores;
    AloneIsTop(scores);
  }

  lemma AloneIsTop(scores: map<string, nat>)
    ensures forall name :: Alone(scores, name) ==> AtTop(scores, name)
    ensures forall a, b :: Alone(scores, a) && Alone(scores, b) ==> a == b
  {
  }

  // The frames' evidence

  /** What the frames say: the goal ahead, those that tie, or nothing; and unknown where a commit's changes are. */
  lemma FramesSay(goals: seq<Goal>, f: Facts)
    requires Distinct(Names(goals))
    ensures var e, scores := FrameEvidence(f.files, goals, f.diffs, f.same), FrameScores(goals, f);
            if f.files != [] && !Listed(goals, f) then e.Unknown?
            else
              && !e.Unknown? && (e.NoEvidence? <==> forall name :: !AtTop(scores, name))
              && (forall name :: Alone(scores, name) <==> e.One? && e.name == name)
              && (e.Tied? ==> |e.names| >= 2 && Distinct(e.names)
                              && forall name :: name in e.names <==> AtTop(scores, name))
  {
    PathsListed(goals, f);
    HitsKnown(goals, f.files, f.diffs, f.same);
    hide Listed;
    hide Hits;
    hide Names;
    if f.files == [] {
      NoScore(goals, f);
      hide FrameScores;
    } else if AllKnown(goals, f.diffs) {
      hide AllKnown;
      HitScores(goals, f);
      hide FrameScores;
      hide Distinct;
      var hits, scores := Hits(goals, f.files, f.diffs, f.same).value, FrameScores(goals, f);
      PickedSays(hits, scores);
      hide Picked;
    }
  }

  lemma NoScore(goals: seq<Goal>, f: Facts)
    requires f.files == []
    ensures forall name :: !AtTop(FrameScores(goals, f), name) && !Alone(FrameScores(goals, f), name)
  {
  }

  lemma PickedSays(hits: seq<Hit>, scores: map<string, nat>)
    requires Scores(hits, scores) && forall h :: h in hits ==> h.said != []
    ensures var e := Picked(hits);
            && !e.Unknown? && (e.NoEvidence? <==> forall name :: !AtTop(scores, name))
            && (forall name :: Alone(scores, name) <==> e.One? && e.name == name)
            && (e.Tied? ==> |e.names| >= 2 && Distinct(e.names)
                            && forall name :: name in e.names <==> AtTop(scores, name))
  {
    NoTop(hits, scores);
    AloneIsTop(scores);
    if hits != [] {
      NotNone(hits);
      LeadersTop(hits, scores);
      assert HitNames(Leaders(hits))[0] in HitNames(Leaders(hits));
    }
    hide Scores;
    hide Leaders;
    hide Alone;
    hide AtTop;
    hide Best;
  }

  // The decision

  /** The link the arrival gives where the frames say nothing: by the arrival, or by the one title ahead. */
  ghost predicate WithoutFrames(link: Link, words: map<string, nat>, arrival: Option<string>, n: nat) {
    if arrival.Some? then link == Link(arrival, [ByArrival], Some(n), [])
    else if exists name :: Alone(words, name) then
      exists name :: Alone(words, name) && link == Link(Some(name), [ByHint], Some(n), [])
    else link == Link(None, [], Some(n), [])
  }

  /** The link the frames give: to the goal ahead, or among those that tie to the arrival's. */
  ghost predicate WithFrames(link: Link, frames: map<string, nat>, arrival: Option<string>, n: nat) {
    if exists name :: Alone(frames, name) then
      exists name :: Alone(frames, name)
        && link
           == Link(Some(name), if arrival == Some(name) then [FrameMatch, ByArrival] else [FrameMatch], Some(n), [])
    else if arrival.Some? && AtTop(frames, arrival.value) then
      link == Link(arrival, [FrameMatch, ByArrival], Some(n), [])
    else
      && link == Link(None, [], Some(n), link.tied) && |link.tied| >= 2 && Distinct(link.tied)
      && forall name :: name in link.tied <==> AtTop(frames, name)
  }

  /**
   * A group is linked to the goal that changed more of its frames' files than any other; of goals that tie to the one
   * the arrivals point at, if it is one of them; with no goal that changed any to the arrivals', and failing that to
   * the one whose title has most of the words asked for. It is linked by exactly what it is linked for.
   */
  lemma LinkSays(w: Window, f: Facts, arrival: Option<string>)
    requires w.Known? ==> Distinct(Names(w.goals))
    ensures var link := DecideLink(w, f, arrival);
            if w.Undecided? then link == Link(None, [], None, [])
            else if w.goals == [] then link == Link(None, [], Some(0), [])
            else
              var n, frames := |w.goals|, FrameScores(w.goals, f);
              if f.files != [] && !Listed(w.goals, f) then
                link == if arrival.Some? then Link(arrival, [ByArrival], Some(n), []) else Link(None, [], Some(n), [])
              else if exists name :: AtTop(frames, name) then WithFrames(link, frames, arrival, n)
              else WithoutFrames(link, WordScores(w.goals, f), arrival, n)
  {
    hide FrameEvidence;
    hide RouteHint;
    hide Names;
    hide Distinct;
    hide FrameScores;
    hide WordScores;
    hide Listed;
    hide Alone;
    hide AtTop;
    if w.Known? && w.goals != [] {
      FramesSay(w.goals, f);
      HintSays(w.goals, f);
      var e, frames := FrameEvidence(f.files, w.goals, f.diffs, f.same), FrameScores(w.goals, f);
      AloneIsTop(frames);
      if e.One? {
        assert AtTop(frames, e.name) && Alone(frames, e.name);
      } else if e.Tied? {
        assert AtTop(frames, e.names[0]);
      } else if e.NoEvidence? && arrival.None? {
        var hint := RouteHint(f.asked, w.goals, f.titles);
        assert hint.Some? ==> Alone(WordScores(w.goals, f), hint.value);
      }
    }
  }
}
