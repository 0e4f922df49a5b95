// The weighted stage scheduler of `scripts/check.ts`.
module CheckStages {

  datatype Stage = Stage(name: string, weight: nat)

  function Sum(stages: seq<Stage>): nat {
    if stages == [] then 0 else stages[0].weight + Sum(stages[1..])
  }

  lemma SumOneMore(a: seq<Stage>, s: Stage)
    ensures Sum([]) == 0 && Sum([s]) == s.weight && Sum(a + [s]) == Sum(a) + s.weight
  {
    SumJoined(a, [s]);
    assert [s][1..] == [];
  }

  lemma {:induction false} SumJoined(a: seq<Stage>, b: seq<Stage>)
    ensures Sum(a + b) == Sum(a) + Sum(b)
  {
    if a == [] {
      assert a + b == b;
    } else {
      assert (a + b)[1..] == a[1..] + b;
      SumJoined(a[1..], b);
    }
  }

  function Without(stages: seq<Stage>, i: nat): seq<Stage>
    requires i < |stages|
  {
    stages[..i] + stages[i + 1..]
  }

  lemma MiddleSum(a: seq<Stage>, x: Stage, b: seq<Stage>)
    ensures Sum(a + ([x] + b)) == Sum(a + b) + x.weight
  {
    SumJoined(a, [x] + b);
    SumJoined([x], b);
    SumJoined(a, b);
  }

  lemma MiddleCount(a: seq<Stage>, x: Stage, b: seq<Stage>)
    ensures multiset(a + ([x] + b)) == multiset(a + b) + multiset{x}
  {
  }

  lemma Around(stages: seq<Stage>, i: nat)
    requires i < |stages|
    ensures stages == stages[..i] + ([stages[i]] + stages[i + 1..])
  {
  }

  lemma WithoutSum(stages: seq<Stage>, i: nat)
    requires i < |stages|
    ensures Sum(Without(stages, i)) == Sum(stages) - stages[i].weight
  {
    hide Sum;
    Around(stages, i);
    MiddleSum(stages[..i], stages[i], stages[i + 1..]);
  }

  lemma WithoutCount(stages: seq<Stage>, i: nat)
    requires i < |stages|
    ensures multiset(stages) == multiset(Without(stages, i)) + multiset{stages[i]}
  {
    Around(stages, i);
    MiddleCount(stages[..i], stages[i], stages[i + 1..]);
  }

  // Heaviest first

  predicate Descending(stages: seq<Stage>) {
    forall i, j :: 0 <= i < j < |stages| ==> stages[i].weight >= stages[j].weight
  }

  /** A stage put after every stage that is at least as heavy. */
  function Insert(s: Stage, stages: seq<Stage>): seq<Stage> {
    if stages == [] || stages[0].weight < s.weight then [s] + stages else [stages[0]] + Insert(s, stages[1..])
  }

  /** A stable sort, heaviest first. */
  function Sorted(stages: seq<Stage>): seq<Stage> {
    if stages == [] then [] else Insert(stages[|stages| - 1], Sorted(stages[..|stages| - 1]))
  }

  lemma {:induction false} InsertCount(s: Stage, stages: seq<Stage>)
    ensures multiset(Insert(s, stages)) == multiset(stages) + multiset{s}
  {
    if stages != [] && stages[0].weight >= s.weight {
      InsertCount(s, stages[1..]);
      assert stages == [stages[0]] + stages[1..];
    }
  }

  predicate AtMost(stages: seq<Stage>, weight: nat) {
    forall k :: 0 <= k < |stages| ==> stages[k].weight <= weight
  }

  lemma {:induction false} InsertAtMost(s: Stage, stages: seq<Stage>, weight: nat)
    requires s.weight <= weight && AtMost(stages, weight)
    ensures AtMost(Insert(s, stages), weight)
  {
    if stages != [] && stages[0].weight >= s.weight {
      InsertAtMost(s, stages[1..], weight);
    }
  }

  lemma {:induction false} InsertKeeps(s: Stage, stages: seq<Stage>)
    requires Descending(stages)
    ensures Descending(Insert(s, stages))
  {
    if stages != [] && stages[0].weight >= s.weight {
      InsertKeeps(s, stages[1..]);
      InsertAtMost(s, stages[1..], stages[0].weight);
    }
  }

  lemma {:induction false} SortedKeeps(stages: seq<Stage>)
    ensures Descending(Sorted(stages)) && multiset(Sorted(stages)) == multiset(stages)
  {
    if stages != [] {
      var n := |stages| - 1;
      SortedKeeps(stages[..n]);
      InsertKeeps(stages[n], Sorted(stages[..n]));
      InsertCount(stages[n], Sorted(stages[..n]));
      assert stages == stages[..n] + [stages[n]];
    }
  }

  class Scheduler {
    const cores: nat
    ghost const stages: seq<Stage>
    var queue: seq<Stage>
    var inFlight: seq<Stage>
    var load: int
    var results: seq<Stage>
    ghost var started: seq<Stage>

    /** The load is the weights in flight, over the budget only for a stage alone, and no stage is lost or run twice. */
    ghost predicate Valid()
      reads this
    {
      && load == Sum(inFlight)
      && (load <= cores || |inFlight| == 1)
      && started + queue == Sorted(stages)
      && multiset(started) == multiset(inFlight) + multiset(results)
    }

    constructor (stages: seq<Stage>, cores: nat)
      ensures Valid() && this.stages == stages && this.cores == cores
      ensures queue == Sorted(stages) && inFlight == results == started == []
    {
      this.cores := cores;
      this.stages := stages;
      queue := Sorted(stages);
      inFlight, results, started := [], [], [];
      load := 0;
      new;
      assert started + queue == queue;
    }

    lemma StartedNext(started: seq<Stage>, queue: seq<Stage>)
      requires queue != []
      ensures started + queue == (started + [queue[0]]) + queue[1..]
    {
    }

    /** Starting stages in order while the next one fits, or nothing is running. */
    method Fill()
      requires Valid()
      modifies this`queue, this`inFlight, this`load, this`started
      ensures Valid() && results == old(results)
      ensures |queue| + |inFlight| == |old(queue)| + |old(inFlight)|
      ensures old(started) <= started && |queue| <= |old(queue)|
      ensures queue != [] ==> inFlight != [] && load + queue[0].weight > cores
      ensures old(inFlight) == [] && old(queue) != [] ==> inFlight != []
    {
      hide Sum;
      hide Sorted;
      while queue != []
        invariant Valid() && results == old(results)
        invariant |queue| + |inFlight| == |old(queue)| + |old(inFlight)|
        invariant old(started) <= started && |queue| <= |old(queue)|
        invariant |inFlight| >= |old(inFlight)| && (queue != old(queue) ==> inFlight != [])
        decreases |queue|
      {
        var next := queue[0];
        if inFlight != [] && load + next.weight > cores {
          break;
        }
        SumOneMore(inFlight, next);
        StartedNext(started, queue);
        queue := queue[1..];
        load := load + next.weight;
        inFlight := inFlight + [next];
        started := started + [next];
      }
    }

    /** One stage's completion. */
    method Finish(i: nat)
      requires Valid() && i < |inFlight|
      modifies this`inFlight, this`load, this`results
      ensures Valid()
      ensures inFlight == Without(old(inFlight), i) && results == old(results) + [old(inFlight)[i]]
      ensures load == old(load) - old(inFlight)[i].weight
    {
      WithoutSum(inFlight, i);
      WithoutCount(inFlight, i);
      var stage := inFlight[i];
      inFlight := Without(inFlight, i);
      load := load - stage.weight;
      results := results + [stage];
    }

    /** Waiting for at least one completion, with something in flight to wait for; others may come in with it. */
    method Race()
      requires Valid() && inFlight != []
      modifies this`inFlight, this`load, this`results
      ensures Valid() && |inFlight| < |old(inFlight)|
    {
      var first: nat :| first < |inFlight|;
      Finish(first);
      var more: nat :| more <= |inFlight|;
      while more > 0
        invariant Valid() && more <= |inFlight| < |old(inFlight)|
        decreases more
      {
        var next: nat :| next < |inFlight|;
        Finish(next);
        more := more - 1;
      }
    }

    /** Every stage is started exactly once, heaviest first, and has its result. */
    method RunAll()
      requires Valid() && queue == Sorted(stages) && inFlight == results == started == []
      modifies this
      ensures queue == inFlight == [] && load == 0
      ensures started == Sorted(stages) && Descending(started)
      ensures multiset(results) == multiset(stages)
    {
      while queue != [] || inFlight != []
        invariant Valid()
        decreases |queue| + |inFlight|
      {
        Fill();
        if inFlight != [] {
          Race();
        }
      }
      SortedKeeps(stages);
      assert started + [] == started;
    }
  }
}
