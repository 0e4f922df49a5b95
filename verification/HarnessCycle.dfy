// The harness cycle of `src/harness.ts`: one at a time, a refused manual request made good, and the world baseline.
module HarnessCycle {
  import opened Options

  datatype Source = Timer | Manual | Boot | Local

  /** A reading of the world; `stale` holds the sources that could not be read. */
  datatype World = World(reading: nat, stale: seq<string>)

  /** A cycle that runs: a local one decides against the world it was given, any other has yet to read one. */
  datatype Flight = Flight(source: Source, cached: Option<World>, observed: bool)

  /**
   * What the harness keeps between steps, with the store's baseline, the agents awaiting recovery, the diffs
   * recorded, and the worlds they are to be taken between. A cycle is known by the number of cycles started before
   * it; `running` holds those that have neither returned nor thrown, whether or not the harness has one for its own.
   */
  datatype State = State(inFlight: Option<nat>, running: map<nat, Flight>, cycles: nat, pendingManual: bool,
                         stopped: bool, prevWorld: Option<World>, baseline: Option<World>, awaiting: nat,
                         diffs: seq<(World, World)>, worlds: seq<World>)

  /**
   * `End` is the end of a running cycle, whether it returned or threw; `Patch` is another writer's change to the
   * stored baseline.
   */
  datatype Event = Request(source: Source) | Observe(id: nat, world: World) | End(id: nat) | Stop | Await(agents: nat)
      | Patch(world: World)

  predicate Reads(s: State, id: nat) {
    id in s.running && !s.running[id].observed && s.running[id].cached.None?
  }

  predicate Enabled(s: State, e: Event) {
    match e
    case Observe(id, w) => id in s.running && !s.running[id].observed
        && (s.running[id].cached.Some? ==> s.running[id].cached.value == w)
    case End(id) => id in s.running
    case Patch(_) => s.baseline.Some?
    case _ => true
  }

  function Previous(s: State): Option<World> {
    if s.prevWorld.Some? then s.prevWorld else s.baseline
  }

  function Asked(s: State, source: Source): State {
    if s.awaiting > 0 then s
    else if s.inFlight.Some? then if source.Manual? then s.(pendingManual := true) else s
    else
      var cached := if source.Local? then Previous(s) else None;
      if source.Local? && cached.None? then s
      else s.(inFlight := Some(s.cycles), running := s.running[s.cycles := Flight(source, cached, false)],
              cycles := s.cycles + 1)
  }

  function Changed(s: State, world: World): State {
    if world.stale != [] then s
    else
      var previous := Previous(s);
      s.(diffs := if previous.Some? then s.diffs + [(previous.value, world)] else s.diffs,
         prevWorld := Some(world), baseline := Some(world), worlds := s.worlds + [world])
  }

  /** A manual attempt is owed at the end of the cycle. */
  predicate Owed(s: State) {
    s.pendingManual && !s.stopped
  }

  function Apply(s: State, e: Event): State
    requires Enabled(s, e)
  {
    match e
    case Request(source) => Asked(s, source)
    case Observe(id, world) =>
      var t := if Reads(s, id) then Changed(s, world) else s;
      t.(running := s.running[id := s.running[id].(observed := true)])
    case End(id) =>
      var t := s.(inFlight := None, running := s.running - {id});
      if Owed(s) then Asked(t.(pendingManual := false), Manual) else t
    case Stop => s.(stopped := true, pendingManual := false)
    case Await(agents) => s.(awaiting := agents)
    case Patch(world) => s.(baseline := Some(world), worlds := if s.prevWorld.None? then [world] else s.worlds)
  }

  function Initial(baseline: Option<World>, awaiting: nat): State {
    State(None, map[], 0, false, false, None, baseline, awaiting, [], if baseline.Some? then [baseline.value] else [])
  }

  ghost predicate RunOf(states: seq<State>, events: seq<Event>) {
    && |states| == |events| + 1
    && states[0] == Initial(states[0].baseline, states[0].awaiting)
    && forall k :: 0 <= k < |events| ==> Enabled(states[k], events[k]) && states[k + 1] == Apply(states[k], events[k])
  }

  // One cycle at a time

  /** The cycle the harness takes for its own is the one that runs, and no other does. */
  ghost predicate Alone(s: State) {
    && s.running.Keys == (if s.inFlight.Some? then {s.inFlight.value} else {})
    && (s.inFlight.Some? ==> s.inFlight.value < s.cycles)
  }

  /** However requests, readings and ends come, at most one cycle runs. */
  lemma {:induction false} OneInFlight(states: seq<State>, events: seq<Event>, k: nat)
    requires RunOf(states, events) && k <= |events|
    ensures Alone(states[k])
  {
    if k > 0 {
      OneInFlight(states, events, k - 1);
      StepAlone(states[k - 1], events[k - 1]);
    }
  }

  lemma StepAlone(s: State, e: Event)
    requires Alone(s) && Enabled(s, e)
    ensures Alone(Apply(s, e))
  {
  }

  /** The step starts a cycle: one that has not run before. */
  ghost predicate Starts(s: State, e: Event)
    requires Enabled(s, e)
  {
    exists id :: id in Apply(s, e).running && id >= s.cycles
  }

  ghost function StartsBefore(states: seq<State>, events: seq<Event>, k: nat): nat
    requires RunOf(states, events) && k <= |events|
  {
    if k == 0 then 0
    else StartsBefore(states, events, k - 1) + if Starts(states[k - 1], events[k - 1]) then 1 else 0
  }

  ghost function EndsBefore(events: seq<Event>, k: nat): nat
    requires k <= |events|
  {
    if k == 0 then 0 else EndsBefore(events, k - 1) + if events[k - 1].End? then 1 else 0
  }

  lemma StartCounts(s: State, e: Event)
    requires Alone(s) && Enabled(s, e)
    ensures var before, after := if s.inFlight.Some? then 1 else 0, if Apply(s, e).inFlight.Some? then 1 else 0;
            after == before + (if Starts(s, e) then 1 else 0) - (if e.End? then 1 else 0)
  {
    var t := Apply(s, e);
    StepAlone(s, e);
    if t.inFlight.Some? {
      assert t.inFlight.value in t.running;
    }
  }

  /** Of the cycles started all have ended, or all but the one in flight. */
  lemma {:induction false} StartsLessEnds(states: seq<State>, events: seq<Event>, k: nat)
    requires RunOf(states, events) && k <= |events|
    ensures StartsBefore(states, events, k)
         == EndsBefore(events, k) + if states[k].inFlight.Some? then 1 else 0
  {
    if k > 0 {
      OneInFlight(states, events, k - 1);
      StartsLessEnds(states, events, k - 1);
      StartCounts(states[k - 1], events[k - 1]);
    }
  }

  /** A cycle is in flight until it ends itself: no request, reading or stop puts another in its place. */
  lemma {:induction false} FlightStays(states: seq<State>, events: seq<Event>, i: nat, j: nat, id: nat)
    requires RunOf(states, events) && i <= j <= |events| && states[i].inFlight == Some(id)
    requires forall m :: i <= m < j ==> events[m] != End(id)
    ensures states[j].inFlight == Some(id) && id in states[i].running && id in states[j].running
    ensures states[j].running[id].source == states[i].running[id].source
    ensures states[j].running[id].cached == states[i].running[id].cached
  {
    OneInFlight(states, events, i);
    if i < j {
      FlightStays(states, events, i, j - 1, id);
      OneInFlight(states, events, j - 1);
    }
  }

  /**
   * A request starts a cycle exactly when no agent awaits recovery, none is in flight, and, asked for locally, there
   * is a world to decide against: the last one read, or the stored baseline. A manual one refused by a cycle in flight
   * is remembered.
   */
  lemma RequestStarts(s: State, source: Source)
    requires Alone(s)
    ensures var t := Apply(s, Request(source));
            var given := if s.prevWorld.Some? then s.prevWorld else s.baseline;
            if s.awaiting == 0 && s.inFlight.None? && (source.Local? ==> given.Some?) then
              && t.inFlight == Some(s.cycles) && Starts(s, Request(source))
              && t.running == map[s.cycles := Flight(source, if source.Local? then given else None, false)]
              && t.pendingManual == s.pendingManual
            else
              && !Starts(s, Request(source)) && t.inFlight == s.inFlight && t.running == s.running
              && t.pendingManual == (s.pendingManual || (source.Manual? && s.awaiting == 0 && s.inFlight.Some?))
  {
    if s.inFlight.None? {
      assert s.running == map[];
    }
    StartCounts(s, Request(source));
    assert s.cycles in Apply(s, Request(source)).running <==> Starts(s, Request(source));
  }

  // A refused manual request

  ghost predicate NothingOwed(s: State) {
    s.inFlight.None? ==> !Owed(s)
  }

  lemma {:induction false} NoneOwedBetween(states: seq<State>, events: seq<Event>, k: nat)
    requires RunOf(states, events) && k <= |events|
    ensures NothingOwed(states[k])
  {
    if k > 0 {
      NoneOwedBetween(states, events, k - 1);
    }
  }

  /** A manual cycle was asked for while this one ran, and no agent awaited recovery when it was. */
  ghost predicate AskedDuring(states: seq<State>, events: seq<Event>, i: nat, j: nat)
    requires RunOf(states, events) && j <= |events|
  {
    exists k :: i < k < j && events[k] == Request(Manual) && states[k].awaiting == 0
  }

  /** `i` starts the cycle that `j` ends. */
  ghost predicate Flown(states: seq<State>, events: seq<Event>, i: nat, j: nat)
    requires RunOf(states, events)
  {
    && i < j < |events| && Starts(states[i], events[i]) && events[j] == End(states[i].cycles)
    && forall m :: i < m < j ==> !events[m].End?
  }

  lemma FlightNext(s: State, e: Event)
    requires s.inFlight.Some? && Enabled(s, e) && !e.End?
    ensures var t := Apply(s, e);
            && t.inFlight == s.inFlight && t.stopped == (s.stopped || e.Stop?)
            && t.pendingManual == (!e.Stop? && (s.pendingManual || (e == Request(Manual) && s.awaiting == 0)))
  {
  }

  lemma {:induction false} OwedIfAsked(states: seq<State>, events: seq<Event>, i: nat, j: nat)
    requires RunOf(states, events) && i < j <= |events| && Starts(states[i], events[i])
    requires forall m :: i < m < j ==> !events[m].End?
    ensures states[j].inFlight == Some(states[i].cycles)
    ensures Owed(states[j]) <==> AskedDuring(states, events, i, j) && !states[j].stopped
  {
    OneInFlight(states, events, j - 1);
    if j == i + 1 {
      NoneOwedBetween(states, events, i);
      StartCounts(states[i], events[i]);
    } else {
      OwedIfAsked(states, events, i, j - 1);
      FlightNext(states[j - 1], events[j - 1]);
      hide Apply;
      hide Enabled;
      var e := events[j - 1];
      if e == Request(Manual) && states[j - 1].awaiting == 0 {
        assert AskedDuring(states, events, i, j);
      } else if AskedDuring(states, events, i, j) {
        var k :| i < k < j && events[k] == Request(Manual) && states[k].awaiting == 0;
        assert k < j - 1;
      }
    }
  }

  /**
   * However many manual cycles were refused while one ran, its end makes one manual attempt, and makes one only for
   * them, unless the harness was stopped. The attempt starts a cycle that reads the world, unless agents await
   * recovery.
   */
  lemma OneAttemptAfter(states: seq<State>, events: seq<Event>, i: nat, j: nat)
    requires RunOf(states, events) && Flown(states, events, i, j)
    ensures Owed(states[j]) <==> AskedDuring(states, events, i, j) && !states[j].stopped
    ensures states[j + 1].running == if Owed(states[j]) && states[j].awaiting == 0 then
        map[states[j].cycles := Flight(Manual, None, false)] else map[]
    ensures !Owed(states[j + 1])
  {
    OwedIfAsked(states, events, i, j);
    OneInFlight(states, events, j);
    assert states[j].running - {states[i].cycles} == map[];
  }

  /** Once stopped, no cycle's end starts another: what runs then is the last, unless one is asked for after it. */
  lemma {:induction false} StoppedForGood(states: seq<State>, events: seq<Event>, i: nat, k: nat)
    requires RunOf(states, events) && i <= k < |events| && states[i].stopped && events[k].End?
    ensures states[k + 1].running == map[] && states[k + 1].inFlight.None? && states[k + 1].cycles == states[k].cycles
  {
    StaysStopped(states, events, i, k);
    OneInFlight(states, events, k);
    assert states[k].running - {events[k].id} == map[];
  }

  lemma {:induction false} StaysStopped(states: seq<State>, events: seq<Event>, i: nat, k: nat)
    requires RunOf(states, events) && i <= k <= |events| && states[i].stopped
    ensures states[k].stopped
  {
    if i < k {
      StaysStopped(states, events, i, k - 1);
    }
  }

  // The baseline

  function Pairs(worlds: seq<World>): seq<(World, World)> {
    if |worlds| < 2 then [] else Pairs(worlds[..|worlds| - 1]) + [(worlds[|worlds| - 2], worlds[|worlds| - 1])]
  }

  lemma {:induction false} PairsAre(worlds: seq<World>)
    ensures |Pairs(worlds)| == if worlds == [] then 0 else |worlds| - 1
    ensures forall k :: 0 <= k < |Pairs(worlds)| ==> Pairs(worlds)[k] == (worlds[k], worlds[k + 1])
  {
    if |worlds| >= 2 {
      PairsAre(worlds[..|worlds| - 1]);
    }
  }

  /** The diffs recorded are between each world and the next, and the harness remembers the last of them. */
  ghost predicate Chained(s: State) {
    && s.diffs == Pairs(s.worlds)
    && (s.prevWorld.Some? ==> s.worlds != [] && s.worlds[|s.worlds| - 1] == s.prevWorld.value && s.baseline.Some?)
    && (s.prevWorld.None? ==> s.worlds == if s.baseline.Some? then [s.baseline.value] else [])
  }

  lemma ChangedKeeps(s: State, world: World)
    requires Chained(s)
    ensures Chained(Changed(s, world))
  {
    var worlds := s.worlds + [world];
    assert worlds[..|worlds| - 1] == s.worlds;
  }

  lemma StepChains(s: State, e: Event)
    requires Chained(s) && Enabled(s, e)
    ensures Chained(Apply(s, e))
  {
    hide Pairs;
    if e.Observe? {
      ChangedKeeps(s, e.world);
    } else if e.Patch? {
      OneWorld(e.world);
      OneWorld(s.baseline.value);
    }
    hide Changed;
  }

  lemma InitiallyChained(baseline: Option<World>, awaiting: nat)
    ensures Chained(Initial(baseline, awaiting))
  {
  }

  lemma {:induction false} StaysChained(states: seq<State>, events: seq<Event>, k: nat)
    requires RunOf(states, events) && k <= |events|
    ensures Chained(states[k])
  {
    hide Apply;
    hide Enabled;
    hide Chained;
    if k == 0 {
      InitiallyChained(states[0].baseline, states[0].awaiting);
    } else {
      StaysChained(states, events, k - 1);
      StepChains(states[k - 1], events[k - 1]);
    }
  }

  lemma OneWorld(world: World)
    ensures Pairs([world]) == [] && Pairs([]) == []
  {
  }

  /** The step reads the world whole. */
  predicate ReadsWhole(s: State, e: Event) {
    e.Observe? && Reads(s, e.id) && e.world.stale == []
  }

  /** What the cycles read before the step: the worlds with no stale source, local cycles reading none. */
  function ReadBefore(states: seq<State>, events: seq<Event>, k: nat): seq<World>
    requires k <= |events| < |states|
  {
    if k == 0 then []
    else
      var before := ReadBefore(states, events, k - 1);
      if ReadsWhole(states[k - 1], events[k - 1]) then before + [events[k - 1].world] else before
  }

  function Given(baseline: Option<World>): seq<World> {
    if baseline.Some? then [baseline.value] else []
  }

  /** The worlds the diffs chain through: the baseline the first reading found, if any, and every reading since. */
  ghost predicate Worlds(s: State, anchor: Option<World>, seen: seq<World>) {
    s.worlds == Given(anchor) + seen && (s.prevWorld.None? <==> seen == []) && (seen == [] ==> anchor == s.baseline)
  }

  lemma WorldsNext(s: State, e: Event, anchor: Option<World>, seen: seq<World>)
    requires Enabled(s, e) && Worlds(s, anchor, seen)
    ensures var more := if ReadsWhole(s, e) then seen + [e.world] else seen;
            Worlds(Apply(s, e), if more == [] then Apply(s, e).baseline else anchor, more)
  {
    if ReadsWhole(s, e) {
      assert (Given(anchor) + seen) + [e.world] == Given(anchor) + (seen + [e.world]);
    } else if e.Patch? && s.prevWorld.None? {
      assert Apply(s, e).worlds == [e.world] + seen;
    } else {
      assert Apply(s, e).worlds == s.worlds && Apply(s, e).prevWorld == s.prevWorld;
      assert Apply(s, e).prevWorld.None? ==> Apply(s, e).baseline == s.baseline;
    }
  }

  /** The first step that reads the world whole, or the last of the steps where none has. */
  ghost predicate FirstWhole(states: seq<State>, events: seq<Event>, k: nat, f: nat)
    requires k <= |events| < |states|
  {
    f <= k && ReadBefore(states, events, f) == [] && (f < k ==> ReadsWhole(states[f], events[f]))
  }

  lemma {:induction false} WorldsRead(states: seq<State>, events: seq<Event>, k: nat) returns (f: nat)
    requires RunOf(states, events) && k <= |events|
    ensures FirstWhole(states, events, k, f)
    ensures Worlds(states[k], states[f].baseline, ReadBefore(states, events, k))
  {
    if k == 0 {
      f := 0;
      assert states[0].worlds == states[0].worlds + [];
    } else {
      f := WorldsRead(states, events, k - 1);
      WorldsNext(states[k - 1], events[k - 1], states[f].baseline, ReadBefore(states, events, k - 1));
      hide Apply;
      hide Enabled;
      hide Worlds;
      hide ReadsWhole;
      if f == k - 1 && !ReadsWhole(states[k - 1], events[k - 1]) {
        f := k;
      } else {
        ReadStays(states, events, f + 1, k);
      }
    }
  }

  lemma {:induction false} ReadStays(states: seq<State>, events: seq<Event>, i: nat, k: nat)
    requires i <= k <= |events| < |states| && ReadBefore(states, events, i) != []
    ensures ReadBefore(states, events, k) != []
  {
    if i < k {
      ReadStays(states, events, i, k - 1);
    }
  }

  /**
   * Recorded diffs chain: each is between one world read whole and the next, the first of them after the baseline
   * stored when it was read.
   */
  lemma DiffsChain(states: seq<State>, events: seq<Event>, k: nat) returns (f: nat, worlds: seq<World>)
    requires RunOf(states, events) && k <= |events|
    ensures FirstWhole(states, events, k, f)
    ensures worlds == Given(states[f].baseline) + ReadBefore(states, events, k)
    ensures |states[k].diffs| == if worlds == [] then 0 else |worlds| - 1
    ensures forall d :: 0 <= d < |states[k].diffs| ==> states[k].diffs[d] == (worlds[d], worlds[d + 1])
  {
    f := WorldsRead(states, events, k);
    worlds := states[k].worlds;
    StaysChained(states, events, k);
    PairsAre(states[k].worlds);
  }

  /** A local cycle, and a reading with a stale source, leave the baseline and the diffs as they were. */
  lemma OnlyReadingsMove(s: State, e: Event)
    requires Enabled(s, e) && !e.Patch?
    requires !(e.Observe? && s.running[e.id].cached.None? && e.world.stale == [])
    ensures var t := Apply(s, e); t.prevWorld == s.prevWorld && t.baseline == s.baseline && t.diffs == s.diffs
  {
  }

  /** While a local cycle runs, the world it decides against is still the last one read: no other cycle moves it on. */
  lemma {:induction false} LocalDecidesAgainst(states: seq<State>, events: seq<Event>, i: nat, k: nat)
    requires RunOf(states, events) && i < k <= |events|
    requires states[i].inFlight.None? && events[i] == Request(Local) && states[i].prevWorld.Some?
        && states[i].awaiting == 0
    requires forall m :: i < m < k ==> events[m] != End(states[i].cycles)
    ensures states[k].inFlight == Some(states[i].cycles) && states[i].cycles in states[k].running
    ensures states[k].running[states[i].cycles].cached == states[k].prevWorld
    ensures states[k].prevWorld == states[i].prevWorld && states[k].diffs == states[i].diffs
  {
    OneInFlight(states, events, k - 1);
    if i + 1 < k {
      LocalDecidesAgainst(states, events, i, k - 1);
    }
  }

  // The harness

  datatype Outcome = Held | Coalesced | Unbaselined | Started(cached: Option<World>)

  class Harness {
    var cycleInFlight: bool
    var inFlight: Option<nat>
    var pendingManual: bool
    var stopped: bool
    var prevWorld: Option<World>
    var baseline: Option<World>
    var diffs: seq<(World, World)>
    var cycles: nat
    ghost var running: map<nat, Flight>
    ghost var worlds: seq<World>

    ghost predicate Valid()
      reads this
    {
      cycleInFlight <==> inFlight.Some?
    }

    ghost function Model(awaiting: nat): State
      reads this
    {
      State(inFlight, running, cycles, pendingManual, stopped, prevWorld, baseline, awaiting, diffs, worlds)
    }

    constructor (stored: Option<World>)
      ensures Valid() && forall awaiting :: Model(awaiting) == Initial(stored, awaiting)
    {
      cycleInFlight, inFlight, pendingManual, stopped := false, None, false, false;
      prevWorld, baseline, diffs := None, stored, [];
      cycles, running := 0, map[];
      worlds := if stored.Some? then [stored.value] else [];
    }

    method RunCycle(source: Source, awaiting: nat) returns (outcome: Outcome)
      requires Valid()
      modifies this
      ensures Valid() && Model(awaiting) == Apply(old(Model(awaiting)), Request(source))
      ensures outcome.Started? <==> cycles == old(cycles) + 1
      ensures outcome.Started? ==> inFlight == Some(old(cycles)) && running[old(cycles)].cached == outcome.cached
      ensures outcome.Held? <==> awaiting > 0
    {
      if awaiting > 0 {
        return Held;
      }
      if cycleInFlight {
        if source.Manual? {
          pendingManual := true;
        }
        return Coalesced;
      }
      var cached: Option<World> := None;
      if source.Local? {
        cached := if prevWorld.Some? then prevWorld else baseline;
        if cached.None? {
          return Unbaselined;
        }
      }
      cycleInFlight := true;
      inFlight := Some(cycles);
      running := running[cycles := Flight(source, cached, false)];
      cycles := cycles + 1;
      return Started(cached);
    }

    /** A running cycle's reading of the world: the one it was given, or a new one. */
    method ObserveWorld(id: nat, cached: Option<World>, observed: World, awaiting: nat)
      requires Valid() && Enabled(Model(awaiting), Observe(id, observed)) && running[id].cached == cached
      modifies this
      ensures Valid() && Model(awaiting) == Apply(old(Model(awaiting)), Observe(id, observed))
    {
      var readWorld := cached.None?;
      if readWorld {
        var previous := if prevWorld.Some? then prevWorld else baseline;
        if observed.stale == [] {
          if previous.Some? {
            diffs := diffs + [(previous.value, observed)];
          }
          prevWorld := Some(observed);
          baseline := Some(observed);
          worlds := worlds + [observed];
        }
      }
      running := running[id := running[id].(observed := true)];
    }

    /** What runs however the cycle ended. */
    method EndCycle(ghost id: nat, awaiting: nat)
      requires Valid() && id in running
      modifies this
      ensures Valid() && Model(awaiting) == Apply(old(Model(awaiting)), End(id))
    {
      running := running - {id};
      inFlight := None;
      cycleInFlight := false;
      if pendingManual && !stopped {
        pendingManual := false;
        var _ := RunCycle(Manual, awaiting);
      }
    }

    method StopHarness(awaiting: nat)
      requires Valid()
      modifies this
      ensures Valid() && Model(awaiting) == Apply(old(Model(awaiting)), Stop)
    {
      stopped := true;
      pendingManual := false;
    }
  }
}
