// The per-key promise queue of `src/git/serialQueue.ts`, as steps over its map and the promises chained in it.
module SerialQueue {
  import opened Options

  datatype Status = Waiting | Running | Settled(ok: bool)

  /** One submitted work. `tail` is the promise it was chained on, nothing where the key had none. */
  datatype Job = Job(key: string, tail: Option<nat>, status: Status, cleaned: bool)

  /** The jobs in the order they were submitted, and for each key the last promise the map keeps. */
  datatype State = State(jobs: seq<Job>, queues: map<string, nat>)

  datatype Event = Submit(key: string) | Start(j: nat) | Settle(j: nat, ok: bool) | Cleanup(j: nat)

  predicate Chained(s: State, j: nat)
    requires j < |s.jobs|
  {
    var tail := s.jobs[j].tail;
    tail.None? || (tail.value < |s.jobs| && s.jobs[tail.value].status.Settled?)
  }

  /**
   * A work starts once the promise it is chained on has settled, either way; its cleanup runs some time after its own
   * has.
   */
  predicate Enabled(s: State, e: Event) {
    match e
    case Submit(_) => true
    case Start(j) => j < |s.jobs| && s.jobs[j].status.Waiting? && Chained(s, j)
    case Settle(j, _) => j < |s.jobs| && s.jobs[j].status.Running?
    case Cleanup(j) => j < |s.jobs| && s.jobs[j].status.Settled? && !s.jobs[j].cleaned
  }

  function TailOf(queues: map<string, nat>, key: string): Option<nat> {
    if key in queues then Some(queues[key]) else None
  }

  function Apply(s: State, e: Event): State
    requires Enabled(s, e)
  {
    match e
    case Submit(key) => State(s.jobs + [Job(key, TailOf(s.queues, key), Waiting, false)], s.queues[key := |s.jobs|])
    case Start(j) => s.(jobs := s.jobs[j := s.jobs[j].(status := Running)])
    case Settle(j, ok) => s.(jobs := s.jobs[j := s.jobs[j].(status := Settled(ok))])
    case Cleanup(j) =>
      var key := s.jobs[j].key;
      State(s.jobs[j := s.jobs[j].(cleaned := true)], if TailOf(s.queues, key) == Some(j) then s.queues - {key}
        else s.queues)
  }

  /** Every earlier work of the key has settled. */
  ghost predicate AllBefore(s: State, j: nat, key: string) {
    forall i :: 0 <= i < j && i < |s.jobs| && s.jobs[i].key == key ==> s.jobs[i].status.Settled?
  }

  ghost predicate JobOk(s: State, j: nat)
    requires j < |s.jobs|
  {
    var job := s.jobs[j];
    && (job.tail.None? ==> AllBefore(s, j, job.key))
    && (job.tail.Some? ==>
          && job.tail.value < j && s.jobs[job.tail.value].key == job.key
          && forall i :: job.tail.value < i < j ==> s.jobs[i].key != job.key)
    && (!job.status.Waiting? ==> AllBefore(s, j, job.key))
  }

  ghost predicate QueueOk(s: State) {
    && (forall key :: key in s.queues ==>
          && s.queues[key] < |s.jobs| && s.jobs[s.queues[key]].key == key
          && forall i :: s.queues[key] < i < |s.jobs| ==> s.jobs[i].key != key)
    && (forall i :: 0 <= i < |s.jobs| && s.jobs[i].key !in s.queues ==> s.jobs[i].status.Settled?)
  }

  ghost predicate Inv(s: State) {
    (forall j :: 0 <= j < |s.jobs| ==> JobOk(s, j)) && QueueOk(s)
  }

  lemma JobsKept(s: State, e: Event, j: nat)
    requires Inv(s) && Enabled(s, e) && j < |Apply(s, e).jobs|
    ensures JobOk(Apply(s, e), j)
  {
    if e.Start? {
      StartInOrder(s, e.j);
    }
    if j < |s.jobs| {
      assert JobOk(s, j);
    }
  }

  lemma CleanupKept(s: State, j: nat)
    requires Inv(s) && Enabled(s, Cleanup(j))
    ensures QueueOk(Apply(s, Cleanup(j)))
  {
    assert JobOk(s, j);
    hide JobOk;
  }

  lemma SubmitKept(s: State, key: string)
    requires QueueOk(s)
    ensures QueueOk(Apply(s, Submit(key)))
  {
  }

  lemma ProgressKept(s: State, e: Event)
    requires QueueOk(s) && Enabled(s, e) && (e.Start? || e.Settle?)
    ensures QueueOk(Apply(s, e))
  {
  }

  lemma QueueKept(s: State, e: Event)
    requires Inv(s) && Enabled(s, e)
    ensures QueueOk(Apply(s, e))
  {
    hide Apply;
    hide Enabled;
    hide JobOk;
    match e
    case Submit(key) => SubmitKept(s, key);
    case Cleanup(j) => CleanupKept(s, j);
    case _ => ProgressKept(s, e);
  }

  lemma StepKeeps(s: State, e: Event)
    requires Inv(s) && Enabled(s, e)
    ensures Inv(Apply(s, e))
  {
    QueueKept(s, e);
    hide QueueOk;
    hide Apply;
    forall j | 0 <= j < |Apply(s, e).jobs| ensures JobOk(Apply(s, e), j) {
      JobsKept(s, e, j);
    }
  }

  /** A work whose turn has come has no earlier one of its key left. */
  lemma StartInOrder(s: State, j: nat)
    requires Inv(s) && j < |s.jobs| && Chained(s, j)
    ensures AllBefore(s, j, s.jobs[j].key)
  {
    assert JobOk(s, j);
    if s.jobs[j].tail.Some? {
      assert JobOk(s, s.jobs[j].tail.value);
    }
  }

  ghost predicate RunOf(states: seq<State>, events: seq<Event>) {
    && |states| == |events| + 1 && states[0] == State([], map[])
    && forall k :: 0 <= k < |events| ==> Enabled(states[k], events[k]) && states[k + 1] == Apply(states[k], events[k])
  }

  lemma {:induction false} Reachable(states: seq<State>, events: seq<Event>, k: nat)
    requires RunOf(states, events) && k <= |events|
    ensures Inv(states[k])
  {
    hide Apply;
    hide Enabled;
    if k > 0 {
      Reachable(states, events, k - 1);
      StepKeeps(states[k - 1], events[k - 1]);
    }
  }

  /** In every run, a work that has started finds every earlier one of its key settled: one at a time, in call order. */
  lemma OneAtATime(states: seq<State>, events: seq<Event>, k: nat, i: nat, j: nat)
    requires RunOf(states, events) && k <= |events| && i < j < |states[k].jobs|
    requires states[k].jobs[i].key == states[k].jobs[j].key && !states[k].jobs[j].status.Waiting?
    ensures states[k].jobs[i].status.Settled?
  {
    Reachable(states, events, k);
    assert JobOk(states[k], j);
  }

  /** A key the map does not have has no work outstanding, so a work submitted for it may start at once. */
  lemma AbsentMeansIdle(states: seq<State>, events: seq<Event>, k: nat, key: string)
    requires RunOf(states, events) && k <= |events| && key !in states[k].queues
    ensures AllBefore(states[k], |states[k].jobs|, key)
    ensures var t := Apply(states[k], Submit(key)); Enabled(t, Start(|states[k].jobs|))
  {
    Reachable(states, events, k);
  }

  /** However the earlier works end, the first that has not settled can go on: no failure blocks the queue. */
  lemma {:induction false} FirstCanGoOn(states: seq<State>, events: seq<Event>, k: nat, j: nat)
    requires RunOf(states, events) && k <= |events| && j < |states[k].jobs|
    requires !states[k].jobs[j].status.Settled? && AllBefore(states[k], j, states[k].jobs[j].key)
    ensures Enabled(states[k], Start(j)) || Enabled(states[k], Settle(j, true))
  {
    Reachable(states, events, k);
    assert JobOk(states[k], j);
  }

  /** The module's map and the promises made through it. */
  class Queues {
    var queues: map<string, nat>
    ghost var jobs: seq<Job>

    ghost function Model(): State
      reads this
    {
      State(jobs, queues)
    }

    constructor ()
      ensures Model() == State([], map[])
    {
      queues, jobs := map[], [];
    }

    method RunSerial(key: string, next: nat)
      requires next == |jobs|
      modifies this
      ensures Model() == Apply(old(Model()), Submit(key))
    {
      ghost var tail := TailOf(queues, key);
      queues := queues[key := next];
      jobs := jobs + [Job(key, tail, Waiting, false)];
    }

    /** What runs after a work's promise has settled: the key goes only if no later work has taken its place. */
    method AfterSettled(key: string, next: nat)
      requires Enabled(Model(), Cleanup(next)) && jobs[next].key == key
      modifies this
      ensures Model() == Apply(old(Model()), Cleanup(next))
    {
      if key in queues && queues[key] == next {
        queues := queues - {key};
      }
      jobs := jobs[next := jobs[next].(cleaned := true)];
    }
  }
}
