// The delivered hold and the query that feeds it (`src/delivery/delivery.ts`). An instant is an integer.
module Delivery {
  import opened Sequences
  import opened Options
  import opened IssueOrigins

  datatype Verdict = Verdict(originRef: string, decidedAt: int, updatedAt: Option<int>)

  datatype Event = Event(ref: string, createdAt: int)

  function Cast(d: Verdict): int {
    if d.updatedAt.Some? then d.updatedAt.value else d.decidedAt
  }

  /** Something happened to the item after the verdict on it was cast. */
  predicate Expired(d: Verdict, signals: seq<Event>) {
    IsGoal(d.originRef) && exists e :: e in signals && e.ref == d.originRef && e.createdAt > Cast(d)
  }

  /** Whether an issue is held as delivered, its tracker state one it may be picked up in or not. */
  predicate Held(delivery: Option<Verdict>, state: Option<string>, pickupStates: seq<string>, signals: seq<Event>) {
    && delivery.Some?
    && !(state.Some? && state.value in pickupStates)
    && !Expired(delivery.value, signals)
  }

  /**
   * Held exactly when delivered, not back in a state it is picked up in, and, a goal's, with nothing that happened to
   * the item after its verdict was last cast.
   */
  lemma HeldSays(d: Verdict, state: Option<string>, pickupStates: seq<string>, signals: seq<Event>)
    ensures !Held(None, state, pickupStates, signals)
    ensures var cast := if d.updatedAt.Some? then d.updatedAt.value else d.decidedAt;
            Held(Some(d), state, pickupStates, signals) <==>
              && (state.Some? ==> state.value !in pickupStates)
              && forall e :: e in signals && e.ref == d.originRef && IsGoal(e.ref) ==> e.createdAt <= cast
  {
    hide IsGoal;
  }

  datatype Query = Query(since: int, refs: seq<string>)

  ghost predicate Refs(refs: seq<string>, ds: seq<Verdict>) {
    && Distinct(refs)
    && forall ref :: ref in refs <==> exists d :: d in ds && d.originRef == ref && IsGoal(ref)
  }

  ghost predicate Earliest(since: int, ds: seq<Verdict>) {
    && (forall d :: d in ds && IsGoal(d.originRef) ==> since <= Cast(d))
    && (exists d :: d in ds && IsGoal(d.originRef) && Cast(d) == since)
  }

  /** The query asks for the goals delivered, each once, from the earliest of their verdicts on. */
  ghost predicate Asks(q: Query, ds: seq<Verdict>) {
    Refs(q.refs, ds) && Earliest(q.since, ds)
  }

  ghost predicate AsksFor(q: Option<Query>, ds: seq<Verdict>) {
    match q
    case None => forall d :: d in ds ==> !IsGoal(d.originRef)
    case Some(query) => Asks(query, ds)
  }

  /** The references with a verdict's own among them, where it is a goal's. */
  function RefsWith(refs: seq<string>, ref: string): seq<string> {
    if ref in refs then refs else refs + [ref]
  }

  lemma RefsOnce(refs: seq<string>, ds: seq<Verdict>, d: Verdict)
    requires Refs(refs, ds) && IsGoal(d.originRef)
    ensures Refs(RefsWith(refs, d.originRef), ds + [d])
  {
    hide IsGoal;
    var all, more := ds + [d], RefsWith(refs, d.originRef);
    assert forall x :: x in all <==> x in ds || x == d;
    assert d in all;
    forall ref ensures ref in more <==> exists x :: x in all && x.originRef == ref && IsGoal(ref) {
      if exists x :: x in ds && x.originRef == ref && IsGoal(ref) {
        var x :| x in ds && x.originRef == ref && IsGoal(ref);
        assert x in all;
      }
    }
  }

  lemma AskedOnce(q: Option<Query>, ds: seq<Verdict>, d: Verdict)
    requires AsksFor(q, ds) && IsGoal(d.originRef)
    ensures var refs := RefsWith(if q.None? then [] else q.value.refs, d.originRef);
            var since := if q.None? || Cast(d) < q.value.since then Cast(d) else q.value.since;
            AsksFor(Some(Query(since, refs)), ds + [d])
  {
    hide IsGoal;
    hide Refs;
    RefsOf(q, ds);
    RefsOnce(if q.None? then [] else q.value.refs, ds, d);
    hide RefsWith;
    var all := ds + [d];
    assert forall x :: x in all <==> x in ds || x == d;
    assert d in all;
  }

  lemma RefsOf(q: Option<Query>, ds: seq<Verdict>)
    requires AsksFor(q, ds)
    ensures Refs(if q.None? then [] else q.value.refs, ds)
  {
    hide IsGoal;
  }

  lemma NoGoalAsked(q: Option<Query>, ds: seq<Verdict>, d: Verdict)
    requires AsksFor(q, ds) && !IsGoal(d.originRef)
    ensures AsksFor(q, ds + [d])
  {
    hide IsGoal;
    assert forall x :: x in ds + [d] <==> x in ds || x == d;
  }

  method DeliverySignalQuery(ds: seq<Verdict>) returns (q: Option<Query>)
    ensures AsksFor(q, ds)
  {
    hide AsksFor;
    hide IsGoal;
    var refs: seq<string> := [];
    var since: Option<int> := None;
    assert AsksFor(None, ds[..0]) by {
      NothingAsked();
    }
    for i := 0 to |ds|
      invariant since.None? ==> refs == [] && AsksFor(None, ds[..i])
      invariant since.Some? ==> refs != [] && AsksFor(Some(Query(since.value, refs)), ds[..i])
    {
      var d := ds[i];
      assert ds[..i + 1] == ds[..i] + [d];
      ghost var asked := if since.None? then None else Some(Query(since.value, refs));
      if !IsGoal(d.originRef) {
        NoGoalAsked(asked, ds[..i], d);
        continue;
      }
      AskedOnce(asked, ds[..i], d);
      refs := RefsWith(refs, d.originRef);
      var cast := Cast(d);
      if since.None? || cast < since.value {
        since := Some(cast);
      }
    }
    assert ds[..|ds|] == ds;
    return if since.Some? && |refs| > 0 then Some(Query(since.value, refs)) else None;
  }

  lemma NothingAsked()
    ensures AsksFor(None, [])
  {
  }

  /** The events the store answers a query with, in whatever order, out of the whole log. */
  ghost predicate Answers(answer: seq<Event>, q: Option<Query>, log: seq<Event>) {
    match q
    case None => answer == []
    case Some(query) =>
      forall e :: e in answer <==> e in log && e.ref in query.refs && e.createdAt > query.since
  }

  /** The narrowed events decide every hold as the whole log would. */
  lemma NarrowedHolds(ds: seq<Verdict>, q: Option<Query>, log: seq<Event>, answer: seq<Event>,
      delivery: Option<Verdict>,
                      state: Option<string>, pickupStates: seq<string>)
    requires AsksFor(q, ds) && Answers(answer, q, log)
    requires delivery.Some? ==> delivery.value in ds
    ensures Held(delivery, state, pickupStates, answer) <==> Held(delivery, state, pickupStates, log)
  {
    hide IsGoal;
    if delivery.Some? {
      var d := delivery.value;
      if Expired(d, log) {
        var e :| e in log && e.ref == d.originRef && e.createdAt > Cast(d);
        assert e in answer;
      }
      if Expired(d, answer) {
        var e :| e in answer && e.ref == d.originRef && e.createdAt > Cast(d);
        assert e in log;
      }
    }
  }

  /** A log of one event that ends a verdict's hold, though whatever the query is answered with leaves it standing. */
  ghost predicate Misled(q: Query, d: Verdict, e: Event) {
    && !Held(Some(d), None, [], [e])
    && forall answer :: Answers(answer, Some(q), [e]) ==> Held(Some(d), None, [], answer)
  }

  /**
   * No narrower query would do: asked from later on, or without one of the references, some log has a hold it gets
   * wrong.
   */
  lemma NoNarrower(ds: seq<Verdict>, q: Query, narrower: Query)
    requires AsksFor(Some(q), ds)
    requires narrower.since > q.since || exists ref :: ref in q.refs && ref !in narrower.refs
    ensures exists d, e :: d in ds && Misled(narrower, d, e)
  {
    hide IsGoal;
    var d: Verdict;
    var e: Event;
    if narrower.since > q.since {
      d :| d in ds && IsGoal(d.originRef) && Cast(d) == q.since;
      e := Event(d.originRef, narrower.since);
    } else {
      var ref :| ref in q.refs && ref !in narrower.refs;
      d :| d in ds && d.originRef == ref && IsGoal(ref);
      e := Event(ref, Cast(d) + 1);
    }
    assert e in [e];
    assert forall answer :: Answers(answer, Some(narrower), [e]) ==> forall x :: x !in answer;
    assert Misled(narrower, d, e);
  }
}
