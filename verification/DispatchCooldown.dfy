// The dispatch cooldown of `src/dispatcher/dispatchCooldown.ts`, and what it bounds over a whole decision log.
module DispatchCooldown {
  import opened Options

  /** An executed attempt or cap escalation for an origin, or anything else. */
  datatype Action = Attempt(origin: string) | Escalation(origin: string) | Unrelated

  /** A recorded decision; `createdAt` is nothing where it does not parse as a date. */
  datatype Decision = Decision(action: Action, executed: bool, createdAt: Option<int>)

  datatype Policy = Policy(maxAttempts: int, cooldownMs: int)

  datatype Verdict = Dispatch | Cooldown | Escalate(attempts: nat) | Hold

  predicate IsAttempt(d: Decision, origin: string) {
    d.executed && d.action == Attempt(origin)
  }

  predicate IsEscalation(d: Decision, origin: string) {
    d.executed && d.action == Escalation(origin)
  }

  function Attempts(ds: seq<Decision>, origin: string): (n: nat)
    ensures n <= |ds|
  {
    if ds == [] then 0 else Attempts(ds[..|ds| - 1], origin) + if IsAttempt(ds[|ds| - 1], origin) then 1 else 0
  }

  predicate Escalated(ds: seq<Decision>, origin: string) {
    exists k :: 0 <= k < |ds| && IsEscalation(ds[k], origin)
  }

  function Later(a: Option<int>, b: Option<int>): Option<int> {
    if a.None? then b else if b.None? then a else if b.value > a.value then b else a
  }

  /** When the latest attempt was made, of those whose date parses. */
  function LastAttempt(ds: seq<Decision>, origin: string): Option<int> {
    if ds == [] then None
    else
      var d := ds[|ds| - 1];
      Later(LastAttempt(ds[..|ds| - 1], origin), if IsAttempt(d, origin) then d.createdAt else None)
  }

  function DispatchVerdict(origin: string, now: Option<int>, recent: seq<Decision>, policy: Policy): Verdict {
    var attempts := Attempts(recent, origin);
    var last := LastAttempt(recent, origin);
    if attempts >= policy.maxAttempts then if Escalated(recent, origin) then Hold else Escalate(attempts)
    else if last.Some? && now.Some? && now.value - last.value < policy.cooldownMs then Cooldown
    else Dispatch
  }

  method DispatchVerdictLoop(origin: string, now: Option<int>, recent: seq<Decision>, policy: Policy)
      returns (v: Verdict)
    ensures v == DispatchVerdict(origin, now, recent, policy)
  {
    var attempts := 0;
    var lastAttemptMs: Option<int> := None;
    var escalated := false;
    for i := 0 to |recent|
      invariant attempts == Attempts(recent[..i], origin)
      invariant lastAttemptMs == LastAttempt(recent[..i], origin)
      invariant escalated <==> Escalated(recent[..i], origin)
    {
      var d := recent[i];
      assert recent[..i + 1][..i] == recent[..i];
      EscalatedStep(recent, i, origin);
      if !d.executed {
        continue;
      }
      if IsAttempt(d, origin) {
        attempts := attempts + 1;
        if d.createdAt.Some? && (lastAttemptMs.None? || d.createdAt.value > lastAttemptMs.value) {
          lastAttemptMs := d.createdAt;
        }
      } else if IsEscalation(d, origin) {
        escalated := true;
      }
    }
    assert recent[..|recent|] == recent;
    if attempts >= policy.maxAttempts {
      return if escalated then Hold else Escalate(attempts);
    }
    if lastAttemptMs.Some? && now.Some? && now.value - lastAttemptMs.value < policy.cooldownMs {
      return Cooldown;
    }
    return Dispatch;
  }

  lemma EscalatedStep(ds: seq<Decision>, i: nat, origin: string)
    requires i < |ds|
    ensures Escalated(ds[..i + 1], origin) <==> Escalated(ds[..i], origin) || IsEscalation(ds[i], origin)
  {
    if Escalated(ds[..i], origin) {
      var k :| 0 <= k < i && IsEscalation(ds[..i][k], origin);
      assert ds[..i + 1][k] == ds[k];
    }
    if IsEscalation(ds[i], origin) {
      assert ds[..i + 1][i] == ds[i];
    }
    if Escalated(ds[..i + 1], origin) {
      var k :| 0 <= k <= i && IsEscalation(ds[..i + 1][k], origin);
      assert k < i ==> ds[..i][k] == ds[k];
    }
  }

  /** The executed attempts for an origin, by their place. */
  function AttemptsAt(ds: seq<Decision>, origin: string): set<int> {
    set k | 0 <= k < |ds| && ds[k].executed && ds[k].action == Attempt(origin)
  }

  lemma {:induction false} AttemptsCounted(ds: seq<Decision>, origin: string)
    ensures Attempts(ds, origin) == |AttemptsAt(ds, origin)|
  {
    if ds != [] {
      var n := |ds| - 1;
      AttemptsCounted(ds[..n], origin);
      assert AttemptsAt(ds, origin) == AttemptsAt(ds[..n], origin) + if IsAttempt(ds[n], origin) then {n} else {};
    } else {
      assert AttemptsAt(ds, origin) == {};
    }
  }

  predicate MadeWithin(d: Decision, origin: string, now: int, cooldownMs: int) {
    d.executed && d.action == Attempt(origin) && d.createdAt.Some? && now - d.createdAt.value < cooldownMs
  }

  /** An attempt for the origin was made less than a cooldown ago. */
  ghost predicate Recently(ds: seq<Decision>, origin: string, now: Option<int>, cooldownMs: int) {
    now.Some? && exists k :: 0 <= k < |ds| && MadeWithin(ds[k], origin, now.value, cooldownMs)
  }

  lemma {:induction false} LastIsLatest(ds: seq<Decision>, origin: string)
    ensures var last := LastAttempt(ds, origin);
            && (last.Some? ==> exists k :: 0 <= k < |ds| && IsAttempt(ds[k], origin) && ds[k].createdAt == last)
            && forall k :: 0 <= k < |ds| && IsAttempt(ds[k], origin) && ds[k].createdAt.Some? ==>
                 last.Some? && ds[k].createdAt.value <= last.value
  {
    if ds != [] {
      var n := |ds| - 1;
      LastIsLatest(ds[..n], origin);
      var before, last := LastAttempt(ds[..n], origin), LastAttempt(ds, origin);
      forall k | 0 <= k < |ds| && IsAttempt(ds[k], origin) && ds[k].createdAt.Some?
        ensures last.Some? && ds[k].createdAt.value <= last.value {
        assert k < n ==> ds[..n][k] == ds[k];
      }
      if before.Some? {
        var k :| 0 <= k < n && IsAttempt(ds[..n][k], origin) && ds[..n][k].createdAt == before;
        assert ds[k] == ds[..n][k];
      }
    }
  }

  /**
   * What a window decides: with fewer attempts than the cap an origin is dispatched exactly when none was made within
   * the cooldown; with more it is escalated exactly once in the window, and held after that.
   */
  lemma VerdictSays(origin: string, now: Option<int>, recent: seq<Decision>, policy: Policy)
    ensures var v, made := DispatchVerdict(origin, now, recent, policy), |AttemptsAt(recent, origin)|;
            var escalated := exists k ::
                               0 <= k < |recent| && recent[k].executed && recent[k].action == Escalation(origin);
            && (v.Dispatch? <==> made < policy.maxAttempts && !Recently(recent, origin, now, policy.cooldownMs))
            && (v.Cooldown? <==> made < policy.maxAttempts && Recently(recent, origin, now, policy.cooldownMs))
            && (v == Escalate(made) <==> made >= policy.maxAttempts && !escalated)
            && (v.Escalate? ==> v == Escalate(made))
            && (v.Hold? <==> made >= policy.maxAttempts && escalated)
  {
    AttemptsCounted(recent, origin);
    LastIsLatest(recent, origin);
    hide Attempts;
    hide LastAttempt;
    hide AttemptsAt;
    assert Escalated(recent, origin) <==>
           exists k :: 0 <= k < |recent| && recent[k].executed && recent[k].action == Escalation(origin) by {
      if k: int :| 0 <= k < |recent| && recent[k].executed && recent[k].action == Escalation(origin) {
        assert IsEscalation(recent[k], origin);
      }
    }
    var last := LastAttempt(recent, origin);
    if last.Some? {
      var k :| 0 <= k < |recent| && IsAttempt(recent[k], origin) && recent[k].createdAt == last;
    }
    if Recently(recent, origin, now, policy.cooldownMs) {
      var k :| 0 <= k < |recent| && MadeWithin(recent[k], origin, now.value, policy.cooldownMs);
      assert IsAttempt(recent[k], origin);
    }
  }

  // The log a run of pulses writes

  /** A logged decision with what it was decided on: the length of the log its pulse read, and the pulse's time. */
  datatype Logged = Logged(decision: Decision, readAt: nat, now: Option<int>)

  function Decisions(log: seq<Logged>): (ds: seq<Decision>)
    ensures |ds| == |log|
    ensures forall k :: 0 <= k < |log| ==> ds[k] == log[k].decision
  {
    seq(|log|, k requires 0 <= k < |log| => log[k].decision)
  }

  /** The last `window` decisions of the first `n`. */
  function Recent(ds: seq<Decision>, n: nat, window: nat): seq<Decision>
    requires n <= |ds|
  {
    ds[if n < window then 0 else n - window..n]
  }

  /**
   * Every executed attempt and every cap escalation is one the cooldown ordered from the last `window` decisions its
   * pulse read, and is recorded no earlier than the pulse's time. That each goes through the verdict, and that a pulse
   * orders one for an origin at most, is assumed of the dispatcher: the cooldown itself does not see to it.
   */
  ghost predicate Ordered(log: seq<Logged>, window: nat, policy: Policy) {
    forall p :: 0 <= p < |log| && log[p].decision.executed && !log[p].decision.action.Unrelated? ==>
        OrderedAt(log, p, window, policy)
  }

  ghost predicate OrderedAt(log: seq<Logged>, p: nat, window: nat, policy: Policy)
    requires p < |log|
  {
    var origin := (match log[p].decision.action case Attempt(o) => o case Escalation(o) => o case Unrelated => "");
    var ds := Decisions(log);
    var e := log[p];
    && e.readAt <= p
    && (forall q :: e.readAt <= q < p ==> !IsAttempt(ds[q], origin) && !IsEscalation(ds[q], origin))
    && (e.now.Some? && e.decision.createdAt.Some? ==> e.decision.createdAt.value >= e.now.value)
    && var verdict := DispatchVerdict(origin, e.now, Recent(ds, e.readAt, window), policy);
    if e.decision.action.Attempt? then verdict.Dispatch? else verdict.Escalate?
  }

  // Counting over slices

  lemma {:induction false} AttemptsJoined(a: seq<Decision>, b: seq<Decision>, origin: string)
    ensures Attempts(a + b, origin) == Attempts(a, origin) + Attempts(b, origin)
  {
    if b == [] {
      assert a + b == a;
    } else {
      assert (a + b)[..|a + b| - 1] == a + b[..|b| - 1];
      AttemptsJoined(a, b[..|b| - 1], origin);
    }
  }

  lemma AttemptsWithin(ds: seq<Decision>, i: nat, j: nat, k: nat, m: nat, origin: string)
    requires i <= j <= k <= m <= |ds|
    ensures Attempts(ds[j..k], origin) <= Attempts(ds[i..m], origin)
  {
    assert ds[i..m] == ds[i..j] + (ds[j..k] + ds[k..m]);
    AttemptsJoined(ds[i..j], ds[j..k] + ds[k..m], origin);
    AttemptsJoined(ds[j..k], ds[k..m], origin);
  }

  lemma {:induction false} NoAttempts(ds: seq<Decision>, origin: string)
    requires forall q :: 0 <= q < |ds| ==> !IsAttempt(ds[q], origin)
    ensures Attempts(ds, origin) == 0
  {
    if ds != [] {
      NoAttempts(ds[..|ds| - 1], origin);
    }
  }

  lemma {:induction false} LastAtLeast(ds: seq<Decision>, origin: string, k: nat)
    requires k < |ds| && IsAttempt(ds[k], origin) && ds[k].createdAt.Some?
    ensures LastAttempt(ds, origin).Some? && LastAttempt(ds, origin).value >= ds[k].createdAt.value
  {
    if k < |ds| - 1 {
      LastAtLeast(ds[..|ds| - 1], origin, k);
    }
  }

  lemma AttemptsParted(ds: seq<Decision>, from: nat, mid: nat, p: nat, origin: string)
    requires from <= mid <= p < |ds| && IsAttempt(ds[p], origin)
    requires forall q :: mid <= q < p ==> !IsAttempt(ds[q], origin)
    ensures Attempts(ds[from..p + 1], origin) == Attempts(ds[from..mid], origin) + 1
  {
    SliceParts(ds, from, mid, p);
    hide Attempts;
    AttemptsJoined(ds[from..mid], ds[mid..p] + [ds[p]], origin);
    AttemptsJoined(ds[mid..p], [ds[p]], origin);
    NoAttempts(ds[mid..p], origin);
    OneAttempt(ds[p], origin);
  }

  lemma SliceParts(ds: seq<Decision>, from: nat, mid: nat, p: nat)
    requires from <= mid <= p < |ds|
    ensures ds[from..p + 1] == ds[from..mid] + (ds[mid..p] + [ds[p]])
  {
    var a, b := ds[from..mid], ds[mid..p];
    assert ds[from..p] == a + b;
    assert ds[from..p + 1] == ds[from..p] + [ds[p]];
    assert (a + b) + [ds[p]] == a + (b + [ds[p]]);
  }

  lemma OneAttempt(d: Decision, origin: string)
    requires IsAttempt(d, origin)
    ensures Attempts([d], origin) == 1
  {
    assert [d][..0] == [];
  }

  /** The attempts among the decisions up to and with an attempt, as far back as a window, are within the cap. */
  lemma CappedAt(log: seq<Logged>, window: nat, policy: Policy, p: nat, from: nat, origin: string)
    requires Ordered(log, window, policy) && p < |log| && IsAttempt(log[p].decision, origin)
    requires from <= p < from + window
    ensures Attempts(Decisions(log)[from..p + 1], origin) <= policy.maxAttempts
  {
    hide Attempts;
    hide LastAttempt;
    hide Escalated;
    hide Decisions;
    assert OrderedAt(log, p, window, policy);
    var ds := Decisions(log);
    var read := log[p].readAt;
    var start := if read < window then 0 else read - window;
    if from < read {
      AttemptsParted(ds, from, read, p, origin);
      AttemptsWithin(ds, start, from, read, read, origin);
    } else {
      AttemptsParted(ds, from, from, p, origin);
      AttemptsWithin(ds, start, read, read, read, origin);
      assert ds[from..from] == ds[read..read] == [];
    }
  }

  /** Any `window` consecutive decisions hold at most the policy's number of attempts for an origin. */
  lemma {:induction false} WindowCapped(log: seq<Logged>, window: nat, policy: Policy, from: nat, end: nat,
      origin: string)
    requires Ordered(log, window, policy) && policy.maxAttempts >= 0
    requires from <= end <= |log| && end <= from + window
    ensures Attempts(Decisions(log)[from..end], origin) <= policy.maxAttempts
    decreases end
  {
    hide Ordered;
    hide Decisions;
    var ds := Decisions(log);
    if from < end {
      var p := end - 1;
      if IsAttempt(ds[p], origin) {
        CappedAt(log, window, policy, p, from, origin);
      } else {
        WindowCapped(log, window, policy, from, p, origin);
        assert ds[from..end][..p - from] == ds[from..p];
      }
    }
  }

  /** Two attempts for an origin within a window of each other are at least the cooldown apart. */
  lemma AttemptsApart(log: seq<Logged>, window: nat, policy: Policy, p: nat, q: nat, origin: string)
    requires Ordered(log, window, policy) && p < q < |log| && q < p + window
    requires IsAttempt(log[p].decision, origin) && IsAttempt(log[q].decision, origin)
    requires log[p].decision.createdAt.Some? && log[q].decision.createdAt.Some? && log[q].now.Some?
    ensures log[q].decision.createdAt.value - log[p].decision.createdAt.value >= policy.cooldownMs
  {
    hide Attempts;
    hide LastAttempt;
    hide Escalated;
    hide Decisions;
    assert OrderedAt(log, q, window, policy);
    var ds := Decisions(log);
    var read := log[q].readAt;
    var start := if read < window then 0 else read - window;
    assert ds[p] == log[p].decision;
    assert p < read && start <= p;
    assert Recent(ds, read, window)[p - start] == ds[p];
    LastAtLeast(Recent(ds, read, window), origin, p - start);
  }

  lemma EscalationSeen(ds: seq<Decision>, n: nat, window: nat, p: nat, origin: string)
    requires (if n < window then 0 else n - window) <= p < n <= |ds| && IsEscalation(ds[p], origin)
    ensures Escalated(Recent(ds, n, window), origin)
  {
    assert Recent(ds, n, window)[p - if n < window then 0 else n - window] == ds[p];
  }

  /** What ordered an escalation: it came in after the one before, and the pulse's reading called for it. */
  lemma EscalationOrdered(log: seq<Logged>, window: nat, policy: Policy, p: nat, q: nat, origin: string)
    requires Ordered(log, window, policy) && p < q < |log|
    requires IsEscalation(log[p].decision, origin) && IsEscalation(log[q].decision, origin)
    ensures p < log[q].readAt <= q
    ensures DispatchVerdict(origin, log[q].now, Recent(Decisions(log), log[q].readAt, window), policy).Escalate?
  {
    hide DispatchVerdict;
    hide Recent;
    hide Decisions;
    assert OrderedAt(log, q, window, policy);
    assert Decisions(log)[p] == log[p].decision;
  }

  /** Between two cap escalations for an origin there are at least as many attempts as the cap. */
  lemma EscalationsApart(log: seq<Logged>, window: nat, policy: Policy, p: nat, q: nat, origin: string)
    requires Ordered(log, window, policy) && p < q < |log|
    requires IsEscalation(log[p].decision, origin) && IsEscalation(log[q].decision, origin)
    ensures Attempts(Decisions(log)[p + 1..q], origin) >= policy.maxAttempts
  {
    hide Attempts;
    hide Escalated;
    hide Decisions;
    EscalationOrdered(log, window, policy, p, q, origin);
    hide OrderedAt;
    var ds := Decisions(log);
    var read := log[q].readAt;
    var start := if read < window then 0 else read - window;
    if start <= p {
      EscalationSeen(ds, read, window, p, origin);
      assert false;
    }
    AttemptsWithin(ds, p + 1, start, read, q, origin);
  }
}
