// An agent's sessions, exits, endings and reaps (`src/agents/agentManager.ts`), one agent's entries at a time.
module AgentManager {
  import opened Options
  import opened AgentParks

  datatype Ending = Done | Failed | Killed

  /** A reap, with whether a session was registered and a process running when it came. */
  datatype Reap = Reap(ending: Ending, live: bool, running: bool)

  /**
   * What the manager holds for an agent. A session is known by its place among the agent's launches, and `procs` says
   * of each whether its process has exited. `ended` is whether an ending was ever recorded, and `strayed` whether a
   * usage limit was ever declared that the agent was past, as `Stray` has it.
   */
  datatype Agent = Agent(session: Option<nat>, procs: seq<bool>, exited: bool, terminal: Option<Ending>, parks: Parks,
                         attempts: nat, exits: nat, reaps: seq<Reap>, ended: bool, strayed: bool)

  datatype Config = Config(parks: Settings, resumeAttempts: int)

  predicate AllExited(procs: seq<bool>) {
    forall k :: 0 <= k < |procs| ==> procs[k]
  }

  // Steps

  function MaybeReap(a: Agent): Agent {
    if a.terminal.None? || !a.exited then a
    else a.(terminal := None, exited := false,
        reaps := a.reaps + [Reap(a.terminal.value, a.session.Some?, !AllExited(a.procs))])
  }

  function HandleTerminal(a: Agent, ending: Ending): Agent {
    MaybeReap(a.(parks := NONE, session := None, terminal := Some(ending), ended := true))
  }

  function Shed(a: Agent): Agent {
    a.(session := None, exited := false)
  }

  /**
   * A limit declared now comes from a session the agent let go of: when it was ended, or with the process still
   * running.
   */
  predicate Stray(a: Agent) {
    a.session.None? && (a.ended || !AllExited(a.procs))
  }

  /** A limit declared by a session, whichever of the agent's it is. */
  function OnLimited(a: Agent, limit: Limit): Agent {
    if a.parks.limited.Some? then a
    else
      var b := a.(parks := Limited(a.parks, limit), strayed := a.strayed || Stray(a));
      if b.exited then Shed(b) else b
  }

  function OnExit(a: Agent, i: nat): Agent
    requires i < |a.procs|
  {
    var b := a.(procs := a.procs[i := true], exited := true, exits := a.exits + 1);
    MaybeReap(if b.parks.limited.Some? then Shed(b) else b)
  }

  /** A launch, of the first session or to resume a conversation; one that was waiting is parked again. */
  function Launched(a: Agent, wasWaiting: bool): Agent {
    a.(session := Some(|a.procs|), procs := a.procs + [false], parks := if wasWaiting then a.parks.(parked := true)
      else a.parks)
  }

  /**
   * Whether a crash is answered by resuming. `resumable`: the runtime keeps sessions, the row has one, its worktree
   * is there.
   */
  predicate CanResume(a: Agent, i: nat, o: Config, resumable: bool) {
    o.resumeAttempts > 0 && resumable && a.session == Some(i) && a.attempts < o.resumeAttempts
  }

  function OnFailed(a: Agent, i: nat, o: Config, resumable: bool, launches: bool, wasWaiting: bool): Agent {
    if !CanResume(a, i, o, resumable) then HandleTerminal(a, Failed)
    else
      var b := a.(attempts := a.attempts + 1, session := None, exited := false);
      if launches then Launched(b, wasWaiting) else HandleTerminal(b, Failed)
  }

  function OnKill(a: Agent): Agent {
    if a.session.None? && a.parks.limited.None? then a
    else
      MaybeReap(a.(parks := Clear(a.parks), session := None, terminal := Some(Killed), ended := true,
                   exited := a.exited || a.session.None?))
  }

  function OnComplete(a: Agent): Agent {
    if a.session.None? then a else HandleTerminal(a, Done)
  }

  function OnResumeParked(a: Agent, resumable: bool, launches: bool): Agent {
    if a.parks.limited.None? || (a.session.None? && !resumable) then a
    else
      var limit := a.parks.limited.value;
      var b := a.(parks := Clear(a.parks));
      if b.session.Some? then b
      else if launches then Launched(b, false) else b.(parks := Reinstated(b.parks, limit))
  }

  function OnInterruptAll(a: Agent): Agent {
    if a.session.None? then a else a.(session := None, exited := false, parks := Unpark(a.parks))
  }

  // Events

  /** What a session says as its process exits. */
  datatype After = NothingMore | SaidDone | SaidFailed(resumable: bool, launches: bool, wasWaiting: bool)
      | SaidLimited(limit: Limit)

  /** What a session says at the end of a turn. */
  datatype Said = TurnDone | TurnWaiting(approved: bool) | TurnStalled(sends: bool, approved: bool)
      | TurnLimited(limit: Limit)

  datatype Event =
    | Launch(launches: bool, wasWaiting: bool)
    | Exit(i: nat, then_: After)
    | Turn(i: nat, said: Said, now: int)
    | Quiet(approved: bool, now: int)
    | Works(now: int)
    | Ask(approved: bool)
    | Respond
    | Release
    | Extend(now: int)
    | Kill
    | Complete
    | ResumeParked(resumable: bool, launches: bool)
    | ResumeExpired(resumable: bool, launches: bool, now: int)
    | ExpireStalls(now: int)
    | InterruptAll

  /**
   * A process exits once; what it printed may be read after. An agent is launched by the harness once in the life of
   * the manager.
   */
  predicate Enabled(a: Agent, e: Event) {
    match e
    case Launch(_, _) => a.procs == [] && !a.ended
    case Exit(i, _) => i < |a.procs| && !a.procs[i]
    case Turn(i, _, _) => i < |a.procs|
    case Ask(_) => a.session.Some?
    case _ => true
  }

  function OnTurn(a: Agent, o: Config, i: nat, said: Said, now: int): Agent {
    match said
    case TurnDone => HandleTerminal(a, Done)
    case TurnWaiting(approved) => a.(parks := Waiting(a.parks, approved, a.session.Some?))
    case TurnStalled(sends, approved) =>
        a.(parks := Stalled(a.parks, o.parks, a.exited, sends, approved, a.session.Some?, now))
    case TurnLimited(limit) => OnLimited(a, limit)
  }

  function AfterExit(a: Agent, o: Config, i: nat, after: After): Agent {
    match after
    case NothingMore => a
    case SaidDone => HandleTerminal(a, Done)
    case SaidFailed(resumable, launches, wasWaiting) => OnFailed(a, i, o, resumable, launches, wasWaiting)
    case SaidLimited(limit) => OnLimited(a, limit)
  }

  function OnExpireStalls(a: Agent, now: int): Agent {
    if Completes(a.parks, now, a.session.Some?) then OnComplete(a)
    else a.(parks := Settled(a.parks, now, false))
  }

  function Apply(a: Agent, o: Config, e: Event): Agent
    requires Enabled(a, e)
  {
    match e
    case Launch(launches, wasWaiting) => if launches then Launched(a, wasWaiting) else a
    case Exit(i, after) => AfterExit(OnExit(a, i), o, i, after)
    case Turn(i, said, now) => OnTurn(a, o, i, said, now)
    case Quiet(approved, now) => a.(parks := Silent(a.parks, o.parks, approved, a.session.Some?, now))
    case Works(now) => a.(parks := Resumed(a.parks, now))
    case Ask(approved) => a.(parks := Waiting(a.parks, approved, true))
    case Respond => if a.session.Some? then a.(parks := Clear(a.parks)) else a
    case Release => a.(parks := Released(a.parks))
    case Extend(now) => a.(parks := Extended(a.parks, o.parks, now))
    case Kill => OnKill(a)
    case Complete => OnComplete(a)
    case ResumeParked(resumable, launches) => OnResumeParked(a, resumable, launches)
    case ResumeExpired(resumable, launches, now) => if TurnedOver(a.parks, now) then
        OnResumeParked(a, resumable, launches) else a
    case ExpireStalls(now) => OnExpireStalls(a, now)
    case InterruptAll => OnInterruptAll(a)
  }

  function Fresh(attempts: nat): Agent {
    Agent(None, [], false, None, NONE, attempts, 0, [], false, false)
  }

  ghost predicate RunOf(states: seq<Agent>, o: Config, events: seq<Event>) {
    && |states| == |events| + 1 && states[0] == Fresh(states[0].attempts)
    && forall k :: 0 <= k < |events| ==>
       Enabled(states[k], events[k]) && states[k + 1] == Apply(states[k], o, events[k])
  }

  // Kept by every step

  function Most(o: Config, first: nat): nat {
    if o.resumeAttempts > first then o.resumeAttempts else first
  }

  /**
   * Kept whatever the sessions say: the parks' own rule, the bound on resumes, a reap the moment both its halves are
   * there, and a process that exits under a limit given back at once.
   */
  ghost predicate Always(a: Agent, o: Config, first: nat) {
    && Good(a.parks, o.parks)
    && a.attempts <= Most(o, first)
    && !(a.exited && (a.terminal.Some? || a.parks.limited.Some?))
    && (a.terminal.Some? ==> a.ended)
  }

  lemma TurnAlways(a: Agent, o: Config, first: nat, i: nat, said: Said, now: int)
    requires Always(a, o, first)
    ensures Always(OnTurn(a, o, i, said, now), o, first)
  {
    hide AllExited;
    match said
    case TurnDone =>
    case TurnWaiting(approved) =>
      StopsKeep(a.parks, o.parks, a.exited, true, approved, a.session.Some?, now);
      StopsLimitNothing(a.parks, o.parks, a.exited, true, approved, a.session.Some?, now);
      hide Waiting;
    case TurnStalled(sends, approved) =>
      StopsKeep(a.parks, o.parks, a.exited, sends, approved, a.session.Some?, now);
      StopsLimitNothing(a.parks, o.parks, a.exited, sends, approved, a.session.Some?, now);
      hide Stalled;
    case TurnLimited(limit) =>
      LimitsKeep(a.parks, o.parks, limit);
      hide Good;
  }

  lemma ExitAlways(a: Agent, o: Config, first: nat, i: nat, after: After)
    requires Always(a, o, first) && i < |a.procs|
    ensures Always(AfterExit(OnExit(a, i), o, i, after), o, first)
  {
    hide AllExited;
    var b := OnExit(a, i);
    assert Always(b, o, first);
    hide OnExit;
  }

  lemma ParkAlways(a: Agent, o: Config, first: nat, e: Event)
    requires Always(a, o, first) && Enabled(a, e)
    requires e.Quiet? || e.Works? || e.Ask? || e.Respond? || e.Release? || e.Extend? || e.ExpireStalls?
    ensures Always(Apply(a, o, e), o, first)
  {
    hide AllExited;
    match e
    case Quiet(approved, now) =>
      StopsKeep(a.parks, o.parks, a.exited, true, approved, a.session.Some?, now);
      StopsLimitNothing(a.parks, o.parks, a.exited, true, approved, a.session.Some?, now);
      hide Silent;
    case Ask(approved) =>
      StopsKeep(a.parks, o.parks, a.exited, true, approved, true, 0);
      StopsLimitNothing(a.parks, o.parks, a.exited, true, approved, true, 0);
      hide Waiting;
    case Works(now) =>
      EndingsKeep(a.parks, o.parks, now);
      hide Good;
    case Extend(now) =>
      EndingsKeep(a.parks, o.parks, now);
      hide Good;
    case _ =>
      EndingsKeep(a.parks, o.parks, 0);
  }

  lemma AlwaysKept(a: Agent, o: Config, first: nat, e: Event)
    requires Always(a, o, first) && Enabled(a, e)
    ensures Always(Apply(a, o, e), o, first)
  {
    hide AllExited;
    match e
    case Launch(_, _) =>
    case Exit(i, after) => ExitAlways(a, o, first, i, after);
    case Turn(i, said, now) => TurnAlways(a, o, first, i, said, now);
    case Kill =>
    case Complete =>
    case ResumeParked(_, _) =>
    case ResumeExpired(_, _, _) =>
    case InterruptAll =>
    case _ => ParkAlways(a, o, first, e);
  }

  /** One process at a time: every launch but the last has exited, and the session registered is the last. */
  ghost predicate OneProcess(a: Agent) {
    && (forall k :: 0 <= k < |a.procs| - 1 ==> a.procs[k])
    && (a.session.Some? ==> a.session.value + 1 == |a.procs|)
    && (a.exited ==> AllExited(a.procs))
    && (a.parks.limited.Some? && a.session.None? ==> AllExited(a.procs))
    && (a.procs == [] ==> a.session.None? && !a.exited && a.parks.limited.None?)
  }

  /** An ending is never re-opened. */
  ghost predicate EndedStays(a: Agent) {
    a.ended ==> a.session.None? && a.parks.limited.None?
  }

  function Owing(a: Agent): nat {
    (if a.exited then 1 else 0) + if a.parks.limited.Some? && a.session.None? then 1 else 0
  }

  /**
   * No more reaps than exits, an exit noted or shed under a limit still to be answered for; and every reap was clean.
   */
  ghost predicate Reaped(a: Agent) {
    && |a.reaps| + Owing(a) <= a.exits
    && (!a.ended ==> a.reaps == [])
    && (a.exits == 0 ==> forall k :: 0 <= k < |a.procs| ==> !a.procs[k])
    && forall k :: 0 <= k < |a.reaps| ==> !a.reaps[k].live && !a.reaps[k].running
  }

  ghost predicate Inv(a: Agent) {
    OneProcess(a) && EndedStays(a) && Reaped(a)
  }

  lemma ReapKeeps(a: Agent)
    requires Inv(a)
    requires a.terminal.Some? ==> a.session.None? && a.ended
    ensures Inv(MaybeReap(a))
  {
  }

  lemma TerminalKeeps(a: Agent, ending: Ending)
    requires Inv(a)
    ensures Inv(HandleTerminal(a, ending))
  {
    ReapKeeps(a.(parks := NONE, session := None, terminal := Some(ending), ended := true));
  }

  lemma ExitKeeps(a: Agent, i: nat)
    requires Inv(a) && i < |a.procs| && !a.procs[i] && (a.terminal.Some? ==> a.ended)
    ensures Inv(OnExit(a, i)) && AllExited(OnExit(a, i).procs)
  {
    var b := a.(procs := a.procs[i := true], exited := true, exits := a.exits + 1);
    assert i == |a.procs| - 1;
    ReapKeeps(if b.parks.limited.Some? then Shed(b) else b);
  }

  lemma LimitedKeeps(a: Agent, limit: Limit)
    requires Inv(a) && a.procs != [] && !OnLimited(a, limit).strayed
    ensures Inv(OnLimited(a, limit))
  {
    if AllExited(a.procs) {
      assert a.procs[0];
    }
  }

  lemma LaunchKeeps(a: Agent, wasWaiting: bool)
    requires Inv(a) && AllExited(a.procs) && a.session.None? && a.parks.limited.None? && !a.exited && !a.ended
    ensures Inv(Launched(a, wasWaiting))
  {
  }

  lemma FailedKeeps(a: Agent, i: nat, o: Config, resumable: bool, launches: bool, wasWaiting: bool)
    requires Inv(a) && AllExited(a.procs) && (a.session == Some(i) ==> a.parks.limited.None?)
    ensures Inv(OnFailed(a, i, o, resumable, launches, wasWaiting))
  {
    if CanResume(a, i, o, resumable) {
      var b := a.(attempts := a.attempts + 1, session := None, exited := false);
      assert Inv(b);
      if launches {
        LaunchKeeps(b, wasWaiting);
      } else {
        TerminalKeeps(b, Failed);
      }
    } else {
      TerminalKeeps(a, Failed);
    }
  }

  lemma KillKeeps(a: Agent)
    requires Inv(a)
    ensures Inv(OnKill(a))
  {
    if a.session.Some? || a.parks.limited.Some? {
      ReapKeeps(a.(parks := Clear(a.parks), session := None, terminal := Some(Killed), ended := true,
                   exited := a.exited || a.session.None?));
    }
  }

  lemma ResumeKeeps(a: Agent, resumable: bool, launches: bool)
    requires Inv(a) && (a.exited ==> a.parks.limited.None?)
    ensures Inv(OnResumeParked(a, resumable, launches))
  {
    var b := a.(parks := Clear(a.parks));
    if a.parks.limited.Some? && b.session.None? && launches {
      assert Inv(b);
      LaunchKeeps(b, false);
    }
  }

  lemma TurnKeeps(a: Agent, o: Config, i: nat, said: Said, now: int)
    requires Inv(a) && i < |a.procs| && !OnTurn(a, o, i, said, now).strayed
    ensures Inv(OnTurn(a, o, i, said, now))
  {
    match said
    case TurnDone => TerminalKeeps(a, Done);
    case TurnWaiting(approved) =>
      StopsLimitNothing(a.parks, o.parks, a.exited, true, approved, a.session.Some?, now);
      hide Waiting;
    case TurnStalled(sends, approved) =>
      StopsLimitNothing(a.parks, o.parks, a.exited, sends, approved, a.session.Some?, now);
      hide Stalled;
    case TurnLimited(limit) => LimitedKeeps(a, limit);
  }

  lemma AfterKeeps(a: Agent, o: Config, i: nat, after: After)
    requires Inv(a) && i < |a.procs| && !a.procs[i] && (a.terminal.Some? ==> a.ended)
    requires !AfterExit(OnExit(a, i), o, i, after).strayed
    ensures Inv(AfterExit(OnExit(a, i), o, i, after))
  {
    ExitKeeps(a, i);
    var b := OnExit(a, i);
    assert b.session.Some? ==> b.parks.limited.None?;
    hide OnExit;
    hide Inv;
    match after
    case NothingMore =>
    case SaidDone => TerminalKeeps(b, Done);
    case SaidFailed(resumable, launches, wasWaiting) => FailedKeeps(b, i, o, resumable, launches, wasWaiting);
    case SaidLimited(limit) => LimitedKeeps(b, limit);
  }

  lemma StepKeeps(a: Agent, o: Config, first: nat, e: Event)
    requires Always(a, o, first) && Inv(a) && Enabled(a, e) && !Apply(a, o, e).strayed
    ensures Inv(Apply(a, o, e))
  {
    hide AllExited;
    hide OnTurn;
    hide AfterExit;
    hide OnExit;
    match e
    case Launch(_, wasWaiting) => FirstLaunch(a, wasWaiting);
    case Exit(i, after) => AfterKeeps(a, o, i, after);
    case Turn(i, said, now) => TurnKeeps(a, o, i, said, now);
    case Kill => KillKeeps(a);
    case Complete => TerminalKeeps(a, Done);
    case ResumeParked(resumable, launches) => ResumeKeeps(a, resumable, launches);
    case ResumeExpired(resumable, launches, _) => ResumeKeeps(a, resumable, launches);
    case ExpireStalls(_) => TerminalKeeps(a, Done);
    case Quiet(approved, now) =>
      StopsLimitNothing(a.parks, o.parks, a.exited, true, approved, a.session.Some?, now);
      hide Silent;
    case Ask(approved) =>
      StopsLimitNothing(a.parks, o.parks, a.exited, true, approved, true, 0);
      hide Waiting;
    case _ =>
  }

  lemma FirstLaunch(a: Agent, wasWaiting: bool)
    requires Inv(a)
    ensures a.procs == [] && !a.ended ==> Inv(Launched(a, wasWaiting))
  {
  }

  lemma Begins(o: Config, first: nat)
    ensures Always(Fresh(first), o, first) && Inv(Fresh(first))
  {
  }

  lemma {:induction false} AlwaysReachable(states: seq<Agent>, o: Config, events: seq<Event>, k: nat)
    requires RunOf(states, o, events) && k <= |events|
    ensures Always(states[k], o, states[0].attempts)
  {
    hide Apply;
    hide Enabled;
    hide Always;
    if k == 0 {
      Begins(o, states[0].attempts);
    } else {
      AlwaysReachable(states, o, events, k - 1);
      AlwaysKept(states[k - 1], o, states[0].attempts, events[k - 1]);
    }
  }

  lemma StrayStays(a: Agent, o: Config, e: Event)
    requires Enabled(a, e) && a.strayed
    ensures Apply(a, o, e).strayed
  {
    hide AllExited;
  }

  lemma {:induction false} Reachable(states: seq<Agent>, o: Config, events: seq<Event>, k: nat)
    requires RunOf(states, o, events) && k <= |events| && !states[k].strayed
    ensures Inv(states[k])
  {
    hide Apply;
    hide Enabled;
    hide Always;
    hide Inv;
    if k == 0 {
      Begins(o, states[0].attempts);
    } else {
      if states[k - 1].strayed {
        StrayStays(states[k - 1], o, events[k - 1]);
      }
      Reachable(states, o, events, k - 1);
      AlwaysReachable(states, o, events, k - 1);
      StepKeeps(states[k - 1], o, states[0].attempts, events[k - 1]);
    }
  }

  // What a reader may rely on

  /**
   * In every run of events, however they interleave: never a limit and a stall clock together, and no more nudges
   * than the budget.
   */
  lemma LimitOrClock(states: seq<Agent>, o: Config, events: seq<Event>, k: nat)
    requires RunOf(states, o, events) && k <= |events|
    ensures !(states[k].parks.limited.Some? && states[k].parks.stalled.Some?)
    ensures states[k].parks.sent <= Budget(o.parks)
  {
    AlwaysReachable(states, o, events, k);
  }

  /** So a stall clock that runs out never completes a run that is usage-limited: it completes exactly the live ones. */
  lemma ExpiryCompletes(states: seq<Agent>, o: Config, events: seq<Event>, k: nat, now: int)
    requires RunOf(states, o, events) && k <= |events|
    ensures var a := states[k];
            Completes(a.parks, now, a.session.Some?) <==> a.session.Some? && Expired(a.parks, now)
  {
    AlwaysReachable(states, o, events, k);
  }

  /** An agent is resumed after a crash no more often than configured, over its whole life. */
  lemma ResumesBounded(states: seq<Agent>, o: Config, events: seq<Event>, k: nat)
    requires RunOf(states, o, events) && k <= |events|
    ensures states[k].attempts <= Most(o, states[0].attempts)
  {
    AlwaysReachable(states, o, events, k);
  }

  /**
   * Reaped only once ended, with no session registered and no process running, no more often than its processes
   * exited, and not opened again.
   */
  ghost predicate Sound(a: Agent) {
    && (forall r :: 0 <= r < |a.reaps| ==> !a.reaps[r].live && !a.reaps[r].running)
    && |a.reaps| <= a.exits
    && (a.reaps != [] ==> a.ended)
    && (a.ended ==> a.session.None?)
  }

  /** In every run with no limit declared that the agent was past, however its events interleave. */
  lemma ReapedOnceGone(states: seq<Agent>, o: Config, events: seq<Event>, k: nat)
    requires RunOf(states, o, events) && k <= |events| && !states[k].strayed
    ensures Sound(states[k])
  {
    Reachable(states, o, events, k);
  }

  predicate Declares(e: Event) {
    (e.Turn? && e.said.TurnLimited?) || (e.Exit? && e.then_.SaidLimited?)
  }

  /** The agent as the limit is declared. */
  function Declaring(a: Agent, e: Event): Agent
    requires Enabled(a, e) && Declares(e)
  {
    if e.Exit? then OnExit(a, e.i) else a
  }

  function LimitOf(e: Event): Limit
    requires Declares(e)
  {
    if e.Exit? then e.then_.limit else e.said.limit
  }

  lemma DeclaredAt(a: Agent, o: Config, e: Event)
    requires Enabled(a, e) && Declares(e)
    ensures Apply(a, o, e) == OnLimited(Declaring(a, e), LimitOf(e))
    ensures Declaring(a, e).strayed == a.strayed
  {
    hide OnLimited;
    hide AllExited;
  }

  lemma DeclaringKept(a: Agent, o: Config, first: nat, e: Event)
    requires Inv(a) && Always(a, o, first) && Enabled(a, e) && Declares(e)
    ensures Inv(Declaring(a, e)) && Always(Declaring(a, e), o, first) && Declaring(a, e).procs != []
  {
    if e.Exit? {
      ExitKeeps(a, e.i);
    }
  }

  /** From a stray limit one more event, a kill or a resume, breaks what holds without one. */
  lemma StrayBreaks(c: Agent, o: Config, first: nat, limit: Limit) returns (next: Event)
    requires Inv(c) && Always(c, o, first) && Stray(c) && c.parks.limited.None?
    ensures Enabled(OnLimited(c, limit), next) && !Sound(Apply(OnLimited(c, limit), o, next))
  {
    var b := OnLimited(c, limit);
    if !AllExited(c.procs) {
      next := Kill;
      var r := Apply(b, o, Kill).reaps;
      assert r[|r| - 1].running;
    } else {
      next := ResumeParked(true, true);
    }
  }

  /** The step that declares a stray limit breaks nothing itself. */
  lemma StrayStepSound(a: Agent, o: Config, first: nat, e: Event)
    requires Inv(a) && Always(a, o, first) && Enabled(a, e) && Apply(a, o, e).strayed && !a.strayed
    ensures Sound(Apply(a, o, e))
  {
    StraysDeclare(a, o, e);
    DeclaringKept(a, o, first, e);
    DeclaredAt(a, o, e);
    hide Apply;
    hide AllExited;
    hide Declaring;
  }

  lemma StraysDeclare(a: Agent, o: Config, e: Event)
    requires Enabled(a, e) && Apply(a, o, e).strayed && !a.strayed
    ensures Declares(e)
  {
    hide AllExited;
    hide Stray;
  }

  lemma EveryNextSound(a: Agent, o: Config, first: nat, e: Event)
    requires Inv(a) && Always(a, o, first) && Enabled(a, e) && !a.strayed
    ensures Sound(Apply(a, o, e))
  {
    if Apply(a, o, e).strayed {
      StrayStepSound(a, o, first, e);
    } else {
      StepKeeps(a, o, first, e);
    }
  }

  /**
   * The condition is exact. In any run without a stray limit so far, a limit that is declared is stray exactly when
   * some event that may come next reaps the agent with a process running, or more often than one exited, or opens it
   * again.
   */
  lemma StrayIffBreaks(states: seq<Agent>, o: Config, events: seq<Event>, k: nat, e: Event)
    requires RunOf(states, o, events) && k <= |events| && !states[k].strayed
    requires Enabled(states[k], e) && Declares(e)
    ensures var b := Apply(states[k], o, e);
            (Stray(Declaring(states[k], e)) && Declaring(states[k], e).parks.limited.None?)
            <==> exists next :: Enabled(b, next) && !Sound(Apply(b, o, next))
  {
    var a, first := states[k], states[0].attempts;
    Reachable(states, o, events, k);
    AlwaysReachable(states, o, events, k);
    DeclaringKept(a, o, first, e);
    DeclaredAt(a, o, e);
    var c, b := Declaring(a, e), Apply(a, o, e);
    if Stray(c) && c.parks.limited.None? {
      var next := StrayBreaks(c, o, first, LimitOf(e));
    } else {
      assert !b.strayed;
      StepKeeps(a, o, first, e);
      AlwaysKept(a, o, first, e);
      forall next | Enabled(b, next) ensures Sound(Apply(b, o, next)) {
        EveryNextSound(b, o, first, next);
      }
    }
  }

  /** The event records an ending. */
  predicate Ends(a: Agent, o: Config, e: Event)
    requires Enabled(a, e)
  {
    match e
    case Turn(_, said, _) => said.TurnDone?
    case Exit(i, then_) => then_.SaidDone?
        || (then_.SaidFailed? && !(then_.launches && CanResume(OnExit(a, i), i, o, then_.resumable)))
    case Kill => a.session.Some? || a.parks.limited.Some?
    case Complete => a.session.Some?
    case ExpireStalls(now) => a.session.Some? && Completes(a.parks, now, true)
    case _ => false
  }

  function EndingsBefore(states: seq<Agent>, o: Config, events: seq<Event>, k: nat): nat
    requires RunOf(states, o, events) && k <= |events|
  {
    if k == 0 then 0
    else EndingsBefore(states, o, events, k - 1) + if Ends(states[k - 1], o, events[k - 1]) then 1 else 0
  }

  function ExitsBefore(events: seq<Event>, k: nat): nat
    requires k <= |events|
  {
    if k == 0 then 0 else ExitsBefore(events, k - 1) + if events[k - 1].Exit? then 1 else 0
  }

  function Standing(a: Agent): nat {
    if a.terminal.Some? then 1 else 0
  }

  /** What a step adds to the reaps, at most one, and to those that have an ending standing for them. */
  ghost predicate Adds(a: Agent, t: Agent, endings: nat, reaps: nat) {
    && a.reaps <= t.reaps && |t.reaps| <= |a.reaps| + reaps && t.exits == a.exits
    && |t.reaps| + Standing(t) <= |a.reaps| + Standing(a) + endings
    && (|t.reaps| > |a.reaps| ==> t.ended || a.terminal.Some?)
  }

  lemma TerminalAdds(a: Agent, ending: Ending)
    ensures Adds(a, HandleTerminal(a, ending), 1, if a.exited then 1 else 0)
  {
    hide AllExited;
  }

  lemma KillAdds(a: Agent)
    ensures Adds(a, OnKill(a), if a.session.Some? || a.parks.limited.Some? then 1 else 0, 1)
  {
    hide AllExited;
  }

  lemma LimitedAdds(a: Agent, limit: Limit)
    ensures Adds(a, OnLimited(a, limit), 0, 0)
  {
    hide Stray;
  }

  lemma ExitAdds(a: Agent, i: nat)
    requires i < |a.procs|
    ensures var b := OnExit(a, i);
            && Adds(a, b.(exits := a.exits), 0, if b.exited then 0 else 1) && b.exits == a.exits + 1
            && !(b.exited && b.terminal.Some?)
  {
    hide AllExited;
  }

  lemma FailedAdds(a: Agent, i: nat, o: Config, resumable: bool, launches: bool, wasWaiting: bool)
    ensures Adds(a, OnFailed(a, i, o, resumable, launches, wasWaiting),
                 if launches && CanResume(a, i, o, resumable) then 0 else 1, if a.exited then 1 else 0)
  {
    hide HandleTerminal;
    hide CanResume;
    TerminalAdds(a, Failed);
    TerminalAdds(a.(attempts := a.attempts + 1, session := None, exited := false), Failed);
  }

  lemma AfterAdds(b: Agent, o: Config, i: nat, after: After)
    ensures Adds(b, AfterExit(b, o, i, after),
                 if after.SaidDone? || (after.SaidFailed? && !(after.launches && CanResume(b, i, o, after.resumable)))
                 then 1 else 0, if b.exited then 1 else 0)
  {
    hide HandleTerminal;
    hide OnFailed;
    hide OnLimited;
    match after
    case NothingMore =>
    case SaidDone => TerminalAdds(b, Done);
    case SaidFailed(resumable, launches, wasWaiting) => FailedAdds(b, i, o, resumable, launches, wasWaiting);
    case SaidLimited(limit) => LimitedAdds(b, limit);
  }

  lemma TurnAdds(a: Agent, o: Config, i: nat, said: Said, now: int)
    ensures Adds(a, OnTurn(a, o, i, said, now), if said.TurnDone? then 1 else 0, 1)
  {
    hide HandleTerminal;
    hide OnLimited;
    match said
    case TurnDone => TerminalAdds(a, Done);
    case TurnLimited(limit) => LimitedAdds(a, limit);
    case _ =>
  }

  lemma EndingStep(a: Agent, o: Config, e: Event)
    requires Enabled(a, e)
    ensures Adds(a, Apply(a, o, e).(exits := a.exits), if Ends(a, o, e) then 1 else 0, 1)
    ensures Apply(a, o, e).exits == a.exits + if e.Exit? then 1 else 0
  {
    hide HandleTerminal;
    hide OnKill;
    hide OnExit;
    hide AfterExit;
    hide OnTurn;
    match e
    case Exit(i, after) =>
      ExitAdds(a, i);
      AfterAdds(OnExit(a, i), o, i, after);
    case Turn(i, said, now) => TurnAdds(a, o, i, said, now);
    case Kill => KillAdds(a);
    case Complete => TerminalAdds(a, Done);
    case ExpireStalls(_) => TerminalAdds(a, Done);
    case _ =>
  }

  lemma NeverBoth(states: seq<Agent>, o: Config, events: seq<Event>, k: nat)
    requires RunOf(states, o, events) && k <= |events|
    ensures !(states[k].exited && states[k].terminal.Some?) && (states[k].terminal.Some? ==> states[k].ended)
  {
    AlwaysReachable(states, o, events, k);
    hide RunOf;
  }

  /**
   * In every run: no more reaps than endings recorded, one that stands still to be answered for; without a stray limit
   * no more than exits; and an ending and an exit never stand together unreaped.
   */
  lemma {:induction false} ReapsAnswered(states: seq<Agent>, o: Config, events: seq<Event>, k: nat)
    requires RunOf(states, o, events) && k <= |events|
    ensures |states[k].reaps| + Standing(states[k]) <= EndingsBefore(states, o, events, k)
    ensures states[k].exits == ExitsBefore(events, k)
    ensures !states[k].strayed ==> |states[k].reaps| + Owing(states[k]) <= ExitsBefore(events, k)
    ensures !(states[k].exited && states[k].terminal.Some?)
  {
    NeverBoth(states, o, events, k);
    if !states[k].strayed {
      Reachable(states, o, events, k);
    }
    hide Apply;
    hide Enabled;
    hide Ends;
    if k > 0 {
      ReapsAnswered(states, o, events, k - 1);
      EndingStep(states[k - 1], o, events[k - 1]);
    }
  }

  /**
   * A step that reaps, reaps once; it comes after, or with, an ending no earlier reap answered for, and, without a
   * stray limit, an exit none did.
   */
  lemma ReapNeedsBoth(states: seq<Agent>, o: Config, events: seq<Event>, k: nat)
    requires RunOf(states, o, events) && k < |events| && states[k + 1].reaps != states[k].reaps
    ensures |states[k + 1].reaps| == |states[k].reaps| + 1 && states[k + 1].ended
    ensures EndingsBefore(states, o, events, k + 1) > |states[k].reaps|
    ensures !states[k + 1].strayed ==> ExitsBefore(events, k + 1) > |states[k].reaps|
  {
    ReapsAnswered(states, o, events, k);
    ReapsAnswered(states, o, events, k + 1);
    AlwaysReachable(states, o, events, k);
    EndingStep(states[k], o, events[k]);
  }

  /** A limit declared by a session the agent no longer has lets a second kill reap it while the process still runs. */
  lemma StrayLimit(o: Config, limit: Limit, first: nat)
    ensures var a := Apply(Fresh(first), o, Launch(true, false));
            var b := Apply(Apply(a, o, Kill), o, Turn(0, TurnLimited(limit), 0));
            && b.strayed && Apply(b, o, Kill).reaps == [Reap(Killed, false, true)]
  {
    var a := Apply(Fresh(first), o, Launch(true, false));
    var b := Apply(Apply(a, o, Kill), o, Turn(0, TurnLimited(limit), 0));
    assert b.procs == [false] && !b.procs[0];
    assert !AllExited(b.procs);
  }

  // A resume that does not launch

  /**
   * A crash is reaped at once unless it is answered by resuming; and where that fails to launch, the exit it was owed
   * for is gone.
   */
  lemma CrashReaped(a: Agent, i: nat, o: Config, resumable: bool, launches: bool, wasWaiting: bool)
    requires a.exited && a.terminal.None?
    ensures var b := OnFailed(a, i, o, resumable, launches, wasWaiting);
            && (|b.reaps| == |a.reaps| + 1 <==> !CanResume(a, i, o, resumable))
            && (CanResume(a, i, o, resumable) && launches ==> b.session.Some? && b.terminal.None?)
            && (CanResume(a, i, o, resumable) && !launches ==>
               b.terminal == Some(Failed) && !b.exited && b.reaps == a.reaps)
  {
  }

  /** What the manager records as ended by a step: the ending that stands, or the one just reaped. */
  predicate Records(a: Agent, b: Agent, ending: Ending) {
    b.ended && (b.terminal == Some(ending) || (|b.reaps| > |a.reaps| && b.reaps[|b.reaps| - 1].ending == ending))
  }

  /**
   * Which crashes are resumed: of the registered session, under no limit, where resuming is configured and the
   * runtime can, with fewer resumes spent than allowed. That is one more resume spent; where it launches the agent has
   * the new session, and every other crash ends the agent as failed.
   */
  lemma CrashResumed(a: Agent, o: Config, i: nat, resumable: bool, launches: bool, wasWaiting: bool)
    requires i < |a.procs| && !a.procs[i]
    ensures var b := Apply(a, o, Exit(i, SaidFailed(resumable, launches, wasWaiting)));
            var resumes := o.resumeAttempts > 0 && resumable && a.session == Some(i) && a.parks.limited.None?
                           && a.attempts < o.resumeAttempts;
            && b.attempts == a.attempts + (if resumes then 1 else 0)
            && (resumes && launches ==> b.session == Some(|a.procs|) && b.procs == a.procs[i := true] + [false]
                                        && b.ended == a.ended && (wasWaiting ==> b.parks.parked))
            && (!(resumes && launches) ==> b.session.None? && b.procs == a.procs[i := true] && b.parks == NONE
                                           && Records(a, b, Failed))
  {
    hide AllExited;
  }

  /** Ended, with nothing left that could exit: no reap comes any more. */
  ghost predicate LeftOver(a: Agent) {
    a.terminal.Some? && a.ended && !a.exited && a.session.None? && a.parks.limited.None? && AllExited(a.procs)
  }

  lemma LeftOverStays(a: Agent, o: Config, e: Event)
    requires LeftOver(a) && Enabled(a, e) && !Apply(a, o, e).strayed
    ensures LeftOver(Apply(a, o, e)) && Apply(a, o, e).reaps == a.reaps
  {
    match e
    case Turn(_, TurnWaiting(approved), now) =>
        StopsLimitNothing(a.parks, o.parks, a.exited, true, approved, false, now);
    case Turn(_, TurnStalled(sends, approved), now) =>
        StopsLimitNothing(a.parks, o.parks, a.exited, sends, approved, false, now);
    case Quiet(approved, now) => StopsLimitNothing(a.parks, o.parks, a.exited, true, approved, false, now);
    case _ =>
  }

  /** Only a stray limit frees such an agent: any limit is stray now, and a kill after it does reap. */
  lemma LeftOverFreed(a: Agent, limit: Limit)
    requires LeftOver(a)
    ensures Stray(a) && OnKill(OnLimited(a, limit)).reaps == a.reaps + [Reap(Killed, false, false)]
  {
  }

  /** An agent whose resume failed to launch is never reaped, whatever comes after, short of a stray limit. */
  lemma {:induction false} NeverReaped(states: seq<Agent>, o: Config, events: seq<Event>, i: nat, k: nat)
    requires RunOf(states, o, events) && i < k <= |events| && !states[k].strayed
    requires events[i].Exit? && events[i].then_.SaidFailed? && !events[i].then_.launches
    requires CanResume(OnExit(states[i], events[i].i), events[i].i, o, events[i].then_.resumable)
    ensures states[k].reaps == states[i].reaps && states[k].ended
  {
    hide Always;
    NotStrayed(states, o, events, i, k);
    NotStrayed(states, o, events, i + 1, k);
    Reachable(states, o, events, i);
    AlwaysReachable(states, o, events, i);
    LeftUnreaped(states[i], o, states[0].attempts, events[i]);
    LeftOverOn(states, o, events, i + 1, k);
  }

  lemma LeftUnreaped(a: Agent, o: Config, first: nat, e: Event)
    requires Inv(a) && Always(a, o, first) && Enabled(a, e)
    requires e.Exit? && e.then_.SaidFailed? && !e.then_.launches
    requires CanResume(OnExit(a, e.i), e.i, o, e.then_.resumable)
    ensures LeftOver(Apply(a, o, e)) && Apply(a, o, e).reaps == a.reaps
  {
    ExitKeeps(a, e.i);
    assert a.session.Some?;
  }

  lemma {:induction false} NotStrayed(states: seq<Agent>, o: Config, events: seq<Event>, i: nat, k: nat)
    requires RunOf(states, o, events) && i <= k <= |events| && !states[k].strayed
    ensures !states[i].strayed
  {
    hide Apply;
    hide Enabled;
    if i < k {
      if states[k - 1].strayed {
        StrayStays(states[k - 1], o, events[k - 1]);
      }
      NotStrayed(states, o, events, i, k - 1);
    }
  }

  lemma {:induction false} LeftOverOn(states: seq<Agent>, o: Config, events: seq<Event>, i: nat, k: nat)
    requires RunOf(states, o, events) && i <= k <= |events| && LeftOver(states[i]) && !states[k].strayed
    ensures LeftOver(states[k]) && states[k].reaps == states[i].reaps
  {
    hide Apply;
    hide Enabled;
    hide LeftOver;
    if i < k {
      NotStrayed(states, o, events, k - 1, k);
      LeftOverOn(states, o, events, i, k - 1);
      LeftOverStays(states[k - 1], o, events[k - 1]);
    }
  }
}
