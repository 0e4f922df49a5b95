// What each event does to one thing the manager holds of an agent, whichever code it goes through.
module AgentViews {
  import opened Options
  import opened AgentParks
  import opened AgentManager

  // What an event comes to

  function EndingOf(e: Event): Ending {
    match e
    case Exit(_, then_) => if then_.SaidDone? then Done else Failed
    case Kill => Killed
    case _ => Done
  }

  /** A crash that is to be answered by resuming. */
  predicate Resumes(a: Agent, o: Config, e: Event) {
    e.Exit? && e.then_.SaidFailed? && e.then_.resumable && o.resumeAttempts > 0
    && a.session == Some(e.i) && a.parks.limited.None? && a.attempts < o.resumeAttempts
  }

  /** And was, by a new session. */
  predicate Relaunches(a: Agent, o: Config, e: Event) {
    Resumes(a, o, e) && e.then_.launches
  }

  /** A resume is asked for that there is a limit park for, in its time. */
  predicate Asked(a: Agent, e: Event) {
    && a.parks.limited.Some?
    && (e.ResumeParked? || (e.ResumeExpired? && a.parks.limited.value.resetsAt.Some?
                            && a.parks.limited.value.resetsAt.value <= e.now))
    && (a.session.Some? || e.resumable)
  }

  /** The agent is let go of what it waits on: it ended, was answered, or its limit park ended in a session. */
  predicate LetGo(a: Agent, o: Config, e: Event)
    requires Enabled(a, e)
  {
    || Ends(a, o, e) || (e.Respond? && a.session.Some?)
    || (Asked(a, e) && (a.session.Some? || e.launches))
  }

  /** A nudge went out. */
  predicate Nudged(a: Agent, o: Config, e: Event) {
    e.Turn? && e.said.TurnStalled? && e.said.sends && !a.parks.parked && a.parks.nudges < Budget(o.parks) && !a.exited
  }

  /** The agent stops, announced, unannounced and not nudged, silent, or with a question. */
  predicate Stops(a: Agent, o: Config, e: Event) {
    || (e.Turn? && (e.said.TurnWaiting? || (e.said.TurnStalled? && !Nudged(a, o, e))))
    || e.Quiet? || e.Ask?
  }

  /** Whether a rule answers the stop. */
  predicate Approved(e: Event) {
    match e
    case Turn(_, said, _) => (said.TurnWaiting? || said.TurnStalled?) && said.approved
    case Quiet(approved, _) => approved
    case Ask(approved) => approved
    case _ => false
  }

  /** A stop of an agent that was not parked, answered at once. */
  predicate AnsweredAtOnce(a: Agent, o: Config, e: Event) {
    Stops(a, o, e) && Approved(e) && a.session.Some? && !a.parks.parked
  }

  /** A usage limit comes up that was not known. */
  predicate NewLimit(a: Agent, e: Event) {
    Declares(e) && a.parks.limited.None?
  }

  predicate Interrupted(a: Agent, e: Event) {
    e.InterruptAll? && a.session.Some?
  }

  predicate Parking(a: Agent, o: Config, e: Event) {
    || (Stops(a, o, e) && !Approved(e)) || NewLimit(a, e)
    || (e.Launch? && e.launches && e.wasWaiting) || (Relaunches(a, o, e) && e.then_.wasWaiting)
    || (Asked(a, e) && a.session.None? && !e.launches)
  }

  // What holds after a step, thing by thing

  predicate ParkedRight(a: Agent, o: Config, e: Event)
    requires Enabled(a, e)
  {
    Apply(a, o, e).parks.parked ==
      (if LetGo(a, o, e) then false else if Parking(a, o, e) then true
       else if e.Release? || Interrupted(a, e) then false else a.parks.parked)
  }

  predicate LimitedRight(a: Agent, o: Config, e: Event)
    requires Enabled(a, e)
  {
    Apply(a, o, e).parks.limited ==
      (if LetGo(a, o, e) || AnsweredAtOnce(a, o, e) || Interrupted(a, e) then None
       else if NewLimit(a, e) then Some(LimitOf(e)) else a.parks.limited)
  }

  /** The clock a stop arms, if it does: from the stop on, for as long as its kind is given. */
  function Armed(a: Agent, o: Config, e: Event): Option<Clock>
    requires e.Turn? || e.Quiet?
  {
    if o.parks.stallParkMs <= 0 || a.parks.limited.Some? then None
    else
      Some(Clock(e.now + o.parks.stallParkMs,
                 if e.Quiet? && o.parks.silenceParkMs > 0 then o.parks.silenceParkMs else o.parks.stallParkMs))
  }

  predicate Unannounced(a: Agent, o: Config, e: Event) {
    !a.parks.parked && !Approved(e) && (e.Quiet? || (e.Turn? && e.said.TurnStalled? && !Nudged(a, o, e)))
  }

  predicate ClockRight(a: Agent, o: Config, e: Event)
    requires Enabled(a, e)
  {
    var was, now := a.parks.stalled, Apply(a, o, e).parks.stalled;
    if LetGo(a, o, e) || AnsweredAtOnce(a, o, e) || NewLimit(a, e) || Asked(a, e) || e.Release? then now.None?
    else if e.ExpireStalls? && was.Some? && was.value.at <= e.now then now.None?
    else if Unannounced(a, o, e) && Armed(a, o, e).Some? then now == Armed(a, o, e)
    else if e.Extend? && was.Some? then now == Some(Clock(e.now + o.parks.stallExtendMs, was.value.grace))
    else if e.Works? && was.Some? && a.parks.parked then
      && now.Some? && now.value.grace == was.value.grace
      && now.value.at == if e.now + was.value.grace > was.value.at then e.now + was.value.grace else was.value.at
    else now == was
  }

  predicate NudgesRight(a: Agent, o: Config, e: Event)
    requires Enabled(a, e)
  {
    var was, now := a.parks, Apply(a, o, e).parks;
    var spent := e.Turn? && e.said.TurnStalled? && !was.parked && was.nudges < Budget(o.parks) && !a.exited;
    if Ends(a, o, e) && !e.Kill? then now.nudges == 0 && now.sent == 0
    else
      && now.nudges == was.nudges + (if spent then 1 else 0)
      && now.sent == was.sent + (if Nudged(a, o, e) then 1 else 0)
  }

  predicate ParksRight(a: Agent, o: Config, e: Event)
    requires Enabled(a, e)
  {
    ParkedRight(a, o, e) && LimitedRight(a, o, e) && ClockRight(a, o, e) && NudgesRight(a, o, e)
  }

  predicate Launches(a: Agent, o: Config, e: Event) {
    || Relaunches(a, o, e) || (e.Launch? && e.launches)
    || (Asked(a, e) && a.session.None? && e.launches)
  }

  predicate SessionRight(a: Agent, o: Config, e: Event)
    requires Enabled(a, e)
  {
    var t := Apply(a, o, e);
    && t.procs == (if e.Exit? then a.procs[e.i := true] else a.procs) + (if Launches(a, o, e) then [false] else [])
    && t.session ==
       (if Launches(a, o, e) then Some(|a.procs|)
        else if Ends(a, o, e) || Interrupted(a, e) || (e.Exit? && a.parks.limited.Some?)
                || (NewLimit(a, e) && if e.Exit? then a.terminal.None? else a.exited) then None
        else a.session)
    && (t.ended <==> a.ended || Ends(a, o, e))
  }

  /**
   * The agent is reaped by the step: the second of its ending and its exit comes, and neither a limit holds the exit
   * back nor a resume that then does not launch has used it up.
   */
  predicate Reaps(a: Agent, o: Config, e: Event)
    requires Enabled(a, e)
  {
    match e
    case Exit(_, _) => a.parks.limited.None? && (a.terminal.Some? || (Ends(a, o, e) && !Resumes(a, o, e)))
    case Kill => Ends(a, o, e) && (a.exited || a.session.None?)
    case _ => Ends(a, o, e) && a.exited
  }

  predicate ReapsRight(a: Agent, o: Config, e: Event)
    requires Enabled(a, e)
  {
    var t := Apply(a, o, e);
    var stood := e.Exit? && a.terminal.Some?;
    && |t.reaps| == |a.reaps| + (if Reaps(a, o, e) then 1 else 0)
    && (Reaps(a, o, e) ==> t.reaps[|a.reaps|].ending == if stood then a.terminal.value else EndingOf(e))
    && t.terminal == (if Ends(a, o, e) && (stood || !Reaps(a, o, e)) then Some(EndingOf(e))
                      else if Reaps(a, o, e) then None else a.terminal)
    && t.exited == (if e.Exit? then a.parks.limited.None? && a.terminal.None? && e.then_.NothingMore?
                    else a.exited && !Reaps(a, o, e) && !Interrupted(a, e) && !NewLimit(a, e))
  }

  // Event by event

  lemma FailedParks(a: Agent, o: Config, e: Event)
    requires Enabled(a, e) && (e.Exit? && e.then_.SaidFailed?)
    ensures ParksRight(a, o, e)
  {
    hide AllExited;
    hide Stray;
  }

  lemma ExitParks(a: Agent, o: Config, e: Event)
    requires Enabled(a, e) && (e.Exit? && !e.then_.SaidFailed?)
    ensures ParksRight(a, o, e)
  {
    hide AllExited;
    hide Stray;
  }

  lemma StalledParks(a: Agent, o: Config, e: Event)
    requires Enabled(a, e) && (e.Turn? && e.said.TurnStalled?)
    ensures ParksRight(a, o, e)
  {
    hide AllExited;
    hide Stray;
  }

  lemma TurnParks(a: Agent, o: Config, e: Event)
    requires Enabled(a, e) && (e.Turn? && !e.said.TurnStalled?)
    ensures ParksRight(a, o, e)
  {
    hide AllExited;
    hide Stray;
  }

  lemma StopParks(a: Agent, o: Config, e: Event)
    requires Enabled(a, e) && (e.Quiet? || e.Ask?)
    ensures ParksRight(a, o, e)
  {
    hide AllExited;
    hide Stray;
  }

  lemma ResumeParks(a: Agent, o: Config, e: Event)
    requires Enabled(a, e) && (e.ResumeParked? || e.ResumeExpired?)
    ensures ParksRight(a, o, e)
  {
    hide AllExited;
    hide Stray;
  }

  lemma EndingParks(a: Agent, o: Config, e: Event)
    requires Enabled(a, e) && (e.Kill? || e.Complete? || e.ExpireStalls? || e.InterruptAll?)
    ensures ParksRight(a, o, e)
  {
    hide AllExited;
    hide Stray;
  }

  lemma RestParks(a: Agent, o: Config, e: Event)
    requires Enabled(a, e) && (e.Launch? || e.Works? || e.Respond? || e.Release? || e.Extend?)
    ensures ParksRight(a, o, e)
  {
    hide AllExited;
    hide Stray;
  }

  lemma FailedSession(a: Agent, o: Config, e: Event)
    requires Enabled(a, e) && (e.Exit? && e.then_.SaidFailed?)
    ensures SessionRight(a, o, e)
  {
    hide AllExited;
    hide Stray;
    assert a.procs[e.i := true] + [] == a.procs[e.i := true];
  }

  lemma ExitSession(a: Agent, o: Config, e: Event)
    requires Enabled(a, e) && (e.Exit? && !e.then_.SaidFailed?)
    ensures SessionRight(a, o, e)
  {
    hide AllExited;
    hide Stray;
    assert a.procs[e.i := true] + [] == a.procs[e.i := true];
  }

  lemma StalledSession(a: Agent, o: Config, e: Event)
    requires Enabled(a, e) && (e.Turn? && e.said.TurnStalled?)
    ensures SessionRight(a, o, e)
  {
    hide AllExited;
    hide Stray;
    assert a.procs + [] == a.procs;
  }

  lemma TurnSession(a: Agent, o: Config, e: Event)
    requires Enabled(a, e) && (e.Turn? && !e.said.TurnStalled?)
    ensures SessionRight(a, o, e)
  {
    hide AllExited;
    hide Stray;
    assert a.procs + [] == a.procs;
  }

  lemma StopSession(a: Agent, o: Config, e: Event)
    requires Enabled(a, e) && (e.Quiet? || e.Ask?)
    ensures SessionRight(a, o, e)
  {
    hide AllExited;
    hide Stray;
    assert a.procs + [] == a.procs;
  }

  lemma ResumeSession(a: Agent, o: Config, e: Event)
    requires Enabled(a, e) && (e.ResumeParked? || e.ResumeExpired?)
    ensures SessionRight(a, o, e)
  {
    hide AllExited;
    hide Stray;
    assert a.procs + [] == a.procs;
  }

  lemma EndingSession(a: Agent, o: Config, e: Event)
    requires Enabled(a, e) && (e.Kill? || e.Complete? || e.ExpireStalls? || e.InterruptAll?)
    ensures SessionRight(a, o, e)
  {
    hide AllExited;
    hide Stray;
    assert a.procs + [] == a.procs;
  }

  lemma RestSession(a: Agent, o: Config, e: Event)
    requires Enabled(a, e) && (e.Launch? || e.Works? || e.Respond? || e.Release? || e.Extend?)
    ensures SessionRight(a, o, e)
  {
    hide AllExited;
    hide Stray;
    assert a.procs + [] == a.procs;
  }

  lemma FailedReaps(a: Agent, o: Config, e: Event)
    requires Enabled(a, e) && !(a.exited && (a.terminal.Some? || a.parks.limited.Some?))
    requires e.Exit? && e.then_.SaidFailed?
    ensures ReapsRight(a, o, e)
  {
    hide AllExited;
    hide Stray;
  }

  lemma ExitReaps(a: Agent, o: Config, e: Event)
    requires Enabled(a, e) && !(a.exited && (a.terminal.Some? || a.parks.limited.Some?))
    requires e.Exit? && !e.then_.SaidFailed?
    ensures ReapsRight(a, o, e)
  {
    hide AllExited;
    hide Stray;
  }

  lemma StalledReaps(a: Agent, o: Config, e: Event)
    requires Enabled(a, e) && !(a.exited && (a.terminal.Some? || a.parks.limited.Some?))
    requires e.Turn? && e.said.TurnStalled?
    ensures ReapsRight(a, o, e)
  {
    hide AllExited;
    hide Stray;
  }

  lemma TurnReaps(a: Agent, o: Config, e: Event)
    requires Enabled(a, e) && !(a.exited && (a.terminal.Some? || a.parks.limited.Some?))
    requires e.Turn? && !e.said.TurnStalled?
    ensures ReapsRight(a, o, e)
  {
    hide AllExited;
    hide Stray;
  }

  lemma StopReaps(a: Agent, o: Config, e: Event)
    requires Enabled(a, e) && !(a.exited && (a.terminal.Some? || a.parks.limited.Some?))
    requires e.Quiet? || e.Ask?
    ensures ReapsRight(a, o, e)
  {
    hide AllExited;
    hide Stray;
  }

  lemma ResumeReaps(a: Agent, o: Config, e: Event)
    requires Enabled(a, e) && !(a.exited && (a.terminal.Some? || a.parks.limited.Some?))
    requires e.ResumeParked? || e.ResumeExpired?
    ensures ReapsRight(a, o, e)
  {
    hide AllExited;
    hide Stray;
  }

  lemma EndingReaps(a: Agent, o: Config, e: Event)
    requires Enabled(a, e) && !(a.exited && (a.terminal.Some? || a.parks.limited.Some?))
    requires e.Kill? || e.Complete? || e.ExpireStalls? || e.InterruptAll?
    ensures ReapsRight(a, o, e)
  {
    hide AllExited;
    hide Stray;
  }

  lemma RestReaps(a: Agent, o: Config, e: Event)
    requires Enabled(a, e) && !(a.exited && (a.terminal.Some? || a.parks.limited.Some?))
    requires e.Launch? || e.Works? || e.Respond? || e.Release? || e.Extend?
    ensures ReapsRight(a, o, e)
  {
    hide AllExited;
    hide Stray;
  }

  lemma EveryPark(a: Agent, o: Config, e: Event)
    requires Enabled(a, e)
    ensures ParksRight(a, o, e)
  {
    hide ParksRight;
    hide Enabled;
    if e.Exit? && e.then_.SaidFailed? {
      FailedParks(a, o, e);
    } else if e.Exit? && !e.then_.SaidFailed? {
      ExitParks(a, o, e);
    } else if e.Turn? && e.said.TurnStalled? {
      StalledParks(a, o, e);
    } else if e.Turn? && !e.said.TurnStalled? {
      TurnParks(a, o, e);
    } else if e.Quiet? || e.Ask? {
      StopParks(a, o, e);
    } else if e.ResumeParked? || e.ResumeExpired? {
      ResumeParks(a, o, e);
    } else if e.Kill? || e.Complete? || e.ExpireStalls? || e.InterruptAll? {
      EndingParks(a, o, e);
    } else {
      RestParks(a, o, e);
    }
  }

  /** When an agent is parked. */
  lemma ParkedAfter(a: Agent, o: Config, e: Event)
    requires Enabled(a, e)
    ensures ParkedRight(a, o, e)
  {
    hide ParkedRight;
    EveryPark(a, o, e);
  }

  /** When an agent is usage-limited, and by which limit. */
  lemma LimitedAfter(a: Agent, o: Config, e: Event)
    requires Enabled(a, e)
    ensures LimitedRight(a, o, e)
  {
    hide LimitedRight;
    EveryPark(a, o, e);
  }

  /** When a stall clock runs, to when, and with what grace. */
  lemma ClockAfter(a: Agent, o: Config, e: Event)
    requires Enabled(a, e)
    ensures ClockRight(a, o, e)
  {
    hide ClockRight;
    EveryPark(a, o, e);
  }

  /** How many nudges are spent, and how many went out: counted up by stalls, and forgotten with a run that ends. */
  lemma NudgesAfter(a: Agent, o: Config, e: Event)
    requires Enabled(a, e)
    ensures NudgesRight(a, o, e)
  {
    hide NudgesRight;
    EveryPark(a, o, e);
  }

  /** Which session is registered, which processes there have been, and whether an ending was recorded. */
  lemma SessionAfter(a: Agent, o: Config, e: Event)
    requires Enabled(a, e)
    ensures SessionRight(a, o, e)
  {
    hide SessionRight;
    hide Enabled;
    if e.Exit? && e.then_.SaidFailed? {
      FailedSession(a, o, e);
    } else if e.Exit? && !e.then_.SaidFailed? {
      ExitSession(a, o, e);
    } else if e.Turn? && e.said.TurnStalled? {
      StalledSession(a, o, e);
    } else if e.Turn? && !e.said.TurnStalled? {
      TurnSession(a, o, e);
    } else if e.Quiet? || e.Ask? {
      StopSession(a, o, e);
    } else if e.ResumeParked? || e.ResumeExpired? {
      ResumeSession(a, o, e);
    } else if e.Kill? || e.Complete? || e.ExpireStalls? || e.InterruptAll? {
      EndingSession(a, o, e);
    } else {
      RestSession(a, o, e);
    }
  }

  /** When an agent is reaped, and for which ending; which ending and which exit stand after the step. */
  lemma ReapedAfter(a: Agent, o: Config, e: Event)
    requires Enabled(a, e) && !(a.exited && (a.terminal.Some? || a.parks.limited.Some?))
    ensures ReapsRight(a, o, e)
  {
    hide ReapsRight;
    hide Enabled;
    if e.Exit? && e.then_.SaidFailed? {
      FailedReaps(a, o, e);
    } else if e.Exit? && !e.then_.SaidFailed? {
      ExitReaps(a, o, e);
    } else if e.Turn? && e.said.TurnStalled? {
      StalledReaps(a, o, e);
    } else if e.Turn? && !e.said.TurnStalled? {
      TurnReaps(a, o, e);
    } else if e.Quiet? || e.Ask? {
      StopReaps(a, o, e);
    } else if e.ResumeParked? || e.ResumeExpired? {
      ResumeReaps(a, o, e);
    } else if e.Kill? || e.Complete? || e.ExpireStalls? || e.InterruptAll? {
      EndingReaps(a, o, e);
    } else {
      RestReaps(a, o, e);
    }
  }
}
