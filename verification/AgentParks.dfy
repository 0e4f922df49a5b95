// Parks: what an agent that stopped is waiting on (`src/agents/agentParks.ts`). An instant is in milliseconds.
module AgentParks {
  import opened Options

  datatype Limit = Limit(reason: string, resetsAt: Option<int>)

  datatype Clock = Clock(at: int, grace: int)

  datatype Settings = Settings(stallNudges: int, stallParkMs: int, stallExtendMs: int, silenceParkMs: int)

  /**
   * One agent's entries in the four collections; `sent` counts the nudges that went out since its run was last
   * forgotten.
   */
  datatype Parks = Parks(parked: bool, limited: Option<Limit>, nudges: nat, stalled: Option<Clock>, sent: nat)

  const NONE := Parks(false, None, 0, None, 0)

  function Budget(o: Settings): nat {
    if o.stallNudges > 0 then o.stallNudges else 0
  }

  // Steps

  function Clear(p: Parks): Parks {
    p.(parked := false, limited := None, stalled := None)
  }

  function Unpark(p: Parks): Parks {
    p.(parked := false, limited := None)
  }

  /** A question put to a human, or answered at once where a rule approves it and the session still takes the answer. */
  function Waiting(p: Parks, approved: bool, live: bool): Parks {
    if p.parked then p
    else if approved then if live then Clear(p) else p
    else p.(parked := true)
  }

  function ArmClock(p: Parks, window: int, grace: int, now: int): Parks {
    if window <= 0 || !p.parked || p.limited.Some? then p
    else p.(stalled := Some(Clock(now + window, if grace > 0 then grace else window)))
  }

  /** An unannounced stop: nudged while there is budget and a process to nudge, parked with a clock after that. */
  function Stalled(p: Parks, o: Settings, exited: bool, sends: bool, approved: bool, live: bool, now: int): Parks {
    if p.parked then p
    else
      var nudging := p.nudges < Budget(o) && !exited;
      var spent := if nudging then p.(nudges := p.nudges + 1) else p;
      if nudging && sends then spent.(sent := spent.sent + 1)
      else ArmClock(Waiting(spent, approved, live), o.stallParkMs, o.stallParkMs, now)
  }

  function Silent(p: Parks, o: Settings, approved: bool, live: bool, now: int): Parks {
    if p.parked then p else ArmClock(Waiting(p, approved, live), o.stallParkMs, o.silenceParkMs, now)
  }

  function Limited(p: Parks, limit: Limit): Parks {
    if p.limited.Some? then p else p.(limited := Some(limit), parked := true, stalled := None)
  }

  function Reinstated(p: Parks, limit: Limit): Parks {
    p.(limited := Some(limit), parked := true)
  }

  function Resumed(p: Parks, now: int): Parks {
    if !p.parked || p.stalled.None? then p
    else
      var c := p.stalled.value;
      p.(stalled := Some(c.(at := if c.at < now + c.grace then now + c.grace else c.at)))
  }

  function Released(p: Parks): Parks {
    p.(parked := false, stalled := None)
  }

  function Extended(p: Parks, o: Settings, now: int): Parks {
    if p.stalled.None? then p else p.(stalled := Some(p.stalled.value.(at := now + o.stallExtendMs)))
  }

  /** The stall clock has run out. */
  predicate Expired(p: Parks, now: int) {
    p.stalled.Some? && p.stalled.value.at <= now
  }

  /** The limit's window has turned over; one with no reset is never taken to have. */
  predicate TurnedOver(p: Parks, now: int) {
    p.limited.Some? && p.limited.value.resetsAt.Some? && p.limited.value.resetsAt.value <= now
  }

  predicate Completes(p: Parks, now: int, live: bool) {
    live && Expired(p, now) && p.limited.None?
  }

  /**
   * What a pass over the stall clocks leaves: a run that is completed is forgotten, and a clock with no run to
   * complete goes.
   */
  function Settled(p: Parks, now: int, live: bool): Parks {
    if !Expired(p, now) then p else if Completes(p, now, live) then NONE else p.(stalled := None)
  }

  // What every step keeps

  /** Never both usage-limited and on a stall clock, and no more nudges than the budget. */
  ghost predicate Good(p: Parks, o: Settings) {
    && !(p.limited.Some? && p.stalled.Some?)
    && p.sent <= p.nudges <= Budget(o)
  }

  lemma StopsKeep(p: Parks, o: Settings, exited: bool, sends: bool, approved: bool, live: bool, now: int)
    requires Good(p, o)
    ensures Good(Waiting(p, approved, live), o)
    ensures Good(Stalled(p, o, exited, sends, approved, live, now), o)
    ensures Good(Silent(p, o, approved, live, now), o)
  {
  }

  /** A stop declares no limit. */
  lemma StopsLimitNothing(p: Parks, o: Settings, exited: bool, sends: bool, approved: bool, live: bool, now: int)
    ensures Waiting(p, approved, live).limited.Some? ==> p.limited.Some?
    ensures Stalled(p, o, exited, sends, approved, live, now).limited.Some? ==> p.limited.Some?
    ensures Silent(p, o, approved, live, now).limited.Some? ==> p.limited.Some?
  {
  }

  lemma LimitsKeep(p: Parks, o: Settings, limit: Limit)
    requires Good(p, o)
    ensures Good(Limited(p, limit), o)
    ensures Good(Reinstated(Clear(p), limit), o)
  {
  }

  lemma EndingsKeep(p: Parks, o: Settings, now: int)
    requires Good(p, o)
    ensures Good(Clear(p), o) && Good(Unpark(p), o) && Good(Released(p), o) && Good(Resumed(p, now), o)
        && Good(Extended(p, o, now), o)
  {
  }

  /**
   * A limit put back over a clock that still runs would break the rule: it is put back only once the park was
   * cleared.
   */
  lemma ReinstatedOverClock(p: Parks, o: Settings, limit: Limit)
    requires Good(p, o)
    ensures Good(Reinstated(p, limit), o) <==> p.stalled.None?
  {
  }

  /**
   * Work seen from a parked agent never shortens its clock, and leaves it the grace it was armed with; asking for
   * longer sets it outright.
   */
  lemma ResumedLeavesGrace(p: Parks, o: Settings, now: int)
    requires p.parked && p.stalled.Some?
    ensures var c := Resumed(p, now).stalled.value; c.at >= p.stalled.value.at && c.at >= now + c.grace
    ensures p.stalled.value.grace > 0 ==> !Expired(Resumed(p, now), now)
    ensures Extended(p, o, now).stalled.value.at == now + o.stallExtendMs
  {
  }

  /**
   * A stall of an agent with budget left and its process running costs one nudge and parks nothing; any other parks
   * it, unless a rule answers.
   */
  lemma StalledMeans(p: Parks, o: Settings, exited: bool, sends: bool, live: bool, now: int)
    requires !p.parked
    ensures var t := Stalled(p, o, exited, sends, false, live, now);
            && (t.parked <==> !(p.nudges < Budget(o) && !exited && sends))
            && (t.parked && o.stallParkMs > 0 && p.limited.None? ==>
               t.stalled == Some(Clock(now + o.stallParkMs, o.stallParkMs)))
            && (t.sent == p.sent + if t.parked then 0 else 1)
  {
  }

  // The collections

  class ParkBook {
    const o: Settings
    var parked: set<string>
    var limited: map<string, Limit>
    var nudges: map<string, nat>
    var stalled: map<string, Clock>
    ghost var sent: map<string, nat>

    ghost function At(id: string): Parks
      reads this
    {
      Parks(id in parked,
            if id in limited then Some(limited[id]) else None,
            if id in nudges then nudges[id] else 0,
            if id in stalled then Some(stalled[id]) else None,
            if id in sent then sent[id] else 0)
    }

    /** Only the one agent's entries changed. */
    twostate predicate Only(id: string)
      reads this
    {
      forall other :: other != id ==> At(other) == old(At(other))
    }

    constructor (o: Settings)
      ensures this.o == o && forall id :: At(id) == NONE
    {
      this.o := o;
      parked, limited, nudges, stalled, sent := {}, map[], map[], map[], map[];
    }

    method ClearAgent(id: string)
      modifies this
      ensures At(id) == Clear(old(At(id))) && Only(id)
    {
      parked, limited, stalled := parked - {id}, limited - {id}, stalled - {id};
    }

    method UnparkAgent(id: string)
      modifies this
      ensures At(id) == Unpark(old(At(id))) && Only(id)
    {
      parked, limited := parked - {id}, limited - {id};
    }

    method ForgetAgent(id: string)
      modifies this
      ensures At(id) == NONE && Only(id)
    {
      parked, limited, nudges, stalled := parked - {id}, limited - {id}, nudges - {id}, stalled - {id};
      sent := sent - {id};
    }

    method HandleWaiting(id: string, approved: bool, live: bool)
      modifies this
      ensures At(id) == Waiting(old(At(id)), approved, live) && Only(id)
    {
      if id in parked {
        return;
      }
      if approved {
        if live {
          ClearAgent(id);
        }
        return;
      }
      parked := parked + {id};
    }

    method ArmStallClock(id: string, window: int, grace: int, now: int)
      modifies this
      ensures At(id) == ArmClock(old(At(id)), window, grace, now) && Only(id)
    {
      if window <= 0 || id !in parked || id in limited {
        return;
      }
      stalled := stalled[id := Clock(now + window, if grace > 0 then grace else window)];
    }

    method HandleStalled(id: string, exited: bool, sends: bool, approved: bool, live: bool, now: int)
      modifies this
      ensures At(id) == Stalled(old(At(id)), o, exited, sends, approved, live, now) && Only(id)
    {
      hide Waiting;
      hide ArmClock;
      if id in parked {
        return;
      }
      var spent := if id in nudges then nudges[id] else 0;
      if spent < o.stallNudges && !exited {
        nudges := nudges[id := spent + 1];
        if sends {
          sent := sent[id := (if id in sent then sent[id] else 0) + 1];
          return;
        }
      }
      HandleWaiting(id, approved, live);
      ArmStallClock(id, o.stallParkMs, o.stallParkMs, now);
    }

    method HandleSilent(id: string, approved: bool, live: bool, now: int)
      modifies this
      ensures At(id) == Silent(old(At(id)), o, approved, live, now) && Only(id)
    {
      if id in parked {
        return;
      }
      HandleWaiting(id, approved, live);
      ArmStallClock(id, o.stallParkMs, o.silenceParkMs, now);
    }

    method HandleLimited(id: string, limit: Limit)
      modifies this
      ensures At(id) == Limited(old(At(id)), limit) && Only(id)
    {
      if id in limited {
        return;
      }
      limited := limited[id := limit];
      parked := parked + {id};
      stalled := stalled - {id};
    }

    method ReinstateLimitPark(id: string, limit: Limit)
      modifies this
      ensures At(id) == Reinstated(old(At(id)), limit) && Only(id)
    {
      limited := limited[id := limit];
      parked := parked + {id};
    }

    method RestoreWaiting(id: string)
      modifies this
      ensures At(id) == old(At(id)).(parked := true) && Only(id)
    {
      parked := parked + {id};
    }

    method NoteResumed(id: string, now: int)
      modifies this
      ensures At(id) == Resumed(old(At(id)), now) && Only(id)
    {
      if id !in parked {
        return;
      }
      if id in stalled {
        var c := stalled[id];
        stalled := stalled[id := c.(at := if c.at < now + c.grace then now + c.grace else c.at)];
      }
    }

    method ReleasePark(id: string)
      modifies this
      ensures At(id) == Released(old(At(id))) && Only(id)
    {
      parked, stalled := parked - {id}, stalled - {id};
    }

    method ExtendStallPark(id: string, now: int) returns (expiresAt: Option<int>)
      modifies this
      ensures At(id) == Extended(old(At(id)), o, now) && Only(id)
      ensures expiresAt == if old(At(id)).stalled.Some? then Some(now + o.stallExtendMs) else None
    {
      if id !in stalled {
        return None;
      }
      stalled := stalled[id := stalled[id].(at := now + o.stallExtendMs)];
      return Some(now + o.stallExtendMs);
    }

    method DropClock(id: string)
      modifies this
      ensures At(id) == old(At(id)).(stalled := None) && Only(id)
    {
      stalled := stalled - {id};
    }

    method ExpireStall(id: string, now: int, live: bool) returns (completed: bool)
      requires id in stalled
      modifies this
      ensures completed <==> Completes(old(At(id)), now, live)
      ensures At(id) == Settled(old(At(id)), now, live) && Only(id)
    {
      if stalled[id].at > now {
        return false;
      }
      if id in limited {
        DropClock(id);
        return false;
      }
      if live {
        ForgetAgent(id);
        return true;
      }
      DropClock(id);
      return false;
    }

    /**
     * The agents whose clock ran out and whose session is still there to complete, each forgotten as its run ends;
     * the clock of any other that ran out is dropped.
     */
    method CompleteExpiredStalls(now: int, live: set<string>) returns (settled: set<string>)
      modifies this
      ensures forall id :: id in settled <==> Completes(old(At(id)), now, id in live)
      ensures forall id :: At(id) == Settled(old(At(id)), now, id in live)
    {
      settled := {};
      var left := stalled.Keys;
      while left != {}
        invariant left <= old(stalled.Keys) && forall id :: id in left ==> id in stalled
        invariant forall id :: At(id) == if id in left then old(At(id)) else Settled(old(At(id)), now, id in live)
        invariant forall id :: id in settled <==> id !in left && Completes(old(At(id)), now, id in live)
        decreases |left|
      {
        var id :| id in left;
        left := left - {id};
        label L:
        var completed := ExpireStall(id, now, id in live);
        assert Only@L(id);
        if completed {
          settled := settled + {id};
        }
        forall other | other in left ensures other in stalled {
          assert At(other) == old@L(At(other));
        }
      }
    }
  }
}
