// The agent manager's own maps and methods (`src/agents/agentManager.ts`), each doing to one agent what its step says.
module AgentFleet {
  import opened Options
  import opened AgentParks
  import opened AgentManager

  class Manager {
    const o: Config
    const parks: ParkBook
    var sessions: map<string, nat>
    var exitCodes: map<string, int>
    var terminals: map<string, Ending>
    var exited: set<string>
    /** How often each agent was resumed after a crash, which the store keeps. */
    var attempts: map<string, nat>
    /** How many sessions each agent has been given, which tells one from another. */
    var launched: map<string, nat>
    ghost var agents: map<string, Agent>

    ghost function Past(id: string): Agent
      reads this
    {
      if id in agents then agents[id] else Fresh(0)
    }

    /** What the maps hold of an agent, over what its processes, exits and reaps have been. */
    ghost function Of(id: string): Agent
      reads this, parks
    {
      Past(id).(session := if id in sessions then Some(sessions[id]) else None, exited := id in exited,
                terminal := if id in terminals then Some(terminals[id]) else None, parks := parks.At(id),
                attempts := if id in attempts then attempts[id] else 0)
    }

    ghost predicate Valid()
      reads this
    {
      parks.o == o.parks && forall id :: |Past(id).procs| == if id in launched then launched[id] else 0
    }

    twostate predicate Only(id: string)
      reads this, parks
    {
      forall other :: other != id ==> Of(other) == old(Of(other))
    }

    constructor (o: Config, attempts: map<string, nat>)
      ensures Valid() && this.o == o && fresh(parks)
      ensures forall id :: Of(id) == Fresh(if id in attempts then attempts[id] else 0)
    {
      this.o := o;
      parks := new ParkBook(o.parks);
      sessions, exitCodes, terminals, exited := map[], map[], map[], {};
      this.attempts := attempts;
      launched := map[];
      agents := map[];
    }

    // One entry at a time

    method Unregister(id: string)
      requires Valid()
      modifies this
      ensures Valid() && Of(id) == old(Of(id)).(session := None) && Only(id)
    {
      sessions, exitCodes := sessions - {id}, exitCodes - {id};
    }

    method SetExited(id: string, gone: bool)
      requires Valid()
      modifies this
      ensures Valid() && Of(id) == old(Of(id)).(exited := gone) && Only(id)
    {
      exited := if gone then exited + {id} else exited - {id};
    }

    method SetTerminal(id: string, status: Ending)
      requires Valid()
      modifies this
      ensures Valid() && Of(id) == old(Of(id)).(terminal := Some(status), ended := true) && Only(id)
    {
      terminals := terminals[id := status];
      agents := agents[id := Past(id).(ended := true)];
    }

    method EndAs(id: string, status: Ending)
      requires Valid()
      modifies this
      ensures Valid() && Of(id) == old(Of(id)).(session := None, terminal := Some(status), ended := true) && Only(id)
    {
      hide Of;
      hide Past;
      Unregister(id);
      label A:
      SetTerminal(id, status);
      assert Only@A(id);
    }

    ghost method PastExit(id: string, i: nat)
      requires Valid() && i < |Of(id).procs|
      modifies this`agents
      ensures Valid() && Only(id)
      ensures var a := old(Of(id)); Of(id) == a.(procs := a.procs[i := true], exits := a.exits + 1)
    {
      var past := Past(id);
      agents := agents[id := past.(procs := past.procs[i := true], exits := past.exits + 1)];
    }

    method RegisterAs(id: string, session: nat)
      requires Valid()
      modifies this`sessions
      ensures Valid() && Of(id) == old(Of(id)).(session := Some(session)) && Only(id)
    {
      sessions := sessions[id := session];
    }

    method NextSession(id: string) returns (session: nat)
      requires Valid()
      modifies this`launched, this`agents
      ensures Valid() && session == old(|Of(id).procs|) && Only(id)
      ensures Of(id) == old(Of(id)).(procs := old(Of(id)).procs + [false])
    {
      session := if id in launched then launched[id] else 0;
      launched := launched[id := session + 1];
      ghost var past := Past(id);
      agents := agents[id := past.(procs := past.procs + [false])];
    }

    method ClearParks(id: string)
      requires Valid()
      modifies parks
      ensures Valid() && Of(id) == old(Of(id)).(parks := Clear(old(Of(id)).parks)) && Only(id)
    {
      parks.ClearAgent(id);
    }

    method ForgetParks(id: string)
      requires Valid()
      modifies parks
      ensures Valid() && Of(id) == old(Of(id)).(parks := NONE) && Only(id)
    {
      parks.ForgetAgent(id);
    }

    method MaybeReapAgent(id: string) returns (reaped: Option<Ending>)
      requires Valid()
      modifies this
      ensures Valid() && Of(id) == MaybeReap(old(Of(id))) && Only(id)
      ensures reaped == if old(id in terminals && id in exited) then Some(old(terminals[id])) else None
    {
      if id !in terminals || id !in exited {
        return None;
      }
      var status := terminals[id];
      agents := agents[id := MaybeReap(Of(id))];
      terminals, exited := terminals - {id}, exited - {id};
      return Some(status);
    }

    method ShedLimitedSession(id: string)
      requires Valid()
      modifies this
      ensures Valid() && Of(id) == Shed(old(Of(id))) && Only(id)
    {
      hide Of;
      hide Past;
      Unregister(id);
      label A:
      SetExited(id, false);
      assert Only@A(id);
    }

    method HandleTerminalOf(id: string, status: Ending)
      requires Valid()
      modifies this, parks
      ensures Valid() && Of(id) == HandleTerminal(old(Of(id)), status) && Only(id)
    {
      hide Of;
      hide Past;
      hide MaybeReap;
      ForgetParks(id);
      label A:
      EndAs(id, status);
      assert Only@A(id);
      label B:
      var _ := MaybeReapAgent(id);
      assert Only@B(id);
    }

    method KillAgent(id: string) returns (ok: bool)
      requires Valid()
      modifies this, parks
      ensures Valid() && Of(id) == OnKill(old(Of(id))) && Only(id)
      ensures ok <==> old(id in sessions || id in parks.limited)
    {
      var live := id in sessions;
      assert live == Of(id).session.Some? && (id in parks.limited) == Of(id).parks.limited.Some?;
      hide Of;
      hide Past;
      hide MaybeReap;
      if !live && id !in parks.limited {
        return false;
      }
      ClearParks(id);
      label A:
      EndAs(id, Killed);
      assert Only@A(id);
      label B:
      if !live {
        SetExited(id, true);
        assert Only@B(id);
      }
      label C:
      var _ := MaybeReapAgent(id);
      assert Only@C(id);
      return true;
    }

    method CompleteAgent(id: string) returns (ok: bool)
      requires Valid()
      modifies this, parks
      ensures Valid() && Of(id) == OnComplete(old(Of(id))) && Only(id)
      ensures ok <==> old(id in sessions)
    {
      hide HandleTerminal;
      if id !in sessions {
        return false;
      }
      HandleTerminalOf(id, Done);
      return true;
    }

    method PutExitCode(id: string, code: int)
      requires Valid()
      modifies this`exitCodes
      ensures Valid() && forall other :: Of(other) == old(Of(other))
    {
      exitCodes := exitCodes[id := code];
    }

    method NoteExit(id: string, i: nat, code: int)
      requires Valid() && i < |Of(id).procs|
      modifies this
      ensures Valid() && Only(id)
      ensures var a := old(Of(id)); Of(id) == a.(procs := a.procs[i := true], exited := true, exits := a.exits + 1)
    {
      hide Of;
      hide Past;
      PutExitCode(id, code);
      label A:
      SetExited(id, true);
      assert Only@A(id);
      label B:
      PastExit(id, i);
      assert Only@B(id);
    }

    method OnExitOf(id: string, i: nat, code: int)
      requires Valid() && i < |Of(id).procs|
      modifies this
      ensures Valid() && Of(id) == OnExit(old(Of(id)), i) && Only(id)
    {
      hide Past;
      hide MaybeReap;
      hide Valid;
      NoteExit(id, i, code);
      assert (id in parks.limited) == Of(id).parks.limited.Some?;
      hide Of;
      label A:
      if id in parks.limited {
        ShedLimitedSession(id);
        assert Only@A(id);
      }
      label B:
      var _ := MaybeReapAgent(id);
      assert Only@B(id);
    }

    ghost method PastStray(id: string)
      requires Valid()
      modifies this`agents
      ensures Valid() && Only(id)
      ensures var a := old(Of(id)); Of(id) == a.(strayed := a.strayed || Stray(a))
    {
      hide Stray;
      agents := agents[id := Past(id).(strayed := Past(id).strayed || Stray(Of(id)))];
    }

    method ParkOnLimit(id: string, limit: Limit)
      requires Valid() && id !in parks.limited
      modifies this, parks
      ensures Valid() && Only(id)
      ensures var a := old(Of(id)); Of(id) == a.(parks := Limited(a.parks, limit), strayed := a.strayed || Stray(a))
    {
      hide Past;
      PastStray(id);
      label A:
      parks.HandleLimited(id, limit);
      assert Only@A(id);
    }

    method OnLimitedOf(id: string, limit: Limit)
      requires Valid()
      modifies this, parks
      ensures Valid() && Of(id) == OnLimited(old(Of(id)), limit) && Only(id)
    {
      if id in parks.limited {
        return;
      }
      ParkOnLimit(id, limit);
      assert (id in exited) == Of(id).exited;
      hide Of;
      hide Past;
      label A:
      if id in exited {
        ShedLimitedSession(id);
        assert Only@A(id);
      }
    }

    method Register(id: string)
      requires Valid()
      modifies this
      ensures Valid() && Only(id)
      ensures var a := old(Of(id)); Of(id) == a.(session := Some(|a.procs|), procs := a.procs + [false])
    {
      hide Of;
      hide Past;
      var session := NextSession(id);
      label A:
      RegisterAs(id, session);
      assert Only@A(id);
    }

    method RestoreParked(id: string)
      requires Valid()
      modifies parks
      ensures Valid() && Of(id) == old(Of(id)).(parks := old(Of(id)).parks.(parked := true)) && Only(id)
    {
      parks.RestoreWaiting(id);
    }

    /** A launch that cannot be made leaves no session registered. */
    method LaunchSession(id: string, launches: bool, wasWaiting: bool) returns (ok: bool)
      requires Valid() && Of(id).session.None?
      modifies this, parks
      ensures Valid() && Of(id) == (if launches then Launched(old(Of(id)), wasWaiting) else old(Of(id))) && Only(id)
      ensures ok == launches
    {
      hide Of;
      hide Past;
      if !launches {
        return false;
      }
      Register(id);
      label A:
      if wasWaiting {
        RestoreParked(id);
        assert Only@A(id);
      }
      return true;
    }

    method PutAttempts(id: string, n: nat)
      requires Valid()
      modifies this`attempts
      ensures Valid() && Of(id) == old(Of(id)).(attempts := n) && Only(id)
    {
      attempts := attempts[id := n];
    }

    method CountResume(id: string, spent: nat)
      requires Valid() && spent == Of(id).attempts
      modifies this
      ensures Valid() && Only(id)
      ensures Of(id) == old(Of(id)).(attempts := spent + 1, session := None, exited := false)
    {
      hide Of;
      hide Past;
      Unregister(id);
      label A:
      SetExited(id, false);
      assert Only@A(id);
      label B:
      PutAttempts(id, spent + 1);
      assert Only@B(id);
    }

    /** How often the agent had been resumed where it is not again, nothing where it is. */
    method AutoResume(id: string, i: nat, resumable: bool, launches: bool, wasWaiting: bool)
        returns (spent: Option<nat>)
      requires Valid()
      modifies this, parks
      ensures Valid() && Only(id)
      ensures spent.None? <==> CanResume(old(Of(id)), i, o, resumable) && launches
      ensures var a := old(Of(id));
              var b := if CanResume(a, i, o, resumable) then
                  a.(attempts := a.attempts + 1, session := None, exited := false) else a;
              Of(id) == if spent.None? then Launched(b, wasWaiting) else b
    {
      hide Past;
      if o.resumeAttempts <= 0 || !resumable || id !in sessions || sessions[id] != i {
        return Some(0);
      }
      var had := if id in attempts then attempts[id] else 0;
      assert Of(id).attempts == had && Of(id).session == Some(i);
      hide Of;
      if had >= o.resumeAttempts {
        return Some(had);
      }
      CountResume(id, had);
      label A:
      var ok := LaunchSession(id, launches, wasWaiting);
      assert Only@A(id);
      return if ok then None else Some(had + 1);
    }

    method OnFailedOf(id: string, i: nat, resumable: bool, launches: bool, wasWaiting: bool)
      requires Valid()
      modifies this, parks
      ensures Valid() && Of(id) == OnFailed(old(Of(id)), i, o, resumable, launches, wasWaiting) && Only(id)
    {
      hide Of;
      hide Past;
      hide HandleTerminal;
      var spent := AutoResume(id, i, resumable, launches, wasWaiting);
      if spent.None? {
        return;
      }
      label A:
      HandleTerminalOf(id, Failed);
      assert Only@A(id);
    }

    method Reinstate(id: string, limit: Limit)
      requires Valid()
      modifies parks
      ensures Valid() && Of(id) == old(Of(id)).(parks := Reinstated(old(Of(id)).parks, limit)) && Only(id)
    {
      parks.ReinstateLimitPark(id, limit);
    }

    method ResumeParkedAgent(id: string, resumable: bool, launches: bool) returns (ok: bool)
      requires Valid()
      modifies this, parks
      ensures Valid() && Of(id) == OnResumeParked(old(Of(id)), resumable, launches) && Only(id)
      ensures ok ==> Of(id).parks.limited.None? && Of(id).session.Some?
    {
      hide Past;
      if id !in parks.limited {
        return false;
      }
      var limit := parks.limited[id];
      var live := id in sessions;
      assert Of(id).parks.limited == Some(limit) && live == Of(id).session.Some?;
      hide Of;
      if !live && !resumable {
        return false;
      }
      ClearParks(id);
      if live {
        return true;
      }
      label A:
      ok := LaunchSession(id, launches, false);
      assert Only@A(id);
      label B:
      if !ok {
        Reinstate(id, limit);
        assert Only@B(id);
      }
    }

    method DropClock(id: string)
      requires Valid()
      modifies parks
      ensures Valid() && Of(id) == old(Of(id)).(parks := old(Of(id)).parks.(stalled := None)) && Only(id)
    {
      parks.DropClock(id);
    }

    method ExpireStallOf(id: string, now: int) returns (completed: bool)
      requires Valid()
      modifies this, parks
      ensures Valid() && Of(id) == OnExpireStalls(old(Of(id)), now) && Only(id)
      ensures completed <==> Completes(old(Of(id)).parks, now, old(Of(id)).session.Some?)
    {
      hide Past;
      hide HandleTerminal;
      if id !in parks.stalled || parks.stalled[id].at > now {
        return false;
      }
      assert Expired(Of(id).parks, now) && (id in parks.limited) == Of(id).parks.limited.Some?;
      assert (id in sessions) == Of(id).session.Some?;
      hide Of;
      if id in parks.limited {
        DropClock(id);
        return false;
      }
      completed := CompleteAgent(id);
      label A:
      if !completed {
        DropClock(id);
        assert Only@A(id);
      }
    }

    method InterruptOf(id: string)
      requires Valid() && id in sessions
      modifies this, parks
      ensures Valid() && sessions == old(sessions) - {id}
      ensures forall other :: Of(other) == if other == id then OnInterruptAll(old(Of(id))) else old(Of(other))
    {
      sessions, exitCodes, exited := sessions - {id}, exitCodes - {id}, exited - {id};
      parks.UnparkAgent(id);
    }

    lemma NoSession(id: string)
      requires id !in sessions
      ensures OnInterruptAll(Of(id)) == Of(id)
    {
    }

    method InterruptAllAgents()
      requires Valid()
      modifies this, parks
      ensures Valid() && sessions == map[] && forall id :: Of(id) == OnInterruptAll(old(Of(id)))
    {
      hide Of;
      hide Past;
      hide OnInterruptAll;
      hide Valid;
      forall id | id !in sessions ensures OnInterruptAll(Of(id)) == Of(id) {
        NoSession(id);
      }
      var left := sessions.Keys;
      while left != {}
        invariant Valid() && sessions.Keys == left
        invariant forall id :: Of(id) == if id in left then old(Of(id)) else OnInterruptAll(old(Of(id)))
        decreases |left|
      {
        var id :| id in left;
        left := left - {id};
        InterruptOf(id);
      }
    }
  }
}
