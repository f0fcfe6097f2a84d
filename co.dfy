/**
  script/co.py: the CaseOfficer that schedules agents. It keeps four lists: agents waiting
  to run (sleepers), agents running (active), and the cases it has closed or iced. Agents
  are objects, so list.remove and `in` compare them by identity, as Python does.

  Whether a started download's file appears in time is an oracle `creates` indexed by the
  start attempt, the key under which that attempt's FileWriteError is logged is `errKeys`
  (Python gives every exception object its own key), and what an agent observes when it
  is processed is `obs`, indexed by the agent's position in the loop.
*/
module Officers {
  import opened Wrappers
  import opened Conf
  import opened Lists
  import opened Cases
  import opened Agents
  import Statuses

  class CaseOfficer {
    var activeAgents: seq<Agent>
    var sleeperAgents: seq<Agent>
    var closedCases: seq<Case>
    var coldCases: seq<Case>
    const maxActiveAgents: int

    /** A new officer has four empty lists and the given cap on active agents. */
    constructor(maxActiveAgents: int)
      ensures activeAgents == [] && sleeperAgents == [] && closedCases == [] && coldCases == []
      ensures this.maxActiveAgents == maxActiveAgents
    {
      activeAgents := [];
      sleeperAgents := [];
      closedCases := [];
      coldCases := [];
      this.maxActiveAgents := maxActiveAgents;
    }

    /** all_agents: the sleepers followed by the active agents. */
    function AllAgents(): (r: seq<Agent>)
      reads this
      ensures |r| == |sleeperAgents| + |activeAgents|
      ensures r[..|sleeperAgents|] == sleeperAgents && r[|sleeperAgents|..] == activeAgents
    {
      sleeperAgents + activeAgents
    }

    /** cases_active: some agent, sleeping or active, is still registered. */
    function CasesActive(): (b: bool)
      reads this
      ensures b <==> AllAgents() != []
    {
      |activeAgents| > 0 || |sleeperAgents| > 0
    }

    /**
      agent_assigned as written: the loop reads agent.url, an attribute an Agent does not
      have (the URL lives on agent.case), so the first registered agent raises
      AttributeError; only an officer without agents answers False, and
      DuplicateAgentError is never raised.
    */
    function AgentAssigned(url: string, fp: string): (r: Result<bool, Error>)
      reads this
      ensures r == Ok(false) <==> AllAgents() == []
      ensures r.Err? ==> r.error == AttributeError
      ensures r != Ok(true) && r != Err(DuplicateAgentError)
    {
      if AllAgents() == [] then Ok(false) else Err(AttributeError)
    }

    /** add_cases: one new STAGING agent per case, appended to the sleepers in input order. */
    method AddCases(cases: seq<Case>)
      modifies this
      ensures |sleeperAgents| == |old(sleeperAgents)| + |cases|
      ensures sleeperAgents[..|old(sleeperAgents)|] == old(sleeperAgents)
      ensures forall i :: |old(sleeperAgents)| <= i < |sleeperAgents| ==>
        && fresh(sleeperAgents[i]) && sleeperAgents[i].theCase == cases[i - |old(sleeperAgents)|]
        && sleeperAgents[i].status == Staging && !sleeperAgents[i].started
      ensures forall i, j :: |old(sleeperAgents)| <= i < j < |sleeperAgents| ==> sleeperAgents[i] != sleeperAgents[j]
      ensures activeAgents == old(activeAgents) && closedCases == old(closedCases) && coldCases == old(coldCases)
    {
      var n := |sleeperAgents|;
      for i := 0 to |cases|
        invariant |sleeperAgents| == n + i
        invariant sleeperAgents[..n] == old(sleeperAgents)
        invariant forall j :: n <= j < |sleeperAgents| ==>
          && fresh(sleeperAgents[j]) && sleeperAgents[j].theCase == cases[j - n]
          && sleeperAgents[j].status == Staging && !sleeperAgents[j].started
        invariant forall j, k :: n <= j < k < |sleeperAgents| ==> sleeperAgents[j] != sleeperAgents[k]
        invariant activeAgents == old(activeAgents) && closedCases == old(closedCases) && coldCases == old(coldCases)
      {
        var a := new Agent(cases[i]);
        sleeperAgents := sleeperAgents + [a];
      }
    }

    /** ice_case: the case joins the cold cases. */
    method IceCase(c: Case)
      modifies this
      ensures coldCases == old(coldCases) + [c]
      ensures activeAgents == old(activeAgents) && sleeperAgents == old(sleeperAgents) && closedCases == old(closedCases)
    {
      coldCases := coldCases + [c];
    }

    /** close_case: the case joins the closed cases. */
    method CloseCase(c: Case)
      modifies this
      ensures closedCases == old(closedCases) + [c]
      ensures activeAgents == old(activeAgents) && sleeperAgents == old(sleeperAgents) && coldCases == old(coldCases)
    {
      closedCases := closedCases + [c];
    }

    /** activate_agent: the agent is listed as active first, then started. */
    method ActivateAgent(agent: Agent, created: bool) returns (o: Outcome<Error>)
      modifies this, agent
      ensures activeAgents == old(activeAgents) + [agent]
      ensures sleeperAgents == old(sleeperAgents) && closedCases == old(closedCases) && coldCases == old(coldCases)
      ensures created ==> o == Pass && agent.status == Active && agent.started
      ensures !created ==> o == Fail(FileWriteError) && agent.status == old(agent.status) && agent.started == old(agent.started)
      ensures agent.deadChecks == old(agent.deadChecks) && agent.restarts == old(agent.restarts)
    {
      activeAgents := activeAgents + [agent];
      o := agent.DlStart(created);
    }

    /** deactivate_agent as written: the agent goes back to the sleepers but stays listed as active. */
    method DeactivateAgent(agent: Agent)
      modifies this
      ensures sleeperAgents == old(sleeperAgents) + [agent]
      ensures activeAgents == old(activeAgents) && closedCases == old(closedCases) && coldCases == old(coldCases)
    {
      sleeperAgents := sleeperAgents + [agent];
    }

    /**
      kill_agent: terminate the worker (AttributeError when none was started), remove the
      first listing of the agent from the active agents (ValueError when it is not
      listed), and return its case. Nothing else changes.
    */
    method KillAgent(agent: Agent) returns (r: Result<Case, Error>)
      modifies this
      ensures !agent.started ==> r == Err(AttributeError) && activeAgents == old(activeAgents)
      ensures agent.started && agent !in old(activeAgents) ==> r == Err(ValueError) && activeAgents == old(activeAgents)
      ensures agent.started && agent in old(activeAgents) ==>
        r == Ok(agent.theCase) && activeAgents == RemoveFirst(old(activeAgents), agent)
      ensures sleeperAgents == old(sleeperAgents) && closedCases == old(closedCases) && coldCases == old(coldCases)
    {
      var c := agent.theCase;
      var k := agent.DlKill();
      if k.Fail? {
        return Err(k.error);
      }
      if agent !in activeAgents {
        return Err(ValueError);
      }
      activeAgents := RemoveFirst(activeAgents, agent);
      return Ok(c);
    }

    /**
      administrate_case: the ice check runs first and the close check second, each killing
      the agent and filing its case. `removed` counts the listings taken out of the active
      agents. A case that is both iced and complete, whose agent is listed once, is iced
      and then fails with ValueError on the second removal; one listed twice (as
      deactivate_agent leaves it) is both iced and closed.
    */
    method AdministrateCase(agent: Agent) returns (o: Outcome<Error>, ghost removed: nat)
      modifies this
      ensures activeAgents == RemoveFirstN(old(activeAgents), agent, removed)
      ensures sleeperAgents == old(sleeperAgents)
      ensures old(closedCases) <= closedCases && old(coldCases) <= coldCases
      ensures var iced := agent.theCase.ShouldBeIced(MAX_ALLOWABLE_ERR_COUNT);
        var done := agent.theCase.ShouldBeClosed();
        && (!iced && !done ==> o == Pass && removed == 0 && coldCases == old(coldCases) && closedCases == old(closedCases))
        && (!agent.started && (iced || done) ==> o == Fail(AttributeError) && removed == 0)
        && (iced && agent.started && agent in old(activeAgents) ==> coldCases == old(coldCases) + [agent.theCase])
        && (!iced ==> coldCases == old(coldCases))
        && (iced && !done && agent.started && agent in old(activeAgents) ==> o == Pass && removed == 1)
        && (iced && done && agent.started && multiset(old(activeAgents))[agent] == 1 ==>
              o == Fail(ValueError) && removed == 1 && closedCases == old(closedCases))
        && (iced && done && agent.started && multiset(old(activeAgents))[agent] >= 2 ==>
              o == Pass && removed == 2 && closedCases == old(closedCases) + [agent.theCase])
        && (!iced && done && agent.started && agent in old(activeAgents) ==>
              o == Pass && removed == 1 && closedCases == old(closedCases) + [agent.theCase])
    {
      removed := 0;
      if agent.theCase.ShouldBeIced(MAX_ALLOWABLE_ERR_COUNT) {
        var r := KillAgent(agent);
        if r.Err? {
          return Fail(r.error), removed;
        }
        IceCase(r.value);
        removed := 1;
        RemoveFirstMultiset(old(activeAgents), agent);
        if multiset(old(activeAgents))[agent] == 1 {
          assert multiset(activeAgents)[agent] == 0;
        } else {
          assert multiset(activeAgents)[agent] > 0;
          assert agent in activeAgents;
        }
      }
      if agent.theCase.ShouldBeClosed() {
        var r := KillAgent(agent);
        if r.Err? {
          return Fail(r.error), removed;
        }
        CloseCase(r.value);
        removed := removed + 1;
      }
      o := Pass;
    }

    /**
      One turn of the fill_agent_roster loop on a non-empty sleeper list: pop the last
      sleeper and activate it. When its file fails to appear the FileWriteError is logged
      on its case; the case is then iced and the agent killed if the case now needs icing,
      and otherwise the agent is put back among the sleepers (while staying active).
    */
    method RosterStep(created: bool, key: ErrKey) returns (o: Outcome<Error>)
      requires sleeperAgents != []
      modifies this, sleeperAgents[|sleeperAgents| - 1], sleeperAgents[|sleeperAgents| - 1].theCase.record
      ensures var a := old(sleeperAgents)[|old(sleeperAgents)| - 1];
        var rest := old(sleeperAgents)[..|old(sleeperAgents)| - 1];
        && closedCases == old(closedCases)
        && (created ==>
              && o == Pass && a.status == Active && a.started
              && activeAgents == old(activeAgents) + [a] && sleeperAgents == rest
              && coldCases == old(coldCases) && a.theCase.record.errs == old(a.theCase.record.errs))
        && (!created ==> a.theCase.record.errs == Logged(old(a.theCase.record.errs), key))
        && (!created && a.theCase.ShouldBeIced(MAX_ALLOWABLE_ERR_COUNT) ==>
              && coldCases == old(coldCases) + [a.theCase] && sleeperAgents == rest
              && (a.started ==> o == Pass && activeAgents == RemoveFirst(old(activeAgents) + [a], a))
              && (!a.started ==> o == Fail(AttributeError) && activeAgents == old(activeAgents) + [a]))
        && (!created && !a.theCase.ShouldBeIced(MAX_ALLOWABLE_ERR_COUNT) ==>
              && o == Pass && coldCases == old(coldCases)
              && activeAgents == old(activeAgents) + [a] && sleeperAgents == rest + [a])
    {
      var agent := sleeperAgents[|sleeperAgents| - 1];
      sleeperAgents := sleeperAgents[..|sleeperAgents| - 1];
      o := ActivateAgent(agent, created);
      if o.Fail? {
        agent.theCase.record.LogError(key);
        if agent.theCase.ShouldBeIced(MAX_ALLOWABLE_ERR_COUNT) {
          IceCase(agent.theCase);
          var killed := KillAgent(agent);
          if killed.Err? {
            return Fail(killed.error);
          }
        } else {
          DeactivateAgent(agent);
        }
        o := Pass;
      }
    }

    /**
      fill_agent_roster: activate sleepers, last first, until the active list reaches the
      cap; popping an empty sleeper list raises IndexError. No agent is created or lost,
      closed cases are untouched, cold cases only grow. When every start succeeds the
      sleepers' tail moves, reversed, to the end of the active list.
    */
    method FillAgentRoster(creates: nat -> bool, errKeys: nat -> ErrKey) returns (o: Outcome<Error>)
      modifies this, set a | a in sleeperAgents, set a | a in sleeperAgents :: a.theCase.record
      ensures o.Pass? ==> |activeAgents| >= maxActiveAgents
      ensures o.Fail? ==> o.error in {IndexError, AttributeError}
      ensures closedCases == old(closedCases)
      ensures old(coldCases) <= coldCases
      ensures forall a :: a in activeAgents ==> a in old(activeAgents) || a in old(sleeperAgents)
      ensures forall a :: a in sleeperAgents ==> a in old(sleeperAgents)
      ensures (forall k :: creates(k)) ==>
        && coldCases == old(coldCases) && (o == Pass || o == Fail(IndexError))
        && RosterFilled(old(activeAgents), old(sleeperAgents), activeAgents, sleeperAgents, maxActiveAgents, o.Fail?)
    {
      ghost var allCreated := forall j :: creates(j);
      ghost var active0, sleepers0, cold0 := activeAgents, sleeperAgents, coldCases;
      var k: nat := 0;
      while |activeAgents| < maxActiveAgents
        invariant RosterKept(active0, sleepers0, cold0)
        invariant RosterProgress(active0, sleepers0, cold0, allCreated)
        invariant closedCases == old(closedCases)
        decreases maxActiveAgents - |activeAgents|, |sleeperAgents|
      {
        if sleeperAgents == [] {
          if allCreated {
            RosterOutcome(active0, sleepers0, activeAgents, sleeperAgents, maxActiveAgents, true);
          }
          return Fail(IndexError);
        }
        o := RosterTurn(creates(k), errKeys(k), active0, sleepers0, cold0, allCreated);
        if o.Fail? {
          return;
        }
        k := k + 1;
      }
      if allCreated {
        RosterOutcome(active0, sleepers0, activeAgents, sleeperAgents, maxActiveAgents, false);
      }
      return Pass;
    }

    /** What every turn of the roster loop keeps: cold cases only grow, and agents come from the lists it started with. */
    ghost predicate RosterKept(active0: seq<Agent>, sleepers0: seq<Agent>, cold0: seq<Case>)
      reads this
    {
      && cold0 <= coldCases
      && (forall a :: a in activeAgents ==> a in active0 || a in sleepers0)
      && (forall a :: a in sleeperAgents ==> a in sleepers0)
    }

    /**
      Where the roster loop stands: when every start succeeds, the sleepers popped so far
      sit, last first, at the end of the active list; a full roster is left alone.
    */
    ghost predicate RosterProgress(active0: seq<Agent>, sleepers0: seq<Agent>, cold0: seq<Case>, allCreated: bool)
      reads this
    {
      && (allCreated ==>
            && |sleeperAgents| <= |sleepers0|
            && sleeperAgents == sleepers0[..|sleeperAgents|]
            && activeAgents == active0 + Reversed(sleepers0[|sleeperAgents|..])
            && coldCases == cold0
            && (|active0| < maxActiveAgents ==> |activeAgents| <= maxActiveAgents))
      && (|active0| >= maxActiveAgents ==>
            activeAgents == active0 && sleeperAgents == sleepers0 && coldCases == cold0)
    }

    /** One turn of the roster loop, with the loop's invariant carried across it. */
    method RosterTurn(created: bool, key: ErrKey, ghost active0: seq<Agent>, ghost sleepers0: seq<Agent>,
                      ghost cold0: seq<Case>, ghost allCreated: bool) returns (o: Outcome<Error>)
      requires sleeperAgents != [] && |activeAgents| < maxActiveAgents
      requires allCreated ==> created
      requires RosterKept(active0, sleepers0, cold0) && RosterProgress(active0, sleepers0, cold0, allCreated)
      modifies this, sleeperAgents[|sleeperAgents| - 1], sleeperAgents[|sleeperAgents| - 1].theCase.record
      ensures closedCases == old(closedCases)
      ensures RosterKept(active0, sleepers0, cold0)
      ensures created ==> o == Pass
      ensures o.Fail? ==> o.error == AttributeError
      ensures o.Pass? ==> RosterProgress(active0, sleepers0, cold0, allCreated)
      ensures o.Pass? ==>
        || |activeAgents| > old(|activeAgents|)
        || (|activeAgents| == old(|activeAgents|) && |sleeperAgents| < old(|sleeperAgents|))
    {
      ghost var before := sleeperAgents;
      o := RosterStep(created, key);
      if o.Pass? && allCreated {
        ReversedPop(sleepers0, |before|);
      }
    }

    /** The body of administrate_cases for one agent: process it, then decide its case. */
    method AdministrateAgent(agent: Agent, ob: Observation) returns (o: Outcome<Error>, ghost removed: nat)
      modifies this, agent, agent.theCase.record
      ensures activeAgents == RemoveFirstN(old(activeAgents), agent, removed)
      ensures sleeperAgents == old(sleeperAgents)
      ensures old(closedCases) <= closedCases && old(coldCases) <= coldCases
    {
      removed := 0;
      var report := agent.Process(ob);
      if report.Err? {
        return Fail(report.error), removed;
      }
      o, removed := AdministrateCase(agent);
    }

    /**
      administrate_cases: `for agent in active_agents`, processing each agent and then
      deciding its case, while kill_agent removes entries from the list being walked.
      Step k looks at position k of the list as it is then; `drops` records how many
      listings each step removed and `visited` the agents processed, so the list and the
      visits follow Replay and Visits; an error from an agent or a kill ends the loop.
    */
    method AdministrateCases(obs: nat -> Observation) returns (o: Outcome<Error>, ghost drops: seq<nat>, ghost visited: seq<Agent>)
      modifies this, set a | a in activeAgents, set a | a in activeAgents :: a.theCase.record
      ensures sleeperAgents == old(sleeperAgents)
      ensures old(closedCases) <= closedCases && old(coldCases) <= coldCases
      ensures forall a :: a in activeAgents ==> a in old(activeAgents)
      ensures o.Pass? ==> activeAgents == Replay(old(activeAgents), drops)
      ensures o.Pass? ==> visited == Visits(old(activeAgents), drops) && |visited| == |drops|
      ensures o.Pass? ==> |drops| >= |activeAgents|
    {
      drops := [];
      visited := [];
      var i := 0;
      while i < |activeAgents|
        invariant i == |drops| == |visited|
        invariant activeAgents == Replay(old(activeAgents), drops)
        invariant visited == Visits(old(activeAgents), drops)
        invariant forall a :: a in activeAgents ==> a in old(activeAgents)
        invariant sleeperAgents == old(sleeperAgents)
        invariant old(closedCases) <= closedCases && old(coldCases) <= coldCases
        decreases |activeAgents| - i
      {
        var agent := activeAgents[i];
        ghost var removed;
        o, removed := AdministrateAgent(agent, obs(i));
        if o.Fail? {
          return o, drops, visited;
        }
        ReplayStep(old(activeAgents), drops, removed);
        drops := drops + [removed];
        visited := visited + [agent];
        i := i + 1;
      }
      o := Pass;
    }

    /** administrate: fill the roster, then process every active agent (the pause between ticks is not modelled). */
    method Administrate(creates: nat -> bool, errKeys: nat -> ErrKey, obs: nat -> Observation) returns (o: Outcome<Error>)
      modifies this
      modifies set a | a in activeAgents + sleeperAgents, set a | a in activeAgents + sleeperAgents :: a.theCase.record
      ensures old(closedCases) <= closedCases
      ensures forall a :: a in activeAgents + sleeperAgents ==> a in old(activeAgents) + old(sleeperAgents)
    {
      o := FillAgentRoster(creates, errKeys);
      if o.Fail? {
        return;
      }
      ghost var drops, visited;
      o, drops, visited := AdministrateCases(obs);
    }
  }

  /**
    Where fill_agent_roster stops when every start succeeds: with `need` places free and
    n sleepers, the last `need` sleepers have moved, last first, to the end of the active
    list; when there are too few, all of them have and the pop of the empty list failed.
  */
  ghost predicate RosterFilled<A>(active0: seq<A>, sleepers0: seq<A>, active: seq<A>, sleepers: seq<A>, cap: int, failed: bool)
  {
    var need := cap - |active0|;
    var n := |sleepers0|;
    && (need <= 0 ==> !failed && active == active0 && sleepers == sleepers0)
    && (0 < need <= n ==> !failed && active == active0 + Reversed(sleepers0[n - need..]) && sleepers == sleepers0[..n - need])
    && (need > n ==> failed && active == active0 + Reversed(sleepers0) && sleepers == [])
  }

  /** The roster loop's invariant at either of its exits gives RosterFilled. */
  lemma RosterOutcome<A>(active0: seq<A>, sleepers0: seq<A>, active: seq<A>, sleepers: seq<A>, cap: int, failed: bool)
    requires |sleepers| <= |sleepers0| && sleepers == sleepers0[..|sleepers|]
    requires active == active0 + Reversed(sleepers0[|sleepers|..])
    requires |active0| < cap ==> |active| <= cap
    requires |active0| >= cap ==> active == active0 && sleepers == sleepers0
    requires failed ==> sleepers == [] && |active| < cap
    requires !failed ==> |active| >= cap
    ensures RosterFilled(active0, sleepers0, active, sleepers, cap, failed)
  {
    assert sleepers0[0..] == sleepers0;
  }
}
