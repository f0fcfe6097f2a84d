/**
  script/obj.py: the consolidated draft of the record, the agent and the case officer.
  Its CaseRecord differs from the one of script/case.py only in lacking the `complete`
  flag (which nothing in this draft reads) and in max_err_type, so the record is
  Cases.CaseRecord and max_err_type is modelled here. Its StatusReport predicates are
  those of Statuses, but a report here carries a lifecycle status, not a report code.

  As in Agents, the file system, the network and the worker are observations: the size
  on disk (taken to be the same throughout one update_status call), the Content-Length a
  server request returns, whether a (re)started download's file appears in time, the
  error waiting in the mailbox and the elapsed run times.
*/
module ObjDraft {
  import opened Wrappers
  import opened Conf
  import opened Lists
  import opened Cases
  import Agents
  import Statuses

  type PollState = Agents.PollState

  /** What max_err_type returns: the pair (None, 0), or an error key. */
  datatype ErrType = NoneZero | Key(key: ErrKey)

  /**
    max_err_type as written: the assignment meant to remember the maximal key assigns the
    loop variable to itself, so after the loop it names the last key iterated.
  */
  function LastErrType(s: seq<Entry>): (t: ErrType)
    ensures t == NoneZero <==> s == []
    ensures t.Key? ==> t.key == Keys(s)[|s| - 1]
  {
    if s == [] then NoneZero else Key(s[|s| - 1].key)
  }

  /** max_err_type of script/obj.py on a record. */
  method MaxErrType(record: CaseRecord) returns (t: ErrType)
    ensures t == LastErrType(record.errs)
  {
    if |record.errs| == 0 {
      return NoneZero;
    }
    var maxNum := -1;
    var errType := record.errs[0].key;
    for i := 0 to |record.errs|
      invariant i > 0 ==> errType == record.errs[i - 1].key
    {
      errType := record.errs[i].key;
      if record.errs[i].count > maxNum {
        maxNum := record.errs[i].count;
      }
    }
    return Key(errType);
  }

  /**
    With the most frequent error logged first, max_err_type of this draft names a
    different, less frequent error than the maximum the scan of script/case.py finds.
  */
  lemma MaxErrTypeNotMaximal()
    ensures var s := [Entry(ErrKey(0), 3), Entry(ErrKey(1), 1)];
      && LastErrType(s) == Key(ErrKey(1))
      && MaxType(s) == Some(ErrKey(0))
      && s[1].count < s[0].count
  {
    var s := [Entry(ErrKey(0), 3), Entry(ErrKey(1), 1)];
    assert s[..1] == [Entry(ErrKey(0), 3)];
    assert s[..1][..0] == [];
    assert MaxScan(s[..1]) == (3, Some(ErrKey(0)));
  }

  /**
    update_status with the file at `size` bytes. A STAGING agent is left alone. Otherwise,
    in order: growth records the size and sets ACTIVE; the size now equal to the recorded
    one (always so after growth) adds a dead check and sets COMATOSE; that and more than
    DEAD_CHECK_THRESHOLD dead checks set DEAD; and a file at least as large as the file
    on the server sets COMPLETE, overriding everything before it.
  */
  function StatusUpdate(s: PollState, size: int, fetched: int): (r: PollState)
    ensures s.status == Staging ==> r == s
    ensures s.status != Staging ==>
      && r.lastSize == (if size > s.lastSize then size else s.lastSize)
      && r.deadChecks == (if size >= s.lastSize then s.deadChecks + 1 else s.deadChecks)
      && r.sizeOnServer == Some(Agents.ServerSize(s, fetched))
    ensures s.status != Staging && DownloadComplete(size, Agents.ServerSize(s, fetched)) ==> r.status == Complete
    ensures s.status != Staging && !DownloadComplete(size, Agents.ServerSize(s, fetched)) ==>
      && (size >= s.lastSize && s.deadChecks >= Agents.DEAD_CHECK_THRESHOLD ==> r.status == Dead)
      && (size >= s.lastSize && s.deadChecks < Agents.DEAD_CHECK_THRESHOLD ==> r.status == Comatose)
      && (size < s.lastSize ==> r.status == s.status)
    ensures r.status == Active ==> s.status == Active && (size < s.lastSize || s == r)
    ensures r.status == Dead ==>
      && !DownloadComplete(size, Agents.ServerSize(s, fetched))
      && ((size >= s.lastSize && r.deadChecks > Agents.DEAD_CHECK_THRESHOLD) || (size < s.lastSize && s.status == Dead))
  {
    if s.status == Staging then s
    else
      var s1 := if size > s.lastSize then s.(lastSize := size, status := Active) else s;
      var s2 := if Agents.LooksDead(s1, size) then s1.(deadChecks := s1.deadChecks + 1, status := Comatose) else s1;
      var s3 := if Agents.IsDead(s2, size) then s2.(status := Dead) else s2;
      var sos := Agents.ServerSize(s3, fetched);
      var s4 := s3.(sizeOnServer := Some(sos));
      if DownloadComplete(size, sos) then s4.(status := Complete) else s4
  }

  /** update_status called once for each observed size in turn. */
  function StatusUpdateRun(s: PollState, sizes: seq<int>, fetched: int): PollState
    decreases |sizes|
  {
    if sizes == [] then s else StatusUpdateRun(StatusUpdate(s, sizes[0], fetched), sizes[1..], fetched)
  }

  /**
    A started download whose file keeps growing (or holding still) and stays below the
    server's size is still charged one dead check per poll, so from the seventh poll of
    a fresh start on it is declared DEAD although it is making progress.
  */
  lemma {:induction false} ProgressCountsAsDead(s: PollState, sizes: seq<int>, fetched: int)
    requires s.status != Staging && |sizes| >= 1
    requires forall i :: 0 <= i < |sizes| ==> s.lastSize <= sizes[i] < Agents.ServerSize(s, fetched)
    requires forall i, j :: 0 <= i < j < |sizes| ==> sizes[i] <= sizes[j]
    ensures var r := StatusUpdateRun(s, sizes, fetched);
      && r.deadChecks == s.deadChecks + |sizes|
      && r.lastSize == sizes[|sizes| - 1]
      && (r.status == Dead <==> s.deadChecks + |sizes| > Agents.DEAD_CHECK_THRESHOLD)
      && (r.status == Comatose <==> s.deadChecks + |sizes| <= Agents.DEAD_CHECK_THRESHOLD)
    decreases |sizes|
  {
    var s1 := StatusUpdate(s, sizes[0], fetched);
    assert Agents.ServerSize(s1, fetched) == Agents.ServerSize(s, fetched);
    if |sizes| > 1 {
      var rest := sizes[1..];
      assert forall i :: 0 <= i < |rest| ==> rest[i] == sizes[i + 1];
      ProgressCountsAsDead(s1, rest, fetched);
    }
  }

  /**
    status_report from the given fields: speed is the size on disk over the current run
    time and the seconds left are the remaining bytes over the speed (either division can
    raise ZeroDivisionError); the report carries the status of a second update_status.
  */
  function ReportOf(s: PollState, size: int, fetched: int, runTime: real, totalRunTime: real)
    : (r: (PollState, Result<Statuses.StatusReport, Error>))
    ensures r.1 == Err(ZeroDivisionError) <==> runTime == 0.0 || size == 0
    ensures r.1.Err? ==> r.1.error == ZeroDivisionError
    ensures r.1.Ok? ==> r.1.value.status == StatusCode(r.0.status) && r.1.value.speed == size as real / runTime
    ensures r.1.Ok? ==> (Statuses.IsDone(r.1.value) == Some(true) <==> r.0.status == Complete)
    ensures r.1.Ok? && s.status != Staging && DownloadComplete(size, Agents.ServerSize(s, fetched)) ==>
      Statuses.IsDone(r.1.value) == Some(true)
    ensures runTime == 0.0 || size == 0 ==> r.0 == s.(sizeOnServer := Some(Agents.ServerSize(s, fetched)))
    ensures runTime != 0.0 && size != 0 ==>
      r.0 == StatusUpdate(s.(sizeOnServer := Some(Agents.ServerSize(s, fetched))), size, fetched)
  {
    var sos := Agents.ServerSize(s, fetched);
    var s1 := s.(sizeOnServer := Some(sos));
    if runTime == 0.0 then (s1, Err(ZeroDivisionError))
    else
      var speed := size as real / runTime;
      if speed == 0.0 then (s1, Err(ZeroDivisionError))
      else
        var eta := (sos - size) as real / speed;
        var s2 := StatusUpdate(s1, size, fetched);
        (s2, Ok(Statuses.StatusReport(StatusCode(s2.status), speed, runTime, totalRunTime, eta)))
  }

  /**
    One administrate_case on a started download whose file does not shrink and stays
    below the server's size updates the status twice, once directly and once for the
    report, so the dead-check count rises by two and the report is not done.
  */
  lemma NonShrinkingAdministrateCountsTwice(s: PollState, size: int, fetched: int, runTime: real, totalRunTime: real)
    requires s.status != Staging && s.lastSize <= size < Agents.ServerSize(s, fetched)
    requires size != 0 && runTime != 0.0 && s.deadChecks < Agents.DEAD_CHECK_THRESHOLD
    ensures var first := StatusUpdate(s, size, fetched);
      var report := ReportOf(first, size, fetched, runTime, totalRunTime);
      && first.status == Comatose
      && report.0.deadChecks == s.deadChecks + 2
      && report.1.Ok? && Statuses.IsDone(report.1.value) != Some(true)
      && report.0.status == (if s.deadChecks + 1 >= Agents.DEAD_CHECK_THRESHOLD then Dead else Comatose)
  {
    var first := StatusUpdate(s, size, fetched);
    assert Agents.ServerSize(first, fetched) == Agents.ServerSize(s, fetched);
  }

  /** What one call of Agent.administrate_case observes. */
  datatype Observation = Observation(
    size: int,                  // size on disk seen by update_status
    reportSize: int,            // size on disk seen while the report is built
    fetched: int,               // Content-Length the server reports
    created: bool,              // whether a restarted download's file appears in time
    pending: Option<ErrKey>,    // error waiting in the mailbox, if any
    runTime: real,              // seconds since the current download attempt started
    totalRunTime: real)         // seconds since the agent was created

  /** The agent of this draft: the same fields as in Agents, a different update rule. */
  class Agent {
    const theCase: Case
    var status: Status
    var started: bool
    var lastSize: int
    var deadChecks: int
    var restarts: int
    var sizeOnServer: Option<int>

    /** Only dl_start moves an agent out of STAGING, and it starts a worker as it does. */
    ghost predicate Valid()
      reads this
    {
      status != Staging ==> started
    }

    function State(): PollState
      reads this
    {
      Agents.PollState(status, lastSize, deadChecks, sizeOnServer)
    }

    /** A new agent is STAGING, has no worker, and all its counters are zero. */
    constructor(c: Case)
      ensures theCase == c && status == Staging && !started
      ensures lastSize == 0 && deadChecks == 0 && restarts == 0 && sizeOnServer == None
      ensures Valid()
    {
      theCase := c;
      status := Staging;
      started := false;
      lastSize := 0;
      deadChecks := 0;
      restarts := 0;
      sizeOnServer := None;
    }

    /** update_status: the new fields follow StatusUpdate, and the new status is returned. */
    method UpdateStatus(size: int, fetched: int) returns (st: Status)
      modifies this
      ensures State() == StatusUpdate(old(State()), size, fetched) && st == status
      ensures restarts == old(restarts) && started == old(started)
      ensures old(Valid()) ==> Valid()
    {
      if status != Staging {
        if size > lastSize {
          lastSize := size;
          status := Active;
        }
        if size == lastSize {
          deadChecks := deadChecks + 1;
          status := Comatose;
        }
        if size == lastSize && deadChecks > Agents.DEAD_CHECK_THRESHOLD {
          status := Dead;
        }
        if sizeOnServer.None? {
          sizeOnServer := Some(fetched);
        }
        if size >= sizeOnServer.value {
          status := Complete;
        }
      }
      st := status;
    }

    /**
      dl_start: a worker is spawned and the agent waits for the file. If the file does not
      appear in time FileWriteError is raised before the status or the process handle is set.
    */
    method DlStart(created: bool) returns (o: Outcome<Error>)
      modifies this
      ensures created ==> o == Pass && status == Active && started
      ensures !created ==> o == Fail(FileWriteError) && status == old(status) && started == old(started)
      ensures lastSize == old(lastSize) && deadChecks == old(deadChecks)
      ensures restarts == old(restarts) && sizeOnServer == old(sizeOnServer)
    {
      if !created {
        return Fail(FileWriteError);
      }
      status := Active;
      started := true;
      return Pass;
    }

    /** dl_kill: terminating the worker fails with AttributeError when no worker was ever started. */
    function DlKill(): (o: Outcome<Error>)
      reads this
      ensures o.Fail? <==> !started
      ensures o.Fail? ==> o.error == AttributeError
    {
      if started then Pass else Fail(AttributeError)
    }

    /** on_dead: dl_restart (kill, delete the file, start), then clear the dead checks and count the restart. */
    method OnDead(created: bool) returns (o: Outcome<Error>)
      modifies this
      ensures o.Pass? <==> old(started) && created
      ensures !old(started) ==> o == Fail(AttributeError)
      ensures old(started) && !created ==> o == Fail(FileWriteError)
      ensures o.Pass? ==> State() == old(State()).(status := Active, deadChecks := 0) && restarts == old(restarts) + 1
      ensures o.Fail? ==> State() == old(State()) && restarts == old(restarts)
      ensures started == old(started)
    {
      o := DlKill();
      if o.Fail? {
        return;
      }
      o := DlStart(created);
      if o.Fail? {
        return;
      }
      deadChecks := 0;
      restarts := restarts + 1;
    }

    /** get_err: the error waiting in the mailbox, if any; ReferenceError when no worker was started. */
    function GetErr(pending: Option<ErrKey>): (r: Result<Option<ErrKey>, Error>)
      reads this
      ensures r == Err(ReferenceError) <==> !started
      ensures r.Ok? ==> r.value == pending
    {
      if !started then Err(ReferenceError) else Ok(pending)
    }

    /** status_report, run on the agent's fields. */
    method StatusReport(size: int, fetched: int, runTime: real, totalRunTime: real)
      returns (r: Result<Statuses.StatusReport, Error>)
      modifies this
      ensures (State(), r) == ReportOf(old(State()), size, fetched, runTime, totalRunTime)
      ensures restarts == old(restarts) && started == old(started)
      ensures old(Valid()) ==> Valid()
    {
      if sizeOnServer.None? {
        sizeOnServer := Some(fetched);
      }
      var sos := sizeOnServer.value;
      if runTime == 0.0 {
        return Err(ZeroDivisionError);
      }
      var speed := size as real / runTime;
      if speed == 0.0 {
        return Err(ZeroDivisionError);
      }
      var eta := (sos - size) as real / speed;
      var st := UpdateStatus(size, fetched);
      return Ok(Statuses.StatusReport(StatusCode(st), speed, runTime, totalRunTime, eta));
    }

    /**
      administrate_case: update the status; STAGING raises StatusError; DEAD restarts the
      download; a waiting error is logged once; the report is then built (and updates the
      status a second time).
    */
    method AdministrateCase(obs: Observation) returns (r: Result<Statuses.StatusReport, Error>)
      modifies this, theCase.record
      ensures theCase.record.complete == old(theCase.record.complete)
      ensures var first := StatusUpdate(old(State()), obs.size, obs.fetched);
        var revived := first.status == Dead;
        var mid := if revived then first.(status := Active, deadChecks := 0) else first;
        var proceeds := first.status != Staging && old(started) && (revived ==> obs.created);
        && (first.status == Staging ==> r == Err(StatusError) && State() == first)
        && (revived && !proceeds ==> r.Err? && restarts == old(restarts))
        && (!proceeds ==> theCase.record.errs == old(theCase.record.errs))
        && (proceeds ==>
              && restarts == old(restarts) + (if revived then 1 else 0)
              && theCase.record.errs ==
                   (if obs.pending.Some? then Logged(old(theCase.record.errs), obs.pending.value)
                    else old(theCase.record.errs))
              && (State(), r) == ReportOf(mid, obs.reportSize, obs.fetched, obs.runTime, obs.totalRunTime))
      ensures old(Valid()) ==> Valid()
      ensures old(Valid()) && old(status) != Staging && StatusUpdate(old(State()), obs.size, obs.fetched).status != Dead ==>
        r != Err(ReferenceError)
    {
      var st := UpdateStatus(obs.size, obs.fetched);
      if st == Staging {
        return Err(StatusError);
      }
      if st == Dead {
        var o := OnDead(obs.created);
        if o.Fail? {
          return Err(o.error);
        }
      }
      var err := GetErr(obs.pending);
      if err.Err? {
        return Err(err.error);
      }
      if err.value.Some? {
        theCase.record.LogError(err.value.value);
      }
      r := StatusReport(obs.reportSize, obs.fetched, obs.runTime, obs.totalRunTime);
    }
  }

  /** The case officer of this draft: the lists of script/co.py, different hand-offs. */
  class CaseOfficer {
    var activeAgents: seq<Agent>
    var sleeperAgents: seq<Agent>
    var closedCases: seq<Case>
    var coldCases: seq<Case>
    const maxActiveAgents: int

    /** A new officer has four empty lists and the given cap on active agents. */
    constructor(maxActiveAgents: int)
      ensures activeAgents == [] && sleeperAgents == [] && closedCases == [] && coldCases == []
      ensures this.maxActiveAgents == maxActiveAgents
    {
      activeAgents := [];
      sleeperAgents := [];
      closedCases := [];
      coldCases := [];
      this.maxActiveAgents := maxActiveAgents;
    }

    /** ice_case: the case joins the cold cases. */
    method IceCase(c: Case)
      modifies this
      ensures coldCases == old(coldCases) + [c]
      ensures activeAgents == old(activeAgents) && sleeperAgents == old(sleeperAgents) && closedCases == old(closedCases)
    {
      coldCases := coldCases + [c];
    }

    /** close_case: the case joins the closed cases. */
    method CloseCase(c: Case)
      modifies this
      ensures closedCases == old(closedCases) + [c]
      ensures activeAgents == old(activeAgents) && sleeperAgents == old(sleeperAgents) && coldCases == old(coldCases)
    {
      closedCases := closedCases + [c];
    }

    /**
      kill_agent: terminate the worker (AttributeError when none was started), remove the
      first listing of the agent from the active agents (ValueError when it is not
      listed), and return its case.
    */
    method KillAgent(agent: Agent) returns (r: Result<Case, Error>)
      modifies this
      ensures !agent.started ==> r == Err(AttributeError) && activeAgents == old(activeAgents)
      ensures agent.started && agent !in old(activeAgents) ==> r == Err(ValueError) && activeAgents == old(activeAgents)
      ensures agent.started && agent in old(activeAgents) ==>
        r == Ok(agent.theCase) && activeAgents == RemoveFirst(old(activeAgents), agent)
      ensures sleeperAgents == old(sleeperAgents) && closedCases == old(closedCases) && coldCases == old(coldCases)
    {
      var c := agent.theCase;
      var k := agent.DlKill();
      if k.Fail? {
        return Err(k.error);
      }
      if agent !in activeAgents {
        return Err(ValueError);
      }
      activeAgents := RemoveFirst(activeAgents, agent);
      return Ok(c);
    }

    /**
      deactivate_agent: terminate the worker, take the agent off the active list and put
      it back among the sleepers; the first two steps can raise as in kill_agent.
    */
    method DeactivateAgent(agent: Agent) returns (o: Outcome<Error>)
      modifies this
      ensures !agent.started ==> o == Fail(AttributeError) && sleeperAgents == old(sleeperAgents) && activeAgents == old(activeAgents)
      ensures agent.started && agent !in old(activeAgents) ==>
        o == Fail(ValueError) && sleeperAgents == old(sleeperAgents) && activeAgents == old(activeAgents)
      ensures agent.started && agent in old(activeAgents) ==>
        && o == Pass && activeAgents == RemoveFirst(old(activeAgents), agent)
        && sleeperAgents == old(sleeperAgents) + [agent]
        && multiset(activeAgents + sleeperAgents) == multiset(old(activeAgents) + old(sleeperAgents))
      ensures closedCases == old(closedCases) && coldCases == old(coldCases)
    {
      o := agent.DlKill();
      if o.Fail? {
        return;
      }
      if agent !in activeAgents {
        return Fail(ValueError);
      }
      RemoveFirstMultiset(activeAgents, agent);
      activeAgents := RemoveFirst(activeAgents, agent);
      sleeperAgents := sleeperAgents + [agent];
    }

    /** activate_agent: the agent is listed as active first, then started. */
    method ActivateAgent(agent: Agent, created: bool) returns (o: Outcome<Error>)
      modifies this, agent
      ensures activeAgents == old(activeAgents) + [agent]
      ensures sleeperAgents == old(sleeperAgents) && closedCases == old(closedCases) && coldCases == old(coldCases)
      ensures created ==> o == Pass && agent.status == Active && agent.started
      ensures !created ==> o == Fail(FileWriteError)
    {
      activeAgents := activeAgents + [agent];
      o := agent.DlStart(created);
    }

    /** case_should_be_iced: the record's largest count exceeds MAX_ALLOWABLE_ERR_COUNT. */
    predicate CaseShouldBeIced(agent: Agent)
      reads agent, agent.theCase, agent.theCase.record
      ensures agent.theCase.Valid() ==> (CaseShouldBeIced(agent) <==>
        exists i :: 0 <= i < |agent.theCase.record.errs| && agent.theCase.record.errs[i].count > MAX_ALLOWABLE_ERR_COUNT)
    {
      agent.theCase.ShouldBeIced(MAX_ALLOWABLE_ERR_COUNT)
    }

    /** case_should_be_closed: the report says COMPLETE. */
    function CaseShouldBeClosed(report: Statuses.StatusReport): (b: bool)
      ensures b <==> StatusFromCode(report.status) == Some(Complete)
    {
      Statuses.IsDone(report) == Some(true)
    }

    /**
      handle_report: the ice check first, then the close check, each killing the agent and
      filing its case; `removed` counts the listings taken out of the active agents.
    */
    method HandleReport(agent: Agent, report: Statuses.StatusReport) returns (o: Outcome<Error>, ghost removed: nat)
      modifies this
      ensures activeAgents == RemoveFirstN(old(activeAgents), agent, removed)
      ensures sleeperAgents == old(sleeperAgents)
      ensures old(closedCases) <= closedCases && old(coldCases) <= coldCases
      ensures var iced := CaseShouldBeIced(agent);
        var done := CaseShouldBeClosed(report);
        && (!iced && !done ==> o == Pass && removed == 0 && coldCases == old(coldCases) && closedCases == old(closedCases))
        && (!agent.started && (iced || done) ==> o == Fail(AttributeError) && removed == 0)
        && (!iced ==> coldCases == old(coldCases))
        && (!done ==> closedCases == old(closedCases))
        && (iced && agent.started && agent in old(activeAgents) ==> coldCases == old(coldCases) + [agent.theCase])
        && (iced && !done && agent.started && agent in old(activeAgents) ==> o == Pass && removed == 1)
        && (iced && done && agent.started && multiset(old(activeAgents))[agent] == 1 ==>
              o == Fail(ValueError) && removed == 1 && closedCases == old(closedCases))
        && (!iced && done && agent.started && agent in old(activeAgents) ==>
              o == Pass && removed == 1 && closedCases == old(closedCases) + [agent.theCase])
    {
      removed := 0;
      if CaseShouldBeIced(agent) {
        var r := KillAgent(agent);
        if r.Err? {
          return Fail(r.error), removed;
        }
        IceCase(r.value);
        removed := 1;
        if agent in old(activeAgents) && multiset(old(activeAgents))[agent] == 1 {
          RemoveFirstMultiset(old(activeAgents), agent);
          assert multiset(activeAgents)[agent] == 0;
        }
      }
      if CaseShouldBeClosed(report) {
        var r := KillAgent(agent);
        if r.Err? {
          return Fail(r.error), removed;
        }
        CloseCase(r.value);
        removed := removed + 1;
      }
      o := Pass;
    }

    /**
      fill_agent_roster: pop the last sleeper and activate it until the active list reaches
      the cap. Popping an empty list raises IndexError and a file that does not appear
      raises FileWriteError (the agent stays listed as active). Either way the popped
      sleepers sit, last first, at the end of the active list.
    */
    method FillAgentRoster(creates: nat -> bool) returns (o: Outcome<Error>, m: nat)
      modifies this, set a | a in sleeperAgents
      ensures m <= |old(sleeperAgents)|
      ensures sleeperAgents == old(sleeperAgents)[..|old(sleeperAgents)| - m]
      ensures activeAgents == old(activeAgents) + Reversed(old(sleeperAgents)[|old(sleeperAgents)| - m..])
      ensures o.Pass? ==> |activeAgents| >= maxActiveAgents
      ensures o.Fail? ==> o.error in {IndexError, FileWriteError}
      ensures o == Fail(IndexError) ==> sleeperAgents == []
      ensures o == Fail(FileWriteError) ==> m >= 1 && !creates(m - 1)
      ensures |old(activeAgents)| < maxActiveAgents && o != Fail(IndexError) ==> |activeAgents| <= maxActiveAgents
      ensures closedCases == old(closedCases) && coldCases == old(coldCases)
      ensures (forall k :: creates(k)) && |old(activeAgents)| + |old(sleeperAgents)| >= maxActiveAgents ==> o == Pass
    {
      m := 0;
      var n := |sleeperAgents|;
      while |activeAgents| < maxActiveAgents
        invariant m <= n && |sleeperAgents| == n - m
        invariant sleeperAgents == old(sleeperAgents)[..n - m]
        invariant activeAgents == old(activeAgents) + Reversed(old(sleeperAgents)[n - m..])
        invariant |old(activeAgents)| < maxActiveAgents ==> |activeAgents| <= maxActiveAgents
        invariant closedCases == old(closedCases) && coldCases == old(coldCases)
        decreases maxActiveAgents - |activeAgents|
      {
        if sleeperAgents == [] {
          return Fail(IndexError), m;
        }
        var agent := sleeperAgents[|sleeperAgents| - 1];
        sleeperAgents := sleeperAgents[..|sleeperAgents| - 1];
        ReversedPop(old(sleeperAgents), n - m);
        o := ActivateAgent(agent, creates(m));
        m := m + 1;
        if o.Fail? {
          return o, m;
        }
      }
      return Pass, m;
    }

    /** The body of administrate_cases for one agent: administrate its case, then handle the report. */
    method AdministrateAgent(agent: Agent, ob: Observation) returns (o: Outcome<Error>, ghost removed: nat)
      modifies this, agent, agent.theCase.record
      ensures activeAgents == RemoveFirstN(old(activeAgents), agent, removed)
      ensures sleeperAgents == old(sleeperAgents)
      ensures old(closedCases) <= closedCases && old(coldCases) <= coldCases
    {
      removed := 0;
      var report := agent.AdministrateCase(ob);
      if report.Err? {
        return Fail(report.error), removed;
      }
      o, removed := HandleReport(agent, report.value);
    }

    /**
      administrate_cases: `for agent in active_agents` while handle_report removes entries
      from the list being walked, so the list and the agents visited follow Replay and
      Visits; an error from an agent or a kill ends the loop.
    */
    method AdministrateCases(obs: nat -> Observation) returns (o: Outcome<Error>, ghost drops: seq<nat>, ghost visited: seq<Agent>)
      modifies this, set a | a in activeAgents, set a | a in activeAgents :: a.theCase.record
      ensures sleeperAgents == old(sleeperAgents)
      ensures old(closedCases) <= closedCases && old(coldCases) <= coldCases
      ensures forall a :: a in activeAgents ==> a in old(activeAgents)
      ensures o.Pass? ==> activeAgents == Replay(old(activeAgents), drops)
      ensures o.Pass? ==> visited == Visits(old(activeAgents), drops) && |visited| == |drops|
      ensures o.Pass? ==> |drops| >= |activeAgents|
    {
      drops := [];
      visited := [];
      var i := 0;
      while i < |activeAgents|
        invariant i == |drops| == |visited|
        invariant activeAgents == Replay(old(activeAgents), drops)
        invariant visited == Visits(old(activeAgents), drops)
        invariant forall a :: a in activeAgents ==> a in old(activeAgents)
        invariant sleeperAgents == old(sleeperAgents)
        invariant old(closedCases) <= closedCases && old(coldCases) <= coldCases
        decreases |activeAgents| - i
      {
        var agent := activeAgents[i];
        ghost var removed;
        o, removed := AdministrateAgent(agent, obs(i));
        if o.Fail? {
          return o, drops, visited;
        }
        ReplayStep(old(activeAgents), drops, removed);
        drops := drops + [removed];
        visited := visited + [agent];
        i := i + 1;
      }
      o := Pass;
    }

    /** administrate: fill the roster, then administrate every active agent (the pause between ticks is not modelled). */
    method Administrate(creates: nat -> bool, obs: nat -> Observation) returns (o: Outcome<Error>)
      modifies this
      modifies set a | a in activeAgents + sleeperAgents, set a | a in activeAgents + sleeperAgents :: a.theCase.record
      ensures old(closedCases) <= closedCases && old(coldCases) <= coldCases
      ensures forall a :: a in activeAgents + sleeperAgents ==> a in old(activeAgents) + old(sleeperAgents)
    {
      var m;
      o, m := FillAgentRoster(creates);
      if o.Fail? {
        return;
      }
      ghost var n := |old(sleeperAgents)|;
      assert forall a :: a in Reversed(old(sleeperAgents)[n - m..]) ==> a in old(sleeperAgents);
      ghost var drops, visited;
      o, drops, visited := AdministrateCases(obs);
    }
  }
}
