/**
  script/Agent.py: the early draft of the agent and the case officer. The agent knows its
  URL and file path directly, asks the server for the file's size on every check, and
  counts a dead check whenever the file is LARGER than last_size, which this draft never
  updates from 0. The draft numbers its statuses differently (STAGING 1, ACTIVE 2, DEAD 3,
  COMPLETE 4); only STAGING and ACTIVE are ever assigned, written here as Conf.Status.

  The size on disk (the same for the whole of one dl_check) and the server's size are
  observations; deleting the file on a stop is not modelled.
*/
module EarlyDraft {
  import opened Wrappers
  import opened Conf

  /** Dead checks tolerated before the download is restarted. */
  const DEAD_CHECK_THRESHOLD: int := 5

  /** Restarts allowed before the download is abandoned (no code of this draft reads it). */
  const DL_ATTEMPT_THRESHOLD: int := 5

  /** The agent fields that dl_check reads and writes. */
  datatype CheckState = CheckState(status: Status, deadChecks: int, restarts: int, started: bool)

  /**
    dl_check with the file at `size` bytes, `lastSize` recorded and `serverSize` on the
    server: a complete download answers True and changes nothing; otherwise a file larger
    than lastSize counts a dead check, and more than DEAD_CHECK_THRESHOLD of them restart
    the download (dl_stop fails with AttributeError when no worker was started), clear
    the count and count the restart.
  */
  function Check(s: CheckState, lastSize: int, size: int, serverSize: int): (r: (CheckState, Result<bool, Error>))
    ensures r.1 == Ok(true) <==> DownloadComplete(size, serverSize)
    ensures r.1 == Ok(true) ==> r.0 == s
    ensures r.1.Err? <==>
      !DownloadComplete(size, serverSize) && !s.started
      && (if size > lastSize then s.deadChecks + 1 else s.deadChecks) > DEAD_CHECK_THRESHOLD
    ensures r.1.Err? ==> r.1.error == AttributeError && r.0.restarts == s.restarts
    ensures 0 <= s.deadChecks <= DEAD_CHECK_THRESHOLD && r.1.Ok? ==> 0 <= r.0.deadChecks <= DEAD_CHECK_THRESHOLD
    ensures r.1 == Ok(false) ==>
      r.0.restarts == s.restarts + (if r.0.deadChecks == 0 && s.deadChecks + 1 > DEAD_CHECK_THRESHOLD then 1 else 0)
    ensures r.1 == Ok(false) && size <= lastSize && s.deadChecks <= DEAD_CHECK_THRESHOLD ==> r.0 == s
    ensures r.0.started == s.started
  {
    if DownloadComplete(size, serverSize) then (s, Ok(true))
    else
      var d := if size > lastSize then s.deadChecks + 1 else s.deadChecks;
      if d > DEAD_CHECK_THRESHOLD then
        if !s.started then (s.(deadChecks := d), Err(AttributeError))
        else (s.(status := Active, deadChecks := 0, restarts := s.restarts + 1), Ok(false))
      else (s.(deadChecks := d), Ok(false))
  }

  /** dl_check called once for each observed size in turn (on a started agent nothing raises). */
  function CheckRun(s: CheckState, lastSize: int, sizes: seq<int>, serverSize: int): CheckState
    decreases |sizes|
  {
    if sizes == [] then s else CheckRun(Check(s, lastSize, sizes[0], serverSize).0, lastSize, sizes[1..], serverSize)
  }

  /**
    A started download whose file is on its way (larger than last_size, smaller than the
    server's) is restarted on every sixth check: after n checks the dead-check count is
    (d + n) mod 6 and (d + n) div 6 restarts have been added.
  */
  lemma {:induction false} ProgressRestartsEverySixthCheck(s: CheckState, lastSize: int, sizes: seq<int>, serverSize: int)
    requires s.started && 0 <= s.deadChecks <= DEAD_CHECK_THRESHOLD
    requires forall i :: 0 <= i < |sizes| ==> lastSize < sizes[i] < serverSize
    ensures var r := CheckRun(s, lastSize, sizes, serverSize);
      && r.deadChecks == (s.deadChecks + |sizes|) % (DEAD_CHECK_THRESHOLD + 1)
      && r.restarts == s.restarts + (s.deadChecks + |sizes|) / (DEAD_CHECK_THRESHOLD + 1)
      && r.started
    decreases |sizes|
  {
    if sizes != [] {
      var s1 := Check(s, lastSize, sizes[0], serverSize).0;
      var n := |sizes|;
      ProgressRestartsEverySixthCheck(s1, lastSize, sizes[1..], serverSize);
      if s.deadChecks == DEAD_CHECK_THRESHOLD {
        assert s1.deadChecks == 0 && s1.restarts == s.restarts + 1;
        assert s.deadChecks + n == (n - 1) + 6;
      } else {
        assert s1.deadChecks == s.deadChecks + 1 && s1.restarts == s.restarts;
      }
    }
  }

  /** A download whose file never grows past last_size is never counted dead, hence never restarted. */
  lemma {:induction false} StalledNeverRestarted(s: CheckState, lastSize: int, sizes: seq<int>, serverSize: int)
    requires 0 <= s.deadChecks <= DEAD_CHECK_THRESHOLD
    requires forall i :: 0 <= i < |sizes| ==> sizes[i] <= lastSize && sizes[i] < serverSize
    ensures CheckRun(s, lastSize, sizes, serverSize) == s
    decreases |sizes|
  {
    if sizes != [] {
      StalledNeverRestarted(s, lastSize, sizes[1..], serverSize);
    }
  }

  /** The agent of the early draft. */
  class Agent {
    const url: string
    const fp: string
    var status: Status
    var started: bool
    var lastSize: int
    var deadChecks: int
    var restarts: int

    /** The dead-check count stays within the threshold between checks. */
    ghost predicate Valid()
      reads this
    {
      0 <= deadChecks <= DEAD_CHECK_THRESHOLD
    }

    function State(): CheckState
      reads this
    {
      CheckState(status, deadChecks, restarts, started)
    }

    /** A new agent is STAGING, has no worker, and all its counters are zero. */
    constructor(url: string, fp: string)
      ensures this.url == url && this.fp == fp
      ensures status == Staging && !started && lastSize == 0 && deadChecks == 0 && restarts == 0
      ensures Valid()
    {
      this.url := url;
      this.fp := fp;
      status := Staging;
      started := false;
      lastSize := 0;
      deadChecks := 0;
      restarts := 0;
    }

    /** dl_start: spawn the worker and become ACTIVE. */
    method DlStart()
      modifies this
      ensures status == Active && started
      ensures lastSize == old(lastSize) && deadChecks == old(deadChecks) && restarts == old(restarts)
    {
      status := Active;
      started := true;
    }

    /** dl_stop: terminating the worker fails with AttributeError when none was started. */
    function DlStop(): (o: Outcome<Error>)
      reads this
      ensures o.Fail? <==> !started
      ensures o.Fail? ==> o.error == AttributeError
    {
      if started then Pass else Fail(AttributeError)
    }

    /** dl_restart: stop, then start again. */
    method DlRestart() returns (o: Outcome<Error>)
      modifies this
      ensures o.Pass? <==> old(started)
      ensures o.Fail? ==> o.error == AttributeError && status == old(status) && started == old(started)
      ensures o.Pass? ==> status == Active && started
      ensures lastSize == old(lastSize) && deadChecks == old(deadChecks) && restarts == old(restarts)
    {
      o := DlStop();
      if o.Fail? {
        return;
      }
      DlStart();
    }

    /** dl_complete: the file on disk is at least as large as the file on the server. */
    function DlComplete(size: int, serverSize: int): (b: bool)
      ensures b <==> size >= serverSize
    {
      DownloadComplete(size, serverSize)
    }

    /** dl_looks_dead as written: the file is larger than last_size. */
    predicate DlLooksDead(size: int)
      reads this
    {
      size > lastSize
    }

    /** dl_check: the new fields and the answer follow Check; last_size is never written. */
    method DlCheck(size: int, serverSize: int) returns (r: Result<bool, Error>)
      modifies this
      ensures (State(), r) == Check(old(State()), old(lastSize), size, serverSize)
      ensures lastSize == old(lastSize)
      ensures old(Valid()) && r.Ok? ==> Valid()
    {
      if DlComplete(size, serverSize) {
        return Ok(true);
      }
      if DlLooksDead(size) {
        deadChecks := deadChecks + 1;
      }
      if deadChecks > DEAD_CHECK_THRESHOLD {
        var o := DlRestart();
        if o.Fail? {
          return Err(o.error);
        }
        deadChecks := 0;
        restarts := restarts + 1;
      }
      return Ok(false);
    }
  }

  /** The case officer of the early draft: agents are created from argument dictionaries. */
  class CaseOfficer {
    var activeAgents: seq<Agent>
    var sleeperAgents: seq<Agent>

    constructor()
      ensures activeAgents == [] && sleeperAgents == []
    {
      activeAgents := [];
      sleeperAgents := [];
    }

    /** agent_assigned is a stub: no pair is ever reported as assigned. */
    function AgentAssigned(url: string, fp: string): (b: bool)
      ensures !b
    {
      false
    }

    /**
      assign_agent: read 'url' and 'fp' from the argument dictionary (KeyError when one
      is missing) and create an agent for them; DuplicateAgentError is never raised.
    */
    method AssignAgent(arg: map<string, string>) returns (r: Result<Agent, Error>)
      ensures r.Err? <==> "url" !in arg || "fp" !in arg
      ensures r.Err? ==> r.error == KeyError
      ensures r.Ok? ==> fresh(r.value) && r.value.url == arg["url"] && r.value.fp == arg["fp"]
      ensures r.Ok? ==> r.value.status == Staging && !r.value.started
    {
      if "url" !in arg || "fp" !in arg {
        return Err(KeyError);
      }
      var url := arg["url"];
      var fp := arg["fp"];
      if AgentAssigned(url, fp) {
        return Err(DuplicateAgentError);
      }
      var a := new Agent(url, fp);
      return Ok(a);
    }

    /**
      assign_agents: an agent is created for every dictionary in turn and then dropped, so
      the officer's lists never change; the first dictionary missing a key raises KeyError.
    */
    method AssignAgents(args: seq<map<string, string>>) returns (o: Outcome<Error>)
      ensures o.Pass? <==> forall i :: 0 <= i < |args| ==> "url" in args[i] && "fp" in args[i]
      ensures o.Fail? ==> o.error == KeyError
    {
      for i := 0 to |args|
        invariant forall j :: 0 <= j < i ==> "url" in args[j] && "fp" in args[j]
      {
        var r := AssignAgent(args[i]);
        if r.Err? {
          return Fail(r.error);
        }
      }
      return Pass;
    }
  }
}
