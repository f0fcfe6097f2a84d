/**
  script/agent.py: the Agent that owns one download. Each poll (get_status) reads the size
  of the file on disk and, when the file has shrunk, the size on the server; process()
  stores the polled status, reacts to it, logs an error waiting in the worker's mailbox
  and returns a StatusReport.

  The download worker, the file system and the network are observations passed in: the
  size on disk at each poll, the Content-Length a server request would return, whether
  the file appears after a (re)start, the error waiting in the mailbox, and the elapsed
  run times. Whether a worker process exists is the flag `started` (self.p is not None).
*/
module Agents {
  import opened Wrappers
  import opened Conf
  import opened Cases
  import Statuses

  /** Times a download may look dead before it counts as dead. */
  const DEAD_CHECK_THRESHOLD: int := 5

  /** Restarts allowed before a download is abandoned (nothing in the modelled scripts reads it). */
  const DL_ATTEMPT_THRESHOLD: int := 5

  /** The agent fields that a poll reads and writes. */
  datatype PollState = PollState(status: Status, lastSize: int, deadChecks: int, sizeOnServer: Option<int>)

  /** dl_looks_dead: the file has the size recorded at its last growth. */
  predicate LooksDead(s: PollState, size: int)
  {
    size == s.lastSize
  }

  /** dl_is_dead: the download looks dead and has been counted dead more than DEAD_CHECK_THRESHOLD times. */
  predicate IsDead(s: PollState, size: int)
  {
    LooksDead(s, size) && s.deadChecks > DEAD_CHECK_THRESHOLD
  }

  /** get_size_on_server: the cached Content-Length, or the fetched one when none is cached yet. */
  function ServerSize(s: PollState, fetched: int): int
  {
    if s.sizeOnServer.Some? then s.sizeOnServer.value else fetched
  }

  /**
    get_status with the file at `size` bytes and `fetched` the Content-Length a server
    request returns: the new field values and the status returned (or StatusError raised).
    A STAGING agent is left alone; growth means ACTIVE (before any completeness check); an
    unchanged size means COMATOSE and one more dead check; the DEAD branch can never be
    taken, since it needs the unchanged size that already returned COMATOSE; only a
    shrunken file reaches the completeness check, which gives COMPLETE or StatusError.
  */
  function Poll(s: PollState, size: int, fetched: int): (r: (PollState, Result<Status, Error>))
    ensures r.1 != Ok(Dead)
    ensures s.status == Staging ==> r == (s, Ok(Staging))
    ensures s.status != Staging ==> (r.1 == Ok(Active) <==> size > s.lastSize)
    ensures s.status != Staging ==> (r.1 == Ok(Comatose) <==> size == s.lastSize)
    ensures s.status != Staging ==>
      (r.1 == Ok(Complete) <==> size < s.lastSize && DownloadComplete(size, ServerSize(s, fetched)))
    ensures r.1.Err? <==> s.status != Staging && size < s.lastSize && !DownloadComplete(size, ServerSize(s, fetched))
    ensures r.1.Err? ==> r.1.error == StatusError
    ensures r.1 == Ok(Active) ==> r.0 == s.(status := Active, lastSize := size)
    ensures r.1 == Ok(Comatose) ==> r.0 == s.(deadChecks := s.deadChecks + 1)
    ensures s.status != Staging && size < s.lastSize ==> r.0 == s.(sizeOnServer := Some(ServerSize(s, fetched)))
  {
    if s.status == Staging then (s, Ok(Staging))
    else if size > s.lastSize then (s.(lastSize := size, status := Active), Ok(Active))
    else if LooksDead(s, size) then (s.(deadChecks := s.deadChecks + 1), Ok(Comatose))
    else if IsDead(s, size) then (s, Ok(Dead))
    else
      var sos := ServerSize(s, fetched);
      var s' := s.(sizeOnServer := Some(sos));
      if DownloadComplete(size, sos) then (s', Ok(Complete)) else (s', Err(StatusError))
  }

  /** get_status called once for each observed size in turn: the final fields and every result. */
  function PollRun(s: PollState, sizes: seq<int>, fetched: int): (r: (PollState, seq<Result<Status, Error>>))
    ensures |r.1| == |sizes|
    decreases |sizes|
  {
    if sizes == [] then (s, [])
    else
      var first := Poll(s, sizes[0], fetched);
      var rest := PollRun(first.0, sizes[1..], fetched);
      (rest.0, [first.1] + rest.1)
  }

  /** However the file size moves, no poll of this draft ever reports DEAD. */
  lemma {:induction false} RunNeverDead(s: PollState, sizes: seq<int>, fetched: int)
    ensures forall i :: 0 <= i < |sizes| ==> PollRun(s, sizes, fetched).1[i] != Ok(Dead)
    decreases |sizes|
  {
    if sizes != [] {
      RunNeverDead(Poll(s, sizes[0], fetched).0, sizes[1..], fetched);
    }
  }

  /**
    A started download whose file stops growing is polled COMATOSE forever: every poll
    adds a dead check, and nothing else changes, however far past DEAD_CHECK_THRESHOLD
    the count goes.
  */
  lemma {:induction false} StalledRun(s: PollState, sizes: seq<int>, fetched: int)
    requires s.status != Staging
    requires forall i :: 0 <= i < |sizes| ==> sizes[i] == s.lastSize
    ensures PollRun(s, sizes, fetched).0 == s.(deadChecks := s.deadChecks + |sizes|)
    ensures forall i :: 0 <= i < |sizes| ==> PollRun(s, sizes, fetched).1[i] == Ok(Comatose)
    decreases |sizes|
  {
    if sizes != [] {
      StalledRun(s.(deadChecks := s.deadChecks + 1), sizes[1..], fetched);
    }
  }

  /**
    make_report_status: STAGING, CREATING_FILE, ACTIVE and COMATOSE ask the officer to
    wait, COMPLETE reports done, DEAD asks for a kill, and any other integer is a StatusError.
  */
  function MakeReportStatus(status: int): (r: Result<ReportCode, Error>)
    ensures r == Ok(ReportWait) <==>
      StatusFromCode(status) in {Some(Staging), Some(CreatingFile), Some(Active), Some(Comatose)}
    ensures r == Ok(ReportDone) <==> StatusFromCode(status) == Some(Complete)
    ensures r == Ok(ReportKill) <==> StatusFromCode(status) == Some(Dead)
    ensures r.Err? <==> StatusFromCode(status).None?
    ensures r.Err? ==> r.error == StatusError
  {
    if status in {StatusCode(Staging), StatusCode(CreatingFile), StatusCode(Active), StatusCode(Comatose)} then
      Ok(ReportWait)
    else if status == StatusCode(Complete) then Ok(ReportDone)
    else if status == StatusCode(Dead) then Ok(ReportKill)
    else Err(StatusError)
  }

  /**
    status_report from the given fields: the size on disk, the cached or fetched size on
    the server, the speed (size over the current run time) and the seconds left (remaining
    bytes over the speed), then a second poll whose status is turned into a report code.
    A zero run time or a zero size on disk makes one of the divisions raise.
  */
  function StatusReportOf(s: PollState, size: int, fetched: int, runTime: real, totalRunTime: real)
    : (r: (PollState, Result<Statuses.StatusReport, Error>))
    ensures r.1 == Err(ZeroDivisionError) <==> runTime == 0.0 || size == 0
    ensures r.1.Ok? ==> r.1.value.status in {ReportValue(ReportWait), ReportValue(ReportDone)}
    ensures r.1.Ok? ==> r.1.value.speed == size as real / runTime
    ensures var s1 := s.(sizeOnServer := Some(ServerSize(s, fetched)));
      runTime == 0.0 || size == 0 ==> r.0 == s1
    ensures var second := Poll(s.(sizeOnServer := Some(ServerSize(s, fetched))), size, fetched);
      runTime != 0.0 && size != 0 ==>
        && r.0 == second.0
        && (r.1.Err? <==> second.1.Err?)
        && (second.1.Err? ==> r.1 == Err(StatusError))
        && (r.1.Ok? ==> (r.1.value.status == ReportValue(ReportDone) <==> second.1 == Ok(Complete)))
  {
    var sos := ServerSize(s, fetched);
    var s1 := s.(sizeOnServer := Some(sos));
    if runTime == 0.0 then (s1, Err(ZeroDivisionError))
    else
      var speed := size as real / runTime;
      if speed == 0.0 then (s1, Err(ZeroDivisionError))
      else
        var eta := (sos - size) as real / speed;
        var second := Poll(s1, size, fetched);
        match second.1
        case Err(e) => (second.0, Err(e))
        case Ok(status) =>
          match MakeReportStatus(StatusCode(status))
          case Err(e) => (second.0, Err(e))
          case Ok(code) => (second.0, Ok(Statuses.StatusReport(ReportValue(code), speed, runTime, totalRunTime, eta)))
  }

  /**
    One process() on a stalled download polls twice: get_status and then the report's own
    get_status each find the size unchanged, so the dead-check count rises by two and the
    report asks the officer to wait.
  */
  lemma StalledProcessCountsTwice(s: PollState, size: int, fetched: int, runTime: real, totalRunTime: real)
    requires s.status != Staging && size == s.lastSize && size != 0 && runTime != 0.0
    ensures var first := Poll(s, size, fetched);
      var report := StatusReportOf(first.0, size, fetched, runTime, totalRunTime);
      && first.1 == Ok(Comatose)
      && report.0.deadChecks == s.deadChecks + 2
      && report.1.Ok? && report.1.value.status == ReportValue(ReportWait)
  {
    var first := Poll(s, size, fetched);
    var s1 := first.0.(sizeOnServer := Some(ServerSize(first.0, fetched)));
    assert Poll(s1, size, fetched).1 == Ok(Comatose);
  }

  /** What one call of process() observes. */
  datatype Observation = Observation(
    size: int,                  // size on disk seen by get_status
    reportSize: int,            // size on disk seen while the report is built
    fetched: int,               // Content-Length the server reports
    pending: Option<ErrKey>,    // error waiting in the mailbox, if any
    runTime: real,              // seconds since the current download attempt started
    totalRunTime: real)         // seconds since the agent was created

  /** One download's agent: its case, its lifecycle status and the counters of its polls. */
  class Agent {
    const theCase: Case
    var status: Status
    var started: bool
    var lastSize: int
    var deadChecks: int
    var restarts: int
    var sizeOnServer: Option<int>

    /** Only dl_start moves an agent out of STAGING, and it starts a worker as it does. */
    ghost predicate Valid()
      reads this
    {
      status != Staging ==> started
    }

    function State(): PollState
      reads this
    {
      PollState(status, lastSize, deadChecks, sizeOnServer)
    }

    /** A new agent is STAGING, has no worker, and all its counters are zero. */
    constructor(c: Case)
      ensures theCase == c && status == Staging && !started
      ensures lastSize == 0 && deadChecks == 0 && restarts == 0 && sizeOnServer == None
      ensures Valid()
    {
      theCase := c;
      status := Staging;
      started := false;
      lastSize := 0;
      deadChecks := 0;
      restarts := 0;
      sizeOnServer := None;
    }

    /** get_size_on_server: fetches the Content-Length once, then answers from the cache. */
    method GetSizeOnServer(fetched: int) returns (size: int)
      modifies this
      ensures size == ServerSize(old(State()), fetched) && sizeOnServer == Some(size)
      ensures status == old(status) && lastSize == old(lastSize) && deadChecks == old(deadChecks)
      ensures restarts == old(restarts) && started == old(started)
    {
      if sizeOnServer.None? {
        sizeOnServer := Some(fetched);
      }
      size := sizeOnServer.value;
    }

    /** dl_is_alive: the file grew; the new size is recorded and the agent becomes ACTIVE. */
    method DlIsAlive(size: int) returns (alive: bool)
      modifies this
      ensures alive <==> size > old(lastSize)
      ensures alive ==> lastSize == size && status == Active
      ensures !alive ==> lastSize == old(lastSize) && status == old(status)
      ensures deadChecks == old(deadChecks) && restarts == old(restarts)
      ensures sizeOnServer == old(sizeOnServer) && started == old(started)
    {
      alive := false;
      if size > lastSize {
        lastSize := size;
        status := Active;
        alive := true;
      }
    }

    predicate DlLooksDead(size: int)
      reads this
    {
      LooksDead(State(), size)
    }

    predicate DlIsDead(size: int)
      reads this
    {
      IsDead(State(), size)
    }

    /** dl_complete: the file on disk is at least as large as the file on the server. */
    method DlComplete(size: int, fetched: int) returns (done: bool)
      modifies this
      ensures done <==> DownloadComplete(size, ServerSize(old(State()), fetched))
      ensures State() == old(State()).(sizeOnServer := Some(ServerSize(old(State()), fetched)))
      ensures restarts == old(restarts) && started == old(started)
    {
      var sos := GetSizeOnServer(fetched);
      done := size >= sos;
    }

    /** get_status, which (despite its comment) updates last_size, dead_checks and the status on growth. */
    method GetStatus(size: int, fetched: int) returns (r: Result<Status, Error>)
      modifies this
      ensures (State(), r) == Poll(old(State()), size, fetched)
      ensures restarts == old(restarts) && started == old(started)
    {
      if status == Staging {
        return Ok(Staging);
      }
      var alive := DlIsAlive(size);
      if alive {
        return Ok(Active);
      }
      if DlLooksDead(size) {
        deadChecks := deadChecks + 1;
        return Ok(Comatose);
      }
      if DlIsDead(size) {
        return Ok(Dead);
      }
      var done := DlComplete(size, fetched);
      if done {
        return Ok(Complete);
      }
      return Err(StatusError);
    }

    /**
      dl_start: a worker is spawned and the agent waits for the file. If the file does not
      appear in time FileWriteError is raised before the status or the process handle is set.
    */
    method DlStart(created: bool) returns (o: Outcome<Error>)
      modifies this
      ensures created ==> o == Pass && status == Active && started
      ensures !created ==> o == Fail(FileWriteError) && status == old(status) && started == old(started)
      ensures lastSize == old(lastSize) && deadChecks == old(deadChecks)
      ensures restarts == old(restarts) && sizeOnServer == old(sizeOnServer)
    {
      if !created {
        return Fail(FileWriteError);
      }
      status := Active;
      started := true;
      return Pass;
    }

    /** dl_kill: terminating the worker fails with AttributeError when no worker was ever started. */
    function DlKill(): (o: Outcome<Error>)
      reads this
      ensures o.Fail? <==> !started
      ensures o.Fail? ==> o.error == AttributeError
    {
      if started then Pass else Fail(AttributeError)
    }

    /** dl_restart: kill the worker, delete the file, start again. */
    method DlRestart(created: bool) returns (o: Outcome<Error>)
      modifies this
      ensures !old(started) ==> o == Fail(AttributeError) && State() == old(State()) && !started
      ensures old(started) ==> (o.Pass? <==> created) && started
      ensures old(started) && created ==> status == Active
      ensures old(started) && !created ==> o == Fail(FileWriteError) && status == old(status)
      ensures lastSize == old(lastSize) && deadChecks == old(deadChecks)
      ensures restarts == old(restarts) && sizeOnServer == old(sizeOnServer)
    {
      o := DlKill();
      if o.Fail? {
        return;
      }
      o := DlStart(created);
    }

    /** on_dead: restart the download, then clear the dead checks and count the restart. */
    method OnDead(created: bool) returns (o: Outcome<Error>)
      modifies this
      ensures o.Pass? <==> old(started) && created
      ensures o.Pass? ==> deadChecks == 0 && restarts == old(restarts) + 1 && status == Active
      ensures o.Fail? ==> deadChecks == old(deadChecks) && restarts == old(restarts)
      ensures lastSize == old(lastSize) && sizeOnServer == old(sizeOnServer)
    {
      o := DlRestart(created);
      if o.Fail? {
        return;
      }
      deadChecks := 0;
      restarts := restarts + 1;
    }

    /** on_complete: mark the case's record complete. */
    method OnComplete()
      modifies theCase.record
      ensures theCase.record.complete && theCase.record.errs == old(theCase.record.errs)
    {
      theCase.record.complete := true;
    }

    /** get_err: the error waiting in the mailbox, if any; ReferenceError when no worker was started. */
    function GetErr(pending: Option<ErrKey>): (r: Result<Option<ErrKey>, Error>)
      reads this
      ensures r == Err(ReferenceError) <==> !started
      ensures r.Ok? ==> r.value == pending
    {
      if !started then Err(ReferenceError) else Ok(pending)
    }

    /** status_report, run on the agent's fields. */
    method MakeStatusReport(size: int, fetched: int, runTime: real, totalRunTime: real)
      returns (r: Result<Statuses.StatusReport, Error>)
      modifies this
      ensures (State(), r) == StatusReportOf(old(State()), size, fetched, runTime, totalRunTime)
      ensures restarts == old(restarts) && started == old(started)
    {
      var sos := GetSizeOnServer(fetched);
      if runTime == 0.0 {
        return Err(ZeroDivisionError);
      }
      var speed := size as real / runTime;
      if speed == 0.0 {
        return Err(ZeroDivisionError);
      }
      var eta := (sos - size) as real / speed;
      var st := GetStatus(size, fetched);
      if st.Err? {
        return Err(st.error);
      }
      var code := MakeReportStatus(StatusCode(st.value));
      if code.Err? {
        return Err(code.error);
      }
      return Ok(Statuses.StatusReport(ReportValue(code.value), speed, runTime, totalRunTime, eta));
    }

    /**
      process: poll and store the status; STAGING raises StatusError; COMPLETE marks the
      record complete; a waiting error is logged once; the report is then built. DEAD never
      comes back from the poll, so on_dead is not reached and the restart count never moves.
    */
    method Process(obs: Observation) returns (r: Result<Statuses.StatusReport, Error>)
      modifies this, theCase.record
      ensures restarts == old(restarts) && started == old(started)
      ensures var first := Poll(old(State()), obs.size, obs.fetched);
        && (first.1.Err? || first.1 == Ok(Staging) ==> r == Err(StatusError) && State() == first.0)
        && theCase.record.complete == (old(theCase.record.complete) || first.1 == Ok(Complete))
        && theCase.record.errs ==
          (if first.1.Ok? && first.1 != Ok(Staging) && started && obs.pending.Some?
           then Logged(old(theCase.record.errs), obs.pending.value)
           else old(theCase.record.errs))
        && (first.1.Ok? && first.1 != Ok(Staging) && !started ==> r == Err(ReferenceError))
        && (first.1.Ok? && first.1 != Ok(Staging) && started ==>
              (State(), r) == StatusReportOf(first.0.(status := first.1.value),
                                             obs.reportSize, obs.fetched, obs.runTime, obs.totalRunTime))
      ensures old(Valid()) ==> Valid() && r != Err(ReferenceError)
      ensures old(theCase.record.Valid()) ==> theCase.record.Valid()
      ensures r.Ok? ==> r.value.status != ReportValue(ReportKill)
    {
      var st := GetStatus(obs.size, obs.fetched);
      if st.Err? {
        return Err(st.error);
      }
      status := st.value;
      if st.value == Staging {
        return Err(StatusError);
      }
      assert st.value != Dead;
      if st.value == Complete {
        OnComplete();
      }
      var err := GetErr(obs.pending);
      if err.Err? {
        return Err(err.error);
      }
      if err.value.Some? {
        theCase.record.LogError(err.value.value);
      }
      r := MakeStatusReport(obs.reportSize, obs.fetched, obs.runTime, obs.totalRunTime);
    }
  }
}
