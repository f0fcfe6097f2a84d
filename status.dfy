/**
  script/status.py (and its copy in script/obj.py): the report an agent hands to its case
  officer, with the predicates the officer may ask of it. Durations and the ETA are
  seconds as reals; the report's creation timestamp is not modelled.
*/
module Statuses {
  import opened Wrappers
  import opened Conf

  /**
    A StatusReport as built by its constructor, which stores each argument unchanged. The
    status field holds whatever integer the agent passes: a status code in script/obj.py,
    a report code (REPORT_WAIT, REPORT_DONE, REPORT_KILL) in script/agent.py.
  */
  datatype StatusReport = StatusReport(
    status: int, speed: real, currentRunTime: real, totalRunTime: real, eta: real)

  /**
    What the attribute lookup `self.err` can yield. No StatusReport ever stores an
    attribute named err, so the lookup finds the method err itself.
  */
  datatype AttrValue = BoundMethod | NoneValue | FalseValue

  /** Python truthiness of those values: a bound method is true, None and False are not. */
  predicate Truthy(v: AttrValue)
  {
    v == BoundMethod
  }

  /** The value of `self.err` on any report. */
  function ErrAttribute(r: StatusReport): AttrValue
  {
    BoundMethod
  }

  /** is_healthy: the status is STAGING, ACTIVE or COMPLETE. */
  function IsHealthy(r: StatusReport): (b: bool)
    ensures b <==> StatusFromCode(r.status) in {Some(Staging), Some(Active), Some(Complete)}
  {
    r.status in {StatusCode(Staging), StatusCode(Active), StatusCode(Complete)}
  }

  /** is_done: True when the status is COMPLETE; otherwise the method falls off its end and returns None. */
  function IsDone(r: StatusReport): (d: Option<bool>)
    ensures d == Some(true) <==> StatusFromCode(r.status) == Some(Complete)
    ensures d != Some(false)
  {
    if r.status == StatusCode(Complete) then Some(true) else None
  }

  /** err(): `self.err` when it is not None, else False; it is never None, so err() never returns False. */
  function Err(r: StatusReport): (v: AttrValue)
    ensures v != FalseValue && Truthy(v)
  {
    if ErrAttribute(r) != NoneValue then ErrAttribute(r) else FalseValue
  }

  /** is_dead: status DEAD, or `self.err` truthy; the second always holds, so every report is "dead". */
  function IsDead(r: StatusReport): (b: bool)
    ensures b
  {
    r.status == StatusCode(Dead) || Truthy(ErrAttribute(r))
  }

  /** Every unhealthy status: CREATING_FILE, COMATOSE, DEAD, and any integer that is no status. */
  lemma UnhealthyStatuses(r: StatusReport)
    ensures !IsHealthy(r) <==> StatusFromCode(r.status) in {None, Some(CreatingFile), Some(Comatose), Some(Dead)}
  {
  }
}
