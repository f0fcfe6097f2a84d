/**
  The shared declarations of script/conf.py and script/exceptions.py: the agent lifecycle
  states with their integer codes, the report codes the agent hands to its case officer,
  the configuration constants, and the exception kinds the modelled scripts raise.
*/
module Conf {
  import opened Wrappers

  /** The lifecycle states of a download agent. */
  datatype Status = Staging | CreatingFile | Active | Comatose | Dead | Complete

  /** The integer a status is stored as (STATUS_STAGING = 0 ... STATUS_COMPLETE = 5). */
  function StatusCode(s: Status): int
  {
    match s
    case Staging => 0
    case CreatingFile => 1
    case Active => 2
    case Comatose => 3
    case Dead => 4
    case Complete => 5
  }

  /** Decodes a stored integer; codes outside 0..5 name no status. */
  function StatusFromCode(code: int): (r: Option<Status>)
    ensures r.Some? <==> 0 <= code <= 5
    ensures r.Some? ==> StatusCode(r.value) == code
  {
    if code == 0 then Some(Staging)
    else if code == 1 then Some(CreatingFile)
    else if code == 2 then Some(Active)
    else if code == 3 then Some(Comatose)
    else if code == 4 then Some(Dead)
    else if code == 5 then Some(Complete)
    else None
  }

  /** What the case officer is told to do with an agent. */
  datatype ReportCode = ReportWait | ReportDone | ReportKill

  /** REPORT_WAIT = 0, REPORT_DONE = 1, REPORT_KILL = 3. */
  function ReportValue(r: ReportCode): int
  {
    match r
    case ReportWait => 0
    case ReportDone => 1
    case ReportKill => 3
  }

  /** Seconds an agent waits for its file to appear before raising FileWriteError. */
  const FILE_CREATION_TIMEOUT: int := 30

  /** Errors of one kind a case may collect before it is iced. */
  const MAX_ALLOWABLE_ERR_COUNT: int := 5

  /**
    The exceptions the modelled scripts raise. AttributeError, ValueError, IndexError,
    ReferenceError, ZeroDivisionError and KeyError are Python's own, raised by the code as
    written (a method called on None or a missing attribute, list.remove of an absent
    element, pop from an empty list, reading the mailbox before any process was started,
    a division by a zero speed or run time, a missing dictionary key).
  */
  datatype Error =
    | StatusError
    | FileWriteError
    | DuplicateAgentError
    | AttributeError
    | ValueError
    | IndexError
    | ReferenceError
    | ZeroDivisionError
    | KeyError

  /**
    The key under which a case record counts an error. In the source the key is the
    exception object (or its argument tuple) itself; two errors share a key exactly when
    Python's dictionary treats them as the same key, which the caller decides here.
  */
  datatype ErrKey = ErrKey(id: nat)

  /** A download is complete once the file on disk is at least as large as the one on the server. */
  predicate DownloadComplete(sizeOnDisk: int, sizeOnServer: int)
  {
    sizeOnDisk >= sizeOnServer
  }
}
