# MassDownloader in Dafny

A model of the download supervisor in `script/`. It covers three parts.

- **Per-download agent.** It polls the size of a file on disk, classifies the download as STAGING, ACTIVE, COMATOSE, DEAD or COMPLETE, restarts it, and reports to its officer.
- **Case officer.** It keeps four lists: sleeping agents, active agents, closed cases and iced (cold) cases. It fills the active list up to a cap, polls every active agent, and then ices or closes cases.
- **Legacy scripts.** These are the polling loop of `MassDownloader.py` and the list and string helpers of `downloadWrapper.py`.

The repository holds several drafts of the agent and the officer that behave differently. Each draft is modelled as written, in its own module:

| module | file | source |
|---|---|---|
| `Wrappers` | wrappers.dfy | Option, Result and Outcome for the error paths |
| `Conf` | conf.dfy | `script/conf.py`, `script/exceptions.py`: status and report codes, constants, error kinds |
| `Paths` | paths.dfy | posix `basename` and `join` |
| `Lists` | lists.dfy | `list.remove`, `pop()` order, `for x in L` while L shrinks, filtering loops |
| `Cases` | case.dfy | `script/case.py`: the error ledger, the case, the factory |
| `Statuses` | status.dfy | `script/status.py`: the report and its predicates |
| `Agents` | agent.dfy | `script/agent.py`: the agent's `get_status` state machine and `process` |
| `Officers` | co.dfy | `script/co.py`: the case officer |
| `ObjDraft` | obj.dfy | `script/obj.py`: the consolidated draft (`update_status`, `handle_report`, its `max_err_type`) |
| `EarlyDraft` | early_agent.dfy | `script/Agent.py`: the early agent (`dl_check`) and officer (`assign_agent`) |
| `MassDownloader` | mass_downloader.dfy | `script/MassDownloader.py`: `dlFileWithProcChecks`, `getNameFromURL` |
| `DownloadWrapper` | download_wrapper.dfy | `script/downloadWrapper.py`: URL filtering, padding, grouping, the downloaded/undownloaded split |

Objects whose fields the source updates in place are classes: `CaseRecord`, `Case`, each `Agent` and each `CaseOfficer`. Their list and dictionary fields are `seq` fields that the methods reassign. An officer's lists hold real `Agent` references, so `list.remove` and `in` compare by identity, as in Python. The error dictionary `errs` is an insertion-ordered sequence of (key, count) entries. This is the order in which Python iterates a dict, so the tie-breaking of `max_err_type` can be stated. Error keys are an opaque `ErrKey`.

The world outside the program is passed in as parameters:

- the size of a file on disk at each poll;
- the Content-Length a server request returns;
- whether a started worker's file appears in time;
- the error waiting in a worker's mailbox;
- elapsed run times, as seconds (`real`);
- whether a path exists, as an oracle `isFile`.

Each raised exception is an `Err`/`Fail` value of kind `Conf.Error`.

Where the code's behaviour departs from what its own comments and docstrings say, the model follows the code:

- Each agent carries `DL_ATTEMPT_THRESHOLD = 5`, "the number of times the download can be restarted before the entire download is abandoned" (`script/agent.py:33`, `script/obj.py:152`). No code reads it. In `agent.py`, DEAD can never be reached (`Agents.RunNeverDead`). In `obj.py`, downloads restart without bound.
- The docstring of `agent_assigned` (`script/co.py:94`) says it returns true when an agent already holds the (url, fp) pair. In `co.py` and `obj.py`, the body reads `agent.url`, which an `Agent` does not have. It therefore raises AttributeError as soon as any agent is registered, and its DuplicateAgentError is never raised (`Officers.CaseOfficer.AgentAssigned`). In `Agent.py` it is a stub that returns False.
- `MAX_ALLOWABLE_ERR_COUNT` counts "errors (of the same type)" (`script/conf.py:14`). The code agrees: it ices on the largest count of a single key, not on the total (`Cases.IcedOnMaximumNotTotal`).
- A TODO in `administrate_case` (`script/co.py:53`) asks whether a case can need icing and closing at once. It can. The ice check runs first. For an agent listed once, the second `kill_agent` then fails with ValueError. For an agent listed twice, which `deactivate_agent` makes possible, both kills succeed and the case is filed as both cold and closed (`Officers.CaseOfficer.AdministrateCase`).
- `DEAD_CHECK_THRESHOLD` is "the number of times the download can look dead before the process is restarted" (`script/obj.py:151`). `obj.py`'s `update_status` records growth before it asks `dl_looks_dead`, which tests `size == last_size`. So every poll in which the file does not shrink counts as looking dead, growth included, and a download that keeps making progress is declared DEAD (`ObjDraft.ProgressCountsAsDead`). In `Agent.py`, `dl_looks_dead` tests `size > last_size` and `last_size` is never written, so only a growing download is counted (`EarlyDraft.ProgressRestartsEverySixthCheck`).

## Model

| member | source | states |
|---|---|---|
| Conf.StatusFromCode | script/conf.py:2-7 | exactly the codes 0..5 name a status, and decoding inverts the status numbering |
| Lists.RemoveFirst | script/co.py:123 | `list.remove(x)` shortens a list holding x by one, leaves a list without x unchanged, and adds no element |
| Lists.RemoveFirstMultiset | script/co.py:123 | `list.remove(x)` takes away exactly one occurrence of x |
| Lists.Reversed | script/co.py:62-63 | repeated `pop()` hands out the elements last first: position i of the result is position n-1-i of the input |
| Lists.ReplayStep | script/co.py:47-49 | one more step of `for agent in active_agents` hands over the element at the current position and removes the listings the body drops |
| Lists.RemovalSkipsSuccessor | script/co.py:45-49 | when the body removes the element it was handed first, the next element of a repeat-free list is never visited: in a tick of `administrate_cases` whose first agent's case is filed, the second agent is not processed |
| Cases.LoggedLookup | script/case.py:12-17 | `log_error(e)` stores old count + 1 under e (1 when new), keeps every other key's count, and appends e to the keys exactly when it is new |
| Cases.LoggedWellFormed | script/case.py:12-17 | logging keeps the ledger free of repeated keys and its counts positive |
| Cases.TotalLogged | script/case.py:12-24 | every `log_error` adds exactly one to `total_err_count` |
| Cases.TotalBounds | script/case.py:19-36 | the total is at least the number of keys, at least every count, and at least `max_err_count` |
| Cases.MaxScanFirst | script/case.py:32-36 | the strict `>` scan ends on the first entry of maximal count: no count is larger and every earlier count is smaller |
| Cases.MaxCountMeaning | script/case.py:26-36 | `max_err_count` is 0 when empty, otherwise a count that occurs and that no count exceeds |
| Cases.IcedOnMaximumNotTotal | script/case.py:91-95 | a record with six errors split three and three is not iced: the limit applies to one key's count, not the total |
| Cases.CaseRecord.constructor | script/case.py:8-10 | a new record has no errors and is not complete |
| Cases.CaseRecord.LogError | script/case.py:12-17 | the ledger becomes `Logged(old, e)` (see LoggedLookup) and stays well formed; `complete` is untouched |
| Cases.CaseRecord.TotalErrCount | script/case.py:19-24 | the accumulator loop returns the sum of all counts |
| Cases.CaseRecord.MaxErrCount | script/case.py:26-36 | the loop returns 0 for an empty ledger, otherwise a count that occurs and bounds every count |
| Cases.CaseRecord.MaxErrType | script/case.py:38-50 | None exactly when empty; otherwise the key of the first entry, in insertion order, whose count is maximal |
| Cases.Case.constructor | script/case.py:72-76 | a new case keeps url and fp and owns a fresh, empty, incomplete record |
| Cases.Case.Args | script/case.py:78-79 | `args()` gives back the stored url and fp |
| Cases.Case.ShouldBeIced | script/case.py:91-95 | iced exactly when some key's count exceeds `max_count`, or the ledger is empty and the limit is negative |
| Cases.Case.ShouldBeClosed | script/case.py:80-82 | close exactly when the record is marked complete, whatever errors it holds |
| Cases.CaseFactory.constructor | script/case.py:55-56 | the factory keeps its optional default directory |
| Cases.CaseFactory.DefaultFilePath | script/case.py:66-69 | AttributeError exactly when there is no default directory; otherwise the name joined to it, whose basename is the name |
| Cases.CaseFactory.CasePath | script/case.py:58-64 | an explicit fp passes through; "DEFAULT" gives the URL's basename in the default directory (same basename as the URL), or AttributeError without one |
| Cases.CaseFactory.NewCase | script/case.py:58-61 | `case(url, fp)` fails exactly when the path does; otherwise a fresh case with that url and path and an empty record |
| Statuses.IsHealthy | script/status.py:23-28 | healthy exactly for STAGING, ACTIVE and COMPLETE |
| Statuses.UnhealthyStatuses | script/status.py:23-28 | unhealthy exactly for CREATING_FILE, COMATOSE, DEAD and integers that are no status |
| Statuses.IsDone | script/status.py:36-39 | True exactly for COMPLETE; never False (None otherwise) |
| Statuses.Err | script/status.py:17-21 | `err()` never returns False and its result is always truthy |
| Statuses.IsDead | script/status.py:30-34 | `is_dead()` holds for every report |
| Agents.LooksDead | script/agent.py:194-199 | looks dead exactly when the size on disk equals the size recorded at the last growth |
| Agents.IsDead | script/agent.py:201-205 | dead exactly when the download looks dead and its dead-check count exceeds DEAD_CHECK_THRESHOLD (5) |
| Agents.Poll | script/agent.py:100-115 | STAGING unchanged; ACTIVE iff growth (size recorded); COMATOSE iff size unchanged (one more dead check); never DEAD; COMPLETE iff shrunk to at least the server size, otherwise StatusError |
| Agents.RunNeverDead | script/agent.py:106-112 | no sequence of polls ever yields DEAD |
| Agents.StalledRun | script/agent.py:108-110 | a stalled download is COMATOSE at every poll and only its dead-check count moves, past any threshold |
| Agents.MakeReportStatus | script/agent.py:88-97 | STAGING, CREATING_FILE, ACTIVE, COMATOSE give WAIT; COMPLETE gives DONE; DEAD gives KILL; other integers raise StatusError |
| Agents.StatusReportOf | script/agent.py:65-75 | ZeroDivisionError exactly when the run time or the size is zero, with only the server size cached; otherwise the new fields are those of a second `get_status` (Poll), whose StatusError propagates; a report carries DONE exactly when that poll gives COMPLETE, WAIT otherwise, and speed = size / run time |
| Agents.StalledProcessCountsTwice | script/agent.py:40-75 | one `process()` on a stalled download adds two dead checks (one from `get_status`, one from the report's second poll) and reports WAIT |
| Agents.Agent.constructor | script/agent.py:25-38 | a new agent is STAGING, has no worker, zero counters and no cached server size |
| Agents.Agent.GetSizeOnServer | script/agent.py:139-149 | the server size is fetched once and cached; later calls answer from the cache |
| Agents.Agent.DlIsAlive | script/agent.py:207-217 | alive iff the file grew; then the size is recorded and the agent is ACTIVE; otherwise nothing changes |
| Agents.Agent.DlLooksDead | script/agent.py:194-199 | `LooksDead` of the agent's recorded size |
| Agents.Agent.DlIsDead | script/agent.py:201-205 | `IsDead` of the agent's recorded size and dead-check count |
| Agents.Agent.DlComplete | script/agent.py:186-192 | complete iff disk size is at least the (cached) server size; only the cache changes |
| Agents.Agent.GetStatus | script/agent.py:100-115 | the new fields and the result are those of Poll |
| Agents.Agent.DlStart | script/agent.py:161-169 | with the file created the agent becomes ACTIVE with a worker; otherwise FileWriteError and no change |
| Agents.Agent.DlKill | script/agent.py:171-174 | fails with AttributeError exactly when no worker was started |
| Agents.Agent.DlRestart | script/agent.py:180-184 | without a worker AttributeError and no change; otherwise the outcome of a fresh start |
| Agents.Agent.OnDead | script/agent.py:245-248 | a successful restart clears the dead checks and adds one restart; a failed one changes neither |
| Agents.Agent.OnComplete | script/agent.py:250-251 | the case's record becomes complete, its errors untouched |
| Agents.Agent.GetErr | script/agent.py:151-159 | ReferenceError exactly when no worker was started; otherwise the pending error, if any |
| Agents.Agent.MakeStatusReport | script/agent.py:65-75 | the fields and the result are those of StatusReportOf |
| Agents.Agent.Process | script/agent.py:40-63 | a failed poll and STAGING raise StatusError; COMPLETE marks the record complete; a pending error is logged once; the report follows StatusReportOf; restarts never change and no report says KILL |
| Officers.CaseOfficer.constructor | script/co.py:13-19 | a new officer has four empty lists and the given cap |
| Officers.CaseOfficer.AllAgents | script/co.py:101-103 | all agents are the sleepers followed by the active agents |
| Officers.CaseOfficer.CasesActive | script/co.py:33-37 | true iff some agent is registered |
| Officers.CaseOfficer.AgentAssigned | script/co.py:93-99 | False exactly when no agent is registered, AttributeError otherwise; never True, never DuplicateAgentError |
| Officers.CaseOfficer.AddCases | script/co.py:21-23 | `register_agents(assign_agents(cases))`: one fresh STAGING agent per case is appended to the sleepers, in order, all distinct; other lists untouched |
| Officers.CaseOfficer.IceCase | script/co.py:25-27 | the case is appended to the cold cases and nothing else changes |
| Officers.CaseOfficer.CloseCase | script/co.py:29-31 | the case is appended to the closed cases and nothing else changes |
| Officers.CaseOfficer.ActivateAgent | script/co.py:105-108 | the agent is appended to the active list first, then started (FileWriteError when its file does not appear) |
| Officers.CaseOfficer.DeactivateAgent | script/co.py:115-117 | the agent is appended to the sleepers and stays in the active list |
| Officers.CaseOfficer.KillAgent | script/co.py:119-125 | AttributeError without a worker; ValueError when not active; otherwise its first listing leaves the active list and its case is returned; other lists untouched |
| Officers.CaseOfficer.AdministrateCase | script/co.py:51-58 | ice check first, close check second; iced cases go to the cold list, closed ones to the closed list; iced and complete fails with ValueError on the second kill when the agent is listed once, and is filed as both cold and closed with two listings removed when it is listed twice |
| Officers.CaseOfficer.RosterStep | script/co.py:62-78 | pop the last sleeper and activate it; on FileWriteError log it, then ice and kill, or put the agent back among the sleepers while it stays active |
| Officers.CaseOfficer.FillAgentRoster | script/co.py:60-78 | fills to the cap or fails with IndexError (empty sleeper list) or AttributeError (icing an agent that never started); closed cases untouched, cold cases only grow, no agent appears; when every start succeeds the sleepers' tail moves, reversed, to the end of the active list |
| Officers.CaseOfficer.AdministrateAgent | script/co.py:47-49 | processing and disposing of one agent removes only its listings from the active list |
| Officers.CaseOfficer.AdministrateCases | script/co.py:45-49 | the active list and the agents processed follow the iterate-while-removing semantics (Replay, Visits); sleepers untouched, closed and cold lists only grow |
| Officers.CaseOfficer.Administrate | script/co.py:39-43 | a tick only grows the closed list and never adds an agent |
| ObjDraft.LastErrType | script/obj.py:57-68 | (None, 0) exactly when empty, otherwise the last key in insertion order |
| ObjDraft.MaxErrType | script/obj.py:57-68 | the loop returns LastErrType of the ledger |
| ObjDraft.MaxErrTypeNotMaximal | script/obj.py:57-68 | with the most frequent error logged first, the result names a less frequent error than the true maximum |
| ObjDraft.StatusUpdate | script/obj.py:192-204 | STAGING unchanged; otherwise COMPLETE whenever the file reaches the server size; growth recorded; a dead check on every non-shrinking poll; DEAD only past the threshold (or kept on a shrink) |
| ObjDraft.ProgressCountsAsDead | script/obj.py:192-204 | a growing download below the server size gets one dead check per poll and is DEAD once the count passes the threshold |
| ObjDraft.ReportOf | script/obj.py:181-190 | ZeroDivisionError exactly when the run time or size is zero, with only the server size cached; otherwise the new fields are those of a second `update_status` (StatusUpdate), the report carries that status, and is done iff it is COMPLETE |
| ObjDraft.NonShrinkingAdministrateCountsTwice | script/obj.py:159-204 | one `administrate_case` on a started download that does not shrink and stays below the server size adds two dead checks (from the two `update_status` calls) and its report is not done |
| ObjDraft.Agent.constructor | script/obj.py:144-157 | a new agent is STAGING, has no worker, zero counters and no cached server size |
| ObjDraft.Agent.UpdateStatus | script/obj.py:192-204 | the new fields follow StatusUpdate and the new status is returned |
| ObjDraft.Agent.DlStart | script/obj.py:246-254 | with the file created the agent becomes ACTIVE with a worker; otherwise FileWriteError and no change |
| ObjDraft.Agent.DlKill | script/obj.py:256-259 | fails with AttributeError exactly when no worker was started |
| ObjDraft.Agent.OnDead | script/obj.py:330-333 | a successful restart sets ACTIVE, clears the dead checks and adds one restart; a failure changes nothing |
| ObjDraft.Agent.GetErr | script/obj.py:236-244 | ReferenceError exactly when no worker was started; otherwise the pending error |
| ObjDraft.Agent.StatusReport | script/obj.py:181-190 | the fields and the result are those of ReportOf |
| ObjDraft.Agent.AdministrateCase | script/obj.py:159-179 | STAGING raises StatusError; DEAD restarts first; a pending error is logged once; the report follows ReportOf |
| ObjDraft.CaseOfficer.constructor | script/obj.py:341-347 | a new officer has four empty lists and the given cap |
| ObjDraft.CaseOfficer.IceCase | script/obj.py:353-355 | the case is appended to the cold cases and nothing else changes |
| ObjDraft.CaseOfficer.CloseCase | script/obj.py:357-359 | the case is appended to the closed cases and nothing else changes |
| ObjDraft.CaseOfficer.KillAgent | script/obj.py:449-455 | AttributeError without a worker; ValueError when not active; otherwise its first listing leaves the active list and its case is returned |
| ObjDraft.CaseOfficer.DeactivateAgent | script/obj.py:443-447 | AttributeError without a worker, ValueError when not active; otherwise the agent moves from the active list to the end of the sleepers and no agent is lost or gained |
| ObjDraft.CaseOfficer.ActivateAgent | script/obj.py:433-436 | the agent is appended to the active list, then started |
| ObjDraft.CaseOfficer.CaseShouldBeIced | script/obj.py:396-401 | for a well-formed ledger, iced exactly when some single error type has been logged more than MAX_ALLOWABLE_ERR_COUNT (5) times |
| ObjDraft.CaseOfficer.CaseShouldBeClosed | script/obj.py:386-388 | close exactly when the report's status is COMPLETE |
| ObjDraft.CaseOfficer.HandleReport | script/obj.py:379-401 | ice check (largest count over 5) first, close check second; filed cases go to the cold or closed list; iced and done fails with ValueError |
| ObjDraft.CaseOfficer.FillAgentRoster | script/obj.py:403-406 | the popped sleepers sit, last first, at the end of the active list; IndexError on an empty sleeper list, FileWriteError when a file does not appear |
| ObjDraft.CaseOfficer.AdministrateAgent | script/obj.py:373-377 | administering one agent removes only its listings from the active list |
| ObjDraft.CaseOfficer.AdministrateCases | script/obj.py:373-377 | the active list and the agents visited follow Replay and Visits |
| ObjDraft.CaseOfficer.Administrate | script/obj.py:367-371 | a tick only grows the closed and cold lists and never adds an agent |
| EarlyDraft.Check | script/Agent.py:87-97 | True iff complete, then nothing changes; otherwise a growing file adds a dead check and passing the threshold restarts (AttributeError without a worker); the count stays within 0..5 |
| EarlyDraft.ProgressRestartsEverySixthCheck | script/Agent.py:80-97 | a started download making progress is restarted on every sixth check |
| EarlyDraft.StalledNeverRestarted | script/Agent.py:80-97 | a download that never grows past `last_size` is never counted dead |
| EarlyDraft.Agent.constructor | script/Agent.py:25-34 | a new agent is STAGING with no worker and zero counters |
| EarlyDraft.Agent.DlStart | script/Agent.py:53-58 | the agent becomes ACTIVE with a worker |
| EarlyDraft.Agent.DlStop | script/Agent.py:60-65 | fails with AttributeError exactly when no worker was started |
| EarlyDraft.Agent.DlRestart | script/Agent.py:67-70 | stop then start: ACTIVE with a worker, or AttributeError and no change |
| EarlyDraft.Agent.DlComplete | script/Agent.py:72-78 | complete iff disk size is at least the server size |
| EarlyDraft.Agent.DlLooksDead | script/Agent.py:80-85 | looks dead exactly when the file is larger than `last_size`, which stays 0 after construction |
| EarlyDraft.Agent.DlCheck | script/Agent.py:87-97 | the fields and the answer follow Check; `last_size` is never written |
| EarlyDraft.CaseOfficer.constructor | script/Agent.py:112-116 | a new officer has two empty lists |
| EarlyDraft.CaseOfficer.AgentAssigned | script/Agent.py:132-135 | never true |
| EarlyDraft.CaseOfficer.AssignAgent | script/Agent.py:123-130 | KeyError exactly when 'url' or 'fp' is missing; otherwise a fresh STAGING agent for them; never DuplicateAgentError |
| EarlyDraft.CaseOfficer.AssignAgents | script/Agent.py:118-121 | succeeds iff every dictionary has both keys, and changes no state |
| Conf.DownloadComplete | script/MassDownloader.py:89-94 | complete exactly when the size on disk is at least the size on the server |
| MassDownloader.UpToDot | script/MassDownloader.py:67 | `split('.')[0]`: the longest dot-free prefix, followed by a '.' when shorter |
| MassDownloader.NameFromURL | script/MassDownloader.py:65-68 | the URL's basename up to its first '.' |
| MassDownloader.SizeCheck | script/MassDownloader.py:139-158 | growth records the size and clears dead cycles; otherwise one more dead cycle; beyond 4 a restart from size 0 (dead cycles kept), beyond 5 attempts abandonment |
| MassDownloader.RunTicks | script/MassDownloader.py:119-158 | the attempt counter never decreases and never passes 5 |
| MassDownloader.StalledStreamAbandonedAtNinthCheck | script/MassDownloader.py:139-158 | a stream stuck at zero bytes restarts at the fifth check and every check after it, and is abandoned at the ninth |
| MassDownloader.AttemptsBounded | script/MassDownloader.py:146-158 | any run that has not ended has made between 1 and 5 attempts |
| MassDownloader.WaitForFile | script/MassDownloader.py:123-129 | the wait raises exactly when the file is still missing after more than 61 checks |
| MassDownloader.DlFileWithProcChecks | script/MassDownloader.py:97-173 | an existing file is accepted unless completeness checking finds it short; otherwise the loop follows RunTicks from one attempt |
| DownloadWrapper.DownloadParamMatchMeaning | script/downloadWrapper.py:96-100 | the pattern `.*download=.*` matches exactly when "download=" occurs with no newline before it |
| DownloadWrapper.SanitizeURLList | script/downloadWrapper.py:95-104 | the loop keeps exactly the URLs the pattern does not match, in order |
| DownloadWrapper.SanitizedURLs | script/downloadWrapper.py:95-104 | the result is a subsequence of the input, holds exactly the non-matching URLs, and sanitizing again changes nothing |
| DownloadWrapper.FillLineRemainder | script/downloadWrapper.py:135-138 | a long enough line is unchanged; otherwise line plus whole copies of char, reaching l but less than one copy past it, exactly l for a single character |
| DownloadWrapper.DivideIntoGroups | script/downloadWrapper.py:185-196 | `num_groups` groups (none when negative), group i being the slice GroupAt with size `len(params) // 25` |
| DownloadWrapper.UniformGroups | script/downloadWrapper.py:187-194 | with 25 groups every group is the slice of `size` items at its position |
| DownloadWrapper.DivideLosesRemainder | script/downloadWrapper.py:185-196 | 25 groups joined give the items up to the last multiple of 25, so they give back `params` iff its length is a multiple of 25 |
| DownloadWrapper.FileNames | script/downloadWrapper.py:109-111 | same length, each element the basename of its path |
| DownloadWrapper.FileNamesOfJoined | script/downloadWrapper.py:109-111 | bare names joined to a directory come back unchanged |
| DownloadWrapper.LocalPathBasename | script/downloadWrapper.py:126-127 | the local path of a URL has the URL's basename |
| DownloadWrapper.FindUndownloadedFiles | script/downloadWrapper.py:122-132 | URLs with no local file, in order, and (url, path) pairs for the others, in order |
| DownloadWrapper.UndownloadedPartition | script/downloadWrapper.py:122-132 | every URL lands in exactly one of the two lists, by whether its local file exists, and the lengths add up |
| DownloadWrapper.GetUncheckedFiles | script/downloadWrapper.py:164-172 | exactly the pairs without a report file, in order, as a subsequence of the input |

## Left out

- Process and network machinery (worker processes, queues, pools, `urlretrieve`, `urlopen`, `terminate`, `join`, file deletion). Their effects are parameters: created or not, the pending error, the Content-Length, the file sizes. `dl_cleanup` and the file removal on abandonment are not modelled.
- Clocks, `datetime` and `timedelta`. Run times and the ETA are plain `real` seconds, float rounding is not modelled, and the report's timestamp is dropped. The sleep loops of `wait_for_file_creation` become the `created` flag, except in `MassDownloader.WaitForFile`, which counts checks.
- Console output, verbose printing and error logging to files (`logError`, the error log in `dlFileWithProcChecks`).
- The random back-off of `dlFilesFromList`, and `dlFilesFromList` itself, which only calls `dlFileWithProcChecks` per URL.
- `script/main.py`. Also `main`, `main_dl_check`, `mkdir_p`, `beginCompletenessCheck`, `checkFilesForCompleteness`, `findFilesByExtension`, `getListOfDownloadedFiles` and `getListOfURLSForDownload` of `downloadWrapper.py`, and `findFilesByExtension` and `getFileSizeOnServer` of `MassDownloader.py`. These are top-level wiring over the file system.
- `Agent.py` imports Python 2's `urllib` names under Python 3 (it uses `typing`): `urllib.urlopen` and `urllib.urlretrieve` do not exist there, so `size_on_server` raises AttributeError and `dl_check` fails at its first line before any counter moves. `EarlyDraft.Check` and `EarlyDraft.Agent.DlComplete` describe `dl_check` as if the call returned the Content-Length.
- `MassDownloader.py` imports `dlFile` from `script.Agent`, which defines no such name, so the module cannot be imported as written. The model describes the function bodies as if the import succeeded.
- The directory globals of `downloadWrapper.py` become parameters. Paths use '/' only, so the literal backslash in the reports directory name is an ordinary character.
- `should_be_shelved`, `case_should_be_shelved`, `dissolve`, `on_active` and `on_comatose` are stubs with no effect. `AgentFactory` only calls the `Agent` constructor. `ExceptionPackage` serialisation is not modelled.
- The generators `assign_agents`, `register_agents`, `activate_agents` and `kill_agents` are modelled through `add_cases`. The last two have no caller in the modelled `script/` files.
- The copies in `script/obj.py` of `add_cases`, `cases_active`, `agent_assigned` and `all_agents` are identical to `script/co.py`, and so are modelled once in `Officers`. `Officers.CaseOfficer.AddCases` builds `Agents.Agent` objects, so `ObjDraft.CaseOfficer` has no operation that registers agents; its lists are filled only by the caller. So are its `CaseRecord` (minus the unread `complete` flag), `Case`, `CaseFactory` and `StatusReport` predicates, which are modelled once in `Cases` and `Statuses`. Its `StatusReport.record` field is not carried.
- Python exceptions as dictionary keys are an opaque `ErrKey`. Whether two raised errors share a key is decided by the caller, through `errKeys` and `pending`.
- Each poll assumes the size on disk stays the same throughout one call. The source reads it several times per call.
- `Agents.Agent.DlStart`, `ObjDraft.Agent.DlStart`: the source also calls `dl_file` in the parent process. That call (and the mismatched `args` in `Agent.py`) only concerns the download itself, which is not modelled.
- `Officers.CaseOfficer.FillAgentRoster`: the exact final lists are stated only when every start succeeds. With failing starts, only membership, the cap, the error kinds and the closed and cold lists are stated.
- `Officers.CaseOfficer.AdministrateAgent`, `Officers.CaseOfficer.AdministrateCases`, `ObjDraft.CaseOfficer.AdministrateAgent`, `ObjDraft.CaseOfficer.AdministrateCases`: these state the lists only. What happens to each agent's fields is stated by `Agents.Agent.Process` and `ObjDraft.Agent.AdministrateCase`.
- `Officers.CaseOfficer.Administrate`, `ObjDraft.CaseOfficer.Administrate`: only list growth and membership are stated for the whole tick. The pause at the end of the tick is not modelled.
- `DownloadWrapper.FillLineRemainder`: an empty `char` with a short line loops forever in the source. That input is excluded by the precondition.
- `DownloadWrapper.DivideIntoGroups`: `int(len(params) / MAX_NUM_PROCS)` is taken as exact integer division. Float rounding of very long lists is not modelled.
- `MassDownloader.DlFileWithProcChecks`: the pause between checks (`proc_check_time`) and the `restart_wait_time` sleep are not modelled. The exception handler that turns every error into False is the `Returned(false)` result.
