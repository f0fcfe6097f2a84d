/**
  script/MassDownloader.py: the legacy single-file downloader. dlFileWithProcChecks
  starts a worker process and, while it is alive, waits for the file to exist and then
  compares its size with the size seen at the previous check: `file_size`,
  `dead_cycles` and `num_att` drive restarts and, eventually, giving up.

  The worker, the clock and the file system are observations: one Tick per turn of the
  outer loop says whether the worker is alive at the top of the turn, for how many
  existence checks the file is still missing, whether the worker is still alive after
  the file appeared, and the file's size then. Any exception inside the function is
  caught, logged (not modelled) and turned into a False result.
*/
module MassDownloader {
  import opened Wrappers
  import opened Conf
  import opened Paths

  /** Seconds between two size checks (only the pacing of the loop; not modelled). */
  const PROC_CHECK_TIME: int := 10

  /** Download attempts allowed before the file is abandoned. */
  const DL_ATT_THSHOLD: int := 5

  /** Checks without growth tolerated before the stream counts as dead. */
  const MAX_DEAD_CYCLES: int := 4

  /** Existence checks (one second apart) tolerated while waiting for the file. */
  const FILE_CREATION_WAIT_LIMIT: int := 60

  /** The part of s before its first '.', all of s when it has none: s.split('.')[0]. */
  function UpToDot(s: string): (r: string)
    ensures '.' !in r
    ensures |r| <= |s| && r == s[..|r|]
    ensures |r| < |s| ==> s[|r|] == '.'
  {
    if s == [] || s[0] == '.' then [] else [s[0]] + UpToDot(s[1..])
  }

  /** getNameFromURL: the URL's basename up to its first '.'. */
  function NameFromURL(url: string): (name: string)
    ensures '.' !in name && '/' !in name
    ensures var b := Basename(url); |name| <= |b| && name == b[..|name|] && (|name| < |b| ==> b[|name|] == '.')
  {
    var b := Basename(url);
    var name := UpToDot(b);
    assert forall i :: 0 <= i < |name| ==> name[i] == b[i];
    name
  }

  /** The three counters of the polling loop. */
  datatype Counters = Counters(fileSize: int, deadCycles: int, numAtt: int)

  /**
    One size check with the file at `currSize` bytes. Growth records the size and clears
    the dead cycles. Otherwise one more dead cycle is counted; beyond MAX_DEAD_CYCLES the
    attempt counter goes up and the download restarts from an empty file (the dead cycles
    are not cleared), or, beyond DL_ATT_THSHOLD attempts, it is abandoned (None: the
    DownloadStreamDeadException).
  */
  function SizeCheck(c: Counters, currSize: int): (r: Option<Counters>)
    ensures currSize > c.fileSize ==> r == Some(c.(fileSize := currSize, deadCycles := 0))
    ensures currSize <= c.fileSize && c.deadCycles + 1 <= MAX_DEAD_CYCLES ==>
      r == Some(c.(deadCycles := c.deadCycles + 1))
    ensures currSize <= c.fileSize && c.deadCycles + 1 > MAX_DEAD_CYCLES && c.numAtt + 1 <= DL_ATT_THSHOLD ==>
      r == Some(Counters(0, c.deadCycles + 1, c.numAtt + 1))
    ensures r.None? <==> currSize <= c.fileSize && c.deadCycles + 1 > MAX_DEAD_CYCLES && c.numAtt + 1 > DL_ATT_THSHOLD
    ensures r.Some? && c.numAtt <= DL_ATT_THSHOLD ==> c.numAtt <= r.value.numAtt <= DL_ATT_THSHOLD
  {
    if currSize > c.fileSize then Some(c.(fileSize := currSize, deadCycles := 0))
    else
      var dead := c.deadCycles + 1;
      if dead > MAX_DEAD_CYCLES then
        var att := c.numAtt + 1;
        if att > DL_ATT_THSHOLD then None
        else Some(Counters(0, dead, att))
      else Some(c.(deadCycles := dead))
  }

  /** What the loop observes in one turn. */
  datatype Tick = Tick(
    aliveAtTop: bool,     // p.is_alive() at the loop condition
    missing: nat,         // existence checks at which the file is still absent
    aliveAtCheck: bool,   // p.is_alive() once the file exists
    size: int)            // os.path.getsize at the size check

  /** The wait for the file raises FileNotCreatedException: it is still absent when the count exceeds the limit. */
  predicate WaitRaises(t: Tick)
  {
    t.missing > FILE_CREATION_WAIT_LIMIT + 1
  }

  /** How a run of the function ends: with a result, or with the observations used up. */
  datatype Run = Returned(ok: bool) | Unfinished(c: Counters)

  /** The outer loop from counters c over the given turns. */
  function RunTicks(c: Counters, ticks: seq<Tick>): (r: Run)
    ensures r.Unfinished? ==> r.c.numAtt >= c.numAtt
    ensures r.Unfinished? && c.numAtt <= DL_ATT_THSHOLD ==> r.c.numAtt <= DL_ATT_THSHOLD
    decreases |ticks|
  {
    if ticks == [] then Unfinished(c)
    else if !ticks[0].aliveAtTop then Returned(true)
    else if WaitRaises(ticks[0]) then Returned(false)
    else if !ticks[0].aliveAtCheck then RunTicks(c, ticks[1..])
    else
      match SizeCheck(c, ticks[0].size)
      case None => Returned(false)
      case Some(c') => RunTicks(c', ticks[1..])
  }

  /** The counters that the size checks of a stream reach, None once the stream is abandoned. */
  function SizeChecks(c: Counters, sizes: seq<int>): Option<Counters>
    decreases |sizes|
  {
    if sizes == [] then Some(c)
    else
      match SizeCheck(c, sizes[0])
      case None => None
      case Some(c') => SizeChecks(c', sizes[1..])
  }

  /**
    A stream stuck at zero bytes from the start: four cycles without growth are
    tolerated, the fifth restarts the download, and since the dead cycles are never
    cleared every later check restarts it again, until the ninth check abandons it after
    four restarts (DL_ATT_THSHOLD - 1).
  */
  lemma StalledStreamAbandonedAtNinthCheck()
    ensures SizeChecks(Counters(0, 0, 1), [0, 0, 0, 0]) == Some(Counters(0, 4, 1))
    ensures SizeChecks(Counters(0, 0, 1), [0, 0, 0, 0, 0]) == Some(Counters(0, 5, 2))
    ensures SizeChecks(Counters(0, 0, 1), [0, 0, 0, 0, 0, 0, 0, 0]) == Some(Counters(0, 8, 5))
    ensures SizeChecks(Counters(0, 0, 1), [0, 0, 0, 0, 0, 0, 0, 0, 0]).None?
  {
    assert SizeChecks(Counters(0, 8, 5), [0]).None?;
    assert SizeChecks(Counters(0, 7, 4), [0, 0]).None?;
    assert SizeChecks(Counters(0, 6, 3), [0, 0, 0]).None?;
    assert SizeChecks(Counters(0, 5, 2), [0, 0, 0, 0]).None?;
    assert SizeChecks(Counters(0, 4, 1), [0, 0, 0, 0, 0]).None?;
    assert SizeChecks(Counters(0, 3, 1), [0, 0, 0, 0, 0, 0]).None?;
    assert SizeChecks(Counters(0, 2, 1), [0, 0, 0, 0, 0, 0, 0]).None?;
    assert SizeChecks(Counters(0, 1, 1), [0, 0, 0, 0, 0, 0, 0, 0]).None?;
  }

  /**
    However the stream behaves, a run that has not ended has made at most
    DL_ATT_THSHOLD attempts, that is at most DL_ATT_THSHOLD - 1 restarts.
  */
  lemma {:induction false} AttemptsBounded(c: Counters, sizes: seq<int>)
    requires 1 <= c.numAtt <= DL_ATT_THSHOLD
    ensures SizeChecks(c, sizes).Some? ==>
      c.numAtt <= SizeChecks(c, sizes).value.numAtt <= DL_ATT_THSHOLD
    decreases |sizes|
  {
    if sizes != [] {
      match SizeCheck(c, sizes[0])
      case None =>
      case Some(c') => AttemptsBounded(c', sizes[1..]);
    }
  }

  /**
    The wait for the file: count the existence checks that find it missing, raising once
    the count exceeds FILE_CREATION_WAIT_LIMIT.
  */
  method WaitForFile(missing: nat) returns (raised: bool)
    ensures raised <==> missing > FILE_CREATION_WAIT_LIMIT + 1
  {
    var count := 0;
    while count < missing
      invariant 0 <= count <= missing && count <= FILE_CREATION_WAIT_LIMIT + 1
      decreases missing - count
    {
      if count > FILE_CREATION_WAIT_LIMIT {
        return true;
      }
      count := count + 1;
    }
    return false;
  }

  /**
    dlFileWithProcChecks: an existing file is accepted as it is unless completeness
    checking is on and the file is smaller than the server's; otherwise the download is
    started and the loop runs as RunTicks describes, from one attempt and no bytes seen.
  */
  method DlFileWithProcChecks(fileExists: bool, checkCompleteness: bool, sizeOnDisk: int, sizeOnServer: int, ticks: seq<Tick>)
    returns (r: Run)
    ensures fileExists && (!checkCompleteness || DownloadComplete(sizeOnDisk, sizeOnServer)) ==> r == Returned(true)
    ensures !(fileExists && (!checkCompleteness || DownloadComplete(sizeOnDisk, sizeOnServer))) ==>
      r == RunTicks(Counters(0, 0, 1), ticks)
    ensures r.Unfinished? ==> 1 <= r.c.numAtt <= DL_ATT_THSHOLD
  {
    if fileExists {
      if checkCompleteness {
        if DownloadComplete(sizeOnDisk, sizeOnServer) {
          return Returned(true);
        }
      } else {
        return Returned(true);
      }
    }
    var c := Counters(0, 0, 1);
    var i := 0;
    while i < |ticks|
      invariant 0 <= i <= |ticks|
      invariant RunTicks(c, ticks[i..]) == RunTicks(Counters(0, 0, 1), ticks)
      invariant 1 <= c.numAtt <= DL_ATT_THSHOLD
      decreases |ticks| - i
    {
      var t := ticks[i];
      assert ticks[i..][1..] == ticks[i + 1..];
      if !t.aliveAtTop {
        return Returned(true);
      }
      var raised := WaitForFile(t.missing);
      if raised {
        return Returned(false);
      }
      if t.aliveAtCheck {
        var next := SizeCheck(c, t.size);
        if next.None? {
          return Returned(false);
        }
        c := next.value;
      }
      i := i + 1;
    }
    return Unfinished(c);
  }
}
