/**
  script/case.py: the error ledger of one download (CaseRecord), the download itself
  (Case: a URL, a file path and a record) and the factory that derives default file paths.
  The ledger's dictionary is an insertion-ordered sequence of (key, count) entries, the
  order in which Python iterates a dict.
*/
module Cases {
  import opened Wrappers
  import opened Conf
  import opened Paths

  /** One item of CaseRecord.errs: an error key and how often it has been logged. */
  datatype Entry = Entry(key: ErrKey, count: int)

  /** What a dictionary of counts written only by log_error looks like: no key twice, every count positive. */
  ghost predicate WellFormed(s: seq<Entry>)
  {
    && (forall i, j :: 0 <= i < j < |s| ==> s[i].key != s[j].key)
    && (forall i :: 0 <= i < |s| ==> s[i].count >= 1)
  }

  /** The position of key k in errs, if k is a key of errs (the first such position). */
  function IndexOf(s: seq<Entry>, k: ErrKey): (r: Option<nat>)
    ensures r.Some? ==> r.value < |s| && s[r.value].key == k
    ensures r.Some? ==> forall j :: 0 <= j < r.value ==> s[j].key != k
    ensures r.None? ==> forall j :: 0 <= j < |s| ==> s[j].key != k
  {
    if s == [] then None
    else if s[0].key == k then Some(0)
    else
      match IndexOf(s[1..], k)
      case None => None
      case Some(i) => Some(i + 1)
  }

  /** errs.get(k): the count stored under k, None when k was never logged. */
  function Lookup(s: seq<Entry>, k: ErrKey): Option<int>
  {
    match IndexOf(s, k)
    case None => None
    case Some(i) => Some(s[i].count)
  }

  /** The keys of errs, in insertion order. */
  function Keys(s: seq<Entry>): seq<ErrKey>
  {
    seq(|s|, i requires 0 <= i < |s| => s[i].key)
  }

  /** errs after log_error(e): the count of e incremented in place, or e inserted last with count 1. */
  function Logged(s: seq<Entry>, e: ErrKey): seq<Entry>
  {
    match IndexOf(s, e)
    case Some(i) => s[i := Entry(e, s[i].count + 1)]
    case None => s + [Entry(e, 1)]
  }

  /** The sum of all counts: total_err_count. */
  function Total(s: seq<Entry>): int
  {
    if s == [] then 0 else s[0].count + Total(s[1..])
  }

  /**
    The pair (max_num, max_type) held by the scan of max_err_count / max_err_type after it
    has visited the entries of s: it starts at (-1, None) and takes an entry whose count
    is strictly greater than the one it holds.
  */
  function MaxScan(s: seq<Entry>): (r: (int, Option<ErrKey>))
    ensures r.0 >= -1
    ensures forall i :: 0 <= i < |s| ==> s[i].count <= r.0
  {
    if s == [] then (-1, None)
    else
      var p := MaxScan(s[..|s| - 1]);
      var last := s[|s| - 1];
      assert forall i :: 0 <= i < |s| - 1 ==> s[..|s| - 1][i] == s[i];
      if last.count > p.0 then (last.count, Some(last.key)) else p
  }

  /** max_err_count: 0 for an empty ledger, otherwise the result of the scan. */
  function MaxCount(s: seq<Entry>): int
  {
    if s == [] then 0 else MaxScan(s).0
  }

  /** max_err_type: None for an empty ledger, otherwise the key the scan settled on. */
  function MaxType(s: seq<Entry>): Option<ErrKey>
  {
    if s == [] then None else MaxScan(s).1
  }

  lemma KeysUpdate(s: seq<Entry>, i: nat, x: Entry)
    requires i < |s| && x.key == s[i].key
    ensures Keys(s[i := x]) == Keys(s)
  {
  }

  lemma KeysAppend(s: seq<Entry>, x: Entry)
    ensures Keys(s + [x]) == Keys(s) + [x.key]
  {
  }

  /**
    log_error(e) stores old count + 1 under e (1 when e is new), keeps every other key's
    count, and inserts e last exactly when it was not a key before.
  */
  lemma LoggedLookup(s: seq<Entry>, e: ErrKey)
    ensures Lookup(Logged(s, e), e) == Some(if Lookup(s, e).Some? then Lookup(s, e).value + 1 else 1)
    ensures forall k :: k != e ==> Lookup(Logged(s, e), k) == Lookup(s, k)
    ensures Keys(Logged(s, e)) == if Lookup(s, e).Some? then Keys(s) else Keys(s) + [e]
  {
    var r := Logged(s, e);
    match IndexOf(s, e)
    case Some(i) =>
      KeysUpdate(s, i, Entry(e, s[i].count + 1));
      IndexOfIs(r, e, i);
      forall k | k != e ensures Lookup(r, k) == Lookup(s, k) {
        SameIndex(s, r, k);
        if IndexOf(s, k).Some? {
          assert IndexOf(s, k).value != i;
        }
      }
    case None =>
      KeysAppend(s, Entry(e, 1));
      IndexOfIs(r, e, |s|);
      forall k | k != e ensures Lookup(r, k) == Lookup(s, k) {
        AppendIndex(s, Entry(e, 1), k);
      }
  }

  /** A position holding k with no k before it is where IndexOf finds k. */
  lemma IndexOfIs(s: seq<Entry>, k: ErrKey, i: nat)
    requires i < |s| && s[i].key == k
    requires forall j :: 0 <= j < i ==> s[j].key != k
    ensures IndexOf(s, k) == Some(i)
  {
  }

  /** Two ledgers with the same key at every position find every key at the same position. */
  lemma SameIndex(s: seq<Entry>, t: seq<Entry>, k: ErrKey)
    requires |s| == |t| && forall i :: 0 <= i < |s| ==> s[i].key == t[i].key
    ensures IndexOf(s, k) == IndexOf(t, k)
  {
    match IndexOf(s, k)
    case Some(i) => IndexOfIs(t, k, i);
    case None =>
  }

  /** Appending an entry for another key does not move k. */
  lemma AppendIndex(s: seq<Entry>, x: Entry, k: ErrKey)
    requires x.key != k
    ensures IndexOf(s + [x], k) == IndexOf(s, k)
  {
    match IndexOf(s, k)
    case Some(i) => IndexOfIs(s + [x], k, i);
    case None =>
  }

  /** log_error keeps the ledger a dictionary of positive counts. */
  lemma LoggedWellFormed(s: seq<Entry>, e: ErrKey)
    requires WellFormed(s)
    ensures WellFormed(Logged(s, e))
  {
    var r := Logged(s, e);
    match IndexOf(s, e)
    case Some(i) =>
      assert forall j :: 0 <= j < |s| ==> r[j].key == s[j].key;
    case None =>
      assert forall j :: 0 <= j < |s| ==> r[j] == s[j];
  }

  /** Total of a ledger with one more entry at the end. */
  lemma {:induction false} TotalSnoc(s: seq<Entry>, x: Entry)
    ensures Total(s + [x]) == Total(s) + x.count
  {
    if s != [] {
      assert (s + [x])[1..] == s[1..] + [x];
      TotalSnoc(s[1..], x);
    }
  }

  /** Replacing one entry changes the total by the difference of the counts. */
  lemma {:induction false} TotalUpdate(s: seq<Entry>, i: nat, x: Entry)
    requires i < |s|
    ensures Total(s[i := x]) == Total(s) - s[i].count + x.count
  {
    if i > 0 {
      assert s[i := x][1..] == s[1..][i - 1 := x];
      TotalUpdate(s[1..], i - 1, x);
    }
  }

  /** Every log_error call adds exactly one to total_err_count. */
  lemma TotalLogged(s: seq<Entry>, e: ErrKey)
    ensures Total(Logged(s, e)) == Total(s) + 1
  {
    match IndexOf(s, e)
    case Some(i) => TotalUpdate(s, i, Entry(e, s[i].count + 1));
    case None => TotalSnoc(s, Entry(e, 1));
  }

  /** In a dictionary of positive counts the total is at least the number of keys, and at least the maximum. */
  lemma {:induction false} TotalBounds(s: seq<Entry>)
    requires WellFormed(s)
    ensures Total(s) >= |s|
    ensures Total(s) >= MaxCount(s)
    ensures forall i :: 0 <= i < |s| ==> s[i].count <= Total(s)
  {
    if s != [] {
      assert WellFormed(s[1..]) by {
        forall i, j | 0 <= i < j < |s| - 1 ensures s[1..][i].key != s[1..][j].key {
          assert s[1..][i] == s[i + 1] && s[1..][j] == s[j + 1];
        }
      }
      TotalBounds(s[1..]);
      forall i | 0 < i < |s| ensures s[i].count <= Total(s) {
        assert s[i] == s[1..][i - 1];
      }
      var m := MaxScanFirst(s);
    }
  }

  /**
    On a ledger of non-negative counts the scan ends on the first entry of maximal count:
    max_num is the largest count and max_type its key, and every earlier entry is strictly smaller.
  */
  lemma {:induction false} MaxScanFirst(s: seq<Entry>) returns (i: nat)
    requires s != [] && forall j :: 0 <= j < |s| ==> s[j].count >= 0
    ensures i < |s| && MaxScan(s) == (s[i].count, Some(s[i].key))
    ensures forall j :: 0 <= j < |s| ==> s[j].count <= s[i].count
    ensures forall j :: 0 <= j < i ==> s[j].count < s[i].count
  {
    var p := s[..|s| - 1];
    if p == [] {
      i := 0;
    } else {
      assert forall j :: 0 <= j < |p| ==> p[j] == s[j];
      var k := MaxScanFirst(p);
      if s[|s| - 1].count > s[k].count {
        i := |s| - 1;
      } else {
        i := k;
      }
    }
  }

  /** max_err_count on a ledger of non-negative counts: 0 when empty, otherwise the largest count. */
  lemma MaxCountMeaning(s: seq<Entry>)
    ensures (forall j :: 0 <= j < |s| ==> s[j].count >= 0) ==>
      && (s == [] ==> MaxCount(s) == 0)
      && (forall i :: 0 <= i < |s| ==> s[i].count <= MaxCount(s))
      && (s != [] ==> exists i :: 0 <= i < |s| && s[i].count == MaxCount(s))
  {
    if s != [] && forall j :: 0 <= j < |s| ==> s[j].count >= 0 {
      var w := MaxScanFirst(s);
    }
  }

  /**
    should_be_iced compares the largest per-key count, not the total, with the limit: a
    ledger holding three errors of each of two kinds has six errors and is not iced.
  */
  lemma IcedOnMaximumNotTotal()
    ensures var s := [Entry(ErrKey(0), 3), Entry(ErrKey(1), 3)];
      Total(s) > MAX_ALLOWABLE_ERR_COUNT && !(MaxCount(s) > MAX_ALLOWABLE_ERR_COUNT)
  {
    var s := [Entry(ErrKey(0), 3), Entry(ErrKey(1), 3)];
    assert s[..1] == [Entry(ErrKey(0), 3)];
    assert s[..1][..0] == [];
    assert s[1..] == [Entry(ErrKey(1), 3)] && s[1..][1..] == [];
    assert MaxScan(s[..1]) == (3, Some(ErrKey(0)));
    assert Total(s) == 6;
  }

  /** A Case's record: the per-key error counts and whether the download finished. */
  class CaseRecord {
    var errs: seq<Entry>
    var complete: bool

    ghost predicate Valid()
      reads this
    {
      WellFormed(errs)
    }

    /** A new record has logged nothing and is not complete. */
    constructor()
      ensures Valid()
      ensures errs == [] && !complete
    {
      errs := [];
      complete := false;
    }

    /** log_error: count one more occurrence of e. */
    method LogError(e: ErrKey)
      modifies this
      ensures old(Valid()) ==> Valid()
      ensures errs == Logged(old(errs), e) && complete == old(complete)
    {
      if WellFormed(errs) {
        LoggedWellFormed(errs, e);
      }
      var i := IndexOf(errs, e);
      if i.Some? {
        errs := errs[i.value := Entry(e, errs[i.value].count + 1)];
      } else {
        errs := errs + [Entry(e, 1)];
      }
    }

    /** total_err_count: the sum of the counts of all keys. */
    method TotalErrCount() returns (count: int)
      ensures count == Total(errs)
    {
      count := 0;
      var i := 0;
      while i < |errs|
        invariant 0 <= i <= |errs|
        invariant count == Total(errs[..i])
      {
        assert errs[..i + 1] == errs[..i] + [errs[i]];
        TotalSnoc(errs[..i], errs[i]);
        count := count + errs[i].count;
        i := i + 1;
      }
      assert errs[..i] == errs;
    }

    /** max_err_count: 0 when nothing was logged, otherwise the largest count of any key. */
    method MaxErrCount() returns (m: int)
      requires Valid()
      ensures m == MaxCount(errs)
      ensures errs == [] ==> m == 0
      ensures forall i :: 0 <= i < |errs| ==> errs[i].count <= m
      ensures errs != [] ==> exists i :: 0 <= i < |errs| && errs[i].count == m
    {
      if |errs| == 0 {
        return 0;
      }
      m := -1;
      var i := 0;
      while i < |errs|
        invariant 0 <= i <= |errs|
        invariant m == MaxScan(errs[..i]).0
      {
        assert errs[..i + 1][..i] == errs[..i];
        if errs[i].count > m {
          m := errs[i].count;
        }
        i := i + 1;
      }
      assert errs[..i] == errs;
      var w := MaxScanFirst(errs);
    }

    /**
      max_err_type: None when nothing was logged, otherwise the key of maximal count that
      was inserted first (later keys with an equal count do not displace it).
    */
    method MaxErrType() returns (t: Option<ErrKey>)
      requires Valid()
      ensures t == MaxType(errs)
      ensures t.None? <==> errs == []
      ensures t.Some? ==> exists i :: (0 <= i < |errs| && errs[i].key == t.value
        && (forall j :: 0 <= j < |errs| ==> errs[j].count <= errs[i].count)
        && (forall j :: 0 <= j < i ==> errs[j].count < errs[i].count))
    {
      if |errs| == 0 {
        return None;
      }
      var maxNum := -1;
      t := None;
      var i := 0;
      while i < |errs|
        invariant 0 <= i <= |errs|
        invariant (maxNum, t) == MaxScan(errs[..i])
      {
        assert errs[..i + 1][..i] == errs[..i];
        if errs[i].count > maxNum {
          maxNum := errs[i].count;
          t := Some(errs[i].key);
        }
        i := i + 1;
      }
      assert errs[..i] == errs;
      var w := MaxScanFirst(errs);
    }
  }

  /** The dictionary returned by Case.args(). */
  datatype CaseArgs = CaseArgs(url: string, fp: string)

  /** One download: where it comes from, where it goes, and its error history. */
  class Case {
    const url: string
    const fp: string
    const record: CaseRecord

    ghost predicate Valid()
      reads record
    {
      record.Valid()
    }

    /** A new case carries the given URL and path and a fresh, empty, incomplete record. */
    constructor(url: string, fp: string)
      ensures this.url == url && this.fp == fp
      ensures fresh(record) && record.errs == [] && !record.complete
      ensures Valid()
    {
      this.url := url;
      this.fp := fp;
      record := new CaseRecord();
    }

    /** args(): the arguments a download worker needs, read back from the case. */
    function Args(): (a: CaseArgs)
      ensures a.url == url && a.fp == fp
    {
      CaseArgs(url, fp)
    }

    /** should_be_closed: whether the agent has marked the download complete. */
    predicate ShouldBeClosed()
      reads record
    {
      record.complete
    }

    /**
      should_be_iced(max_count): some single error key has been logged more than maxCount
      times. An empty record counts as 0, so it is iced only by a negative limit.
    */
    function ShouldBeIced(maxCount: int): (r: bool)
      reads record
      ensures Valid() ==> (r <==> ((record.errs == [] && maxCount < 0)
        || exists i :: 0 <= i < |record.errs| && record.errs[i].count > maxCount))
    {
      MaxCountMeaning(record.errs);
      MaxCount(record.errs) > maxCount
    }
  }

  /** The fp argument value that asks the factory to derive the path from the URL. */
  const DEFAULT_FP: string := "DEFAULT"

  /** Builds cases, filling in a file path inside its default directory when asked to. */
  class CaseFactory {
    const defaultDirectory: Option<string>

    constructor(defaultDirectory: Option<string>)
      ensures this.defaultDirectory == defaultDirectory
    {
      this.defaultDirectory := defaultDirectory;
    }

    /**
      default_file_path: the file name placed in the default directory; AttributeError
      when the factory has none. A bare file name is the basename of the path it yields.
    */
    function DefaultFilePath(fileName: string): (r: Result<string, Error>)
      ensures r.Err? <==> defaultDirectory.None?
      ensures r.Err? ==> r.error == AttributeError
      ensures r.Ok? ==> r.value == Join(defaultDirectory.value, fileName)
      ensures r.Ok? && '/' !in fileName ==> Basename(r.value) == fileName
    {
      match defaultDirectory
      case None => Err(AttributeError)
      case Some(dir) =>
        if '/' !in fileName then
          BasenameOfJoin(dir, fileName);
          Ok(Join(dir, fileName))
        else
          Ok(Join(dir, fileName))
    }

    /**
      The path case(url, fp) gives its Case: an explicit fp unchanged; for "DEFAULT" the
      URL's basename inside the default directory, so the path and the URL share their
      basename; AttributeError when that is asked for without a default directory.
    */
    function CasePath(url: string, fp: string): (r: Result<string, Error>)
      ensures fp != DEFAULT_FP ==> r == Ok(fp)
      ensures fp == DEFAULT_FP ==> (r.Err? <==> defaultDirectory.None?)
      ensures r.Err? ==> r.error == AttributeError
      ensures fp == DEFAULT_FP && r.Ok? ==>
        r.value == Join(defaultDirectory.value, Basename(url)) && Basename(r.value) == Basename(url)
    {
      if fp == DEFAULT_FP then DefaultFilePath(Basename(url)) else Ok(fp)
    }

    /** case(url, fp): a new Case for url stored at CasePath(url, fp), or the error that path raises. */
    method NewCase(url: string, fp: string) returns (r: Result<Case, Error>)
      ensures r.Err? <==> CasePath(url, fp).Err?
      ensures r.Err? ==> r.error == CasePath(url, fp).error
      ensures r.Ok? ==> fresh(r.value) && fresh(r.value.record) && r.value.Valid()
      ensures r.Ok? ==> r.value.url == url && r.value.fp == CasePath(url, fp).value
      ensures r.Ok? ==> r.value.record.errs == [] && !r.value.record.complete
    {
      var path := CasePath(url, fp);
      if path.Err? {
        return Err(path.error);
      }
      var c := new Case(url, path.value);
      return Ok(c);
    }
  }
}
