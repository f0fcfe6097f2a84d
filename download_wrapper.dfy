/**
  script/downloadWrapper.py: the list and string helpers of the wrapper script that
  spreads a large set of downloads. Directories are parameters, and whether a file
  exists is an oracle `isFile` on paths.
*/
module DownloadWrapper {
  import opened Paths
  import opened Lists

  /** Worker processes used for completeness checks, and the number of groups they get. */
  const MAX_NUM_PROCS: int := 25

  /** The width, in characters, of a console line. */
  const MAX_OUTPUT_LEN: int := 80

  /** The literal text the URL pattern looks for. */
  const PARAM: string := "download="

  /** "download=" starts at position i of s. */
  predicate ParamAt(s: string, i: int)
  {
    0 <= i && i + |PARAM| <= |s| && s[i..i + |PARAM|] == PARAM
  }

  /**
    re.match(".*download=.*", s): the pattern is anchored at the start and '.' does not
    match a newline, so "download=" must begin before the first newline of s.
  */
  function DownloadParamMatch(s: string): bool
    decreases |s|
  {
    if |s| < |PARAM| then false
    else if s[..|PARAM|] == PARAM then true
    else if s[0] == '\n' then false
    else DownloadParamMatch(s[1..])
  }

  /** The pattern matches exactly when "download=" occurs with no newline before it. */
  lemma {:induction false} DownloadParamMatchMeaning(s: string)
    ensures DownloadParamMatch(s) <==> exists i :: ParamAt(s, i) && '\n' !in s[..i]
    decreases |s|
  {
    if |s| < |PARAM| {
      assert forall i :: !ParamAt(s, i);
    } else if s[..|PARAM|] == PARAM {
      assert ParamAt(s, 0) && s[..0] == [];
    } else if s[0] == '\n' {
      forall i | ParamAt(s, i) ensures '\n' in s[..i] {
        if i != 0 {
          assert s[..i][0] == '\n';
        }
      }
    } else {
      var t := s[1..];
      DownloadParamMatchMeaning(t);
      if DownloadParamMatch(t) {
        var j :| ParamAt(t, j) && '\n' !in t[..j];
        ShiftParam(s, j + 1);
        assert ParamAt(s, j + 1) && '\n' !in s[..j + 1];
      } else {
        forall i | ParamAt(s, i) ensures '\n' in s[..i] {
          if i != 0 {
            ShiftParam(s, i);
            assert '\n' in t[..i - 1];
          }
        }
      }
    }
  }

  /** Dropping the first character moves every occurrence of "download=" one place left. */
  lemma ShiftParam(s: string, i: int)
    requires |s| > 0 && i >= 1
    ensures ParamAt(s, i) <==> ParamAt(s[1..], i - 1)
    ensures i <= |s| ==> s[..i] == [s[0]] + s[1..][..i - 1]
  {
    if i + |PARAM| <= |s| {
      TailSlice(s, i, i + |PARAM|);
    } else if i <= |s| {
      TailSlice(s, i, i);
    }
  }

  /** A URL sanitizeURLList keeps: the pattern does not match it. */
  predicate KeepURL(url: string)
  {
    !DownloadParamMatch(url)
  }

  /** sanitizeURLList: the URLs the pattern does not match, in their order. */
  method SanitizeURLList(urls: seq<string>) returns (sanitized: seq<string>)
    ensures sanitized == Filter(urls, KeepURL)
  {
    sanitized := [];
    for i := 0 to |urls|
      invariant sanitized == Filter(urls[..i], KeepURL)
    {
      assert urls[..i + 1] == urls[..i] + [urls[i]];
      FilterSnoc(urls[..i], urls[i], KeepURL);
      if !DownloadParamMatch(urls[i]) {
        sanitized := sanitized + [urls[i]];
      }
    }
    assert urls[..|urls|] == urls;
  }

  /**
    What sanitizeURLList returns: a subsequence of its input holding exactly the input's
    URLs without "download=" before a newline, and sanitizing it again changes nothing.
  */
  lemma SanitizedURLs(urls: seq<string>)
    ensures var r := Filter(urls, KeepURL);
      && Subsequence(r, urls)
      && (forall u :: u in r <==> u in urls && !(exists i :: ParamAt(u, i) && '\n' !in u[..i]))
      && Filter(r, KeepURL) == r
  {
    var r := Filter(urls, KeepURL);
    FilterSubsequence(urls, KeepURL);
    FilterIdempotent(urls, KeepURL);
    forall u ensures u in r <==> u in urls && !(exists i :: ParamAt(u, i) && '\n' !in u[..i]) {
      DownloadParamMatchMeaning(u);
    }
  }

  /** ch repeated n times. */
  function Repeat(ch: string, n: nat): (r: string)
    ensures |r| == n * |ch|
  {
    if n == 0 then [] else Repeat(ch, n - 1) + ch
  }

  /**
    fillLineRemainder: append copies of ch to line until it is at least l long. With an
    empty ch and a short line the source loops forever, so that case is excluded.
  */
  method FillLineRemainder(line: string, ch: string, l: int) returns (r: string)
    requires |ch| > 0 || |line| >= l
    ensures |line| >= l ==> r == line
    ensures |line| < l ==> exists n: nat :: r == line + Repeat(ch, n)
    ensures |line| < l ==> l <= |r| < l + |ch|
    ensures |ch| == 1 ==> |r| == (if |line| >= l then |line| else l)
  {
    r := line;
    ghost var n: nat := 0;
    while |r| < l
      invariant r == line + Repeat(ch, n)
      invariant n == 0 || |r| < l + |ch|
      invariant |r| == |line| + n * |ch|
      decreases l - |r|
    {
      r := r + ch;
      n := n + 1;
    }
  }

  /** Python's s[lo:hi] for non-negative bounds: both clamped to the length. */
  function Slice<A>(s: seq<A>, lo: nat, hi: nat): (r: seq<A>)
    ensures lo <= hi <= |s| ==> r == s[lo..hi]
    ensures |r| <= |s|
  {
    var a := if lo < |s| then lo else |s|;
    var b := if hi < |s| then hi else |s|;
    if b < a then [] else s[a..b]
  }

  /**
    Group i of divideIntoGroups, with groups of `size` items: a slice of `size` items from
    i * size, except that once (i + 1) * size passes the last index it takes everything
    from i * size on.
  */
  function GroupAt<A>(params: seq<A>, i: nat, size: nat): seq<A>
  {
    if (i + 1) * size > |params| - 1 then Slice(params, i * size, |params|)
    else Slice(params, i * size, (i + 1) * size)
  }

  /** The groups divideIntoGroups returns: num_groups of them, sized by MAX_NUM_PROCS. */
  function Groups<A>(params: seq<A>, numGroups: int): (gs: seq<seq<A>>)
    ensures |gs| == (if numGroups < 0 then 0 else numGroups)
  {
    var n := if numGroups < 0 then 0 else numGroups;
    seq(n, i requires 0 <= i < n => GroupAt(params, i, |params| / MAX_NUM_PROCS))
  }

  /** divideIntoGroups: build the groups one by one. */
  method DivideIntoGroups<A>(params: seq<A>, numGroups: int) returns (groups: seq<seq<A>>)
    ensures groups == Groups(params, numGroups)
  {
    groups := [];
    var size := |params| / MAX_NUM_PROCS;
    var i := 0;
    while i < numGroups
      invariant 0 <= i && (numGroups >= 0 ==> i <= numGroups) && (numGroups < 0 ==> i == 0)
      invariant |groups| == i
      invariant forall j :: 0 <= j < i ==> groups[j] == GroupAt(params, j, size)
    {
      var g;
      if (i + 1) * size > |params| - 1 {
        g := params[if i * size < |params| then i * size else |params|..];
      } else {
        g := params[i * size..(i + 1) * size];
      }
      groups := groups + [g];
      i := i + 1;
    }
  }

  /** The groups joined end to end. */
  function Flatten<A>(gs: seq<seq<A>>): seq<A>
  {
    if gs == [] then [] else Flatten(gs[..|gs| - 1]) + gs[|gs| - 1]
  }

  /** With MAX_NUM_PROCS groups every group is the slice of `size` items at its position. */
  lemma UniformGroups<A>(params: seq<A>, i: nat)
    requires i < MAX_NUM_PROCS
    ensures var size := |params| / MAX_NUM_PROCS;
      (i + 1) * size <= |params| && GroupAt(params, i, size) == params[i * size..(i + 1) * size]
  {
    var size := |params| / MAX_NUM_PROCS;
    var rest := |params| % MAX_NUM_PROCS;
    assert |params| == MAX_NUM_PROCS * size + rest;
    assert (i + 1) * size <= MAX_NUM_PROCS * size by {
      MulMono(i + 1, MAX_NUM_PROCS, size);
    }
    if (i + 1) * size > |params| - 1 {
      if i + 1 < MAX_NUM_PROCS {
        MulMono(i + 2, MAX_NUM_PROCS, size);
        assert (i + 2) * size == (i + 1) * size + size;
        assert size == 0;
      }
      assert (i + 1) * size == |params|;
    }
  }

  lemma MulMono(a: nat, b: nat, c: nat)
    requires a <= b
    ensures a * c <= b * c
  {
  }

  /**
    divideIntoGroups as beginCompletenessCheck calls it (MAX_NUM_PROCS groups): the groups
    joined give back the items up to the last multiple of MAX_NUM_PROCS, so the remaining
    |params| mod MAX_NUM_PROCS items are in no group, and all items are kept exactly
    when their number is a multiple of MAX_NUM_PROCS.
  */
  lemma DivideLosesRemainder<A>(params: seq<A>)
    ensures Flatten(Groups(params, MAX_NUM_PROCS)) == params[..|params| - |params| % MAX_NUM_PROCS]
    ensures |params| % MAX_NUM_PROCS == 0 <==> Flatten(Groups(params, MAX_NUM_PROCS)) == params
  {
    var gs := Groups(params, MAX_NUM_PROCS);
    var size := |params| / MAX_NUM_PROCS;
    FlattenPrefix(params, MAX_NUM_PROCS);
    assert gs[..MAX_NUM_PROCS] == gs;
    assert MAX_NUM_PROCS * size == |params| - |params| % MAX_NUM_PROCS;
  }

  lemma {:induction false} FlattenPrefix<A>(params: seq<A>, k: nat)
    requires k <= MAX_NUM_PROCS
    ensures var size := |params| / MAX_NUM_PROCS;
      k * size <= |params| && Flatten(Groups(params, MAX_NUM_PROCS)[..k]) == params[..k * size]
  {
    var gs := Groups(params, MAX_NUM_PROCS);
    var size := |params| / MAX_NUM_PROCS;
    if k == 0 {
      assert gs[..0] == [];
    } else {
      var lo, hi := (k - 1) * size, k * size;
      assert hi == lo + size;
      FlattenPrefix(params, k - 1);
      UniformGroups(params, k - 1);
      FlattenSnoc(gs, k, params, lo, hi);
    }
  }

  /** One more group, the slice that follows the prefix flattened so far, extends the prefix. */
  lemma FlattenSnoc<A>(gs: seq<seq<A>>, k: nat, s: seq<A>, lo: nat, hi: nat)
    requires 1 <= k <= |gs| && lo <= hi <= |s|
    requires Flatten(gs[..k - 1]) == s[..lo] && gs[k - 1] == s[lo..hi]
    ensures Flatten(gs[..k]) == s[..hi]
  {
    var pre := gs[..k];
    assert pre[..k - 1] == gs[..k - 1];
    assert s[..lo] + s[lo..hi] == s[..hi];
  }

  /** getFileNames: the basename of every path, in order. */
  function FileNames(paths: seq<string>): (names: seq<string>)
    ensures |names| == |paths|
    ensures forall i :: 0 <= i < |paths| ==> names[i] == Basename(paths[i]) && '/' !in names[i]
  {
    seq(|paths|, i requires 0 <= i < |paths| => Basename(paths[i]))
  }

  /** File names joined to a directory come back unchanged from getFileNames. */
  lemma FileNamesOfJoined(dir: string, names: seq<string>)
    requires forall i :: 0 <= i < |names| ==> '/' !in names[i]
    ensures FileNames(seq(|names|, i requires 0 <= i < |names| => Join(dir, names[i]))) == names
  {
    forall i | 0 <= i < |names| {
      BasenameOfJoin(dir, names[i]);
    }
  }

  /** Where the download of a URL is saved: the URL's basename in the download directory. */
  function LocalPath(dir: string, url: string): string
  {
    Join(dir, Basename(url))
  }

  /** A local file keeps the basename of its URL, whatever the directory. */
  lemma LocalPathBasename(dir: string, url: string)
    ensures Basename(LocalPath(dir, url)) == Basename(url)
  {
    BasenameOfJoin(dir, Basename(url));
  }

  function NotOnDisk(dir: string, isFile: string -> bool): string -> bool
  {
    url => !isFile(LocalPath(dir, url))
  }

  function OnDisk(dir: string, isFile: string -> bool): string -> bool
  {
    url => isFile(LocalPath(dir, url))
  }

  /** Each URL paired with the path of its local file. */
  function WithPaths(urls: seq<string>, dir: string): (ps: seq<(string, string)>)
    ensures |ps| == |urls|
    ensures forall i :: 0 <= i < |urls| ==> ps[i] == (urls[i], LocalPath(dir, urls[i]))
  {
    if urls == [] then []
    else WithPaths(urls[..|urls| - 1], dir) + [(urls[|urls| - 1], LocalPath(dir, urls[|urls| - 1]))]
  }

  /**
    findUndownloadedFiles: the URLs whose file is missing from the download directory,
    and the (url, path) pairs of those whose file is there, both in input order.
  */
  method FindUndownloadedFiles(urls: seq<string>, downloadDirectory: string, isFile: string -> bool)
    returns (toDl: seq<string>, dlCheckParams: seq<(string, string)>)
    ensures toDl == Filter(urls, NotOnDisk(downloadDirectory, isFile))
    ensures dlCheckParams == WithPaths(Filter(urls, OnDisk(downloadDirectory, isFile)), downloadDirectory)
  {
    toDl := [];
    dlCheckParams := [];
    for i := 0 to |urls|
      invariant toDl == Filter(urls[..i], NotOnDisk(downloadDirectory, isFile))
      invariant dlCheckParams == WithPaths(Filter(urls[..i], OnDisk(downloadDirectory, isFile)), downloadDirectory)
    {
      var u := urls[i];
      var fp := LocalPath(downloadDirectory, u);
      TakeSnoc(urls, i);
      NotOnDiskStep(urls[..i], u, downloadDirectory, isFile);
      OnDiskStep(urls[..i], u, downloadDirectory, isFile);
      if !isFile(fp) {
        toDl := toDl + [u];
      } else {
        dlCheckParams := dlCheckParams + [(u, fp)];
      }
    }
    assert urls[..|urls|] == urls;
  }

  /** One more URL of the findUndownloadedFiles loop: it joins the URLs to download exactly when its file is missing. */
  lemma NotOnDiskStep(done: seq<string>, u: string, dir: string, isFile: string -> bool)
    ensures Filter(done + [u], NotOnDisk(dir, isFile))
      == Filter(done, NotOnDisk(dir, isFile)) + (if !isFile(LocalPath(dir, u)) then [u] else [])
  {
    var p := NotOnDisk(dir, isFile);
    FilterSnoc(done, u, p);
    assert p(u) == !isFile(LocalPath(dir, u));
  }

  /** One more URL of the findUndownloadedFiles loop: it joins the pairs exactly when its file exists. */
  lemma OnDiskStep(done: seq<string>, u: string, dir: string, isFile: string -> bool)
    ensures var fp := LocalPath(dir, u);
      WithPaths(Filter(done + [u], OnDisk(dir, isFile)), dir)
        == WithPaths(Filter(done, OnDisk(dir, isFile)), dir) + (if isFile(fp) then [(u, fp)] else [])
  {
    var q := OnDisk(dir, isFile);
    var f := Filter(done, q);
    FilterSnoc(done, u, q);
    if q(u) {
      assert Filter(done + [u], q) == f + [u];
      WithPathsSnoc(f, u, dir);
    } else {
      assert Filter(done + [u], q) == f;
    }
  }

  lemma WithPathsSnoc(urls: seq<string>, u: string, dir: string)
    ensures WithPaths(urls + [u], dir) == WithPaths(urls, dir) + [(u, LocalPath(dir, u))]
  {
    assert (urls + [u])[..|urls|] == urls;
  }

  /**
    The two lists of findUndownloadedFiles split the input: every URL lands in exactly
    one of them, by whether its local file exists, and none is lost or duplicated.
  */
  lemma UndownloadedPartition(urls: seq<string>, dir: string, isFile: string -> bool)
    ensures var toDl := Filter(urls, NotOnDisk(dir, isFile));
      var params := WithPaths(Filter(urls, OnDisk(dir, isFile)), dir);
      && |toDl| + |params| == |urls|
      && (forall u :: u in toDl <==> u in urls && !isFile(LocalPath(dir, u)))
      && (forall u, fp :: (u, fp) in params <==> u in urls && isFile(LocalPath(dir, u)) && fp == LocalPath(dir, u))
  {
    var on := Filter(urls, OnDisk(dir, isFile));
    FilterPartition(urls, NotOnDisk(dir, isFile), OnDisk(dir, isFile));
    var params := WithPaths(on, dir);
    forall u, fp ensures (u, fp) in params <==> u in urls && isFile(LocalPath(dir, u)) && fp == LocalPath(dir, u) {
      if (u, fp) in params {
        var i :| 0 <= i < |params| && params[i] == (u, fp);
        assert on[i] in on;
      }
      if u in urls && isFile(LocalPath(dir, u)) && fp == LocalPath(dir, u) {
        assert u in on;
        var i :| 0 <= i < |on| && on[i] == u;
        assert params[i] == (u, fp);
      }
    }
  }

  /** A check whose report file is absent from the reports directory. */
  function NotChecked(reportsDirectory: string, isFile: string -> bool): ((string, string)) -> bool
  {
    (p: (string, string)) => !isFile(Join(reportsDirectory, Basename(p.1)))
  }

  /** getUncheckedFiles: the (url, path) pairs without a report file, in input order. */
  method GetUncheckedFiles(params: seq<(string, string)>, reportsDirectory: string, isFile: string -> bool)
    returns (notChecked: seq<(string, string)>)
    ensures notChecked == Filter(params, NotChecked(reportsDirectory, isFile))
    ensures Subsequence(notChecked, params)
    ensures forall p :: p in notChecked <==> p in params && !isFile(Join(reportsDirectory, Basename(p.1)))
  {
    notChecked := [];
    var keep := NotChecked(reportsDirectory, isFile);
    for i := 0 to |params|
      invariant notChecked == Filter(params[..i], keep)
    {
      assert params[..i + 1] == params[..i] + [params[i]];
      FilterSnoc(params[..i], params[i], keep);
      var reportFp := Join(reportsDirectory, Basename(params[i].1));
      if !isFile(reportFp) {
        notChecked := notChecked + [params[i]];
      }
    }
    assert params[..|params|] == params;
    FilterSubsequence(params, keep);
  }
}
