/**
  The one-pass scan that splices checkpoints into the log: readLoop, and what
  its result means without reference to the scan.
 */
module Reader {
  import opened Options
  import opened Records

  /** A checkpoint file: its checksum, and its records if all its bytes decode. */
  datatype CkptFile = CkptFile(checksum: string, decoded: Option<seq<Record>>)

  type Files = map<string, CkptFile>

  /** The variables of readLoop, and the files it has not deleted. */
  datatype Scan = Scan(records: seq<Record>, lastBegin: nat, name: string, ckptLSN: nat, files: Files)

  /** The first index whose LSN is beyond `lsn`. */
  function SplitAt(records: seq<Record>, lsn: nat): (i: nat)
    ensures i <= |records|
    ensures forall k :: 0 <= k < i ==> records[k].lsn <= lsn
    ensures i < |records| ==> records[i].lsn > lsn
  {
    if records == [] || records[0].lsn > lsn then 0 else 1 + SplitAt(records[1..], lsn)
  }

  /** resolveCheckpoint: the records of the named file if the checksum matches and all of it decodes. */
  function Resolve(files: Files, op: Op): Option<seq<Record>>
    requires op.EndCheckpoint?
  {
    if op.fileName in files && files[op.fileName].checksum == op.fileChecksum then files[op.fileName].decoded else None
  }

  /** The same call deletes a file whose checksum does not match. */
  function FilesAfter(files: Files, op: Op): Files
    requires op.EndCheckpoint?
  {
    if op.fileName in files && files[op.fileName].checksum != op.fileChecksum then files - {op.fileName} else files
  }

  function Step(s: Scan, r: Record): Scan {
    match r.op
    case BeginCheckpoint => s.(lastBegin := r.lsn, records := s.records + [r])
    case EndCheckpoint(name, _) =>
      var files := FilesAfter(s.files, r.op);
      (match Resolve(s.files, r.op)
       case None => s.(records := s.records + [r], files := files)
       case Some(recs) =>
         Scan(recs + s.records[SplitAt(s.records, s.lastBegin)..] + [r], s.lastBegin, name, s.lastBegin, files))
    case _ => s.(records := s.records + [r])
  }

  function Run(files: Files, log: seq<Record>): Scan {
    if log == [] then Scan([], 0, "", 0, files) else Step(Run(files, log[..|log| - 1]), log[|log| - 1])
  }

  // ---- What the result means ----

  ghost predicate IsEnd(log: seq<Record>, i: int) {
    0 <= i < |log| && log[i].op.EndCheckpoint?
  }

  /** No END before position i contradicts the checksum of the file `op` names. */
  ghost predicate Undisputed(log: seq<Record>, i: int, op: Op)
    requires op.EndCheckpoint? && i <= |log|
  {
    forall j :: 0 <= j < i && log[j].op.EndCheckpoint? && log[j].op.fileName == op.fileName
      ==> log[j].op.fileChecksum == op.fileChecksum
  }

  /** The END at position i names an intact file that no earlier END made the scan delete. */
  ghost predicate Resolves(files: Files, log: seq<Record>, i: int) {
    IsEnd(log, i) && Resolve(files, log[i].op).Some? && Undisputed(log, i, log[i].op)
  }

  /** The records of the file that the END at position i names. */
  ghost function Contents(files: Files, log: seq<Record>, i: int): seq<Record>
    requires Resolves(files, log, i)
  {
    Resolve(files, log[i].op).value
  }

  /** The LSN of the last BEGIN in `log`, 0 if there is none. */
  function LastBegin(log: seq<Record>): nat {
    if log == [] then 0
    else if log[|log| - 1].op.BeginCheckpoint? then log[|log| - 1].lsn
    else LastBegin(log[..|log| - 1])
  }

  /** The records of `log` with an LSN beyond `lsn`. */
  function After(log: seq<Record>, lsn: nat): seq<Record> {
    if log == [] then []
    else After(log[..|log| - 1], lsn) + (if log[|log| - 1].lsn > lsn then [log[|log| - 1]] else [])
  }

  ghost predicate Increasing(log: seq<Record>) {
    (forall i :: 0 <= i < |log| ==> 0 < log[i].lsn) &&
    (forall i, j :: 0 <= i < j < |log| ==> log[i].lsn < log[j].lsn)
  }

  /** Position e holds the last END that resolves. */
  ghost predicate LastResolving(files: Files, log: seq<Record>, e: int) {
    Resolves(files, log, e) && forall j :: e < j < |log| ==> !Resolves(files, log, j)
  }

  // ---- Lemmas along the scan ----

  lemma {:induction false} FilesAlong(files: Files, log: seq<Record>, name: string)
    ensures name in Run(files, log).files <==>
              name in files && forall j :: IsEnd(log, j) && log[j].op.fileName == name
                                 ==> log[j].op.fileChecksum == files[name].checksum
    ensures name in Run(files, log).files ==> Run(files, log).files[name] == files[name]
    decreases |log|
  {
    if log != [] {
      var n := |log| - 1;
      FilesAlong(files, log[..n], name);
      forall j | 0 <= j < n ensures IsEnd(log[..n], j) <==> IsEnd(log, j) {
        assert log[..n][j] == log[j];
      }
      assert forall j :: IsEnd(log, j) ==> j == n || IsEnd(log[..n], j);
    }
  }

  lemma {:induction false} LastBeginAlong(files: Files, log: seq<Record>)
    ensures Run(files, log).lastBegin == LastBegin(log)
    decreases |log|
  {
    if log != [] {
      LastBeginAlong(files, log[..|log| - 1]);
    }
  }

  /** The scan resolves an END exactly when the declarative reading says it resolves. */
  lemma ResolvesAlong(files: Files, log: seq<Record>)
    requires log != [] && log[|log| - 1].op.EndCheckpoint?
    ensures
      var n := |log| - 1;
      var got := Resolve(Run(files, log[..n]).files, log[n].op);
      && (got.Some? <==> Resolves(files, log, n))
      && (got.Some? ==> got == Resolve(files, log[n].op))
  {
    var n := |log| - 1;
    FilesAlong(files, log[..n], log[n].op.fileName);
    assert forall j :: 0 <= j < n ==> log[..n][j] == log[j];
  }

  lemma ResolvesPrefix(files: Files, log: seq<Record>, n: int, j: int)
    requires 0 <= j < n <= |log|
    ensures Resolves(files, log[..n], j) <==> Resolves(files, log, j)
  {
    assert forall i :: 0 <= i < n ==> log[..n][i] == log[i];
  }

  lemma {:induction false} LastBeginMonotone(log: seq<Record>, n: int)
    requires Increasing(log) && 0 <= n <= |log|
    ensures LastBegin(log[..n]) <= LastBegin(log)
    ensures log != [] ==> LastBegin(log[..|log| - 1]) < log[|log| - 1].lsn
    ensures
      || LastBegin(log) == 0
      || exists i :: 0 <= i < |log| && log[i].op.BeginCheckpoint? && log[i].lsn == LastBegin(log)
    decreases |log|
  {
    if log != [] {
      var m := |log| - 1;
      var n' := if n > m then m else n;
      LastBeginMonotone(log[..m], n');
      assert log[..m][..n'] == log[..n'];
      if n > m { assert log[..n] == log; }
      if LastBegin(log[..m]) != 0 {
        var i :| 0 <= i < m && log[..m][i].op.BeginCheckpoint? && log[..m][i].lsn == LastBegin(log[..m]);
        assert log[i] == log[..m][i];
      }
    }
  }

  /** Every record that came from a checkpoint file carries an LSN of at most `bound`. */
  ghost predicate FilesWithin(files: Files, log: seq<Record>, bound: nat) {
    forall j, r :: Resolves(files, log, j) && r in Contents(files, log, j) ==> r.lsn <= bound
  }

  lemma FilesWithinPrefix(files: Files, log: seq<Record>, bound: nat, n: int)
    requires FilesWithin(files, log, bound) && 0 <= n <= |log|
    ensures FilesWithin(files, log[..n], bound)
  {
    forall j, r | Resolves(files, log[..n], j) && r in Contents(files, log[..n], j) ensures r.lsn <= bound {
      ResolvesPrefix(files, log, n, j);
      assert log[..n][j] == log[j];
    }
  }

  /** One step of the scan, told by whether the record is an END that resolves. */
  lemma RunStep(files: Files, log: seq<Record>)
    requires log != []
    ensures
      var n := |log| - 1;
      var s := Run(files, log[..n]);
      if Resolves(files, log, n) then
        && Run(files, log).records == Contents(files, log, n) + s.records[SplitAt(s.records, s.lastBegin)..] + [log[n]]
        && Run(files, log).name == log[n].op.fileName
        && Run(files, log).ckptLSN == s.lastBegin
      else
        && Run(files, log).records == s.records + [log[n]]
        && Run(files, log).name == s.name
        && Run(files, log).ckptLSN == s.ckptLSN
  {
    if log[|log| - 1].op.EndCheckpoint? { ResolvesAlong(files, log); }
  }

  /** What the scan returns was in the log or in some checkpoint file. */
  lemma {:induction false} ScannedFrom(files: Files, log: seq<Record>, r: Record)
    requires r in Run(files, log).records
    ensures r in log || exists name :: name in files && files[name].decoded.Some? && r in files[name].decoded.value
    decreases |log|
  {
    RunStep(files, log);
    hide Resolves, Run, SplitAt, Contents;
    var n := |log| - 1;
    var s := Run(files, log[..n]);
    assert log == log[..n] + [log[n]];
    if r != log[n] {
      if r in s.records {
        ScannedFrom(files, log[..n], r);
      } else {
        ResolvedContents(files, log, n);
      }
    }
  }

  lemma ResolvedContents(files: Files, log: seq<Record>, i: int)
    requires Resolves(files, log, i)
    ensures
      var name := log[i].op.fileName;
      name in files && files[name].decoded == Some(Contents(files, log, i))
  {
  }

  /** While nothing resolves, the scan only accumulates. */
  lemma {:induction false} NothingResolves(files: Files, log: seq<Record>)
    requires forall j :: !Resolves(files, log, j)
    ensures Run(files, log).records == log && Run(files, log).name == "" && Run(files, log).ckptLSN == 0
    decreases |log|
  {
    hide Resolves;
    if log != [] {
      var n := |log| - 1;
      var front := log[..n];
      NonePrefix(files, log, n);
      NothingResolves(files, front);
      RunStep(files, log);
      assert log == front + [log[n]];
    }
  }

  lemma NonePrefix(files: Files, log: seq<Record>, n: nat)
    requires n <= |log| && forall j :: !Resolves(files, log, j)
    ensures forall j :: !Resolves(files, log[..n], j)
  {
    forall j ensures !Resolves(files, log[..n], j) {
      if 0 <= j < n { ResolvesPrefix(files, log, n, j); }
    }
  }

  /** Records out of files with LSNs up to `bound`, then an unbroken stretch
      of the log up to here; all that was dropped is no newer than `begin`. */
  ghost predicate Shaped(records: seq<Record>, fromFiles: seq<Record>, c: nat, log: seq<Record>, bound: nat,
                         begin: nat) {
    && c <= |log| && records == fromFiles + log[c..]
    && (forall r :: r in fromFiles ==> r.lsn <= bound)
    && (forall k :: 0 <= k < c ==> log[k].lsn <= begin)
  }

  lemma ShapedSnoc(records: seq<Record>, fromFiles: seq<Record>, c: nat, log: seq<Record>, bound: nat, begin: nat,
                   begin': nat)
    requires log != [] && Shaped(records, fromFiles, c, log[..|log| - 1], bound, begin) && begin <= begin'
    ensures Shaped(records + [log[|log| - 1]], fromFiles, c, log, bound, begin')
  {
    var n := |log| - 1;
    assert log[c..] == log[..n][c..] + [log[n]];
    assert forall k :: 0 <= k < n ==> log[..n][k] == log[k];
  }

  /** Where the split falls: inside the records out of files, or inside the log. */
  lemma ShapedSplit(records: seq<Record>, fromFiles: seq<Record>, c: nat, log: seq<Record>, bound: nat, begin: nat)
    returns (fromFiles': seq<Record>, c': nat)
    requires Shaped(records, fromFiles, c, log, bound, begin)
    ensures Shaped(records[SplitAt(records, begin)..], fromFiles', c', log, bound, begin)
    ensures bound <= begin ==> fromFiles' == [] && (c' < |log| ==> log[c'].lsn > begin)
  {
    var i := SplitAt(records, begin);
    if i < |fromFiles| {
      fromFiles', c' := fromFiles[i..], c;
      SplitInFiles(records, fromFiles, c, log, bound, begin, i);
    } else {
      fromFiles', c' := [], c + i - |fromFiles|;
      SplitInLog(records, fromFiles, c, log, bound, begin, i);
    }
  }

  lemma SplitInFiles(records: seq<Record>, fromFiles: seq<Record>, c: nat, log: seq<Record>, bound: nat, begin: nat,
                     i: nat)
    requires Shaped(records, fromFiles, c, log, bound, begin) && i < |fromFiles| && records[i].lsn > begin
    ensures Shaped(records[i..], fromFiles[i..], c, log, bound, begin) && bound > begin
  {
    assert records[i] == fromFiles[i] && fromFiles[i] in fromFiles;
    assert records[i..] == fromFiles[i..] + log[c..];
    forall r | r in fromFiles[i..] ensures r in fromFiles {}
  }

  lemma SplitInLog(records: seq<Record>, fromFiles: seq<Record>, c: nat, log: seq<Record>, bound: nat, begin: nat,
                   i: nat)
    requires Shaped(records, fromFiles, c, log, bound, begin) && |fromFiles| <= i <= |records|
    requires forall k :: 0 <= k < i ==> records[k].lsn <= begin
    requires i < |records| ==> records[i].lsn > begin
    ensures
      var c' := c + i - |fromFiles|;
      Shaped(records[i..], [], c', log, bound, begin) && (c' < |log| ==> log[c'].lsn > begin)
  {
    var c' := c + i - |fromFiles|;
    assert records[i..] == [] + log[c'..];
    forall k | c <= k < c' ensures log[k].lsn <= begin {
      assert records[k - c + |fromFiles|] == log[k];
    }
    assert c' < |log| ==> records[i] == log[c'];
  }

  lemma {:induction false} Shape(files: Files, log: seq<Record>, bound: nat) returns (fromFiles: seq<Record>, c: nat)
    requires Increasing(log) && FilesWithin(files, log, bound)
    ensures Shaped(Run(files, log).records, fromFiles, c, log, bound, LastBegin(log))
    decreases |log|
  {
    if log == [] {
      fromFiles, c := [], 0;
    } else {
      var n := |log| - 1;
      FilesWithinPrefix(files, log, bound, n);
      fromFiles, c := Shape(files, log[..n], bound);
      var s := Run(files, log[..n]);
      LastBeginMonotone(log, n);
      LastBeginAlong(files, log[..n]);
      RunStep(files, log);
      if Resolves(files, log, n) {
        var rest := s.records[SplitAt(s.records, s.lastBegin)..];
        fromFiles, c := ShapedSplit(s.records, fromFiles, c, log[..n], bound, s.lastBegin);
        ShapedPrepend(Contents(files, log, n), rest, fromFiles, c, log[..n], bound, s.lastBegin);
        fromFiles := Contents(files, log, n) + fromFiles;
        ShapedSnoc(Contents(files, log, n) + rest, fromFiles, c, log, bound, s.lastBegin, LastBegin(log));
      } else {
        ShapedSnoc(s.records, fromFiles, c, log, bound, s.lastBegin, LastBegin(log));
      }
    }
  }

  lemma ShapedPrepend(file: seq<Record>, records: seq<Record>, fromFiles: seq<Record>, c: nat, log: seq<Record>,
                      bound: nat, begin: nat)
    requires Shaped(records, fromFiles, c, log, bound, begin) && forall r :: r in file ==> r.lsn <= bound
    ensures Shaped(file + records, file + fromFiles, c, log, bound, begin)
  {
    assert file + records == (file + fromFiles) + log[c..];
  }

  lemma {:induction false} AfterIsSuffix(log: seq<Record>, lsn: nat, c: nat)
    requires c <= |log|
    requires forall k :: 0 <= k < c ==> log[k].lsn <= lsn
    requires forall k :: c <= k < |log| ==> log[k].lsn > lsn
    ensures After(log, lsn) == log[c..]
    decreases |log|
  {
    if log != [] {
      var n := |log| - 1;
      if c <= n {
        AfterIsSuffix(log[..n], lsn, c);
        assert log[c..] == log[..n][c..] + [log[n]];
      } else {
        AfterIsSuffix(log[..n], lsn, n);
        assert log[c..] == [];
      }
    }
  }

  lemma NewerThan(rest: seq<Record>, log: seq<Record>, b: nat, c: nat)
    requires Increasing(log) && log != [] && b < log[|log| - 1].lsn
    requires Shaped(rest, [], c, log[..|log| - 1], b, b)
    requires c < |log| - 1 ==> log[..|log| - 1][c].lsn > b
    ensures rest + [log[|log| - 1]] == After(log, b)
  {
    ShapedSnoc(rest, [], c, log, b, b, b);
    assert c < |log| && log[c].lsn > b;
    AfterIsSuffix(log, b, c);
    assert [] + log[c..] == log[c..];
  }

  /** Splitting at the last BEGIN drops what came from files and leaves what is newer than it. */
  lemma SplitMeans(files: Files, log: seq<Record>)
    requires Increasing(log) && log != [] && !log[|log| - 1].op.BeginCheckpoint?
    requires FilesWithin(files, log[..|log| - 1], LastBegin(log))
    ensures
      var s := Run(files, log[..|log| - 1]);
      s.records[SplitAt(s.records, LastBegin(log))..] + [log[|log| - 1]] == After(log, LastBegin(log))
  {
    var n, b := |log| - 1, LastBegin(log);
    var records := Run(files, log[..n]).records;
    LastBeginMonotone(log, n);
    var fromFiles, c := Shape(files, log[..n], b);
    fromFiles, c := ShapedSplit(records, fromFiles, c, log[..n], b, b);
    NewerThan(records[SplitAt(records, b)..], log, b, c);
  }

  /** At a resolving END the accumulated records become the file followed by what is newer than its BEGIN. */
  lemma AtResolvingEnd(files: Files, log: seq<Record>)
    requires Increasing(log) && log != [] && Resolves(files, log, |log| - 1)
    requires FilesWithin(files, log[..|log| - 1], LastBegin(log))
    ensures Run(files, log).records == Contents(files, log, |log| - 1) + After(log, LastBegin(log))
    ensures Run(files, log).name == log[|log| - 1].op.fileName && Run(files, log).ckptLSN == LastBegin(log)
  {
    var n := |log| - 1;
    var s := Run(files, log[..n]);
    RunStep(files, log);
    LastBeginAlong(files, log[..n]);
    SplitMeans(files, log);
    var file, rest := Contents(files, log, n), s.records[SplitAt(s.records, s.lastBegin)..];
    assert file + rest + [log[n]] == file + (rest + [log[n]]);
  }

  /** The meaning of the scan: the file of the last END that resolves, followed by
      every scanned record newer than that END's BEGIN. Earlier ENDs, whether they
      resolve or not, leave no trace, and checkpoint records need not be sorted. */
  lemma {:induction false} ScanMeaning(files: Files, log: seq<Record>, e: int)
    requires Increasing(log) && LastResolving(files, log, e)
    requires FilesWithin(files, log[..e], LastBegin(log[..e]))
    ensures Run(files, log).records == Contents(files, log, e) + After(log, LastBegin(log[..e]))
    ensures Run(files, log).name == log[e].op.fileName && Run(files, log).ckptLSN == LastBegin(log[..e])
    decreases |log|
  {
    var n := |log| - 1;
    if e == n {
      AtResolvingEnd(files, log);
    } else {
      ResolvesPrefix(files, log, n, e);
      forall j | e < j < n ensures !Resolves(files, log[..n], j) {
        ResolvesPrefix(files, log, n, j);
      }
      assert log[..n][..e] == log[..e];
      ScanMeaning(files, log[..n], e);
      RunStep(files, log);
      LastBeginMonotone(log, n);
      LastBeginMonotone(log[..n], e);
    }
  }

  // ---- Where the scan stops, and where it cuts ----

  /** The scan ends after `k` records: at the first one with an LSN of at least `stop`, or at the end. */
  ghost predicate StopsAfter(log: seq<Record>, stop: Option<nat>, k: int) {
    && 0 <= k <= |log|
    && (stop.None? ==> k == |log|)
    && (stop.Some? ==>
          && (forall i :: 0 <= i < k - 1 ==> log[i].lsn < stop.value)
          && (k == |log| || (0 < k && log[k - 1].lsn >= stop.value)))
  }

  method SplitIndex(records: seq<Record>, lsn: nat) returns (i: nat)
    ensures i == SplitAt(records, lsn)
  {
    for j := 0 to |records|
      invariant forall k :: 0 <= k < j ==> records[k].lsn <= lsn
    {
      if records[j].lsn > lsn {
        SplitAtIs(records, lsn, j);
        return j;
      }
    }
    SplitAtIs(records, lsn, |records|);
    return |records|;
  }

  lemma SplitAtIs(records: seq<Record>, lsn: nat, i: nat)
    requires i <= |records| && (forall k :: 0 <= k < i ==> records[k].lsn <= lsn)
    requires i < |records| ==> records[i].lsn > lsn
    ensures SplitAt(records, lsn) == i
  {
  }
}
