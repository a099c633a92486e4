/**
  The log reader as the source has it: it steps through the bytes of the segment
  files, splices intact checkpoints in, and stops where it is told to.
 */
module LogReaders {
  import opened Options
  import opened Records
  import R = Reader
  import opened Frames
  import opened Wal
  import opened Reading
  import opened Startup

  // ---- Where a read stops, and what it returns ----

  /** How many records are read: up to the first with an LSN of at least `stop`, or all. */
  function StopIndex(log: seq<Record>, stop: Option<nat>): (k: nat)
    ensures R.StopsAfter(log, stop, k)
  {
    if stop.None? || log == [] then |log|
    else if log[0].lsn >= stop.value then 1
    else 1 + StopIndex(log[1..], stop)
  }

  /** The last of the first k records is where the read was to stop. */
  predicate Stopped(log: seq<Record>, stop: Option<nat>, k: nat)
    requires k <= |log|
  {
    stop.Some? && 0 < k && log[k - 1].lsn >= stop.value
  }

  lemma {:induction false} StopsThere(log: seq<Record>, stop: Option<nat>, k: nat)
    requires R.StopsAfter(log, stop, k)
    ensures StopIndex(log, stop) == k
    decreases |log|
  {
    if stop.Some? && log != [] && log[0].lsn < stop.value {
      assert forall i :: 0 <= i < k - 1 ==> log[1..][i] == log[i + 1];
      StopsThere(log[1..], stop, k - 1);
    }
  }

  /** What readLoop returns: the records with the last intact checkpoint spliced in, the name and BEGIN of that
      checkpoint, and how the read ended. */
  datatype Loaded = Loaded(records: seq<Record>, name: string, ckptLSN: nat, end: LogEnd)

  /** The result of reading `all` with the checkpoint files there are, up to `stop`: nothing beyond the stop matters. */
  function Loads(f: Format, all: LogRead, files: R.Files, stop: Option<nat>): Loaded {
    var log := Views(f.view, all.records);
    var k := StopIndex(log, stop);
    var s := R.Run(files, log[..k]);
    Loaded(s.records, s.name, s.ckptLSN, if Stopped(log, stop, k) then AtEnd else all.end)
  }

  /** A record with the LSN to stop at makes the read end well, whatever comes after it. */
  lemma LoadsUpTo(f: Format, all: LogRead, files: R.Files, b: nat, k: nat, i: nat)
    requires
      var log := Views(f.view, all.records);
      R.StopsAfter(log, Some(b), k) && i < |log| && log[i].lsn == b
    ensures
      var scan := R.Run(files, Views(f.view, all.records)[..k]);
      Loads(f, all, files, Some(b)) == Loaded(scan.records, scan.name, scan.ckptLSN, AtEnd)
  {
    hide R.Run, Views;
    StopsThere(Views(f.view, all.records), Some(b), k);
    assert i >= k - 1;
  }

  /** How a read ends: well, if some record says stop, and as the log ends otherwise. */
  ghost function EndOf(log: seq<Record>, stop: Option<nat>, end: LogEnd): LogEnd {
    if stop.Some? && exists i :: 0 <= i < |log| && log[i].lsn >= stop.value then AtEnd else end
  }

  lemma StoppedIff(log: seq<Record>, stop: Option<nat>, k: nat)
    requires R.StopsAfter(log, stop, k)
    ensures Stopped(log, stop, k) <==> stop.Some? && exists i :: 0 <= i < |log| && log[i].lsn >= stop.value
  {
    if stop.Some? && exists i :: 0 <= i < |log| && log[i].lsn >= stop.value {
      var i :| 0 <= i < |log| && log[i].lsn >= stop.value;
      assert i >= k - 1;
    }
  }

  /** What a read returns, in terms of the log and the checkpoint files: of the records up to the stop, the file of the
      last END that resolves, followed by every record newer than the BEGIN before that END, with the END's file name
      and the BEGIN's LSN. */
  lemma LoadsSpliced(f: Format, all: LogRead, files: R.Files, stop: Option<nat>, k: nat, e: nat)
    requires
      var log := Views(f.view, all.records);
      && R.Increasing(log) && R.StopsAfter(log, stop, k) && R.LastResolving(files, log[..k], e)
      && R.FilesWithin(files, log[..e], R.LastBegin(log[..e]))
    ensures
      var log := Views(f.view, all.records);
      var b := R.LastBegin(log[..e]);
      Loads(f, all, files, stop) ==
      Loaded(R.Contents(files, log[..k], e) + R.After(log[..k], b), log[e].op.fileName, b, EndOf(log, stop, all.end))
  {
    hide Views, R.Run, StopIndex;
    var log := Views(f.view, all.records);
    StopsThere(log, stop, k);
    StoppedIff(log, stop, k);
    assert log[..k][..e] == log[..e] && R.Increasing(log[..k]);
    R.ScanMeaning(files, log[..k], e);
  }

  /** And when no END resolves: the records themselves, no name, and LSN 0. */
  lemma LoadsPlain(f: Format, all: LogRead, files: R.Files, stop: Option<nat>, k: nat)
    requires
      var log := Views(f.view, all.records);
      R.StopsAfter(log, stop, k) && forall j :: !R.Resolves(files, log[..k], j)
    ensures
      var log := Views(f.view, all.records);
      Loads(f, all, files, stop) == Loaded(log[..k], "", 0, EndOf(log, stop, all.end))
  {
    hide Views, R.Run, StopIndex, R.Resolves;
    var log := Views(f.view, all.records);
    StopsThere(log, stop, k);
    StoppedIff(log, stop, k);
    R.NothingResolves(files, log[..k]);
  }

  /** ReadAll, which nothing stops: the file of the last END in the log that resolves, and all newer records. */
  lemma ReadAllSpliced(f: Format, all: LogRead, files: R.Files, e: nat)
    requires
      var log := Views(f.view, all.records);
      && R.Increasing(log) && R.LastResolving(files, log, e)
      && R.FilesWithin(files, log[..e], R.LastBegin(log[..e]))
    ensures
      var log := Views(f.view, all.records);
      var b := R.LastBegin(log[..e]);
      Loads(f, all, files, None) ==
      Loaded(R.Contents(files, log, e) + R.After(log, b), log[e].op.fileName, b, all.end)
  {
    hide Views, R.Run, Loads, R.Resolves, R.After, R.LastBegin;
    var log := Views(f.view, all.records);
    assert log[..|log|] == log && R.StopsAfter(log, None, |log|);
    LoadsSpliced(f, all, files, None, |log|, e);
  }

  /** And the log itself when none resolves. */
  lemma ReadAllPlain(f: Format, all: LogRead, files: R.Files)
    requires forall j :: !R.Resolves(files, Views(f.view, all.records), j)
    ensures Loads(f, all, files, None) == Loaded(Views(f.view, all.records), "", 0, all.end)
  {
    hide Views, R.Run, Loads, R.Resolves;
    var log := Views(f.view, all.records);
    assert log[..|log|] == log && R.StopsAfter(log, None, |log|);
    LoadsPlain(f, all, files, None, |log|);
  }

  // ---- The reader ----

  datatype NextRead = Found(r: Raw) | EndOfLog | ReadError | Panicked

  class LogReader {
    const f: Format
    const segments: seq<nat>
    const files: map<nat, seq<byte>>
    var ckpts: map<string, seq<byte>>
    var current: Option<nat> // the open segment file, if there is any
    var offset: nat
    ghost var k: nat

    ghost predicate Valid()
      reads this
    {
      && AllThere(segments, files) && Distinct(segments)
      && (current.None? ==> segments == [])
      && (current.Some? ==> k < |segments| && current.value == segments[k] && offset <= |files[segments[k]]|)
    }

    /** What has not been read yet. */
    ghost function Ahead(): LogRead
      reads this
      requires Valid()
    {
      if current.None? then Read([]) else ReadOn(f.crc, segments, files, k, files[segments[k]][offset..])
    }

    constructor (f: Format, segments: seq<nat>, files: map<nat, seq<byte>>, ckpts: map<string, seq<byte>>)
      requires AllThere(segments, files) && Distinct(segments)
      ensures Valid() && this.f == f && this.ckpts == ckpts && Ahead() == ReadSegments(f.crc, segments, files)
    {
      this.f, this.segments, this.files, this.ckpts := f, segments, files, ckpts;
      offset, k := 0, 0;
      current := if segments == [] then None else Some(segments[0]);
      new;
      assert segments != [] ==> files[segments[0]][0..] == files[segments[0]];
    }

    /** readNext: for whatever the files hold, one step into what is ahead. */
    method ReadNext() returns (next: NextRead)
      requires Valid()
      modifies this`current, this`offset, this`k
      ensures Valid()
      ensures
        match next
        case Found(r) => old(Ahead()) == Before([r], Ahead()) && Left() < old(Left())
        case EndOfLog => old(Ahead()) == LogRead([], AtEnd)
        case ReadError => old(Ahead()) == LogRead([], Broken)
        case Panicked => old(Ahead()) == LogRead([], Panicking)
    {
      hide ReadOn, Peek;
      if current.None? {
        return EndOfLog;
      }
      while true
        invariant Valid() && current.Some? && Ahead() == old(Ahead()) && Left() <= old(Left())
        decreases |segments| - k
      {
        var bs := files[current.value][offset..];
        ReadOnStep(f.crc, segments, files, k, bs);
        BeforeNothing(After(f.crc, segments, files, k));
        NameIsOwn(segments, k);
        AfterInOrder(segments, k);
        var p := Peek(f.crc, bs);
        var after := SegmentAfter(segments, current.value);
        if p.Got? {
          assert bs[p.size..] == files[segments[k]][offset + p.size..];
          offset := offset + p.size;
          return Found(p.r);
        } else if p.Clean? && after.Some? {
          current, offset, k := after, 0, k + 1;
          assert files[segments[k]][0..] == files[segments[k]];
        } else if p.Oversize? || (p.Torn? && after.Some?) {
          return ReadError;
        } else if p.Panics? {
          return Panicked;
        } else {
          return EndOfLog;
        }
      }
    }

    /** How many bytes are left, at most. */
    ghost function Left(): nat
      reads this
      requires Valid()
    {
      if current.None? then 0 else BytesFrom(segments, files, k) - offset
    }

    /** resolveCheckpoint: the records of the file that an END names, if its checksum is the one named and all of its
        bytes decode; a file with another checksum is deleted. */
    method ResolveCheckpoint(op: Op) returns (recs: Option<seq<Record>>)
      requires op.EndCheckpoint?
      modifies this`ckpts
      ensures recs == R.Resolve(FilesOf(f, old(ckpts)), op)
      ensures FilesOf(f, ckpts) == R.FilesAfter(FilesOf(f, old(ckpts)), op)
      ensures forall name :: name in ckpts ==> name in old(ckpts) && ckpts[name] == old(ckpts)[name]
    {
      if op.fileName !in ckpts {
        return None;
      }
      var bs := ckpts[op.fileName];
      if f.sum(bs) != op.fileChecksum {
        FilesWith(f, ckpts, op.fileName, bs);
        ckpts := ckpts - {op.fileName};
        return None;
      }
      var records, validEnd, panicked := ScanSegment(f.crc, bs);
      if panicked || validEnd != |bs| {
        return None;
      }
      recs := Some(Views(f.view, records));
    }

    /** One turn of the loop: what a record does to the loop's variables. */
    method Take(rec: Record, records: seq<Record>, lastBegin: nat, name: string, ckptLSN: nat)
      returns (records': seq<Record>, lastBegin': nat, name': string, ckptLSN': nat)
      modifies this`ckpts
      ensures R.Scan(records', lastBegin', name', ckptLSN', FilesOf(f, ckpts)) ==
              R.Step(R.Scan(records, lastBegin, name, ckptLSN, FilesOf(f, old(ckpts))), rec)
    {
      hide R.Resolve, R.FilesAfter, R.SplitAt, FilesOf;
      records', lastBegin', name', ckptLSN' := records, lastBegin, name, ckptLSN;
      if rec.op.BeginCheckpoint? {
        lastBegin' := rec.lsn;
      } else if rec.op.EndCheckpoint? {
        var resolved := ResolveCheckpoint(rec.op);
        if resolved.Some? {
          var split := R.SplitIndex(records, lastBegin);
          records' := resolved.value + records[split..];
          name', ckptLSN' := rec.op.fileName, lastBegin;
        }
      }
      records' := records' + [rec];
    }

    /** readLoop: whatever the files hold, it returns what there is to read up to the stop, with the last intact
        checkpoint spliced in. */
    method ReadLoop(stop: Option<nat>) returns (loaded: Loaded)
      requires Valid()
      modifies this
      ensures loaded == Loads(f, old(Ahead()), FilesOf(f, old(ckpts)), stop)
      ensures
        var log := Views(f.view, old(Ahead()).records);
        FilesOf(f, ckpts) == R.Run(FilesOf(f, old(ckpts)), log[..StopIndex(log, stop)]).files
    {
      hide R.Run, R.Step, FilesOf, Views, Stopped, StopIndex, NoStop, ReadOn, BytesFrom;
      ghost var all, had := Ahead(), FilesOf(f, ckpts);
      ghost var read: seq<Raw> := [];
      BeforeNothing(all);
      NothingRead(f, had, stop);
      var records, lastBegin, name, ckptLSN := [], 0, "", 0;
      while true
        invariant Valid() && all == Before(read, Ahead())
        invariant R.Scan(records, lastBegin, name, ckptLSN, FilesOf(f, ckpts)) == R.Run(had, Views(f.view, read))
        invariant NoStop(Views(f.view, read), stop)
        decreases Left()
      {
        var next := ReadNext();
        if !next.Found? {
          ReadAll(f, all, read, stop);
          var end := if next.EndOfLog? then AtEnd else if next.ReadError? then Broken else Panicking;
          return Loaded(records, name, ckptLSN, end);
        }
        var rec := f.view(next.r);
        BeforeSnoc(read, next.r, Ahead());
        ReadOneMore(f, had, read, next.r);
        records, lastBegin, name, ckptLSN := Take(rec, records, lastBegin, name, ckptLSN);
        if stop.Some? && rec.lsn >= stop.value {
          ReadToStop(f, all, read, next.r, Ahead(), stop);
          return Loaded(records, name, ckptLSN, AtEnd);
        }
        NoStopSnoc(f, read, next.r, stop);
        read := read + [next.r];
      }
    }
  }

  // ---- Along the loop ----

  /** None of these records is where the read is to stop. */
  ghost predicate NoStop(log: seq<Record>, stop: Option<nat>) {
    stop.Some? ==> forall i :: 0 <= i < |log| ==> log[i].lsn < stop.value
  }

  lemma NothingRead(f: Format, files: R.Files, stop: Option<nat>)
    ensures R.Run(files, Views(f.view, [])) == R.Scan([], 0, "", 0, files) && NoStop(Views(f.view, []), stop)
  {
  }

  lemma NoStopSnoc(f: Format, read: seq<Raw>, r: Raw, stop: Option<nat>)
    requires NoStop(Views(f.view, read), stop) && (stop.Some? ==> f.view(r).lsn < stop.value)
    ensures NoStop(Views(f.view, read + [r]), stop)
  {
  }

  lemma ReadOneMore(f: Format, files: R.Files, read: seq<Raw>, r: Raw)
    ensures R.Run(files, Views(f.view, read + [r])) == R.Step(R.Run(files, Views(f.view, read)), f.view(r))
  {
    assert Views(f.view, read + [r])[..|read|] == Views(f.view, read);
  }

  /** The read came to the end of what there is. */
  lemma ReadAll(f: Format, all: LogRead, read: seq<Raw>, stop: Option<nat>)
    requires NoStop(Views(f.view, read), stop) && all.records == read + []
    ensures
      var log := Views(f.view, all.records);
      StopIndex(log, stop) == |log| && log[..|log|] == Views(f.view, read) && !Stopped(log, stop, |log|)
  {
    assert all.records == read;
    StopsThere(Views(f.view, read), stop, |read|);
  }

  /** The read came to the record where it is to stop. */
  lemma ReadToStop(f: Format, all: LogRead, read: seq<Raw>, r: Raw, rest: LogRead, stop: Option<nat>)
    requires NoStop(Views(f.view, read), stop) && stop.Some? && f.view(r).lsn >= stop.value
    requires all == Before(read + [r], rest)
    ensures
      var log, k := Views(f.view, all.records), |read| + 1;
      StopIndex(log, stop) == k && log[..k] == Views(f.view, read + [r]) && Stopped(log, stop, k)
  {
    var log, k := Views(f.view, all.records), |read| + 1;
    assert log[..k] == Views(f.view, read + [r]);
    forall i | 0 <= i < |read| ensures log[i].lsn < stop.value { assert log[i] == Views(f.view, read)[i]; }
    StopsThere(log, stop, k);
  }

  ghost function BytesFrom(names: seq<nat>, disk: map<nat, seq<byte>>, k: nat): (n: nat)
    requires AllThere(names, disk) && k <= |names|
    ensures k < |names| ==> n >= |disk[names[k]]|
    decreases |names| - k
  {
    if k == |names| then 0 else |disk[names[k]]| + BytesFrom(names, disk, k + 1)
  }

  lemma NameIsOwn(names: seq<nat>, k: nat)
    requires Distinct(names) && k < |names|
    ensures forall j :: 0 <= j < |names| && j != k ==> names[j] != names[k]
  {
  }

  /** The read loop without checkpoints: it ends, and returns what there is to read, whatever the files hold. */
  method ReadToEnd(r: LogReader) returns (result: LogRead)
    requires r.Valid()
    modifies r
    ensures result == old(r.Ahead())
  {
    ghost var all := r.Ahead();
    var records := [];
    BeforeNothing(all);
    while true
      invariant r.Valid() && all == Before(records, r.Ahead())
      decreases r.Left()
    {
      var next := r.ReadNext();
      match next
      case Found(x) =>
        BeforeSnoc(records, x, r.Ahead());
        records := records + [x];
      case EndOfLog => assert records + [] == records; return LogRead(records, AtEnd);
      case ReadError => assert records + [] == records; return LogRead(records, Broken);
      case Panicked => assert records + [] == records; return LogRead(records, Panicking);
    }
  }

  lemma BeforeSnoc(records: seq<Raw>, r: Raw, rest: LogRead)
    ensures Before(records, Before([r], rest)) == Before(records + [r], rest)
  {
    assert records + ([r] + rest.records) == records + [r] + rest.records;
  }
}
