/**
  From bytes to meaning. Every step of the checkpoint protocol is given what it
  does to the bytes on disk; the bytes then depict the protocol's state in every
  state of every run, and a startup from the directory alone gives the history's
  live state, or fails for an ack that came too late.
 */
module EndToEnd {
  import opened Options
  import opened Records
  import LS = LiveState
  import Replay
  import R = Reader
  import opened Frames
  import opened Wal
  import W = Writer
  import opened Reading
  import opened Startup
  import opened LogReaders
  import Boot
  import N = Segments
  import opened LogView
  import opened CompactionLaws
  import opened Protocol
  import C = CrashSafety
  import Coordination

  /** The directory in bytes. `carried` are the compacted records that a checkpoint holds in memory, as read. */
  datatype Dir = Dir(
    names: seq<nat>, disk: map<nat, seq<byte>>, ckpts: map<string, seq<byte>>, tmps: map<string, seq<byte>>,
    carried: seq<Raw>)

  const NO_FILES := Dir([], map[], map[], map[], [])

  // ---- What each step does to the bytes ----

  /** One frame goes to the end of the last segment; its record reads as r. */
  ghost predicate Appends(f: Format, d: Dir, d': Dir, raw: Raw, r: Record) {
    && f.view(raw) == r && raw.lsn == r.lsn && Small(raw)
    && d.names != [] && AllThere(d.names, d.disk)
    && var last := d.names[|d.names| - 1];
    d' == d.(disk := d.disk[last := d.disk[last] + Frame(f.crc, raw)])
  }

  ghost predicate Logs(f: Format, d: Dir, d': Dir, r: Record) {
    exists raw :: Appends(f, d, d', raw, r)
  }

  /** The record is in some file, where a scan finds it. */
  ghost predicate OnDisk(crc: Crc, d: Dir, raw: Raw) {
    || (exists n :: n in d.disk && raw in Scan(crc, d.disk[n]).records)
    || (exists name :: name in d.ckpts && raw in Scan(crc, d.ckpts[name]).records)
  }

  /** Compaction passes on records that were read. */
  ghost predicate Derives(f: Format, d: Dir, d': Dir, raws: seq<Raw>, out: seq<Record>) {
    && Views(f.view, raws) == out && (forall i :: 0 <= i < |raws| ==> OnDisk(f.crc, d, raws[i]))
    && d' == d.(carried := raws)
  }

  /** A crash leaves any proper prefix of a frame; a later one while down leaves nothing more. */
  ghost predicate Tears(f: Format, s: System, d: Dir, d': Dir, torn: bool, bytes: seq<byte>) {
    && IsTorn(f.crc, bytes) && (bytes != [] ==> torn && !s.disk.torn && d.names != [])
    && AllThere(d.names, d.disk)
    && d' == if d.names == [] then d
             else
               var last := d.names[|d.names| - 1];
               d.(disk := d.disk[last := d.disk[last] + bytes])
  }

  /** Recover cuts the last segment or makes the first; the read then deletes checkpoint files it finds corrupt. */
  ghost predicate Recovers(f: Format, d: Dir, d': Dir) {
    && AllThere(d.names, d.disk) && ReadLog(f.crc, d.names, d.disk).end.AtEnd?
    && var scan := R.Run(FilesOf(f, d.ckpts), Views(f.view, ReadLog(f.crc, d.names, d.disk).records));
    && var ckpts := map name | name in d.ckpts && name in scan.files :: d.ckpts[name];
    d' == if d.names == [] then d.(names := [1], disk := d.disk[1 := []], ckpts := ckpts)
          else d.(disk := Cut(f.crc, d.names, d.disk), ckpts := ckpts)
  }

  ghost predicate Writes(f: Format, s: System, s': System, d: Dir, d': Dir, ev: Event) {
    match ev
    case AppendEvent(r) => Logs(f, d, d', r)
    case RollEvent => d' == d.(names := d.names + [NextLSN(s)], disk := d.disk[NextLSN(s) := []])
    case BeginEvent => Logs(f, d, d', Record(NextLSN(s), "", BeginCheckpoint))
    case DeriveEvent(k, out) => exists raws :: Derives(f, d, d', raws, out)
    case WriteTmpEvent(name) => d' == d.(tmps := d.tmps[name := EncodeAll(f.crc, d.carried)])
    case RenameEvent(checksum) =>
      && s.phase.Serving? && s.phase.ckpt.Written? && s.phase.ckpt.name in d.tmps
      && var name := s.phase.ckpt.name;
      && checksum == f.sum(d.tmps[name])
      && d' == d.(ckpts := d.ckpts[name := d.tmps[name]], tmps := d.tmps - {name})
    case EndEvent => s'.history != [] && Logs(f, d, d', s'.history[|s'.history| - 1])
    case DeleteSegmentEvent(i, _, _) =>
      && 0 <= i < |d.names|
      && d' == d.(names := d.names[..i] + d.names[i + 1..], disk := d.disk - {d.names[i]})
    case DeleteFileEvent(name, _, _) => d' == d.(ckpts := d.ckpts - {name})
    case DeleteTmpEvent(name) => d' == d.(tmps := d.tmps - {name})
    case CrashEvent(torn) => exists bytes :: Tears(f, s, d, d', torn, bytes)
    case ReopenEvent => Recovers(f, d, d')
    case _ => d' == d
  }

  /** A run together with its directories. */
  ghost predicate IsByteRun(f: Format, states: seq<System>, events: seq<Event>, dirs: seq<Dir>) {
    && IsRun(states, events) && |dirs| == |states| && dirs[0] == NO_FILES
    && forall i :: 0 <= i < |events| ==> Writes(f, states[i], states[i + 1], dirs[i], dirs[i + 1], events[i])
  }

  // ---- The bytes depict the state ----

  /** The segment files hold the frames of `chunks` and a torn tail, and `chunks` read as the segments. */
  ghost predicate Segmented(f: Format, d: Dir, segs: seq<Segment>, chunks: seq<seq<Raw>>, torn: seq<byte>) {
    && |d.names| == |chunks| == |segs| && AllThere(d.names, d.disk)
    && (d.names == [] ==> d.disk == map[])
    && (d.names != [] ==> W.Layout(f.crc, d.names, d.disk, BytesOf(d.names, d.disk), chunks, torn))
    && NoneOversize(chunks, 0)
    && forall k :: 0 <= k < |segs| ==> Shows(f.view, d.names[k], chunks[k], segs[k])
  }

  ghost predicate Shows(view: Raw -> Record, name: nat, chunk: seq<Raw>, seg: Segment) {
    name == seg.first && Views(view, chunk) == seg.recs
  }

  function BytesOf(names: seq<nat>, disk: map<nat, seq<byte>>): (bs: seq<seq<byte>>)
    requires AllThere(names, disk)
    ensures |bs| == |names| && forall i :: 0 <= i < |names| ==> bs[i] == disk[names[i]]
  {
    seq(|names|, i requires 0 <= i < |names| => disk[names[i]])
  }

  /** What a checkpoint under way carries and has written. */
  ghost predicate Carries(f: Format, d: Dir, ckpt: Checkpoint) {
    && (ckpt.Derived? || ckpt.Written? ==> Views(f.view, d.carried) == ckpt.out && AllSmall(d.carried))
    && (ckpt.Written? ==> ckpt.name in d.tmps && d.tmps[ckpt.name] == EncodeAll(f.crc, d.carried))
  }

  ghost predicate Depicts(f: Format, d: Dir, s: System, chunks: seq<seq<Raw>>, torn: seq<byte>) {
    && Segmented(f, d, s.disk.segs, chunks, torn)
    && IsTorn(f.crc, torn) && (torn != [] ==> s.disk.torn)
    && FilesOf(f, d.ckpts) == s.disk.files
    && (s.phase.Serving? ==> Carries(f, d, s.phase.ckpt))
  }

  lemma HeldBytes(names: seq<nat>, disk: map<nat, seq<byte>>, contents: seq<seq<byte>>)
    requires W.Holds(names, disk, contents)
    ensures AllThere(names, disk) && BytesOf(names, disk) == contents
  {
  }

  /** Segments are depicted as soon as the files are laid out, whatever contents the layout is stated with. */
  lemma SegmentedBy(f: Format, d: Dir, segs: seq<Segment>, contents: seq<seq<byte>>, chunks: seq<seq<Raw>>,
                    torn: seq<byte>)
    requires W.Layout(f.crc, d.names, d.disk, contents, chunks, torn) && |segs| == |chunks| && NoneOversize(chunks, 0)
    requires forall k :: 0 <= k < |segs| ==> Shows(f.view, d.names[k], chunks[k], segs[k])
    ensures Segmented(f, d, segs, chunks, torn)
  {
    HeldBytes(d.names, d.disk, contents);
  }

  // ---- Appending ----

  lemma ViewsSnoc(view: Raw -> Record, rs: seq<Raw>, raw: Raw)
    ensures Views(view, rs + [raw]) == Views(view, rs) + [view(raw)]
  {
  }

  /** The last segment with one more record. */
  lemma AppendDepicted(f: Format, d: Dir, d': Dir, segs: seq<Segment>, chunks: seq<seq<Raw>>, raw: Raw, r: Record)
    requires segs != [] && Segmented(f, d, segs, chunks, []) && Appends(f, d, d', raw, r)
    requires r.lsn == segs[|segs| - 1].first + |segs[|segs| - 1].recs|
    ensures Segmented(f, d', Extended(segs, r), chunks[|segs| - 1 := chunks[|segs| - 1] + [raw]], [])
  {
    hide Frame, W.ChunkOk, W.Follows, W.Encodes, W.Holds, AllSmall;
    var n := |segs| - 1;
    var contents, chunks', segs' := BytesOf(d.names, d.disk), chunks[n := chunks[n] + [raw]], Extended(segs, r);
    assert Shows(f.view, d.names[n], chunks[n], segs[n]);
    W.ExtendLayout(f.crc, d.names, d.disk, contents, chunks, raw);
    ViewsSnoc(f.view, chunks[n], raw);
    forall k | 0 <= k < |segs'| ensures Shows(f.view, d'.names[k], chunks'[k], segs'[k]) {
      assert Shows(f.view, d.names[k], chunks[k], segs[k]);
    }
    assert AllSmall(chunks'[n]) by { assert AllSmall(chunks[n]); SmallSnoc(chunks[n], raw); }
    NoneOversizeLast(chunks, chunks'[n]);
    SegmentedBy(f, d', segs', contents[n := d'.disk[d.names[n]]], chunks', []);
  }

  lemma SmallSnoc(rs: seq<Raw>, raw: Raw)
    requires AllSmall(rs) && Small(raw)
    ensures AllSmall(rs + [raw])
  {
  }

  lemma NoneOversizeLast(chunks: seq<seq<Raw>>, last: seq<Raw>)
    requires chunks != [] && NoneOversize(chunks, 0) && AllSmall(last)
    ensures NoneOversize(chunks[|chunks| - 1 := last], 0)
  {
    hide AllSmall;
  }

  lemma RollDepicted(f: Format, d: Dir, segs: seq<Segment>, chunks: seq<seq<Raw>>, next: nat)
    requires segs != [] && Segmented(f, d, segs, chunks, []) && segs[|segs| - 1].recs != []
    requires next == segs[|segs| - 1].first + |segs[|segs| - 1].recs|
    ensures Segmented(f, d.(names := d.names + [next], disk := d.disk[next := []]), segs + [Segment(next, [])],
                      chunks + [[]], [])
  {
    hide W.ChunkOk, W.Follows, W.Encodes, W.Holds, AllSmall;
    var n := |segs| - 1;
    assert Shows(f.view, d.names[n], chunks[n], segs[n]);
    W.RolledLayout(f.crc, d.names, d.disk, BytesOf(d.names, d.disk), chunks);
    var d', segs', chunks' := d.(names := d.names + [next], disk := d.disk[next := []]), segs + [Segment(next, [])],
      chunks + [[]];
    forall k | 0 <= k < |segs'| ensures Shows(f.view, d'.names[k], chunks'[k], segs'[k]) && AllSmall(chunks'[k]) {
      if k < |segs| { assert Shows(f.view, d.names[k], chunks[k], segs[k]); } else { NothingIsSmall(); }
    }
    SegmentedBy(f, d', segs', BytesOf(d.names, d.disk) + [[]], chunks', []);
  }

  lemma NothingIsSmall()
    ensures AllSmall([])
  {
  }

  // ---- Deleting a segment ----

  lemma NamedWithout(names: seq<nat>, chunks: seq<seq<Raw>>, i: nat)
    requires W.Named(names, chunks) && i < |names| - 1
    ensures W.Named(C.Without(names, i), C.Without(chunks, i))
  {
    hide W.ChunkOk;
    var names', chunks' := C.Without(names, i), C.Without(chunks, i);
    W.NamesIncrease(names, chunks, i, i + 1);
    forall k ensures W.Follows(names', chunks', k) {
      if 0 <= k < |names'| - 1 {
        var a, b := if k < i then k else k + 1, if k + 1 < i then k + 1 else k + 2;
        W.NamesIncrease(names, chunks, a, b);
        assert W.Follows(names, chunks, a);
      }
    }
    forall k | 0 <= k < |names'| ensures W.ChunkOk(chunks'[k], names'[k]) {
      assert W.ChunkOk(chunks[if k < i then k else k + 1], names[if k < i then k else k + 1]);
    }
  }

  lemma HoldsWithout(names: seq<nat>, disk: map<nat, seq<byte>>, contents: seq<seq<byte>>, i: nat)
    requires W.Holds(names, disk, contents) && i < |names| && Distinct(names)
    ensures W.Holds(C.Without(names, i), disk - {names[i]}, C.Without(contents, i))
  {
    var names' := C.Without(names, i);
    forall n | n in disk - {names[i]} ensures n in names' {
      var k :| 0 <= k < |names| && names[k] == n;
      assert names'[if k < i then k else k - 1] == n;
    }
  }

  lemma EncodesWithout(crc: Crc, contents: seq<seq<byte>>, chunks: seq<seq<Raw>>, torn: seq<byte>, i: nat)
    requires W.Encodes(crc, contents, chunks, torn) && i < |chunks| - 1
    ensures W.Encodes(crc, C.Without(contents, i), C.Without(chunks, i), torn)
  {
    hide EncodeAll;
  }

  lemma DeleteDepicted(f: Format, d: Dir, d': Dir, segs: seq<Segment>, segs': seq<Segment>, chunks: seq<seq<Raw>>,
                       torn: seq<byte>, i: nat)
    requires Segmented(f, d, segs, chunks, torn) && i < |segs| - 1
    requires d' == d.(names := d.names[..i] + d.names[i + 1..], disk := d.disk - {d.names[i]})
    requires segs' == segs[..i] + segs[i + 1..]
    ensures Segmented(f, d', segs', C.Without(chunks, i), torn)
  {
    hide W.Named, W.Encodes, W.Holds, AllSmall;
    var contents := BytesOf(d.names, d.disk);
    WrittenNames(f.crc, d.names, d.disk, contents, chunks, torn);
    NamedWithout(d.names, chunks, i);
    HoldsWithout(d.names, d.disk, contents, i);
    EncodesWithout(f.crc, contents, chunks, torn, i);
    var chunks' := C.Without(chunks, i);
    assert d'.names == C.Without(d.names, i) && segs' == C.Without(segs, i);
    forall k | 0 <= k < |segs'| ensures Shows(f.view, d'.names[k], chunks'[k], segs'[k]) && AllSmall(chunks'[k]) {
      var a := if k < i then k else k + 1;
      assert Shows(f.view, d.names[a], chunks[a], segs[a]);
    }
    SegmentedBy(f, d', segs', C.Without(contents, i), chunks', torn);
  }

  // ---- Reading the directory ----

  lemma ViewsConcat(view: Raw -> Record, a: seq<Raw>, b: seq<Raw>)
    ensures Views(view, a + b) == Views(view, a) + Views(view, b)
  {
  }

  lemma {:induction false} FlatIsShown(f: Format, names: seq<nat>, chunks: seq<seq<Raw>>, segs: seq<Segment>)
    requires |names| == |chunks| == |segs|
    requires forall k :: 0 <= k < |segs| ==> Shows(f.view, names[k], chunks[k], segs[k])
    ensures Views(f.view, W.Flatten(chunks)) == Flat(segs)
    decreases |segs|
  {
    if segs != [] {
      var n := |segs| - 1;
      FlatIsShown(f, names[..n], chunks[..n], segs[..n]);
      assert Shows(f.view, names[n], chunks[n], segs[n]);
      ViewsConcat(f.view, W.Flatten(chunks[..n]), chunks[n]);
    }
  }

  /** Startup reads exactly the records of the segments, whatever the torn tail. */
  lemma DepictedReads(f: Format, d: Dir, segs: seq<Segment>, chunks: seq<seq<Raw>>, torn: seq<byte>)
    requires Segmented(f, d, segs, chunks, torn) && IsTorn(f.crc, torn)
    ensures ReadLog(f.crc, d.names, d.disk) == Read(W.Flatten(chunks)) && Views(f.view, W.Flatten(chunks)) == Flat(segs)
  {
    hide IsTorn, NoneOversize;
    FlatIsShown(f, d.names, chunks, segs);
    if d.names == [] {
      assert W.Flatten(chunks) == [];
    } else {
      ReadsAllIffSmall(f.crc, d.names, d.disk, BytesOf(d.names, d.disk), chunks, torn);
    }
  }

  /** Reading up to an LSN that is there, whatever frame is in flight behind it. */
  lemma ReadsUpTo(f: Format, d: Dir, segs: seq<Segment>, chunks: seq<seq<Raw>>, torn: seq<byte>, b: nat, k: nat)
    requires Segmented(f, d, segs, chunks, torn) && IsTorn(f.crc, torn) && segs != []
    requires R.StopsAfter(Flat(segs), Some(b), k) && Present(Flat(segs), b)
    ensures
      var scan := R.Run(FilesOf(f, d.ckpts), Flat(segs)[..k]);
      Loads(f, ReadSegments(f.crc, d.names, d.disk), FilesOf(f, d.ckpts), Some(b)) ==
      Loaded(scan.records, scan.name, scan.ckptLSN, AtEnd)
  {
    hide Loads, ReadSegments, R.Run, FilesOf, Flat, Views, IsTorn, R.StopsAfter;
    ReadsRecords(f, d, segs, chunks, torn);
    hide Segmented;
    var i :| 0 <= i < |Flat(segs)| && Flat(segs)[i].lsn == b;
    LoadsUpTo(f, ReadSegments(f.crc, d.names, d.disk), FilesOf(f, d.ckpts), b, k, i);
  }

  /** The records there are to read, whatever frame is in flight behind them, are those of the segments. */
  lemma ReadsRecords(f: Format, d: Dir, segs: seq<Segment>, chunks: seq<seq<Raw>>, torn: seq<byte>)
    requires Segmented(f, d, segs, chunks, torn) && IsTorn(f.crc, torn) && segs != []
    ensures Views(f.view, ReadSegments(f.crc, d.names, d.disk).records) == Flat(segs)
  {
    hide AllSmall, Peek, SmallPrefix, IsTorn, W.Layout, Flat, W.Flatten, ReadOn;
    FlatIsShown(f, d.names, chunks, segs);
    ReadsLayout(f.crc, d.names, d.disk, BytesOf(d.names, d.disk), chunks, torn, 0);
    assert chunks[0..] == chunks;
    SmallChunks(chunks);
    SmallIsPrefix(W.Flatten(chunks));
  }

  /** The directory while `bytes` of one more frame are being written. */
  function InFlight(d: Dir, bytes: seq<byte>): Dir
    requires d.names != [] && AllThere(d.names, d.disk)
  {
    var last := d.names[|d.names| - 1];
    d.(disk := d.disk[last := d.disk[last] + bytes])
  }

  /** What the checkpoint reads while the broker serves: ReadUpTo(BEGIN) over the bytes, whatever frame is in flight
      behind them, gives without an error exactly the records that the protocol's derivation compacts. */
  lemma ServingReads(f: Format, d: Dir, s: System, s': System, chunks: seq<seq<Raw>>, k: nat, out: seq<Record>,
                     bytes: seq<byte>)
    requires C.Inv(s) && Depicts(f, d, s, chunks, []) && Derive(s, s', k, out) && IsTorn(f.crc, bytes)
    ensures d.names != [] && AllThere(d.names, d.disk) && AllThere(d.names, InFlight(d, bytes).disk)
    ensures
      var loaded := Loads(f, ReadSegments(f.crc, d.names, InFlight(d, bytes).disk), FilesOf(f, d.ckpts),
        Some(s.phase.ckpt.b));
      loaded.end == AtEnd && Compacts(loaded.records, out)
  {
    BeginIsThere(s);
    ServingOk(s);
    hide C.Inv, R.Run, Flat, IsTorn, NoneOversize, FilesOf, W.Named, W.Encodes, W.Holds, Compacts, R.StopsAfter,
      Present;
    var n, contents, d' := |d.names| - 1, BytesOf(d.names, d.disk), InFlight(d, bytes);
    W.TornLayout(f.crc, d.names, d.disk, contents, chunks, bytes);
    SegmentedBy(f, d', s.disk.segs, contents[n := d'.disk[d.names[n]]], chunks, bytes);
    ReadsUpTo(f, d', s.disk.segs, chunks, bytes, s.phase.ckpt.b, k);
  }

  lemma BeginIsThere(s: System)
    requires C.Inv(s) && s.phase.Serving? && s.phase.ckpt.Begun?
    ensures Present(Flat(s.disk.segs), s.phase.ckpt.b)
  {
    C.InvIsView(s);
    hide C.SegmentsOk, C.Covers, C.HistoryOk, Flat, Present;
  }

  // ---- Crash and restart ----

  lemma CrashDepicted(f: Format, s: System, d: Dir, d': Dir, flag: bool, bytes: seq<byte>, chunks: seq<seq<Raw>>,
                      torn: seq<byte>)
    returns (torn': seq<byte>)
    requires Segmented(f, d, s.disk.segs, chunks, torn) && IsTorn(f.crc, torn) && (torn != [] ==> s.disk.torn)
    requires Tears(f, s, d, d', flag, bytes) && (s.disk.torn ==> flag)
    ensures Segmented(f, d', s.disk.segs, chunks, torn') && IsTorn(f.crc, torn') && (torn' != [] ==> flag)
    ensures d'.ckpts == d.ckpts
  {
    hide IsTorn, NoneOversize, W.Named, W.Encodes, W.Holds;
    if bytes == [] {
      torn' := torn;
      if d.names != [] {
        var last := d.names[|d.names| - 1];
        assert d.disk[last] + [] == d.disk[last];
        assert d'.disk == d.disk;
      }
    } else {
      torn' := bytes;
      var n, contents := |d.names| - 1, BytesOf(d.names, d.disk);
      W.TornLayout(f.crc, d.names, d.disk, contents, chunks, bytes);
      SegmentedBy(f, d', s.disk.segs, contents[n := d'.disk[d.names[n]]], chunks, bytes);
    }
  }

  lemma CutDepicted(f: Format, d: Dir, d': Dir, segs: seq<Segment>, chunks: seq<seq<Raw>>, torn: seq<byte>)
    requires Segmented(f, d, segs, chunks, torn) && IsTorn(f.crc, torn) && segs != []
    requires d'.names == d.names && d'.disk == Cut(f.crc, d.names, d.disk)
    ensures Segmented(f, d', segs, chunks, [])
  {
    hide IsTorn, AllSmall, Scan, W.Named, W.Encodes, W.Holds;
    var n, contents := |d.names| - 1, BytesOf(d.names, d.disk);
    W.RecoveryCutsTornTail(f.crc, d.names, d.disk, contents, chunks, torn);
    assert AllSmall(chunks[n]);
    SmallIsPrefix(chunks[n]);
    assert chunks[n := chunks[n]] == chunks;
    SegmentedBy(f, d', segs, contents[n := d'.disk[d.names[n]]], chunks, []);
  }

  lemma FreshDepicted(f: Format, d: Dir)
    requires d.names == [1] && d.disk == map[1 := []]
    ensures Segmented(f, d, [Segment(1, [])], [[]], [])
  {
    W.FreshLayout(f.crc);
    SegmentedBy(f, d, [Segment(1, [])], [[]], [[]], []);
  }

  /** The checkpoint files that are left are the ones the scan left. */
  lemma FilesLeft(f: Format, ckpts: map<string, seq<byte>>, log: seq<Record>)
    ensures
      var files := R.Run(FilesOf(f, ckpts), log).files;
      FilesOf(f, map name | name in ckpts && name in files :: ckpts[name]) == files
  {
    hide R.Run, FileOf;
    var all := FilesOf(f, ckpts);
    var files := R.Run(all, log).files;
    forall name: string ensures name in files ==> name in all && files[name] == all[name] {
      R.FilesAlong(all, log, name);
    }
  }

  lemma ReopenDepicted(f: Format, s: System, s': System, d: Dir, d': Dir, chunks: seq<seq<Raw>>, torn: seq<byte>)
    returns (chunks': seq<seq<Raw>>)
    requires Depicts(f, d, s, chunks, torn) && Reopen(s, s') && Recovers(f, d, d')
    ensures Segmented(f, d', s'.disk.segs, chunks', []) && FilesOf(f, d'.ckpts) == s'.disk.files
  {
    hide NoneOversize, W.Named, W.Encodes, W.Holds, R.Run, ReadLog, FilesOf;
    DepictedReads(f, d, s.disk.segs, chunks, torn);
    var log := Views(f.view, W.Flatten(chunks));
    FilesLeft(f, d.ckpts, log);
    if d.names == [] {
      chunks' := [[]];
      FlatOfFresh();
      FreshDepicted(f, d');
    } else {
      chunks' := chunks;
      CutDepicted(f, d, d', s.disk.segs, chunks, torn);
    }
  }

  lemma FlatOfFresh()
    ensures Flat([Segment(1, [])]) == Flat([]) == []
  {
    assert [Segment(1, [])][..0] == [];
  }

  // ---- Checkpoint files ----

  lemma OnDiskIsSmall(crc: Crc, d: Dir, raw: Raw)
    requires OnDisk(crc, d, raw)
    ensures Small(raw)
  {
    if exists n :: n in d.disk && raw in Scan(crc, d.disk[n]).records {
      var n :| n in d.disk && raw in Scan(crc, d.disk[n]).records;
      ScannedAreSmall(crc, d.disk[n]);
    } else {
      var name :| name in d.ckpts && raw in Scan(crc, d.ckpts[name]).records;
      ScannedAreSmall(crc, d.ckpts[name]);
    }
  }

  /** The file a checkpoint renames into place decodes to what was compacted: the bodies were read, so they are
      within the limit. */
  lemma RenamedDecodes(f: Format, carried: seq<Raw>)
    requires AllSmall(carried)
    ensures FileOf(f, EncodeAll(f.crc, carried)) ==
            R.CkptFile(f.sum(EncodeAll(f.crc, carried)), Some(Views(f.view, carried)))
  {
    CkptDecodesIffSmall(f.crc, carried);
  }

  // ---- Every run ----

  /** While serving, no frame is torn and the last segment ends at the next LSN. */
  lemma ServingOk(s: System)
    requires C.Inv(s) && s.phase.Serving?
    ensures !s.disk.torn && s.disk.segs != []
    ensures s.disk.segs[|s.disk.segs| - 1].first + |s.disk.segs[|s.disk.segs| - 1].recs| == NextLSN(s)
  {
    hide C.HistoryOk, C.Covers, BaseOk, C.CheckpointOk;
  }

  /** An append by anyone: the segments grow, everything else stays. */
  lemma LoggedDepicted(f: Format, s: System, d: Dir, d': Dir, r: Record, chunks: seq<seq<Raw>>, torn: seq<byte>)
    returns (chunks': seq<seq<Raw>>)
    requires C.Inv(s) && s.phase.Serving? && Depicts(f, d, s, chunks, torn) && Logs(f, d, d', r) && r.lsn == NextLSN(s)
    ensures s.disk.segs != [] && Segmented(f, d', Extended(s.disk.segs, r), chunks', [])
    ensures d' == d.(disk := d'.disk)
  {
    ServingOk(s);
    hide C.Inv, Segmented;
    var raw :| Appends(f, d, d', raw, r);
    AppendDepicted(f, d, d', s.disk.segs, chunks, raw, r);
    chunks' := chunks[|s.disk.segs| - 1 := chunks[|s.disk.segs| - 1] + [raw]];
  }

  lemma DeriveDepicted(f: Format, s: System, s': System, d: Dir, d': Dir, k: nat, out: seq<Record>,
                       chunks: seq<seq<Raw>>, torn: seq<byte>)
    requires Depicts(f, d, s, chunks, torn) && Derive(s, s', k, out) && Writes(f, s, s', d, d', DeriveEvent(k, out))
    ensures Depicts(f, d', s', chunks, torn)
  {
    hide IsTorn, FilesOf, OnDisk, NoneOversize, W.Layout;
    var raws :| Derives(f, d, d', raws, out);
    forall i | 0 <= i < |raws| ensures Small(raws[i]) {
      OnDiskIsSmall(f.crc, d, raws[i]);
    }
  }

  lemma RenameDepicted(f: Format, s: System, s': System, d: Dir, d': Dir, checksum: string, chunks: seq<seq<Raw>>,
                       torn: seq<byte>)
    requires Depicts(f, d, s, chunks, torn) && Rename(s, s', checksum) && Writes(f, s, s', d, d', RenameEvent(checksum))
    ensures Depicts(f, d', s', chunks, torn)
  {
    hide IsTorn, FilesOf, NoneOversize, W.Layout, AllSmall, FileOf;
    RenamedDecodes(f, d.carried);
    FilesWith(f, d.ckpts, s.phase.ckpt.name, d.tmps[s.phase.ckpt.name]);
  }

  lemma EventDepicted(f: Format, s: System, s': System, d: Dir, d': Dir, ev: Event, chunks: seq<seq<Raw>>,
                      torn: seq<byte>)
    returns (chunks': seq<seq<Raw>>, torn': seq<byte>)
    requires C.Inv(s) && Next(s, s', ev) && Depicts(f, d, s, chunks, torn) && Writes(f, s, s', d, d', ev)
    ensures Depicts(f, d', s', chunks', torn')
  {
    hide C.Inv, Depicts, Logs, Recovers, Derives, Tears, Append, Roll, Begin, Derive, WriteTmp, Rename, End, PickDoomed,
      DeleteSegment, DeleteFile, DeleteTmp, GiveUp, Crash, Reopen, Serve;
    chunks', torn' := chunks, torn;
    match ev {
      case AppendEvent(r) => chunks', torn' := AppendEventDepicted(f, s, s', d, d', r, chunks, torn);
      case BeginEvent => chunks', torn' := BeginEventDepicted(f, s, s', d, d', chunks, torn);
      case EndEvent => chunks', torn' := EndEventDepicted(f, s, s', d, d', chunks, torn);
      case RollEvent => chunks', torn' := RollEventDepicted(f, s, s', d, d', chunks, torn);
      case DeriveEvent(k, out) => DeriveDepicted(f, s, s', d, d', k, out, chunks, torn);
      case RenameEvent(checksum) => RenameDepicted(f, s, s', d, d', checksum, chunks, torn);
      case DeleteSegmentEvent(i, keep, doomed) =>
        chunks' := DeleteEventDepicted(f, s, s', d, d', i, keep, doomed, chunks, torn);
      case CrashEvent(flag) => torn' := CrashEventDepicted(f, s, s', d, d', flag, chunks, torn);
      case ReopenEvent => chunks', torn' := ReopenEventDepicted(f, s, s', d, d', chunks, torn);
      case _ => QuietDepicted(f, s, s', d, d', ev, chunks, torn);
    }
  }

  lemma AppendEventDepicted(f: Format, s: System, s': System, d: Dir, d': Dir, r: Record, chunks: seq<seq<Raw>>,
                            torn: seq<byte>)
    returns (chunks': seq<seq<Raw>>, torn': seq<byte>)
    requires C.Inv(s) && Append(s, s', r) && Depicts(f, d, s, chunks, torn) && Logs(f, d, d', r)
    ensures Depicts(f, d', s', chunks', torn')
  {
    hide C.Inv, Segmented, FilesOf, LS.Served, LS.Run, Appends, Extended;
    torn' := [];
    chunks' := LoggedDepicted(f, s, d, d', r, chunks, torn);
    NothingIsTorn(f.crc);
  }

  lemma BeginEventDepicted(f: Format, s: System, s': System, d: Dir, d': Dir, chunks: seq<seq<Raw>>, torn: seq<byte>)
    returns (chunks': seq<seq<Raw>>, torn': seq<byte>)
    requires C.Inv(s) && Begin(s, s') && Depicts(f, d, s, chunks, torn)
    requires Logs(f, d, d', Record(NextLSN(s), "", BeginCheckpoint))
    ensures Depicts(f, d', s', chunks', torn')
  {
    hide C.Inv, Segmented, FilesOf, Appends, Extended;
    torn' := [];
    chunks' := LoggedDepicted(f, s, d, d', Record(NextLSN(s), "", BeginCheckpoint), chunks, torn);
    NothingIsTorn(f.crc);
  }

  lemma EndEventDepicted(f: Format, s: System, s': System, d: Dir, d': Dir, chunks: seq<seq<Raw>>, torn: seq<byte>)
    returns (chunks': seq<seq<Raw>>, torn': seq<byte>)
    requires C.Inv(s) && End(s, s') && Depicts(f, d, s, chunks, torn)
    requires s'.history != [] && Logs(f, d, d', s'.history[|s'.history| - 1])
    ensures Depicts(f, d', s', chunks', torn')
  {
    hide C.Inv, Segmented, FilesOf, Appends, Extended;
    torn' := [];
    chunks' := LoggedDepicted(f, s, d, d', s'.history[|s'.history| - 1], chunks, torn);
    NothingIsTorn(f.crc);
  }

  lemma RollEventDepicted(f: Format, s: System, s': System, d: Dir, d': Dir, chunks: seq<seq<Raw>>, torn: seq<byte>)
    returns (chunks': seq<seq<Raw>>, torn': seq<byte>)
    requires C.Inv(s) && Roll(s, s') && Depicts(f, d, s, chunks, torn)
    requires d' == d.(names := d.names + [NextLSN(s)], disk := d.disk[NextLSN(s) := []])
    ensures Depicts(f, d', s', chunks', torn')
  {
    ServingOk(s);
    hide C.Inv, Segmented, FilesOf;
    RollDepicted(f, d, s.disk.segs, chunks, NextLSN(s));
    chunks', torn' := chunks + [[]], [];
    NothingIsTorn(f.crc);
  }

  lemma DeleteEventDepicted(f: Format, s: System, s': System, d: Dir, d': Dir, i: int, keep: string, doomed: set<nat>,
                            chunks: seq<seq<Raw>>, torn: seq<byte>)
    returns (chunks': seq<seq<Raw>>)
    requires C.Inv(s) && DeleteSegment(s, s', i, keep, doomed) && Depicts(f, d, s, chunks, torn)
    requires 0 <= i < |d.names| && d' == d.(names := d.names[..i] + d.names[i + 1..], disk := d.disk - {d.names[i]})
    ensures Depicts(f, d', s', chunks', torn)
  {
    hide C.Inv, Segmented, FilesOf, IsTorn, Sweeping, NoneOversize;
    DoomedIsNotLast(s, i, keep, doomed);
    AsManyChunks(f, d, s.disk.segs, chunks, torn);
    chunks' := C.Without(chunks, i);
    DeleteDepicted(f, d, d', s.disk.segs, s'.disk.segs, chunks, torn, i);
    KeepsRest(f, d, d', s, s');
  }

  lemma AsManyChunks(f: Format, d: Dir, segs: seq<Segment>, chunks: seq<seq<Raw>>, torn: seq<byte>)
    requires Segmented(f, d, segs, chunks, torn)
    ensures |chunks| == |segs|
  {
  }

  /** What a checkpoint carries does not depend on the segments. */
  lemma KeepsRest(f: Format, d: Dir, d': Dir, s: System, s': System)
    requires d'.ckpts == d.ckpts && d'.tmps == d.tmps && d'.carried == d.carried && s'.phase == s.phase
    requires s.phase.Serving? ==> Carries(f, d, s.phase.ckpt)
    ensures FilesOf(f, d'.ckpts) == FilesOf(f, d.ckpts) && (s'.phase.Serving? ==> Carries(f, d', s'.phase.ckpt))
  {
    hide FilesOf;
  }

  lemma DoomedIsNotLast(s: System, i: int, keep: string, doomed: set<nat>)
    requires C.Inv(s) && Sweeping(s.phase, keep, doomed) && 0 <= i < |s.disk.segs| && s.disk.segs[i].first in doomed
    ensures i < |s.disk.segs| - 1
  {
    hide C.HistoryOk, C.SegmentsOk, C.Covers, BaseOk, Replay.Recovered;
    assert C.DoomedOk(s.disk.segs, s.base, doomed);
  }

  lemma CrashEventDepicted(f: Format, s: System, s': System, d: Dir, d': Dir, flag: bool, chunks: seq<seq<Raw>>,
                           torn: seq<byte>)
    returns (torn': seq<byte>)
    requires Crash(s, s', flag) && Depicts(f, d, s, chunks, torn) && Writes(f, s, s', d, d', CrashEvent(flag))
    ensures Depicts(f, d', s', chunks, torn')
  {
    hide Segmented, FilesOf, IsTorn;
    var bytes :| Tears(f, s, d, d', flag, bytes);
    torn' := CrashDepicted(f, s, d, d', flag, bytes, chunks, torn);
  }

  lemma ReopenEventDepicted(f: Format, s: System, s': System, d: Dir, d': Dir, chunks: seq<seq<Raw>>, torn: seq<byte>)
    returns (chunks': seq<seq<Raw>>, torn': seq<byte>)
    requires Reopen(s, s') && Depicts(f, d, s, chunks, torn) && Recovers(f, d, d')
    ensures Depicts(f, d', s', chunks', torn')
  {
    hide Segmented, FilesOf, Recovers;
    torn' := [];
    chunks' := ReopenDepicted(f, s, s', d, d', chunks, torn);
    NothingIsTorn(f.crc);
  }

  /** Steps that leave the segments and the protocol's files alone, or delete one checkpoint or temporary file. */
  lemma QuietDepicted(f: Format, s: System, s': System, d: Dir, d': Dir, ev: Event, chunks: seq<seq<Raw>>,
                      torn: seq<byte>)
    requires Next(s, s', ev) && Depicts(f, d, s, chunks, torn) && Writes(f, s, s', d, d', ev)
    requires
      || ev.WriteTmpEvent? || ev.PickDoomedEvent? || ev.DeleteFileEvent?
      || ev.DeleteTmpEvent? || ev.GiveUpEvent? || ev.ServeEvent?
    ensures Depicts(f, d', s', chunks, torn)
  {
    hide FilesOf, IsTorn, NoneOversize, W.Layout, AllSmall, Doomed;
    if ev.DeleteFileEvent? { FilesWith(f, d.ckpts, ev.name, []); }
  }

  lemma {:induction false} RunDepicted(f: Format, states: seq<System>, events: seq<Event>, dirs: seq<Dir>, i: nat)
    returns (chunks: seq<seq<Raw>>, torn: seq<byte>)
    requires IsByteRun(f, states, events, dirs) && i < |states|
    ensures Depicts(f, dirs[i], states[i], chunks, torn)
  {
    hide Depicts, Next, Writes, C.Inv;
    if i == 0 {
      chunks, torn := [], [];
      NothingDepicted(f);
    } else {
      chunks, torn := RunDepicted(f, states, events, dirs, i - 1);
      C.RunKeeps(states, events, i - 1);
      chunks, torn := EventDepicted(f, states[i - 1], states[i], dirs[i - 1], dirs[i], events[i - 1], chunks, torn);
    }
  }

  lemma NothingDepicted(f: Format)
    ensures Depicts(f, NO_FILES, INIT, [], [])
  {
    NothingIsTorn(f.crc);
    assert FilesOf(f, map[]) == map[];
  }

  /** The record is in a segment or in a checkpoint file. */
  ghost predicate Kept(disk: Disk, r: Record) {
    || r in Flat(disk.segs)
    || exists name :: name in disk.files && disk.files[name].decoded.Some? && r in disk.files[name].decoded.value
  }

  /** A derivation always finds the raw form of what it compacted, so that step is never blocked. */
  lemma DerivedIsOnDisk(f: Format, d: Dir, s: System, s': System, chunks: seq<seq<Raw>>, torn: seq<byte>, k: nat,
                        out: seq<Record>)
    returns (raws: seq<Raw>)
    requires C.Inv(s) && Depicts(f, d, s, chunks, torn) && Derive(s, s', k, out)
    ensures Derives(f, d, d.(carried := raws), raws, out)
  {
    ServingOk(s);
    hide C.Inv, OnDisk, R.Run, Kept, Segmented, FilesOf, IsTorn, Compacts, R.StopsAfter;
    forall i | 0 <= i < |out| ensures Kept(s.disk, out[i]) {
      DerivedIsKept(s, k, out, i);
    }
    raws := RawsOf(f, d, s.disk, chunks, out);
  }

  lemma DerivedIsKept(s: System, k: nat, out: seq<Record>, i: nat)
    requires k <= |Flat(s.disk.segs)| && Compacts(R.Run(s.disk.files, Flat(s.disk.segs)[..k]).records, out) && i < |out|
    ensures Kept(s.disk, out[i])
  {
    hide R.Run, Compacts, Flat;
    CompactedAreInputs(R.Run(s.disk.files, Flat(s.disk.segs)[..k]).records, out);
    assert out[i] in out;
    R.ScannedFrom(s.disk.files, Flat(s.disk.segs)[..k], out[i]);
  }

  lemma {:induction false} RawsOf(f: Format, d: Dir, disk: Disk, chunks: seq<seq<Raw>>, out: seq<Record>)
    returns (raws: seq<Raw>)
    requires Segmented(f, d, disk.segs, chunks, []) && FilesOf(f, d.ckpts) == disk.files
    requires forall i :: 0 <= i < |out| ==> Kept(disk, out[i])
    ensures Views(f.view, raws) == out && forall i :: 0 <= i < |raws| ==> OnDisk(f.crc, d, raws[i])
    decreases |out|
  {
    hide OnDisk, Kept, Segmented, FilesOf;
    raws := [];
    if out != [] {
      var n := |out| - 1;
      raws := RawsOf(f, d, disk, chunks, out[..n]);
      var raw := KeptIsOnDisk(f, d, disk, chunks, out[n]);
      ViewsSnoc(f.view, raws, raw);
      raws := raws + [raw];
    }
  }

  lemma KeptIsOnDisk(f: Format, d: Dir, disk: Disk, chunks: seq<seq<Raw>>, r: Record) returns (raw: Raw)
    requires Segmented(f, d, disk.segs, chunks, []) && FilesOf(f, d.ckpts) == disk.files && Kept(disk, r)
    ensures f.view(raw) == r && OnDisk(f.crc, d, raw)
  {
    hide Segmented, FilesOf, OnDisk;
    if r in Flat(disk.segs) {
      raw := SegmentHas(f, d, disk.segs, chunks, r);
    } else {
      var name :| name in disk.files && disk.files[name].decoded.Some? && r in disk.files[name].decoded.value;
      raw := CheckpointHas(f, d, disk.files, name, r);
    }
  }

  lemma SegmentHas(f: Format, d: Dir, segs: seq<Segment>, chunks: seq<seq<Raw>>, r: Record) returns (raw: Raw)
    requires Segmented(f, d, segs, chunks, []) && r in Flat(segs)
    ensures f.view(raw) == r && OnDisk(f.crc, d, raw)
  {
    hide Scan, NoneOversize, W.Layout, Flat;
    var k := InSomeSegment(segs, r);
    assert Shows(f.view, d.names[k], chunks[k], segs[k]);
    var j :| 0 <= j < |chunks[k]| && Views(f.view, chunks[k])[j] == r;
    raw := chunks[k][j];
    SegmentScans(f, d, segs, chunks, k);
    assert raw in Scan(f.crc, d.disk[d.names[k]]).records;
  }

  lemma CheckpointHas(f: Format, d: Dir, files: R.Files, name: string, r: Record) returns (raw: Raw)
    requires FilesOf(f, d.ckpts) == files && name in files && files[name].decoded.Some?
    requires r in files[name].decoded.value
    ensures f.view(raw) == r && OnDisk(f.crc, d, raw)
  {
    hide Scan;
    assert files[name] == FileOf(f, d.ckpts[name]);
    var rs := Scan(f.crc, d.ckpts[name]).records;
    var j :| 0 <= j < |rs| && Views(f.view, rs)[j] == r;
    raw := rs[j];
  }

  lemma {:induction false} InSomeSegment(segs: seq<Segment>, r: Record) returns (k: nat)
    requires r in Flat(segs)
    ensures k < |segs| && r in segs[k].recs
    decreases |segs|
  {
    var n := |segs| - 1;
    if r in segs[n].recs {
      k := n;
    } else {
      k := InSomeSegment(segs[..n], r);
    }
  }

  lemma SegmentScans(f: Format, d: Dir, segs: seq<Segment>, chunks: seq<seq<Raw>>, k: nat)
    requires Segmented(f, d, segs, chunks, []) && k < |segs|
    ensures Scan(f.crc, d.disk[d.names[k]]).records == chunks[k]
  {
    hide Scan, Peek;
    assert W.ChunkOk(chunks[k], d.names[k]);
    assert d.disk[d.names[k]] == EncodeAll(f.crc, chunks[k]) + [];
    NothingIsTorn(f.crc);
    ScanWritten(f.crc, chunks[k], []);
    assert AllSmall(chunks[k]);
    SmallIsPrefix(chunks[k]);
  }

  // ---- Listing the directory ----

  ghost predicate NamesFile(name: string, disk: map<nat, seq<byte>>) {
    exists n :: n in disk && name == N.FileName(n)
  }

  /** What refresh makes of the directory: the names of its segment files, sorted as strings. */
  ghost predicate Lists(listing: seq<string>, disk: map<nat, seq<byte>>) {
    && N.SortedNames(listing)
    && (forall i :: 0 <= i < |listing| ==> NamesFile(listing[i], disk))
    && forall n :: n in disk ==> N.FileName(n) in listing
  }

  /** The LSNs in the names of a listing. */
  function Lsns(listing: seq<string>): (r: seq<nat>)
    ensures |r| == |listing|
  {
    seq(|listing|, i requires 0 <= i < |listing| => match N.FirstLSN(listing[i]) case Some(n) => n case None => 0)
  }

  lemma {:induction false} SameAscending(a: seq<nat>, b: seq<nat>)
    requires N.Ascending(a) && N.Ascending(b) && forall n :: n in a <==> n in b
    ensures a == b
    decreases |a|
  {
    if a == [] {
      if b != [] { var _ := FirstOf(b); }
    } else {
      var m, n := |a| - 1, |b| - 1;
      assert a[m] in b && b != [];
      LastIsMost(a, b[n]);
      LastIsMost(b, a[m]);
      forall x ensures x in a[..m] <==> x in b[..n] { FrontHas(a, x); FrontHas(b, x); }
      assert N.Ascending(a[..m]) && N.Ascending(b[..n]);
      hide N.Ascending;
      SameAscending(a[..m], b[..n]);
      assert a == a[..m] + [a[m]] && b == b[..n] + [b[n]];
    }
  }

  lemma FirstOf(a: seq<nat>) returns (x: nat)
    requires a != []
    ensures x in a
  {
    x := a[0];
  }

  lemma LastIsMost(a: seq<nat>, x: nat)
    requires N.Ascending(a) && x in a
    ensures x <= a[|a| - 1]
  {
  }

  lemma FrontHas(a: seq<nat>, x: nat)
    requires a != [] && N.Ascending(a)
    ensures x in a[..|a| - 1] <==> x in a && x != a[|a| - 1]
  {
    var m := |a| - 1;
    assert a == a[..m] + [a[m]];
  }

  lemma ListedLsn(listing: seq<string>, disk: map<nat, seq<byte>>, i: nat)
    requires Lists(listing, disk) && i < |listing| && forall n :: n in disk ==> n <= N.MAX_UINT64
    ensures Lsns(listing)[i] in disk && listing[i] == N.FileName(Lsns(listing)[i])
  {
    hide N.FileName, N.FirstLSN;
    assert NamesFile(listing[i], disk);
    var n :| n in disk && listing[i] == N.FileName(n);
    N.NameRoundTrip(n);
  }

  /** The listing gives back the names in the order in which the segments were made. */
  lemma ListingIsNames(listing: seq<string>, names: seq<nat>, disk: map<nat, seq<byte>>)
    requires Lists(listing, disk) && N.Ascending(names) && forall n :: n in names <==> n in disk
    ensures Lsns(listing) == names
  {
    hide N.FileName, N.FirstLSN, N.Names;
    var lsns := Lsns(listing);
    forall n | n in disk ensures n <= N.MAX_UINT64 { assert n in names; }
    forall i | 0 <= i < |listing| ensures lsns[i] in disk && listing[i] == N.FileName(lsns[i]) {
      ListedLsn(listing, disk, i);
    }
    assert N.Names(lsns) == listing;
    N.StringOrderIsLogOrder(lsns);
    forall n | n in disk ensures n in lsns {
      var i :| 0 <= i < |listing| && listing[i] == N.FileName(n);
      N.NameRoundTrip(n);
      assert lsns[i] == n;
    }
    SameAscending(lsns, names);
  }

  lemma NamesAscend(f: Format, d: Dir, s: System, chunks: seq<seq<Raw>>, torn: seq<byte>)
    requires C.Inv(s) && Depicts(f, d, s, chunks, torn) && |s.history| < N.MAX_UINT64
    ensures N.Ascending(d.names) && forall n :: n in d.names <==> n in d.disk
  {
    hide C.HistoryOk, C.Covers, BaseOk, C.PhaseOk, FilesOf, IsTorn, NoneOversize, W.Named, W.Encodes;
    FirstsAscend(s.history, s.disk.segs);
    forall k | 0 <= k < |d.names| ensures d.names[k] == s.disk.segs[k].first <= |s.history| + 1 {
      assert Shows(f.view, d.names[k], chunks[k], s.disk.segs[k]) && C.SegmentOk(s.history, s.disk.segs[k]);
    }
  }

  /** Crash safety down to the bytes. In every state of every run in which no body over the limit was appended, take a
      listing of the directory and the bytes in its files, torn tail, old segments and checkpoint files included. A
      startup from these alone comes up with the live state of the history if and only if every ack since the base's
      BEGIN is for a message that was pending then or enqueued since, and otherwise does not come up; a legal history
      always comes up. */
  lemma BytesRecoverHistory(f: Format, states: seq<System>, events: seq<Event>, dirs: seq<Dir>, i: nat,
                            listing: seq<string>)
    requires IsByteRun(f, states, events, dirs) && i < |states|
    requires Lists(listing, dirs[i].disk) && |states[i].history| < N.MAX_UINT64
    ensures AllThere(Lsns(listing), dirs[i].disk) && StartOf(states[i].base) <= |states[i].history|
    ensures Restart(f, Lsns(listing), dirs[i].disk, dirs[i].ckpts) ==
            if ComesUp(states[i].history, states[i].base) then Some(LS.Run(LS.NOTHING, states[i].history)) else None
    ensures LS.LegalLog(states[i].history) ==> ComesUp(states[i].history, states[i].base)
  {
    var chunks, torn := RunDepicted(f, states, events, dirs, i);
    C.RunKeeps(states, events, i);
    NamesAscend(f, dirs[i], states[i], chunks, torn);
    ListingIsNames(listing, dirs[i].names, dirs[i].disk);
    C.RestartRecoversHistory(states, events, i);
    hide IsRun, Writes, R.Run, LS.Run, LS.LegalFrom, LS.ServedFrom, Replay.Recovered, ReadLog, IsTorn, NoneOversize,
      W.Layout, FilesOf, W.Flatten, Flat, ComesUp, C.Inv, Lists;
    DepictedReads(f, dirs[i], states[i].disk.segs, chunks, torn);
  }

  /** The startup code itself, run on the directory in any state of any such run: it comes up exactly under that
      condition, with objects that hold the live state of the history, and what it goes on to keep is the base
      checkpoint's file and every segment from its BEGIN on. */
  method ColdStart(f: Format, listing: seq<string>, disk: map<nat, seq<byte>>, ckpts: map<string, seq<byte>>,
                   ghost states: seq<System>, ghost events: seq<Event>, ghost dirs: seq<Dir>, ghost i: nat)
    returns (ok: bool, cat: Coordination.Catalog, deli: Coordination.Delivery, keep: string, lsn: nat)
    requires IsByteRun(f, states, events, dirs) && i < |states| && dirs[i].disk == disk && dirs[i].ckpts == ckpts
    requires Lists(listing, disk) && |states[i].history| < N.MAX_UINT64
    ensures StartOf(states[i].base) <= |states[i].history|
    ensures ok <==> ComesUp(states[i].history, states[i].base)
    ensures ok ==> Replay.LiveOf(Replay.State(cat.queues, deli.queues)) == LS.Run(LS.NOTHING, states[i].history)
    ensures ok ==>
              var base := states[i].base;
              keep == (if base.NoBase? then "" else base.name) && lsn == StartOf(base)
  {
    BytesRecoverHistory(f, states, events, dirs, i, listing);
    StartKeepsBase(f, states, events, dirs, i, listing);
    hide IsByteRun, Restart, ComesUp, LS.Run, Replay.LiveOf, R.Run, FilesOf, Views, ReadLog, Lists, Lsns;
    ok, cat, deli, keep, lsn := Boot.Start(f, Lsns(listing), disk, ckpts);
  }

  lemma StartKeepsBase(f: Format, states: seq<System>, events: seq<Event>, dirs: seq<Dir>, i: nat, listing: seq<string>)
    requires IsByteRun(f, states, events, dirs) && i < |states|
    requires Lists(listing, dirs[i].disk) && |states[i].history| < N.MAX_UINT64
    ensures AllThere(Lsns(listing), dirs[i].disk) && Distinct(Lsns(listing))
    ensures
      var base := states[i].base;
      var log := Views(f.view, ReadLog(f.crc, Lsns(listing), dirs[i].disk).records);
      var scan := R.Run(FilesOf(f, dirs[i].ckpts), log);
      scan.name == (if base.NoBase? then "" else base.name) && scan.ckptLSN == StartOf(base)
  {
    var s := states[i];
    var chunks, torn := RunDepicted(f, states, events, dirs, i);
    C.RunKeeps(states, events, i);
    NamesAscend(f, dirs[i], s, chunks, torn);
    ListingIsNames(listing, dirs[i].names, dirs[i].disk);
    C.InvIsView(s);
    hide IsRun, Writes, R.Run, LS.Run, LS.LegalFrom, LS.ServedFrom, ReadLog, IsTorn, NoneOversize, W.Layout, FilesOf,
      W.Flatten, Flat, C.Inv, Lists, View;
    DepictedReads(f, dirs[i], s.disk.segs, chunks, torn);
    ViewReads(s.history, Flat(s.disk.segs), s.disk.files, s.base);
  }

  function Firsts(segs: seq<Segment>): (r: seq<nat>)
    ensures |r| == |segs| && forall i :: 0 <= i < |segs| ==> r[i] == segs[i].first
  {
    seq(|segs|, i requires 0 <= i < |segs| => segs[i].first)
  }

  lemma FirstsAscend(history: seq<Record>, segs: seq<Segment>)
    requires C.SegmentsOk(history, segs)
    ensures forall a, b :: 0 <= a < b < |segs| ==> segs[a].first < segs[b].first
  {
    forall a, b | 0 <= a < b < |segs| ensures segs[a].first < segs[b].first {
      assert segs[a].recs != [];
    }
  }

  /** Which segments the protocol dooms: exactly the leading ones that DeleteSegmentsBefore counts. */
  lemma CoveredAreTheFront(history: seq<Record>, segs: seq<Segment>, lsn: nat, j: int)
    requires C.SegmentsOk(history, segs)
    ensures Covered(segs, j, lsn) <==> 0 <= j < N.Before(Firsts(segs), lsn)
  {
    FirstsAscend(history, segs);
    hide C.SegmentsOk;
    var firsts := Firsts(segs);
    var k := N.Before(firsts, lsn);
    if 0 <= j < k { assert firsts[j + 1] <= lsn; }
    if k <= j < |segs| - 1 { assert firsts[k + 1] > lsn && firsts[j + 1] >= firsts[k + 1]; }
  }

  /** The protocol's deletions are the manager's: the doomed segments are exactly
      the ones DeleteSegmentsBefore removes. */
  lemma DoomedAreTheFront(history: seq<Record>, segs: seq<Segment>, lsn: nat)
    requires C.SegmentsOk(history, segs)
    ensures Doomed(segs, lsn) == set j | 0 <= j < N.Before(Firsts(segs), lsn) :: Firsts(segs)[j]
  {
    hide C.SegmentsOk, Covered, N.Before;
    forall j ensures Covered(segs, j, lsn) <==> 0 <= j < N.Before(Firsts(segs), lsn) {
      CoveredAreTheFront(history, segs, lsn, j);
    }
  }
}
