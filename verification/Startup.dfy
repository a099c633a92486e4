/**
  Startup as a function of the bytes on disk alone: recovery of the last
  segment, reading of all of them, checkpoint files, and the replay.
 */
module Startup {
  import opened Options
  import opened Records
  import LS = LiveState
  import Replay
  import R = Reader
  import opened Frames
  import opened Wal
  import opened Writer
  import opened Reading

  // ---- Recovery and reading ----

  /** Recover: the last segment is cut where its valid data ends. */
  ghost function Cut(crc: Crc, names: seq<nat>, disk: map<nat, seq<byte>>): map<nat, seq<byte>>
    requires AllThere(names, disk) && names != []
  {
    var last := names[|names| - 1];
    disk[last := disk[last][..Scan(crc, disk[last]).validEnd]]
  }

  /** Open and ReadAll: recover, then read. */
  ghost function ReadLog(crc: Crc, names: seq<nat>, disk: map<nat, seq<byte>>): LogRead
    requires AllThere(names, disk)
  {
    if names == [] then Read([])
    else if Scan(crc, disk[names[|names| - 1]]).panicked then LogRead([], Panicking)
    else ReadSegments(crc, names, Cut(crc, names, disk))
  }

  /** What startup reads, for every directory a crash can leave: the records up to the first oversize body anywhere. In
      an earlier segment that breaks the read; in the last one it only ends it. */
  lemma ReadsAfterCrash(crc: Crc, names: seq<nat>, disk: map<nat, seq<byte>>, contents: seq<seq<byte>>,
                        chunks: seq<seq<Raw>>, torn: seq<byte>)
    requires Layout(crc, names, disk, contents, chunks, torn) && IsTorn(crc, torn) && AllThere(names, disk)
    ensures ReadLog(crc, names, disk) ==
            LogRead(SmallPrefix(Flatten(chunks)), if NoneOversize(chunks[..|names| - 1], 0) then AtEnd else Broken)
  {
    hide Scan, AllSmall, Encodes, Follows, IsTorn, Peek, Flatten, SmallPrefix;
    var n := |names| - 1;
    RecoveryCutsTornTail(crc, names, disk, contents, chunks, torn);
    var kept, cut := SmallPrefix(chunks[n]), Cut(crc, names, disk);
    var chunks' := chunks[n := kept];
    NothingIsTorn(crc);
    PeekNone(crc);
    ReadsLayout(crc, names, cut, contents[n := cut[names[n]]], chunks', [], 0);
    PrefixIsSmall(chunks[n]);
    assert chunks'[0..] == chunks';
    LastIsSmall(chunks, kept);
    SamePrefix(chunks);
  }

  /** Cutting the last segment at its first oversize body changes nothing before the first one anywhere. */
  lemma SamePrefix(chunks: seq<seq<Raw>>)
    requires chunks != []
    ensures SmallPrefix(Flatten(chunks[|chunks| - 1 := SmallPrefix(chunks[|chunks| - 1])])) ==
            SmallPrefix(Flatten(chunks))
  {
    hide AllSmall, SmallPrefix;
    var n := |chunks| - 1;
    var kept := SmallPrefix(chunks[n]);
    assert chunks[n := kept][..n] == chunks[..n];
    SmallPrefixConcat(Flatten(chunks[..n]), chunks[n]);
    SmallPrefixConcat(Flatten(chunks[..n]), kept);
    PrefixIsSmall(chunks[n]);
    SmallIsPrefix(kept);
  }

  lemma LastIsSmall(chunks: seq<seq<Raw>>, kept: seq<Raw>)
    requires chunks != [] && AllSmall(kept)
    ensures NoneOversize(chunks[|chunks| - 1 := kept], 0) <==> NoneOversize(chunks[..|chunks| - 1], 0)
  {
    hide AllSmall;
    var n, chunks' := |chunks| - 1, chunks[|chunks| - 1 := kept];
    assert forall i :: 0 <= i < n ==> chunks'[i] == chunks[..n][i];
    if NoneOversize(chunks', 0) {
      forall i | 0 <= i < n ensures AllSmall(chunks[..n][i]) { assert AllSmall(chunks'[i]); }
    }
    if NoneOversize(chunks[..n], 0) {
      forall i | 0 <= i < |chunks'| ensures AllSmall(chunks'[i]) { assert i < n ==> AllSmall(chunks[..n][i]); }
    }
  }

  lemma {:induction false} PrefixIsSmall(rs: seq<Raw>)
    ensures AllSmall(SmallPrefix(rs))
    decreases |rs|
  {
    if rs != [] && Small(rs[0]) {
      PrefixIsSmall(rs[1..]);
      SmallTail(SmallPrefix(rs));
    }
  }

  /** The exact condition: startup reads everything that was written if and only if no body anywhere is oversize. */
  lemma ReadsAllIffSmall(crc: Crc, names: seq<nat>, disk: map<nat, seq<byte>>, contents: seq<seq<byte>>,
                         chunks: seq<seq<Raw>>, torn: seq<byte>)
    requires Layout(crc, names, disk, contents, chunks, torn) && IsTorn(crc, torn) && AllThere(names, disk)
    ensures ReadLog(crc, names, disk) == Read(Flatten(chunks)) <==> NoneOversize(chunks, 0)
  {
    ReadsAfterCrash(crc, names, disk, contents, chunks, torn);
    hide AllSmall, ReadLog, Encodes, Holds, IsTorn;
    SmallChunks(chunks);
    NoneOversizeSnoc(chunks);
    if NoneOversize(chunks, 0) { SmallIsPrefix(Flatten(chunks)); }
  }

  lemma NoneOversizeSnoc(chunks: seq<seq<Raw>>)
    requires chunks != []
    ensures NoneOversize(chunks, 0) <==> NoneOversize(chunks[..|chunks| - 1], 0) && AllSmall(chunks[|chunks| - 1])
  {
    hide AllSmall;
    var n := |chunks| - 1;
    if NoneOversize(chunks[..n], 0) && AllSmall(chunks[n]) {
      forall i | 0 <= i < |chunks| ensures AllSmall(chunks[i]) { assert i < n ==> AllSmall(chunks[..n][i]); }
    }
    if NoneOversize(chunks, 0) {
      forall i | 0 <= i < n ensures AllSmall(chunks[..n][i]) { assert AllSmall(chunks[i]); }
    }
  }

  // ---- Checkpoint files ----

  /** ReadAllCkpt: the file's records, if all of its bytes decode. */
  function ReadCkpt(crc: Crc, bs: seq<byte>): LogRead {
    var s := Scan(crc, bs);
    LogRead(s.records, if s.panicked then Panicking else if s.validEnd == |bs| then AtEnd else Broken)
  }

  /** A checkpoint file of records that fit decodes to them if and only if no body is oversize; otherwise it counts as
      not decoding at all. */
  lemma CkptDecodesIffSmall(crc: Crc, rs: seq<Raw>)
    requires AllFit(rs)
    ensures ReadCkpt(crc, EncodeAll(crc, rs)) == LogRead(SmallPrefix(rs), if AllSmall(rs) then AtEnd else Broken)
  {
    hide Scan;
    NothingIsTorn(crc);
    ScanWritten(crc, rs, []);
    assert EncodeAll(crc, rs) + [] == EncodeAll(crc, rs);
    var kept := SmallPrefix(rs);
    if !AllSmall(rs) {
      assert rs == kept + rs[|kept|..] && rs[|kept|..] != [];
      EncodeAllConcat(crc, kept, rs[|kept|..]);
      EmptyMeansNone(crc, rs[|kept|..]);
    }
  }

  // ---- From bytes to the live state ----

  /** The checksum of a frame, the checksum of a file, and what decoding a payload makes of a raw record. */
  datatype Format = Format(crc: Crc, sum: seq<byte> -> string, view: Raw -> Record)

  function Views(view: Raw -> Record, rs: seq<Raw>): (vs: seq<Record>)
    ensures |vs| == |rs| && forall i :: 0 <= i < |rs| ==> vs[i] == view(rs[i])
  {
    seq(|rs|, i requires 0 <= i < |rs| => view(rs[i]))
  }

  function FileOf(f: Format, bs: seq<byte>): R.CkptFile {
    var read := ReadCkpt(f.crc, bs);
    R.CkptFile(f.sum(bs), if read.end.AtEnd? then Some(Views(f.view, read.records)) else None)
  }

  function FilesOf(f: Format, ckpts: map<string, seq<byte>>): R.Files {
    map name | name in ckpts :: FileOf(f, ckpts[name])
  }

  lemma FilesWith(f: Format, ckpts: map<string, seq<byte>>, name: string, bs: seq<byte>)
    ensures FilesOf(f, ckpts[name := bs]) == FilesOf(f, ckpts)[name := FileOf(f, bs)]
    ensures FilesOf(f, ckpts - {name}) == FilesOf(f, ckpts) - {name}
  {
    hide FileOf;
  }

  /** Startup: the live state that the bytes on disk come up with, if they come up at all. */
  ghost function Restart(f: Format, names: seq<nat>, disk: map<nat, seq<byte>>, ckpts: map<string, seq<byte>>)
    : Option<LS.Live>
    requires AllThere(names, disk)
  {
    var read := ReadLog(f.crc, names, disk);
    if read.end.AtEnd? then Replay.Recovered(R.Run(FilesOf(f, ckpts), Views(f.view, read.records)).records) else None
  }

  /** An oversize body in any segment but the last stops every later startup, whatever the checkpoint files hold. */
  lemma OversizeStopsStartup(f: Format, names: seq<nat>, disk: map<nat, seq<byte>>, ckpts: map<string, seq<byte>>,
                             contents: seq<seq<byte>>, chunks: seq<seq<Raw>>, torn: seq<byte>)
    requires Layout(f.crc, names, disk, contents, chunks, torn) && IsTorn(f.crc, torn) && AllThere(names, disk)
    requires !NoneOversize(chunks[..|chunks| - 1], 0)
    ensures Restart(f, names, disk, ckpts) == None
  {
    hide IsTorn, NoneOversize, ReadLog;
    ReadsAfterCrash(f.crc, names, disk, contents, chunks, torn);
  }
}
