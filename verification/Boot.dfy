/**
  Startup as it runs: cut the last segment's torn tail, read everything with the
  last intact checkpoint spliced in, and replay what was read.
 */
module Boot {
  import opened Options
  import Replay
  import R = Reader
  import opened Frames
  import opened Wal
  import opened Reading
  import opened Startup
  import opened LogReaders
  import opened Coordination

  /** Recover: the segment files with the last one cut where its valid data ends. */
  method Recover(f: Format, names: seq<nat>, disk: map<nat, seq<byte>>) returns (ok: bool, files: map<nat, seq<byte>>)
    requires AllThere(names, disk) && names != []
    ensures ok <==> !Scan(f.crc, disk[names[|names| - 1]]).panicked
    ensures ok ==> files == Cut(f.crc, names, disk)
  {
    hide Scan;
    var last := names[|names| - 1];
    var records, validEnd, panicked := ScanSegment(f.crc, disk[last]);
    ok, files := !panicked, disk[last := disk[last][..validEnd]];
  }

  /** Open, ReadAll and ReplayLog, over whatever the directory holds: exactly what Restart says. `keep` and `lsn`
      are the checkpoint file to be kept and the LSN before which segments are not needed. */
  method Start(f: Format, names: seq<nat>, disk: map<nat, seq<byte>>, ckpts: map<string, seq<byte>>)
    returns (ok: bool, cat: Catalog, deli: Delivery, keep: string, lsn: nat)
    requires AllThere(names, disk) && Distinct(names)
    ensures Restart(f, names, disk, ckpts) ==
            if ok then Some(Replay.LiveOf(Replay.State(cat.queues, deli.queues))) else None
    ensures ok ==>
              var scan := R.Run(FilesOf(f, ckpts), Views(f.view, ReadLog(f.crc, names, disk).records));
              keep == scan.name && lsn == scan.ckptLSN
  {
    hide Scan, R.Run, FilesOf, Views, ReadSegments, Replay.LiveOf;
    var files := disk;
    cat := new Catalog();
    deli := new Delivery();
    ok, keep, lsn := true, "", 0;
    if names != [] {
      ok, files := Recover(f, names, disk);
      if !ok {
        return;
      }
    }
    var reader := new LogReader(f, names, files, ckpts);
    var loaded := reader.ReadLoop(None);
    NothingToRead(f.crc, disk);
    WholeLog(f, ReadLog(f.crc, names, disk), FilesOf(f, ckpts));
    if loaded.end != AtEnd {
      ok := false;
      return;
    }
    ok, cat, deli := ReplayLog(loaded.records);
    keep, lsn := loaded.name, loaded.ckptLSN;
  }

  lemma NothingToRead(crc: Crc, disk: map<nat, seq<byte>>)
    ensures ReadSegments(crc, [], disk) == Read([])
  {
  }

  /** With nothing to stop it the loop reads to the end. */
  lemma WholeLog(f: Format, all: LogRead, files: R.Files)
    ensures
      var scan := R.Run(files, Views(f.view, all.records));
      Loads(f, all, files, None) == Loaded(scan.records, scan.name, scan.ckptLSN, all.end)
  {
    hide R.Run, Views;
    var log := Views(f.view, all.records);
    assert log[..|log|] == log;
  }
}
