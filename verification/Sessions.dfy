/**
  The life of a log over any number of processes: each appends, crashes in the
  middle of a frame, and is followed by one that recovers and goes on.
 */
module Sessions {
  import opened Frames
  import opened Wal
  import opened Writer
  import opened Reading
  import opened Startup
  import opened LogReaders

  /** What is appended; the writer adds the LSN. */
  datatype Entry = Entry(opType: byte, queueName: seq<byte>, payload: seq<byte>)

  /** The appends of one process, and the proper prefix of a frame that its crash leaves behind. */
  datatype Session = Session(entries: seq<Entry>, torn: seq<byte>)

  function Size(e: Entry): nat {
    21 + |e.queueName| + |e.payload|
  }

  function Stamped(es: seq<Entry>, first: nat): (rs: seq<Raw>)
    requires first + |es| <= 0x1_0000_0000_0000_0000
    ensures |rs| == |es| && Consecutive(rs, first)
  {
    seq(|es|, i requires 0 <= i < |es| => Raw(first + i, es[i].opType, es[i].queueName, es[i].payload))
  }

  function Entries(sessions: seq<Session>): seq<Entry> {
    if sessions == [] then [] else Entries(sessions[..|sessions| - 1]) + sessions[|sessions| - 1].entries
  }

  /** Frames that a segment can take and whose length field does not wrap. */
  ghost predicate Writable(es: seq<Entry>, maxSegSize: int) {
    forall i :: 0 <= i < |es| ==> Size(es[i]) <= maxSegSize && Size(es[i]) < 0x1_0000_0000
  }

  lemma StampedSnoc(es: seq<Entry>, first: nat, i: nat)
    requires first + |es| <= 0x1_0000_0000_0000_0000 && i < |es|
    ensures Stamped(es[..i + 1], first) ==
            Stamped(es[..i], first) + [Raw(first + i, es[i].opType, es[i].queueName, es[i].payload)]
  {
  }

  method AppendAll(w: LogWriter, es: seq<Entry>)
    requires w.Valid() && Whole(w.segments, w.chunks) && Writable(es, w.maxSegSize)
    requires w.nextLSN + |es| <= 0x1_0000_0000_0000_0000
    modifies w
    ensures w.Valid() && Whole(w.segments, w.chunks)
    ensures Flatten(w.chunks) == old(Flatten(w.chunks)) + Stamped(es, old(w.nextLSN))
  {
    hide Layout, Whole, EndLSN, Flatten;
    ghost var before, first := Flatten(w.chunks), w.nextLSN;
    assert before + Stamped(es[..0], first) == before;
    for i := 0 to |es|
      invariant w.Valid() && Whole(w.segments, w.chunks) && w.nextLSN == first + i
      invariant Flatten(w.chunks) == before + Stamped(es[..i], first)
    {
      var _ := w.Append(es[i].opType, es[i].queueName, es[i].payload);
      StampedSnoc(es, first, i);
    }
    assert es[..|es|] == es;
  }

  lemma RecoveredSmall(chunks: seq<seq<Raw>>)
    requires chunks != [] && AllSmall(Flatten(chunks))
    ensures chunks[|chunks| - 1 := SmallPrefix(chunks[|chunks| - 1])] == chunks
  {
    hide AllSmall, SmallPrefix;
    var n := |chunks| - 1;
    SmallParts(Flatten(chunks[..n]), chunks[n]);
    SmallIsPrefix(chunks[n]);
  }

  lemma RecoveredIsShorter(chunks: seq<seq<Raw>>)
    requires chunks != []
    ensures |Flatten(chunks[|chunks| - 1 := SmallPrefix(chunks[|chunks| - 1])])| <= |Flatten(chunks)|
  {
    var n := |chunks| - 1;
    assert chunks[n := SmallPrefix(chunks[n])][..n] == chunks[..n];
  }

  lemma StampedConcat(a: seq<Entry>, b: seq<Entry>)
    requires |a| + |b| < 0x1_0000_0000_0000_0000
    ensures Stamped(a + b, 1) == Stamped(a, 1) + Stamped(b, |a| + 1)
  {
  }

  lemma EntriesSnoc(sessions: seq<Session>, k: nat)
    requires k < |sessions|
    ensures Entries(sessions[..k + 1]) == Entries(sessions[..k]) + sessions[k].entries
    ensures |Entries(sessions[..k + 1])| <= |Entries(sessions)|
  {
    assert sessions[..k + 1][..k] == sessions[..k];
    EntriesGrow(sessions, k + 1);
  }

  lemma {:induction false} EntriesGrow(sessions: seq<Session>, k: nat)
    requires k <= |sessions|
    ensures |Entries(sessions[..k])| <= |Entries(sessions)|
    decreases |sessions|
  {
    var n := |sessions| - 1;
    if k <= n {
      EntriesGrow(sessions[..n], k);
      assert sessions[..n][..k] == sessions[..k];
    } else {
      assert sessions[..k] == sessions;
    }
  }

  lemma NoSessions(sessions: seq<Session>)
    ensures Entries(sessions[..0]) == [] && Stamped([], 1) == [] && Flatten([[]]) == []
  {
    assert Flatten([[]]) == Flatten([[]][..0]) + [];
  }

  /** Reading a log with no frame in flight. */
  lemma ReadsWhole(crc: Crc, names: seq<nat>, disk: map<nat, seq<byte>>, contents: seq<seq<byte>>,
                   chunks: seq<seq<Raw>>)
    requires Layout(crc, names, disk, contents, chunks, []) && AllThere(names, disk)
    ensures ReadSegments(crc, names, disk) ==
            LogRead(SmallPrefix(Flatten(chunks)), if AllSmall(Flatten(chunks)) then AtEnd else Broken)
  {
    hide AllSmall, Peek;
    NothingIsTorn(crc);
    PeekNone(crc);
    ReadsLayout(crc, names, disk, contents, chunks, [], 0);
    assert chunks[0..] == chunks;
    SmallChunks(chunks);
  }

  /** One session on an open log, and the reopening after its crash. */
  method RunSession(w: LogWriter, session: Session) returns (w': LogWriter)
    requires w.Valid() && Whole(w.segments, w.chunks) && Writable(session.entries, w.maxSegSize)
    requires IsTorn(w.crc, session.torn)
    requires w.nextLSN + |session.entries| <= 0x1_0000_0000_0000_0000
    modifies w
    ensures fresh(w') && w'.Valid() && Whole(w'.segments, w'.chunks) && w'.crc == w.crc && w'.maxSegSize == w.maxSegSize
    ensures
      var all := old(Flatten(w.chunks)) + Stamped(session.entries, old(w.nextLSN));
      |Flatten(w'.chunks)| <= |all| && (AllSmall(all) ==> Flatten(w'.chunks) == all)
  {
    hide Encodes, ChunkOk, Follows, Holds, Whole, Flatten, IsTorn;
    AppendAll(w, session.entries);
    var last := w.segments[|w.segments| - 1];
    LastIsHeld(w.segments, w.files, w.contents);
    TornLayout(w.crc, w.segments, w.files, w.contents, w.chunks, session.torn);
    var bytes := w.files[last] + session.torn;
    w' := new LogWriter.Open(w.crc, w.maxSegSize, w.segments, w.files[last := bytes],
      w.contents[|w.segments| - 1 := bytes], w.chunks, session.torn);
    RecoveredIsShorter(w.chunks);
    if AllSmall(Flatten(w.chunks)) { RecoveredSmall(w.chunks); }
  }

  /** Reads the log of an open writer from its start. */
  method ReadBack(f: Format, w: LogWriter) returns (result: LogRead)
    requires w.Valid() && w.crc == f.crc
    ensures result == LogRead(SmallPrefix(Flatten(w.chunks)), if AllSmall(Flatten(w.chunks)) then AtEnd else Broken)
  {
    hide Encodes, ChunkOk, Follows, Holds, Flatten, AllSmall, SmallPrefix;
    WrittenNames(w.crc, w.segments, w.files, w.contents, w.chunks, []);
    var r := new LogReader(f, w.segments, w.files, map[]);
    ReadsWhole(w.crc, w.segments, w.files, w.contents, w.chunks);
    result := ReadToEnd(r);
  }

  /** Any number of sessions, each ended by a crash that leaves any torn frame: the log is numbered from 1
      without a gap, appending goes on at the next number, and if no body is over the limit the log is
      everything ever appended and reads back as that. */
  method RunSessions(f: Format, maxSegSize: int, sessions: seq<Session>) returns (w: LogWriter, result: LogRead)
    requires forall k :: 0 <= k < |sessions| ==>
               Writable(sessions[k].entries, maxSegSize) && IsTorn(f.crc, sessions[k].torn)
    requires |Entries(sessions)| < 0x1_0000_0000_0000_0000
    ensures w.Valid() && Consecutive(Flatten(w.chunks), 1) && w.nextLSN == |Flatten(w.chunks)| + 1
    ensures AllSmall(Stamped(Entries(sessions), 1)) ==> Flatten(w.chunks) == Stamped(Entries(sessions), 1)
    ensures result == LogRead(SmallPrefix(Flatten(w.chunks)), if AllSmall(Flatten(w.chunks)) then AtEnd else Broken)
    ensures AllSmall(Stamped(Entries(sessions), 1)) ==> result == Read(Stamped(Entries(sessions), 1))
  {
    hide Encodes, ChunkOk, Follows, Holds, Whole, Flatten, IsTorn, AllSmall, Writable, SmallPrefix, Stamped, Entries;
    var crc := f.crc;
    w := new LogWriter.Open(crc, maxSegSize, [], map[], [], [], []);
    NoSessions(sessions);
    for k := 0 to |sessions|
      invariant fresh(w) && w.Valid() && Whole(w.segments, w.chunks) && w.crc == crc && w.maxSegSize == maxSegSize
      invariant |Entries(sessions[..k])| < 0x1_0000_0000_0000_0000 && |Flatten(w.chunks)| <= |Entries(sessions[..k])|
      invariant AllSmall(Stamped(Entries(sessions[..k]), 1)) ==> Flatten(w.chunks) == Stamped(Entries(sessions[..k]), 1)
    {
      EntriesSnoc(sessions, k);
      WholeLog(w.segments, w.chunks);
      ghost var done := Entries(sessions[..k]);
      StampedConcat(done, sessions[k].entries);
      if AllSmall(Stamped(done + sessions[k].entries, 1)) {
        SmallParts(Stamped(done, 1), Stamped(sessions[k].entries, |done| + 1));
      }
      w := RunSession(w, sessions[k]);
    }
    assert sessions[..|sessions|] == sessions;
    WholeLog(w.segments, w.chunks);
    if AllSmall(Flatten(w.chunks)) { SmallIsPrefix(Flatten(w.chunks)); }
    result := ReadBack(f, w);
  }
}
