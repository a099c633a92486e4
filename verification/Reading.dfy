/**
  Reading a log back from the bytes of its segment files, whatever they hold.
 */
module Reading {
  import opened Options
  import opened Frames
  import opened Wal
  import opened Writer

  /** SegmentAfter: the name after the first occurrence of `name` that has one. */
  function SegmentAfter(names: seq<nat>, name: nat): Option<nat> {
    if |names| < 2 then None
    else if names[0] == name then Some(names[1])
    else SegmentAfter(names[1..], name)
  }

  lemma {:induction false} AfterInOrder(names: seq<nat>, i: nat)
    requires i < |names| && forall j :: 0 <= j < i ==> names[j] != names[i]
    requires forall j :: i < j < |names| ==> names[j] != names[i]
    ensures SegmentAfter(names, names[i]) == if i + 1 < |names| then Some(names[i + 1]) else None
    decreases |names|
  {
    if |names| >= 2 && i > 0 {
      AfterInOrder(names[1..], i - 1);
    } else if |names| >= 2 && i == 0 {
    }
  }

  /** What a cramped append leads to: where a name is repeated, whatever segments come later, the reader's
      next segment is the one it is in. */
  lemma {:induction false} RepeatedNameNeverAdvances(names: seq<nat>, i: nat)
    requires i + 1 < |names| && names[i + 1] == names[i] && forall j :: 0 <= j < i ==> names[j] != names[i]
    ensures SegmentAfter(names, names[i]) == Some(names[i])
    decreases |names|
  {
    if i > 0 {
      RepeatedNameNeverAdvances(names[1..], i - 1);
    }
  }

  // ---- What there is to read ----

  /** How a read comes to an end: at the end of the log, with the error that stops the startup, or with the decoder's
      panic. */
  datatype LogEnd = AtEnd | Broken | Panicking

  /** The records there are to read, and what comes after them. */
  datatype LogRead = LogRead(records: seq<Raw>, end: LogEnd)

  function Read(records: seq<Raw>): LogRead {
    LogRead(records, AtEnd)
  }

  function Before(records: seq<Raw>, rest: LogRead): LogRead {
    rest.(records := records + rest.records)
  }

  ghost predicate AllThere(names: seq<nat>, disk: map<nat, seq<byte>>) {
    forall i :: 0 <= i < |names| ==> names[i] in disk
  }

  ghost predicate Distinct(names: seq<nat>) {
    forall i, j :: 0 <= i < j < |names| ==> names[i] != names[j]
  }

  /** The log from here on, when `records` are read and then comes p; `next` is what later segments hold. At a clean
      end the reader goes on to the next segment; a cut frame is the end of the log in the last segment and an error
      before; a length over the limit is an error anywhere; a wrong checksum ends the log anywhere. */
  function Ended(records: seq<Raw>, p: Peeked, last: bool, next: LogRead): LogRead {
    match p
    case Clean => if last then Read(records) else Before(records, next)
    case Torn => LogRead(records, if last then AtEnd else Broken)
    case Oversize => LogRead(records, Broken)
    case Panics => LogRead(records, Panicking)
    case _ => Read(records)
  }

  /** What is left to read when `bs` is left of segment k. */
  function ReadOn(crc: Crc, names: seq<nat>, disk: map<nat, seq<byte>>, k: nat, bs: seq<byte>): LogRead
    requires AllThere(names, disk) && k < |names|
    decreases |names| - k, 1
  {
    var s := Scan(crc, bs);
    Ended(s.records, Peek(crc, bs[s.validEnd..]), k + 1 == |names|, After(crc, names, disk, k))
  }

  /** What the segments after segment k hold. */
  function After(crc: Crc, names: seq<nat>, disk: map<nat, seq<byte>>, k: nat): LogRead
    requires AllThere(names, disk) && k < |names|
    decreases |names| - k, 0
  {
    if k + 1 == |names| then Read([]) else ReadOn(crc, names, disk, k + 1, disk[names[k + 1]])
  }

  /** Reading a whole directory. */
  function ReadSegments(crc: Crc, names: seq<nat>, disk: map<nat, seq<byte>>): LogRead
    requires AllThere(names, disk)
  {
    if names == [] then Read([]) else ReadOn(crc, names, disk, 0, disk[names[0]])
  }

  lemma ReadOnStep(crc: Crc, names: seq<nat>, disk: map<nat, seq<byte>>, k: nat, bs: seq<byte>)
    requires AllThere(names, disk) && k < |names|
    ensures
      var p, all := Peek(crc, bs), ReadOn(crc, names, disk, k, bs);
      if p.Got? then all == Before([p.r], ReadOn(crc, names, disk, k, bs[p.size..]))
      else all == Ended([], p, k + 1 == |names|, After(crc, names, disk, k))
  {
    hide Peek, Ended, After;
    var p, s := Peek(crc, bs), Scan(crc, bs);
    if p.Got? {
      var rest := Scan(crc, bs[p.size..]);
      assert bs[s.validEnd..] == bs[p.size..][rest.validEnd..];
      EndedOne(p.r, rest.records, Peek(crc, bs[s.validEnd..]), k + 1 == |names|, After(crc, names, disk, k));
    } else {
      assert bs[0..] == bs;
    }
  }

  lemma EndedOne(r: Raw, rs: seq<Raw>, p: Peeked, last: bool, next: LogRead)
    ensures Ended([r] + rs, p, last, next) == Before([r], Ended(rs, p, last, next))
  {
    assert [r] + rs + next.records == [r] + (rs + next.records);
  }

  lemma BeforeNothing(rest: LogRead)
    ensures Before([], rest) == rest
  {
    assert [] + rest.records == rest.records;
  }

  // ---- Directories that were written ----

  /** After a scan of written records comes what stopped it: the torn tail, or the first oversize record. */
  lemma ScanStops(crc: Crc, rs: seq<Raw>, torn: seq<byte>)
    requires AllFit(rs) && IsTorn(crc, torn)
    ensures
      var bs := EncodeAll(crc, rs) + torn;
      var s := Scan(crc, bs);
      && s.records == SmallPrefix(rs)
      && Peek(crc, bs[s.validEnd..]) == if AllSmall(rs) then Peek(crc, torn) else Oversize
  {
    hide Peek, Frame, Scan, IsTorn;
    ScanWritten(crc, rs, torn);
    var kept := SmallPrefix(rs);
    var rest := rs[|kept|..];
    assert rs == kept + rest;
    EncodeAllConcat(crc, kept, rest);
    BackOf(EncodeAll(crc, kept), EncodeAll(crc, rest), torn);
    if AllSmall(rs) {
      assert rest == [] && EncodeAll(crc, rest) + torn == torn;
    } else {
      StopsAtOversize(rs);
      Associative(Frame(crc, rest[0]), EncodeAll(crc, rest[1..]), torn);
      PeekFrame(crc, rest[0], EncodeAll(crc, rest[1..]) + torn);
    }
  }

  lemma {:induction false} StopsAtOversize(rs: seq<Raw>)
    requires !AllSmall(rs)
    ensures |SmallPrefix(rs)| < |rs| && !Small(rs[|SmallPrefix(rs)|])
    decreases |rs|
  {
    if Small(rs[0]) {
      SmallTail(rs);
      StopsAtOversize(rs[1..]);
    }
  }

  lemma BackOf(a: seq<byte>, b: seq<byte>, c: seq<byte>)
    ensures (a + b + c)[|a|..] == b + c
  {
  }

  lemma SmallTail(rs: seq<Raw>)
    requires rs != [] && Small(rs[0])
    ensures AllSmall(rs) <==> AllSmall(rs[1..])
  {
    if AllSmall(rs[1..]) {
      forall i | 0 <= i < |rs| ensures Small(rs[i]) { if i > 0 { assert rs[1..][i - 1] == rs[i]; } }
    }
  }

  ghost predicate NoneOversize(chunks: seq<seq<Raw>>, k: nat) {
    forall i :: k <= i < |chunks| ==> AllSmall(chunks[i])
  }

  lemma SmallPrefixStep(rs: seq<Raw>)
    requires rs != []
    ensures SmallPrefix(rs) == if Small(rs[0]) then [rs[0]] + SmallPrefix(rs[1..]) else []
    ensures !Small(rs[0]) ==> !AllSmall(rs)
  {
  }

  lemma FrontMoves(a: seq<Raw>, b: seq<Raw>, c: seq<Raw>)
    requires a != []
    ensures (a + b)[0] == a[0] && (a + b)[1..] == a[1..] + b && [a[0]] + (a[1..] + c) == a + c
  {
  }

  lemma {:induction false} SmallPrefixConcat(a: seq<Raw>, b: seq<Raw>)
    ensures SmallPrefix(a + b) == if AllSmall(a) then a + SmallPrefix(b) else SmallPrefix(a)
    decreases |a|
  {
    hide SmallPrefix, Small;
    if a == [] {
      assert a + b == b && [] + SmallPrefix(b) == SmallPrefix(b);
    } else {
      hide AllSmall;
      FrontMoves(a, b, SmallPrefix(b));
      SmallPrefixStep(a);
      SmallPrefixStep(a + b);
      if Small(a[0]) {
        SmallTail(a);
        SmallPrefixConcat(a[1..], b);
      }
    }
  }

  /** No body is over the limit, not even the one whose frame is in flight. */
  ghost predicate ReadsOut(crc: Crc, chunks: seq<seq<Raw>>, torn: seq<byte>, k: nat) {
    NoneOversize(chunks, k) && !Peek(crc, torn).Oversize?
  }

  lemma NoneOversizeFrom(chunks: seq<seq<Raw>>, k: nat)
    requires k < |chunks|
    ensures NoneOversize(chunks, k) <==> AllSmall(chunks[k]) && NoneOversize(chunks, k + 1)
  {
    hide AllSmall;
  }

  /** One segment: its records up to the first oversize one, and then what stopped the scan. */
  lemma ReadsSegment(crc: Crc, names: seq<nat>, disk: map<nat, seq<byte>>, contents: seq<seq<byte>>,
                     chunks: seq<seq<Raw>>, torn: seq<byte>, k: nat)
    requires Layout(crc, names, disk, contents, chunks, torn) && IsTorn(crc, torn) && k < |names|
    requires AllThere(names, disk)
    ensures
      var last := k + 1 == |names|;
      var p := if !AllSmall(chunks[k]) then Oversize else if last then Peek(crc, torn) else Clean;
      ReadOn(crc, names, disk, k, disk[names[k]]) == Ended(SmallPrefix(chunks[k]), p, last, After(crc, names, disk, k))
  {
    hide Scan, Peek, EncodeAll, AllSmall, Follows, IsTorn, SmallPrefix, Ended, After;
    var tail := if k + 1 == |names| then torn else [];
    assert ChunkOk(chunks[k], names[k]) && disk[names[k]] == contents[k] == EncodeAll(crc, chunks[k]) + tail;
    NothingIsTorn(crc);
    PeekNone(crc);
    ScanStops(crc, chunks[k], tail);
  }

  /** Reading what was written: the records up to the first oversize one, which breaks the read; if there is none, all
      of them up to the frame in flight. */
  lemma {:induction false} ReadsLayout(crc: Crc, names: seq<nat>, disk: map<nat, seq<byte>>, contents: seq<seq<byte>>,
                                       chunks: seq<seq<Raw>>, torn: seq<byte>, k: nat)
    requires Layout(crc, names, disk, contents, chunks, torn) && IsTorn(crc, torn) && k < |names|
    requires AllThere(names, disk)
    ensures ReadOn(crc, names, disk, k, disk[names[k]]) ==
            LogRead(SmallPrefix(Flatten(chunks[k..])), if ReadsOut(crc, chunks, torn, k) then AtEnd else Broken)
    decreases |names| - k
  {
    hide Scan, Peek, AllSmall, NoneOversize, IsTorn, Flatten, SmallPrefix, ReadOn, Encodes, Holds, ChunkOk, Follows;
    ReadsSegment(crc, names, disk, contents, chunks, torn, k);
    PeekTorn(crc, torn);
    NoneOversizeFrom(chunks, k);
    FlattenFront(chunks[k..]);
    assert chunks[k..][0] == chunks[k] && chunks[k..][1..] == chunks[k + 1..];
    SmallPrefixConcat(chunks[k], Flatten(chunks[k + 1..]));
    if AllSmall(chunks[k]) { SmallIsPrefix(chunks[k]); }
    if k + 1 < |names| {
      ReadsLayout(crc, names, disk, contents, chunks, torn, k + 1);
    } else {
      LastSegment(chunks);
    }
  }

  lemma LastSegment(chunks: seq<seq<Raw>>)
    ensures NoneOversize(chunks, |chunks|) && SmallPrefix(Flatten(chunks[|chunks|..])) == []
  {
    assert chunks[|chunks|..] == [];
    FlattenNone();
    SmallNone();
  }

  lemma SmallNone()
    ensures SmallPrefix([]) == []
  {
  }

  lemma SmallParts(a: seq<Raw>, b: seq<Raw>)
    requires AllSmall(a + b)
    ensures AllSmall(a) && AllSmall(b)
  {
    hide Small;
    forall i | 0 <= i < |a| ensures Small(a[i]) { assert (a + b)[i] == a[i]; }
    forall i | 0 <= i < |b| ensures Small(b[i]) { assert (a + b)[|a| + i] == b[i]; }
  }

  lemma {:induction false} SmallChunks(chunks: seq<seq<Raw>>)
    ensures NoneOversize(chunks, 0) <==> AllSmall(Flatten(chunks))
    decreases |chunks|
  {
    if chunks != [] {
      hide Small;
      var n := |chunks| - 1;
      SmallChunks(chunks[..n]);
      if AllSmall(Flatten(chunks)) {
        SmallParts(Flatten(chunks[..n]), chunks[n]);
        forall i | 0 <= i < |chunks| ensures AllSmall(chunks[i]) { assert i < n ==> AllSmall(chunks[..n][i]); }
      }
      if NoneOversize(chunks, 0) {
        forall i | 0 <= i < n ensures AllSmall(chunks[..n][i]) { assert AllSmall(chunks[i]); }
      }
    }
  }

  lemma FlattenNone()
    ensures Flatten([]) == []
  {
  }

  lemma NothingIsTorn(crc: Crc)
    ensures IsTorn(crc, [])
  {
    assert [] < Frame(crc, Raw(0, 0, [], []));
  }

  lemma SmallIsPrefix(rs: seq<Raw>)
    requires AllSmall(rs)
    ensures SmallPrefix(rs) == rs
  {
  }

  lemma {:induction false} FlattenFront(chunks: seq<seq<Raw>>)
    requires chunks != []
    ensures Flatten(chunks) == chunks[0] + Flatten(chunks[1..])
    decreases |chunks|
  {
    var n := |chunks| - 1;
    if n == 0 {
      assert Flatten(chunks[..0]) == [] && chunks[1..] == [];
    } else {
      FlattenFront(chunks[..n]);
      assert chunks[..n][1..] == chunks[1..][..n - 1];
      assert chunks[0] + Flatten(chunks[1..][..n - 1]) + chunks[n] ==
        chunks[0] + (Flatten(chunks[1..][..n - 1]) + chunks[n]);
    }
  }

  lemma WrittenNames(crc: Crc, names: seq<nat>, disk: map<nat, seq<byte>>, contents: seq<seq<byte>>,
                     chunks: seq<seq<Raw>>, torn: seq<byte>)
    requires Layout(crc, names, disk, contents, chunks, torn)
    ensures AllThere(names, disk) && Distinct(names)
  {
    forall i, j | 0 <= i < j < |names| ensures names[i] != names[j] {
      NamesIncrease(names, chunks, i, j);
    }
  }

  // ---- Directories that were damaged ----

  /** The reader takes what a segment holds up to the first bytes that are no record, and then does what those say. */
  lemma ReadsUpToDamage(crc: Crc, names: seq<nat>, disk: map<nat, seq<byte>>, k: nat, rs: seq<Raw>, tail: seq<byte>)
    requires AllThere(names, disk) && k < |names| && AllSmall(rs) && !Peek(crc, tail).Got?
    requires disk[names[k]] == EncodeAll(crc, rs) + tail
    ensures ReadOn(crc, names, disk, k, disk[names[k]]) ==
            Ended(rs, Peek(crc, tail), k + 1 == |names|, After(crc, names, disk, k))
  {
    hide Peek, Scan, EncodeAll, Ended, After;
    ScanEnds(crc, rs, tail);
    assert (EncodeAll(crc, rs) + tail)[|EncodeAll(crc, rs)|..] == tail;
  }

  /** A frame cut short: in the last segment it is one still being written, and the log ends before it, unless its
      header already says that it is over the limit; anywhere else it is an error. */
  lemma CutFrameBreaks(crc: Crc, names: seq<nat>, disk: map<nat, seq<byte>>, k: nat, rs: seq<Raw>, r: Raw, t: seq<byte>)
    requires AllThere(names, disk) && k < |names| && AllSmall(rs) && Fits(r) && [] < t < Frame(crc, r)
    requires disk[names[k]] == EncodeAll(crc, rs) + t
    ensures ReadOn(crc, names, disk, k, disk[names[k]]) ==
            LogRead(rs, if k + 1 == |names| && (|t| < 12 || Small(r)) then AtEnd else Broken)
  {
    hide Peek, ReadOn, EncodeAll, Frame;
    PeekCut(crc, r, t);
    ReadsUpToDamage(crc, names, disk, k, rs, t);
  }

  /** A wrong checksum ends the log in whatever segment it is: what came before it was read, nothing behind it is. */
  lemma CorruptFrameEndsLog(crc: Crc, names: seq<nat>, disk: map<nat, seq<byte>>, k: nat, rs: seq<Raw>, r: Raw,
                            sum: u32, rest: seq<byte>)
    requires AllThere(names, disk) && k < |names| && AllSmall(rs) && Small(r) && sum != crc(Head(r))
    requires disk[names[k]] == EncodeAll(crc, rs) + (Corrupt(r, sum) + rest)
    ensures ReadOn(crc, names, disk, k, disk[names[k]]) == Read(rs)
  {
    hide Peek, ReadOn, EncodeAll, Corrupt;
    PeekCorrupt(crc, r, sum, rest);
    ReadsUpToDamage(crc, names, disk, k, rs, Corrupt(r, sum) + rest);
  }
}
