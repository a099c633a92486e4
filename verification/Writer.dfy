/**
  The writer of the segmented log, over segment files named by the LSN of their
  first record.
 */
module Writer {
  import opened Frames
  import opened Wal

  function Flatten(chunks: seq<seq<Raw>>): seq<Raw> {
    if chunks == [] then [] else Flatten(chunks[..|chunks| - 1]) + chunks[|chunks| - 1]
  }

  /** The records of one segment are numbered from its name on. */
  ghost predicate ChunkOk(chunk: seq<Raw>, first: nat) {
    AllFit(chunk) && forall j :: 0 <= j < |chunk| ==> chunk[j].lsn == first + j
  }

  /** Segment i is not empty, and the next one is named by a later LSN than its last. */
  ghost predicate Follows(names: seq<nat>, chunks: seq<seq<Raw>>, i: int)
    requires |names| == |chunks|
  {
    0 <= i < |names| - 1 ==> chunks[i] != [] && names[i] + |chunks[i]| <= names[i + 1]
  }

  /** The next segment is named by the very next LSN: none was deleted in between. */
  ghost predicate Adjoins(names: seq<nat>, chunks: seq<seq<Raw>>, i: int)
    requires |names| == |chunks|
  {
    0 <= i < |names| - 1 ==> names[i] + |chunks[i]| == names[i + 1]
  }

  ghost predicate Named(names: seq<nat>, chunks: seq<seq<Raw>>) {
    && |names| == |chunks| > 0 && 0 < names[0]
    && (forall i :: 0 <= i < |names| ==> ChunkOk(chunks[i], names[i]))
    && (forall i :: Follows(names, chunks, i))
  }

  /** The directory: segment i is the file `names[i]` with the bytes `contents[i]`, and there are no others. */
  ghost predicate Holds(names: seq<nat>, files: map<nat, seq<byte>>, contents: seq<seq<byte>>) {
    && |contents| == |names|
    && (forall k :: k in files ==> k in names)
    && forall i :: 0 <= i < |names| ==> names[i] in files && files[names[i]] == contents[i]
  }

  /** Each segment is its frames, and the last one is followed by the bytes `torn`. */
  ghost predicate Encodes(crc: Crc, contents: seq<seq<byte>>, chunks: seq<seq<Raw>>, torn: seq<byte>) {
    && |contents| == |chunks|
    && forall i :: 0 <= i < |chunks| ==>
         contents[i] == EncodeAll(crc, chunks[i]) + (if i == |chunks| - 1 then torn else [])
  }

  ghost predicate Layout(crc: Crc, names: seq<nat>, files: map<nat, seq<byte>>, contents: seq<seq<byte>>,
                         chunks: seq<seq<Raw>>, torn: seq<byte>)
  {
    Named(names, chunks) && Holds(names, files, contents) && Encodes(crc, contents, chunks, torn)
  }

  lemma {:induction false} NamesIncrease(names: seq<nat>, chunks: seq<seq<Raw>>, i: int, j: int)
    requires Named(names, chunks) && 0 <= i < j < |names|
    ensures names[i] + |chunks[i]| <= names[j] && names[i] < names[j]
    decreases j
  {
    assert Follows(names, chunks, j - 1);
    if i < j - 1 {
      NamesIncrease(names, chunks, i, j - 1);
    }
  }

  function EndLSN(names: seq<nat>, chunks: seq<seq<Raw>>): nat
    requires |names| == |chunks| > 0
  {
    names[|names| - 1] + |chunks[|names| - 1]|
  }

  /** Every next segment is named by the very next LSN, from LSN 1 on: nothing was deleted. */
  ghost predicate Whole(names: seq<nat>, chunks: seq<seq<Raw>>) {
    |names| == |chunks| > 0 && names[0] == 1 && forall i :: Adjoins(names, chunks, i)
  }

  ghost predicate Consecutive(rs: seq<Raw>, first: nat) {
    forall j :: 0 <= j < |rs| ==> rs[j].lsn == first + j
  }

  /** The records of a whole log, over all its segments, are numbered without a gap. */
  lemma {:induction false} Gapless(names: seq<nat>, chunks: seq<seq<Raw>>, k: nat)
    requires Named(names, chunks) && Whole(names, chunks) && 0 < k <= |names|
    ensures |Flatten(chunks[..k])| == names[k - 1] + |chunks[k - 1]| - 1
    ensures Consecutive(Flatten(chunks[..k]), 1)
    decreases k
  {
    assert chunks[..k][..k - 1] == chunks[..k - 1];
    assert ChunkOk(chunks[k - 1], names[k - 1]);
    if k > 1 {
      Gapless(names, chunks, k - 1);
      assert Adjoins(names, chunks, k - 2);
    } else {
      assert Flatten(chunks[..0]) == [];
    }
  }

  lemma WholeLog(names: seq<nat>, chunks: seq<seq<Raw>>)
    requires Named(names, chunks) && Whole(names, chunks)
    ensures Consecutive(Flatten(chunks), 1) && EndLSN(names, chunks) == |Flatten(chunks)| + 1
  {
    Gapless(names, chunks, |names|);
    assert chunks[..|names|] == chunks;
  }

  lemma WholeLast(names: seq<nat>, chunks: seq<seq<Raw>>, last: seq<Raw>)
    requires Whole(names, chunks)
    ensures Whole(names, chunks[|names| - 1 := last])
  {
    var chunks' := chunks[|names| - 1 := last];
    forall i ensures Adjoins(names, chunks', i) {
      assert Adjoins(names, chunks, i);
    }
  }

  lemma WholeRolled(names: seq<nat>, chunks: seq<seq<Raw>>)
    requires Whole(names, chunks)
    ensures Whole(names + [EndLSN(names, chunks)], chunks + [[]])
  {
    var names', chunks' := names + [EndLSN(names, chunks)], chunks + [[]];
    forall i ensures Adjoins(names', chunks', i) {
      assert Adjoins(names, chunks, i);
    }
  }

  lemma LastIsOwn(names: seq<nat>, chunks: seq<seq<Raw>>)
    requires Named(names, chunks)
    ensures forall i :: 0 <= i < |names| - 1 ==> names[i] < names[|names| - 1]
  {
    forall i | 0 <= i < |names| - 1 ensures names[i] < names[|names| - 1] {
      NamesIncrease(names, chunks, i, |names| - 1);
    }
  }

  lemma HoldsLast(names: seq<nat>, files: map<nat, seq<byte>>, contents: seq<seq<byte>>, bytes: seq<byte>)
    requires Holds(names, files, contents) && names != []
    requires forall i :: 0 <= i < |names| - 1 ==> names[i] != names[|names| - 1]
    ensures Holds(names, files[names[|names| - 1] := bytes], contents[|names| - 1 := bytes])
  {
  }

  /** Replacing the last chunk by one that is numbered the same way. */
  lemma NamedLast(names: seq<nat>, chunks: seq<seq<Raw>>, last: seq<Raw>)
    requires Named(names, chunks) && ChunkOk(last, names[|names| - 1])
    ensures Named(names, chunks[|names| - 1 := last])
  {
    var chunks' := chunks[|names| - 1 := last];
    forall i | 0 <= i < |names| ensures ChunkOk(chunks'[i], names[i]) {
      assert ChunkOk(chunks[i], names[i]);
    }
    forall i ensures Follows(names, chunks', i) {
      assert Follows(names, chunks, i);
    }
  }

  lemma EncodesLast(crc: Crc, contents: seq<seq<byte>>, chunks: seq<seq<Raw>>, torn: seq<byte>, bytes: seq<byte>,
                    last: seq<Raw>)
    requires Encodes(crc, contents, chunks, torn) && chunks != [] && bytes == EncodeAll(crc, last)
    ensures Encodes(crc, contents[|chunks| - 1 := bytes], chunks[|chunks| - 1 := last], [])
  {
    assert bytes == bytes + [];
  }

  /** Rewriting the last segment. */
  lemma LayoutLast(crc: Crc, names: seq<nat>, files: map<nat, seq<byte>>, contents: seq<seq<byte>>,
                   chunks: seq<seq<Raw>>, torn: seq<byte>, last: seq<Raw>)
    requires Layout(crc, names, files, contents, chunks, torn) && ChunkOk(last, names[|names| - 1])
    ensures
      var n, bytes := |names| - 1, EncodeAll(crc, last);
      Layout(crc, names, files[names[n] := bytes], contents[n := bytes], chunks[n := last], [])
  {
    LastIsOwn(names, chunks);
    HoldsLast(names, files, contents, EncodeAll(crc, last));
    NamedLast(names, chunks, last);
    EncodesLast(crc, contents, chunks, torn, EncodeAll(crc, last), last);
  }

  /** The directory after a crash that left `torn` behind. */
  lemma TornLayout(crc: Crc, names: seq<nat>, files: map<nat, seq<byte>>, contents: seq<seq<byte>>,
                   chunks: seq<seq<Raw>>, torn: seq<byte>)
    requires Layout(crc, names, files, contents, chunks, [])
    ensures
      var n := |names| - 1;
      var bytes := files[names[n]] + torn;
      Layout(crc, names, files[names[n] := bytes], contents[n := bytes], chunks, torn)
  {
    var n := |names| - 1;
    LastIsOwn(names, chunks);
    HoldsLast(names, files, contents, files[names[n]] + torn);
    TornEncodes(crc, contents, chunks, torn);
  }

  lemma TornEncodes(crc: Crc, contents: seq<seq<byte>>, chunks: seq<seq<Raw>>, torn: seq<byte>)
    requires Encodes(crc, contents, chunks, []) && chunks != []
    ensures Encodes(crc, contents[|chunks| - 1 := contents[|chunks| - 1] + torn], chunks, torn)
  {
    hide EncodeAll;
    var n := |chunks| - 1;
    assert contents[n] == EncodeAll(crc, chunks[n]) + [] == EncodeAll(crc, chunks[n]);
  }

  // ---- Recovery ----

  /** What the scan of the last file finds. */
  lemma LastFileScans(crc: Crc, chunk: seq<Raw>, torn: seq<byte>, first: nat)
    requires ChunkOk(chunk, first) && IsTorn(crc, torn)
    ensures
      var bytes, kept := EncodeAll(crc, chunk) + torn, SmallPrefix(chunk);
      var s := Scan(crc, bytes);
      && s.records == kept && !s.panicked && ChunkOk(kept, first) && bytes[..s.validEnd] == EncodeAll(crc, kept)
      && (if kept == [] then first else kept[|kept| - 1].lsn + 1) == first + |kept|
  {
    hide Frame, Scan;
    ScanWritten(crc, chunk, torn);
    var kept := SmallPrefix(chunk);
    assert chunk == kept + chunk[|kept|..];
    EncodeAllConcat(crc, kept, chunk[|kept|..]);
    FrontOf(EncodeAll(crc, kept), EncodeAll(crc, chunk[|kept|..]), torn);
  }

  lemma FrontOf(a: seq<byte>, b: seq<byte>, c: seq<byte>)
    ensures (a + b + c)[..|a|] == a
  {
  }

  /** Cutting the last file where its valid data ends leaves exactly the
      records written, numbered on; a torn frame leaves no trace. */
  lemma RecoveryCutsTornTail(crc: Crc, names: seq<nat>, files: map<nat, seq<byte>>, contents: seq<seq<byte>>,
                             chunks: seq<seq<Raw>>, torn: seq<byte>)
    requires Layout(crc, names, files, contents, chunks, torn) && IsTorn(crc, torn)
    ensures
      var n := |names| - 1;
      var s, kept := Scan(crc, files[names[n]]), SmallPrefix(chunks[n]);
      var cut := files[names[n]][..s.validEnd];
      && s.records == kept && !s.panicked
      && Layout(crc, names, files[names[n] := cut], contents[n := cut], chunks[n := kept], [])
      && (if kept == [] then names[n] else kept[|kept| - 1].lsn + 1) == EndLSN(names, chunks[n := kept])
  {
    var n := |names| - 1;
    assert ChunkOk(chunks[n], names[n]);
    assert files[names[n]] == contents[n] == EncodeAll(crc, chunks[n]) + torn;
    LastFileScans(crc, chunks[n], torn, names[n]);
    LayoutLast(crc, names, files, contents, chunks, torn, SmallPrefix(chunks[n]));
  }

  /** Recovery loses nothing if and only if no body in the last segment is oversize. */
  lemma RecoveryIsExact(chunks: seq<seq<Raw>>)
    requires chunks != []
    ensures
      var n := |chunks| - 1;
      Flatten(chunks[n := SmallPrefix(chunks[n])]) == Flatten(chunks) <==> AllSmall(chunks[n])
  {
    var n := |chunks| - 1;
    var kept := SmallPrefix(chunks[n]);
    assert chunks[n := kept][..n] == chunks[..n];
    assert |Flatten(chunks)| == |Flatten(chunks[..n])| + |chunks[n]|;
    assert |Flatten(chunks[n := kept])| == |Flatten(chunks[..n])| + |kept|;
    assert kept == chunks[n] <==> |kept| == |chunks[n]|;
  }

  // ---- Appending ----

  lemma ExtendLayout(crc: Crc, names: seq<nat>, files: map<nat, seq<byte>>, contents: seq<seq<byte>>,
                     chunks: seq<seq<Raw>>, r: Raw)
    requires Layout(crc, names, files, contents, chunks, []) && Fits(r) && r.lsn == EndLSN(names, chunks)
    ensures
      var n := |names| - 1;
      var bytes := files[names[n]] + Frame(crc, r);
      Layout(crc, names, files[names[n] := bytes], contents[n := bytes], chunks[n := chunks[n] + [r]], [])
  {
    var n := |names| - 1;
    assert ChunkOk(chunks[n], names[n]);
    LayoutLast(crc, names, files, contents, chunks, [], chunks[n] + [r]);
    EncodeSnoc(crc, chunks[n], r);
    assert files[names[n]] == contents[n] == EncodeAll(crc, chunks[n]) + [];
  }

  lemma EncodeSnoc(crc: Crc, rs: seq<Raw>, r: Raw)
    ensures EncodeAll(crc, rs + [r]) == EncodeAll(crc, rs) + [] + Frame(crc, r)
  {
    EncodeAllConcat(crc, rs, [r]);
    assert [r][1..] == [];
    assert EncodeAll(crc, [r]) == Frame(crc, r) + EncodeAll(crc, [r][1..]);
  }

  lemma RolledNames(names: seq<nat>, chunks: seq<seq<Raw>>)
    requires Named(names, chunks) && chunks[|names| - 1] != []
    ensures EndLSN(names, chunks) !in names
    ensures Named(names + [EndLSN(names, chunks)], chunks + [[]])
  {
    var n, next := |names|, EndLSN(names, chunks);
    var names', chunks' := names + [next], chunks + [[]];
    LastIsOwn(names, chunks);
    forall i | 0 <= i <= n ensures ChunkOk(chunks'[i], names'[i]) {
      if i < n { assert ChunkOk(chunks[i], names[i]); }
    }
    forall i ensures Follows(names', chunks', i) {
      assert Follows(names, chunks, i);
    }
  }

  lemma RolledFiles(names: seq<nat>, files: map<nat, seq<byte>>, contents: seq<seq<byte>>, next: nat)
    requires Holds(names, files, contents) && next !in names
    ensures next !in files && Holds(names + [next], files[next := []], contents + [[]])
  {
  }

  lemma RolledEncodes(crc: Crc, contents: seq<seq<byte>>, chunks: seq<seq<Raw>>)
    requires Encodes(crc, contents, chunks, [])
    ensures Encodes(crc, contents + [[]], chunks + [[]], [])
  {
  }

  lemma RolledLayout(crc: Crc, names: seq<nat>, files: map<nat, seq<byte>>, contents: seq<seq<byte>>,
                     chunks: seq<seq<Raw>>)
    requires Layout(crc, names, files, contents, chunks, []) && chunks[|names| - 1] != []
    ensures EndLSN(names, chunks) !in names && EndLSN(names, chunks) !in files
    ensures Layout(crc, names + [EndLSN(names, chunks)], files[EndLSN(names, chunks) := []], contents + [[]],
            chunks + [[]], [])
  {
    RolledNames(names, chunks);
    RolledFiles(names, files, contents, EndLSN(names, chunks));
    RolledEncodes(crc, contents, chunks);
  }

  lemma FlattenGrows(before: seq<seq<Raw>>, chunks: seq<seq<Raw>>, r: Raw, rolled: bool)
    requires before != [] && chunks == if rolled then before + [[]] else before
    ensures Flatten(chunks[|chunks| - 1 := chunks[|chunks| - 1] + [r]]) == Flatten(before) + [r]
  {
    var n := |chunks| - 1;
    assert chunks[n := chunks[n] + [r]][..n] == chunks[..n];
    if rolled { assert chunks[..n] == before; }
  }

  /** Everything a write at the end of the last segment keeps. */
  lemma Written(crc: Crc, names: seq<nat>, files: map<nat, seq<byte>>, contents: seq<seq<byte>>, chunks: seq<seq<Raw>>,
                r: Raw, rolled: bool, before: seq<seq<Raw>>)
    requires Layout(crc, names, files, contents, chunks, []) && Fits(r) && r.lsn == EndLSN(names, chunks)
    requires before != [] && chunks == if rolled then before + [[]] else before
    ensures |names| == |chunks| == |contents| > 0 && names[|names| - 1] in files
    ensures
      var n := |names| - 1;
      var bytes, chunks' := files[names[n]] + Frame(crc, r), chunks[n := chunks[n] + [r]];
      && Layout(crc, names, files[names[n] := bytes], contents[n := bytes], chunks', [])
      && EndLSN(names, chunks') == r.lsn + 1
      && Flatten(chunks') == Flatten(before) + [r]
      && (Whole(names, chunks) ==> Whole(names, chunks'))
  {
    hide Encodes, ChunkOk, Follows, Frame, Whole, Flatten;
    ExtendLayout(crc, names, files, contents, chunks, r);
    FlattenGrows(before, chunks, r, rolled);
    if Whole(names, chunks) { WholeLast(names, chunks, chunks[|names| - 1] + [r]); }
  }

  lemma FreshLayout(crc: Crc)
    ensures Layout(crc, [1], map[1 := []], [[]], [[]], [])
  {
    assert EncodeAll(crc, []) + [] == [];
  }

  /** The last file is empty exactly when its segment holds no record; its name is then the next LSN. */
  lemma LastFileEmpty(crc: Crc, names: seq<nat>, files: map<nat, seq<byte>>, contents: seq<seq<byte>>,
                      chunks: seq<seq<Raw>>)
    requires Layout(crc, names, files, contents, chunks, [])
    ensures |files[names[|names| - 1]]| == 0 <==> chunks[|names| - 1] == []
  {
    var n := |names| - 1;
    assert files[names[n]] == contents[n] == EncodeAll(crc, chunks[n]) + [];
    EmptyMeansNone(crc, chunks[n]);
  }

  lemma FreshIsWhole()
    ensures Whole([1], [[]])
  {
  }

  lemma LastIsHeld(names: seq<nat>, files: map<nat, seq<byte>>, contents: seq<seq<byte>>)
    requires Holds(names, files, contents) && names != []
    ensures |contents| == |names| && names[|names| - 1] in files
  {
  }

  class LogWriter {
    const crc: Crc
    const maxSegSize: int
    var segments: seq<nat>
    var files: map<nat, seq<byte>>
    var currentSize: nat
    var nextLSN: nat
    ghost var contents: seq<seq<byte>>
    ghost var chunks: seq<seq<Raw>>

    ghost predicate Valid()
      reads this
    {
      && Layout(crc, segments, files, contents, chunks, [])
      && nextLSN == EndLSN(segments, chunks)
      && currentSize == |files[segments[|segments| - 1]]|
    }

    /** Open: a fresh log, or whatever a crash left of one. */
    constructor Open(crc: Crc, maxSegSize: int, names: seq<nat>, disk: map<nat, seq<byte>>,
                     ghost bytes: seq<seq<byte>>, ghost written: seq<seq<Raw>>, ghost torn: seq<byte>)
      requires names == [] ==> disk == map[]
      requires names != [] ==> Layout(crc, names, disk, bytes, written, torn) && IsTorn(crc, torn)
      ensures Valid() && this.crc == crc && this.maxSegSize == maxSegSize
      ensures names == [] ==> segments == [1] && chunks == [[]] && nextLSN == 1
      ensures names != [] ==>
                var n := |names| - 1;
                segments == names && chunks == written[n := SmallPrefix(written[n])]
      ensures names == [] || Whole(names, written) ==> Whole(segments, chunks)
    {
      hide Encodes, ChunkOk, Follows, Holds, Scan, SmallPrefix, IsTorn;
      this.crc, this.maxSegSize := crc, maxSegSize;
      if names == [] {
        segments, files, contents, chunks := [1], map[1 := []], [[]], [[]];
        nextLSN, currentSize := 1, 0;
        FreshLayout(crc);
        FreshIsWhole();
      } else {
        var last := names[|names| - 1];
        LastIsHeld(names, disk, bytes);
        RecoveryCutsTornTail(crc, names, disk, bytes, written, torn);
        var records, validEnd, panicked := ScanSegment(crc, disk[last]);
        assert !panicked;
        nextLSN := last;
        if |records| > 0 {
          nextLSN := records[|records| - 1].lsn + 1;
        }
        segments, files := names, disk[last := disk[last][..validEnd]];
        currentSize := validEnd;
        contents := bytes[|names| - 1 := disk[last][..validEnd]];
        chunks := written[|names| - 1 := SmallPrefix(written[|names| - 1])];
        if Whole(names, written) { WholeLast(names, written, SmallPrefix(written[|names| - 1])); }
      }
    }

    /** An empty segment cannot take the frame, so rolling gives it its own name again. */
    ghost predicate Cramped(size: nat)
      reads this
    {
      currentSize == 0 && size > maxSegSize
    }

    method RollSegment()
      requires Valid()
      modifies this
      ensures currentSize == 0 && nextLSN == old(nextLSN)
      ensures segments == old(segments) + [nextLSN]
      ensures old(currentSize) > 0 ==> Valid() && chunks == old(chunks) + [[]]
      ensures old(currentSize) > 0 && old(Whole(segments, chunks)) ==> Whole(segments, chunks)
      ensures files == old(files)[nextLSN := []]
      ensures old(currentSize) == 0 ==> nextLSN in old(segments)
    {
      hide Encodes, ChunkOk, Whole;
      ghost var full := currentSize > 0;
      LastFileEmpty(crc, segments, files, contents, chunks);
      if full {
        RolledLayout(crc, segments, files, contents, chunks);
        if Whole(segments, chunks) { WholeRolled(segments, chunks); }
      }
      assert nextLSN in files <==> !full;
      segments := segments + [nextLSN];
      if nextLSN !in files {
        files := files[nextLSN := []];
        contents, chunks := contents + [[]], chunks + [[]];
      }
      currentSize := 0;
    }

    /** Append: stamp the LSN, roll if the frame would not fit, write. The frame goes to the end of the last
        file in any case; the log grows by its record, unless the segment size is too small for it or its
        length field wraps. */
    method Append(opType: byte, queueName: seq<byte>, payload: seq<byte>) returns (lsn: nat)
      requires Valid() && nextLSN < 0x1_0000_0000_0000_0000
      modifies this
      ensures lsn == old(nextLSN) && nextLSN == lsn + 1
      ensures
        var frame := Frame(crc, Raw(lsn, opType, queueName, payload));
        var rolls := old(currentSize) + |frame| > maxSegSize;
        var before := if rolls then [] else old(files[segments[|segments| - 1]]);
        && segments == old(segments) + (if rolls then [lsn] else [])
        && files == old(files)[segments[|segments| - 1] := before + frame]
        && currentSize == (if rolls then 0 else old(currentSize)) + |frame|
      ensures
        var r := Raw(lsn, opType, queueName, payload);
        && (old(Cramped(12 + BodyLength(r))) ==> lsn in old(segments))
        && (Fits(r) && !old(Cramped(12 + BodyLength(r))) ==>
              && Valid() && Flatten(chunks) == old(Flatten(chunks)) + [r]
              && (old(Whole(segments, chunks)) ==> Whole(segments, chunks)))
    {
      hide Encodes, ChunkOk, Follows, Frame, Holds, Whole;
      lsn := nextLSN;
      var r := Raw(lsn, opType, queueName, payload);
      var encoded := Encode(crc, r);
      var buf := encoded[..];
      ghost var sound := Fits(r) && !Cramped(|buf|);
      ghost var rolled := currentSize + |buf| > maxSegSize;
      LastIsHeld(segments, files, contents);
      if currentSize + |buf| > maxSegSize {
        RollSegment();
      }
      Write(r, buf, sound, rolled, old(chunks));
    }

    /** The write that ends an append. */
    method Write(r: Raw, buf: seq<byte>, ghost sound: bool, ghost rolled: bool, ghost before: seq<seq<Raw>>)
      requires segments != [] && segments[|segments| - 1] in files && buf == Frame(crc, r)
      requires sound ==>
                 && Valid() && Fits(r) && r.lsn == nextLSN && before != []
                 && chunks == if rolled then before + [[]] else before
      modifies this
      ensures segments == old(segments) && nextLSN == old(nextLSN) + 1 && currentSize == old(currentSize) + |buf|
      ensures files == old(files)[segments[|segments| - 1] := old(files[segments[|segments| - 1]]) + buf]
      ensures sound ==> Valid() && Flatten(chunks) == Flatten(before) + [r]
      ensures sound && old(Whole(segments, chunks)) ==> Whole(segments, chunks)
    {
      hide Layout, Frame, Whole, Flatten;
      var last := segments[|segments| - 1];
      if sound {
        ghost var n := |segments| - 1;
        Written(crc, segments, files, contents, chunks, r, rolled, before);
        contents, chunks := contents[n := files[last] + buf], chunks[n := chunks[n] + [r]];
      }
      files := files[last := files[last] + buf];
      currentSize := currentSize + |buf|;
      nextLSN := nextLSN + 1;
    }
  }

  lemma EmptyMeansNone(crc: Crc, rs: seq<Raw>)
    ensures EncodeAll(crc, rs) == [] <==> rs == []
  {
  }
}
