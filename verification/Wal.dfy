/**
  The segmented log in bytes: writing frames, scanning them back, cutting off a
  torn tail.
 */
module Wal {
  import opened Frames

  const MAX_LOG_LENGTH: nat := 16 * 1024 * 1024

  /** The reader refuses longer bodies; the writer does not. */
  predicate Small(r: Raw) {
    BodyLength(r) <= MAX_LOG_LENGTH
  }

  function EncodeAll(crc: Crc, rs: seq<Raw>): seq<byte> {
    if rs == [] then [] else Frame(crc, rs[0]) + EncodeAll(crc, rs[1..])
  }

  lemma Associative(a: seq<byte>, b: seq<byte>, c: seq<byte>)
    ensures a + (b + c) == a + b + c
  {
  }

  lemma {:induction false} EncodeAllConcat(crc: Crc, a: seq<Raw>, b: seq<Raw>)
    ensures EncodeAll(crc, a + b) == EncodeAll(crc, a) + EncodeAll(crc, b)
  {
    hide Frame;
    if a == [] {
      assert a + b == b;
    } else {
      EncodeAllConcat(crc, a[1..], b);
      assert (a + b)[1..] == a[1..] + b && (a + b)[0] == a[0];
      Associative(Frame(crc, a[0]), EncodeAll(crc, a[1..]), EncodeAll(crc, b));
    }
  }

  // ---- One frame at the front of some bytes ----

  datatype Peeked = Clean | Torn | Oversize | Bad | Panics | Got(r: Raw, size: nat)

  /** What the scan and the reader see first: nothing, a cut frame, a length over the limit, a frame with
      a wrong checksum, one on which the decoder panics, or a record. */
  function Peek(crc: Crc, bs: seq<byte>): (p: Peeked)
    ensures p.Got? ==> 12 <= p.size <= |bs|
  {
    if bs == [] then Clean
    else if |bs| < 12 then Torn
    else if Uint(bs, 8, 4) > MAX_LOG_LENGTH then Oversize
    else if |bs| < 12 + Uint(bs, 8, 4) then Torn
    else
      match Decode(crc, bs[..12 + Uint(bs, 8, 4)])
      case Decoded(r) => Got(r, 12 + Uint(bs, 8, 4))
      case OutOfBounds => Panics
      case _ => Bad
  }

  /** A frame is seen as its record, or as over the limit, whatever follows it. */
  lemma PeekFrame(crc: Crc, r: Raw, rest: seq<byte>)
    requires Fits(r)
    ensures Peek(crc, Frame(crc, r) + rest) == if Small(r) then Got(r, |Frame(crc, r)|) else Oversize
  {
    var bs := Frame(crc, r) + rest;
    assert bs[..12] == Frame(crc, r)[..12];
    LengthField(crc, r, bs);
    if Small(r) {
      assert bs[..12 + BodyLength(r)] == Frame(crc, r) + [];
      DecodeFrame(crc, r, []);
    }
  }

  /** A proper prefix of some frame, possibly empty: all that a crash can leave. */
  ghost predicate IsTorn(crc: Crc, t: seq<byte>) {
    exists r :: Fits(r) && t < Frame(crc, r)
  }

  lemma PeekTorn(crc: Crc, t: seq<byte>)
    requires IsTorn(crc, t)
    ensures Peek(crc, t).Clean? || Peek(crc, t).Torn? || Peek(crc, t).Oversize?
  {
    var r :| Fits(r) && t < Frame(crc, r);
    if |t| >= 12 {
      assert t[..12] == Frame(crc, r)[..12];
      LengthField(crc, r, t);
    }
  }

  /** What is seen of a frame that was cut: its length over the limit if the header is there to say so. */
  lemma PeekCut(crc: Crc, r: Raw, t: seq<byte>)
    requires Fits(r) && t < Frame(crc, r)
    ensures Peek(crc, t) == if t == [] then Clean else if |t| >= 12 && !Small(r) then Oversize else Torn
  {
    if |t| >= 12 {
      assert t[..12] == Frame(crc, r)[..12];
      LengthField(crc, r, t);
    }
  }

  // ---- Scanning a segment ----

  /** `panicked` says that the decoder panicked on what follows: nobody then gets to see the rest. */
  datatype Scanned = Scanned(records: seq<Raw>, validEnd: nat, panicked: bool)

  function Scan(crc: Crc, bs: seq<byte>): (s: Scanned)
    ensures s.validEnd <= |bs|
    decreases |bs|
  {
    match Peek(crc, bs)
    case Got(r, size) =>
      var rest := Scan(crc, bs[size..]);
      Scanned([r] + rest.records, size + rest.validEnd, rest.panicked)
    case p => Scanned([], 0, p.Panics?)
  }

  /** Whatever bytes it is given, a scan only returns records within the limit. */
  lemma {:induction false} ScannedAreSmall(crc: Crc, bs: seq<byte>)
    ensures AllSmall(Scan(crc, bs).records)
    decreases |bs|
  {
    var p := Peek(crc, bs);
    if p.Got? {
      ScannedAreSmall(crc, bs[p.size..]);
    }
  }

  /** The records before the first one over the limit. */
  function SmallPrefix(rs: seq<Raw>): (s: seq<Raw>)
    ensures s <= rs
    ensures s == rs <==> forall i :: 0 <= i < |rs| ==> Small(rs[i])
  {
    if rs == [] || !Small(rs[0]) then [] else [rs[0]] + SmallPrefix(rs[1..])
  }

  ghost predicate AllFit(rs: seq<Raw>) {
    forall i :: 0 <= i < |rs| ==> Fits(rs[i])
  }

  ghost predicate AllSmall(rs: seq<Raw>) {
    forall i :: 0 <= i < |rs| ==> Small(rs[i])
  }

  /** Scanning what was written, torn tail included, finds the written records
      up to the first oversize one, and where they end. */
  lemma {:induction false} ScanWritten(crc: Crc, rs: seq<Raw>, torn: seq<byte>)
    requires AllFit(rs) && IsTorn(crc, torn)
    ensures Scan(crc, EncodeAll(crc, rs) + torn) == Scanned(SmallPrefix(rs), |EncodeAll(crc, SmallPrefix(rs))|, false)
    decreases |rs|
  {
    var bs := EncodeAll(crc, rs) + torn;
    if rs == [] {
      assert bs == torn;
      PeekTorn(crc, torn);
    } else {
      var rest := EncodeAll(crc, rs[1..]) + torn;
      Associative(Frame(crc, rs[0]), EncodeAll(crc, rs[1..]), torn);
      PeekFrame(crc, rs[0], rest);
      if Small(rs[0]) {
        assert bs[|Frame(crc, rs[0])|..] == rest;
        ScanWritten(crc, rs[1..], torn);
        assert SmallPrefix(rs)[1..] == SmallPrefix(rs[1..]);
      }
    }
  }

  /** The exact condition: nothing written is lost if and only if no body exceeds the limit. */
  lemma RecoversAllIffSmall(crc: Crc, rs: seq<Raw>, torn: seq<byte>)
    requires AllFit(rs) && IsTorn(crc, torn)
    ensures Scan(crc, EncodeAll(crc, rs) + torn).records == rs <==> AllSmall(rs)
  {
    ScanWritten(crc, rs, torn);
  }

  /** For any bytes, cutting them where the scan got to leaves what it got: a second recovery after a first
      that did not panic changes nothing. */
  lemma {:induction false} TruncationIsFinal(crc: Crc, bs: seq<byte>)
    ensures
      var s := Scan(crc, bs);
      Scan(crc, bs[..s.validEnd]) == Scanned(s.records, s.validEnd, false)
    decreases |bs|
  {
    hide Peek;
    var p := Peek(crc, bs);
    if p.Got? {
      var end := Scan(crc, bs).validEnd;
      TruncationIsFinal(crc, bs[p.size..]);
      var kept := bs[..end];
      assert kept[p.size..] == bs[p.size..][..end - p.size];
      PeekKept(crc, bs, kept);
    } else {
      PeekNone(crc);
    }
  }

  lemma PeekNone(crc: Crc)
    ensures Peek(crc, []) == Clean
  {
  }

  /** The exact condition: recovery is a fixpoint if and only if it never meets a frame that panics. */
  lemma RecoversTwiceIffNoPanic(crc: Crc, bs: seq<byte>)
    ensures
      var s := Scan(crc, bs);
      Scan(crc, bs[..s.validEnd]) == s <==> !s.panicked
  {
    TruncationIsFinal(crc, bs);
  }

  /** What stands in front of some bytes does not change what a scan makes of them. */
  lemma {:induction false} ScanPast(crc: Crc, rs: seq<Raw>, tail: seq<byte>)
    requires AllSmall(rs)
    ensures
      var s := Scan(crc, tail);
      Scan(crc, EncodeAll(crc, rs) + tail) == Scanned(rs + s.records, |EncodeAll(crc, rs)| + s.validEnd, s.panicked)
    decreases |rs|
  {
    hide Peek, Frame;
    var bs := EncodeAll(crc, rs) + tail;
    if rs == [] {
      assert bs == tail;
    } else {
      Associative(Frame(crc, rs[0]), EncodeAll(crc, rs[1..]), tail);
      PeekFrame(crc, rs[0], EncodeAll(crc, rs[1..]) + tail);
      assert bs[|Frame(crc, rs[0])|..] == EncodeAll(crc, rs[1..]) + tail;
      ScanPast(crc, rs[1..], tail);
      var rest := Scan(crc, tail).records;
      assert [rs[0]] + (rs[1..] + rest) == rs + rest;
    }
  }

  /** Bytes in which no record comes next end the scan where they begin. */
  lemma ScanEnds(crc: Crc, rs: seq<Raw>, tail: seq<byte>)
    requires AllSmall(rs) && !Peek(crc, tail).Got?
    ensures Scan(crc, EncodeAll(crc, rs) + tail) == Scanned(rs, |EncodeAll(crc, rs)|, Peek(crc, tail).Panics?)
  {
    hide Peek, EncodeAll;
    ScanPast(crc, rs, tail);
    assert rs + [] == rs;
  }

  /** Panics happen: a frame whose body is shorter than its own fields, such as twelve zero bytes, is one,
      whatever stands before and after it. */
  lemma ShortBodyPanics(crc: Crc, rs: seq<Raw>, header: seq<byte>, rest: seq<byte>)
    requires AllSmall(rs) && |header| == 12 && Uint(header, 8, 4) < 9 && Uint(header, 8, 4) <= |rest|
    ensures Scan(crc, EncodeAll(crc, rs) + (header + rest)) == Scanned(rs, |EncodeAll(crc, rs)|, true)
  {
    hide Peek, Scan, EncodeAll, Uint;
    PeekShortBody(crc, header, rest);
    ScanEnds(crc, rs, header + rest);
  }

  /** A frame with its fields in place and another number where its checksum should be. */
  function Corrupt(r: Raw, sum: u32): seq<byte> {
    Head(r) + LittleEndian(sum, WIDTH32)
  }

  lemma PeekCorrupt(crc: Crc, r: Raw, sum: u32, rest: seq<byte>)
    requires Small(r) && sum != crc(Head(r))
    ensures Peek(crc, Corrupt(r, sum) + rest) == Bad
  {
    hide LittleEndian, FromLittleEndian, Head, Power256;
    var bs, n, q := Corrupt(r, sum) + rest, BodyLength(r), |r.queueName|;
    var frame := bs[..12 + n];
    var other: Crc := _ => sum;
    assert Frame(other, r) == Corrupt(r, sum) && frame == Corrupt(r, sum);
    FrameFields(other, r, rest);
    FrameFields(other, r, []);
    assert frame + [] == frame;
    Widths();
    LittleEndianRoundTrip(n, WIDTH32);
    LittleEndianRoundTrip(q, WIDTH32);
    LittleEndianRoundTrip(sum, WIDTH32);
  }

  /** A wrong checksum ends the scan: what came before it counts, and nothing behind it is looked at. */
  lemma CorruptFrameEndsScan(crc: Crc, rs: seq<Raw>, r: Raw, sum: u32, rest: seq<byte>)
    requires AllSmall(rs) && Small(r) && sum != crc(Head(r))
    ensures Scan(crc, EncodeAll(crc, rs) + (Corrupt(r, sum) + rest)) == Scanned(rs, |EncodeAll(crc, rs)|, false)
  {
    hide Peek, Scan, EncodeAll, Corrupt;
    PeekCorrupt(crc, r, sum, rest);
    ScanEnds(crc, rs, Corrupt(r, sum) + rest);
  }

  lemma PeekShortBody(crc: Crc, header: seq<byte>, rest: seq<byte>)
    requires |header| == 12 && Uint(header, 8, 4) < 9 && Uint(header, 8, 4) <= |rest|
    ensures Peek(crc, header + rest) == Panics
  {
    hide FromLittleEndian;
    var bs := header + rest;
    assert bs[8..12] == header[8..12];
    assert bs[..12 + Uint(header, 8, 4)][8..12] == header[8..12];
  }

  /** A record at the front is seen no matter how much of what follows it is cut off. */
  lemma PeekKept(crc: Crc, bs: seq<byte>, kept: seq<byte>)
    requires Peek(crc, bs).Got? && kept <= bs && Peek(crc, bs).size <= |kept|
    ensures Peek(crc, kept) == Peek(crc, bs)
  {
    var size := Peek(crc, bs).size;
    assert kept[8..12] == bs[8..12];
    assert kept[..size] == bs[..size];
  }

  /** The loop over the offset; `panicked` is the decoder's panic. */
  method ScanSegment(crc: Crc, file: seq<byte>) returns (records: seq<Raw>, validEnd: nat, panicked: bool)
    ensures Scanned(records, validEnd, panicked) == Scan(crc, file)
  {
    hide Peek;
    records, validEnd, panicked := [], 0, false;
    assert file[0..] == file;
    while true
      invariant validEnd <= |file|
      invariant
        var rest := Scan(crc, file[validEnd..]);
        Scan(crc, file).records == records + rest.records && Scan(crc, file).validEnd == validEnd + rest.validEnd
        && Scan(crc, file).panicked == rest.panicked
      decreases |file| - validEnd
    {
      var p := Peek(crc, file[validEnd..]);
      if !p.Got? {
        panicked := p.Panics?;
        return;
      }
      ghost var rest := Scan(crc, file[validEnd + p.size..]).records;
      assert file[validEnd..][p.size..] == file[validEnd + p.size..];
      assert records + ([p.r] + rest) == (records + [p.r]) + rest;
      records := records + [p.r];
      validEnd := validEnd + p.size;
    }
  }
}
