/**
  The on-disk frame of one record. Layout, little-endian: LSN (8 bytes), length
  of the rest (4), operation type (1), queue name length (4), queue name,
  payload, checksum of everything before it (4).
 */
module Frames {

  type byte = b: int | 0 <= b < 0x100
  type u32 = n: int | 0 <= n < 0x1_0000_0000
  type u64 = n: int | 0 <= n < 0x1_0000_0000_0000_0000

  const WIDTH32: nat := 4
  const WIDTH64: nat := 8

  /** Any checksum function; the format's laws hold for all of them. */
  type Crc = seq<byte> -> u32

  datatype Raw = Raw(lsn: u64, opType: byte, queueName: seq<byte>, payload: seq<byte>)

  /** The bytes after the length field. */
  function BodyLength(r: Raw): nat {
    9 + |r.queueName| + |r.payload|
  }

  /** The length field does not wrap. */
  predicate Fits(r: Raw) {
    BodyLength(r) < 0x1_0000_0000
  }

  // ---- Little-endian numbers ----

  function Power256(k: nat): (p: nat)
    ensures p > 0
  {
    if k == 0 then 1 else 256 * Power256(k - 1)
  }

  function LittleEndian(n: nat, k: nat): (bs: seq<byte>)
    ensures |bs| == k
  {
    if k == 0 then [] else [n % 256] + LittleEndian(n / 256, k - 1)
  }

  function FromLittleEndian(bs: seq<byte>): nat {
    if bs == [] then 0 else bs[0] + 256 * FromLittleEndian(bs[1..])
  }

  /** Which byte stands where: byte i is digit i of the number in base 256, lowest first. */
  lemma {:induction false} LittleEndianByte(n: nat, k: nat, i: nat)
    requires i < k
    ensures LittleEndian(n, k)[i] == n / Power256(i) % 256
    decreases k
  {
    if i > 0 {
      LittleEndianByte(n / 256, k - 1, i - 1);
      DivideTwice(n, Power256(i - 1));
    }
  }

  lemma DivideTwice(n: nat, p: nat)
    requires p > 0
    ensures n / 256 / p == n / (256 * p)
  {
    var q := n / (256 * p);
    assert n == 256 * p * q + n % (256 * p);
    assert 256 * (p * q) <= n < 256 * (p * q + p);
    assert p * q <= n / 256 < p * q + p;
    QuotientIs(n / 256, p, q);
  }

  lemma QuotientIs(m: nat, p: nat, q: nat)
    requires p > 0 && p * q <= m < p * q + p
    ensures m / p == q
  {
    var r := m / p;
    assert p * r <= m < p * r + p;
    if r < q { Larger(p, r + 1, q); }
    if q < r { Larger(p, q + 1, r); }
  }

  lemma Larger(p: nat, a: nat, b: nat)
    requires a <= b
    ensures p * a <= p * b
  {
  }

  /** Reading back gives the number, modulo the width. */
  lemma {:induction false} LittleEndianRoundTrip(n: nat, k: nat)
    requires n < Power256(k)
    ensures FromLittleEndian(LittleEndian(n, k)) == n
    decreases k
  {
    if k > 0 {
      assert n / 256 < Power256(k - 1);
      LittleEndianRoundTrip(n / 256, k - 1);
      assert LittleEndian(n, k)[1..] == LittleEndian(n / 256, k - 1);
    }
  }

  lemma Widths()
    ensures Power256(4) == 0x1_0000_0000 && Power256(8) == 0x1_0000_0000_0000_0000
  {
    assert Power256(2) == 0x1_0000;
    assert Power256(3) == 0x100_0000;
    assert Power256(5) == 0x100_0000_0000;
    assert Power256(6) == 0x1_0000_0000_0000;
    assert Power256(7) == 0x100_0000_0000_0000;
  }

  lemma {:induction false} FromLittleEndianBound(bs: seq<byte>)
    ensures FromLittleEndian(bs) < Power256(|bs|)
  {
    if bs != [] {
      FromLittleEndianBound(bs[1..]);
    }
  }

  // ---- Encoding ----

  /** Everything but the checksum; the two length fields are cut to 32 bits as the conversions to uint32 do. */
  function Head(r: Raw): (bs: seq<byte>)
    ensures |bs| == 8 + BodyLength(r)
  {
    LittleEndian(r.lsn, WIDTH64) + LittleEndian(BodyLength(r) % 0x1_0000_0000, WIDTH32) + [r.opType] +
    LittleEndian(|r.queueName| % 0x1_0000_0000, WIDTH32) + r.queueName + r.payload
  }

  function Frame(crc: Crc, r: Raw): (bs: seq<byte>)
    ensures |bs| == 12 + BodyLength(r)
  {
    Head(r) + LittleEndian(crc(Head(r)), WIDTH32)
  }

  // ---- Decoding ----

  /** OutOfBounds: the inner lengths contradict the frame's length, so that the payload's length would be
      negative. The decoder does not check this, and panics. */
  datatype Decoded = Decoded(r: Raw) | TooShort | BadChecksum | OutOfBounds

  function Uint(data: seq<byte>, at: nat, k: nat): nat
    requires at + k <= |data|
  {
    FromLittleEndian(data[at..at + k])
  }

  function Decode(crc: Crc, data: seq<byte>): Decoded {
    if |data| < 12 then TooShort
    else
      var length := Uint(data, 8, 4);
      if |data| < length + 12 then TooShort
      else if length < 9 || 17 + Uint(data, 13, 4) > length + 8 then OutOfBounds
      else
        var nameEnd := 17 + Uint(data, 13, 4);
        if Uint(data, length + 8, 4) != crc(data[..length + 8]) then BadChecksum
        else
          FromLittleEndianBound(data[0..8]);
          Widths();
          Decoded(Raw(Uint(data, 0, 8), data[12], data[17..nameEnd], data[nameEnd..length + 8]))
  }

  // ---- The codec's laws ----

  lemma Fields(a: seq<byte>, b: seq<byte>, op: byte, c: seq<byte>, d: seq<byte>, e: seq<byte>)
    requires |a| == 8 && |b| == 4 && |c| == 4
    ensures
      var h := a + b + [op] + c + d + e;
      && h[0..8] == a && h[8..12] == b && h[12] == op && h[13..17] == c
      && h[17..17 + |d|] == d && h[17 + |d|..] == e
  {
  }

  lemma HeadFields(r: Raw)
    requires Fits(r)
    ensures
      var h, q := Head(r), |r.queueName|;
      && h[0..8] == LittleEndian(r.lsn, WIDTH64) && h[8..12] == LittleEndian(BodyLength(r), WIDTH32)
      && h[12] == r.opType && h[13..17] == LittleEndian(q, WIDTH32)
      && h[17..17 + q] == r.queueName && h[17 + q..] == r.payload
  {
    var n, q := BodyLength(r), |r.queueName|;
    assert n % 0x1_0000_0000 == n && q % 0x1_0000_0000 == q;
    HeadIs(r, n, q);
  }

  lemma HeadIs(r: Raw, n: nat, q: nat)
    requires BodyLength(r) % 0x1_0000_0000 == n && |r.queueName| == q && q % 0x1_0000_0000 == q
    ensures
      var h := Head(r);
      && h[0..8] == LittleEndian(r.lsn, WIDTH64) && h[8..12] == LittleEndian(n, WIDTH32)
      && h[12] == r.opType && h[13..17] == LittleEndian(q, WIDTH32)
      && h[17..17 + q] == r.queueName && h[17 + q..] == r.payload
  {
    Fields(LittleEndian(r.lsn, WIDTH64), LittleEndian(n, WIDTH32), r.opType, LittleEndian(q, WIDTH32), r.queueName,
      r.payload);
  }

  /** Where each field of a frame lies. */
  lemma FrameFields(crc: Crc, r: Raw, rest: seq<byte>)
    requires Fits(r)
    ensures
      var data, n, q := Frame(crc, r) + rest, BodyLength(r), |r.queueName|;
      && data[0..8] == LittleEndian(r.lsn, WIDTH64) && data[8..12] == LittleEndian(n, WIDTH32)
      && data[12] == r.opType && data[13..17] == LittleEndian(q, WIDTH32)
      && data[17..17 + q] == r.queueName && data[17 + q..n + 8] == r.payload
      && data[..n + 8] == Head(r) && data[n + 8..n + 12] == LittleEndian(crc(Head(r)), WIDTH32)
  {
    var data, n, q := Frame(crc, r) + rest, BodyLength(r), |r.queueName|;
    HeadFields(r);
    var h := Head(r);
    assert data[..n + 8] == h;
    forall i, j | 0 <= i <= j <= n + 8 ensures data[i..j] == h[i..j] {
      assert data[i..j] == data[..n + 8][i..j];
    }
    assert h[17 + q..] == h[17 + q..n + 8];
  }

  /** The length field of a frame, read back. */
  lemma LengthField(crc: Crc, r: Raw, data: seq<byte>)
    requires Fits(r) && |data| >= 12 && data[..12] == Frame(crc, r)[..12]
    ensures Uint(data, 8, 4) == BodyLength(r)
  {
    FrameFields(crc, r, []);
    assert data[8..12] == data[..12][8..12] == (Frame(crc, r) + [])[8..12];
    Widths();
    LittleEndianRoundTrip(BodyLength(r), WIDTH32);
  }

  /** Decoding a frame, whatever follows it, returns the record. */
  lemma DecodeFrame(crc: Crc, r: Raw, rest: seq<byte>)
    requires Fits(r)
    ensures Decode(crc, Frame(crc, r) + rest) == Decoded(r)
  {
    hide LittleEndian, FromLittleEndian, Frame, Head, Power256;
    FrameFields(crc, r, rest);
    Widths();
    LittleEndianRoundTrip(r.lsn, WIDTH64);
    LittleEndianRoundTrip(BodyLength(r), WIDTH32);
    LittleEndianRoundTrip(|r.queueName|, WIDTH32);
    LittleEndianRoundTrip(crc(Head(r)), WIDTH32);
  }

  /** Whatever decodes, its fields make up the body that the length field announces. */
  lemma DecodedLength(crc: Crc, data: seq<byte>)
    requires Decode(crc, data).Decoded?
    ensures BodyLength(Decode(crc, data).r) == Uint(data, 8, 4) && Fits(Decode(crc, data).r)
  {
    FromLittleEndianBound(data[8..12]);
    Widths();
  }

  /** The exact condition: a record comes back from its frame if and only if its length field does not wrap. */
  lemma DecodesIffFits(crc: Crc, r: Raw, rest: seq<byte>)
    ensures Decode(crc, Frame(crc, r) + rest) == Decoded(r) <==> Fits(r)
  {
    if Fits(r) {
      DecodeFrame(crc, r, rest);
    } else if Decode(crc, Frame(crc, r) + rest).Decoded? {
      DecodedLength(crc, Frame(crc, r) + rest);
    }
  }

  /** A frame cut short anywhere does not decode. */
  lemma CutFrameIsTooShort(crc: Crc, r: Raw, data: seq<byte>)
    requires Fits(r) && data < Frame(crc, r)
    ensures Decode(crc, data) == TooShort
  {
    if |data| >= 12 {
      assert data[..12] == Frame(crc, r)[..12];
      LengthField(crc, r, data);
    }
  }

  // ---- Encode as it runs ----

  /** binary.LittleEndian.PutUint32 and PutUint64: k bytes at position `at`. */
  method PutLittleEndian(buf: array<byte>, at: nat, n: nat, k: nat)
    requires at + k <= buf.Length
    modifies buf
    ensures buf[..] == old(buf[..at]) + LittleEndian(n, k) + old(buf[at + k..])
  {
    var left := n;
    ghost var bs := LittleEndian(n, k);
    for i := 0 to k
      invariant bs[i..] == LittleEndian(left, k - i)
      invariant forall j :: 0 <= j < buf.Length ==>
                  buf[j] == if at <= j < at + i then bs[j - at] else old(buf[j])
    {
      assert bs[i] == bs[i..][0] && bs[i + 1..] == bs[i..][1..];
      buf[at + i] := left % 256;
      left := left / 256;
    }
    assert buf[..] == old(buf[..at]) + bs + old(buf[at + k..]);
  }

  /** copy(buf[at:], src). */
  method CopyInto(buf: array<byte>, at: nat, src: seq<byte>)
    requires at + |src| <= buf.Length
    modifies buf
    ensures buf[..] == old(buf[..at]) + src + old(buf[at + |src|..])
  {
    for i := 0 to |src|
      invariant forall j :: 0 <= j < buf.Length ==> buf[j] == if at <= j < at + i then src[j - at] else old(buf[j])
    {
      buf[at + i] := src[i];
    }
  }

  /** Encode: one buffer of the total length, filled field by field. */
  method Encode(crc: Crc, r: Raw) returns (buf: array<byte>)
    ensures fresh(buf) && buf[..] == Frame(crc, r)
  {
    var q, total := |r.queueName|, 12 + BodyLength(r);
    buf := new byte[total](_ => 0);
    PutLittleEndian(buf, 0, r.lsn, WIDTH64);
    ghost var a := LittleEndian(r.lsn, WIDTH64);
    assert buf[..8] == a;
    PutLittleEndian(buf, 8, (total - 12) % 0x1_0000_0000, WIDTH32);
    ghost var b := a + LittleEndian(BodyLength(r) % 0x1_0000_0000, WIDTH32);
    assert buf[..12] == b;
    buf[12] := r.opType;
    assert buf[..12] == b;
    assert buf[..13] == b + [r.opType];
    PutLittleEndian(buf, 13, q % 0x1_0000_0000, WIDTH32);
    ghost var c := b + [r.opType] + LittleEndian(q % 0x1_0000_0000, WIDTH32);
    assert buf[..17] == c;
    CopyInto(buf, 17, r.queueName);
    assert buf[..17 + q] == c + r.queueName;
    CopyInto(buf, 17 + q, r.payload);
    assert buf[..total - 4] == c + r.queueName + r.payload == Head(r);
    var sum := crc(buf[..total - 4]);
    PutLittleEndian(buf, total - 4, sum, WIDTH32);
    assert buf[..] == Head(r) + LittleEndian(sum, WIDTH32);
  }
}
