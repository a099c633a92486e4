/**
  Segment files on disk: their zero-padded names, and the manager that lists
  and deletes them. Names sort as strings exactly as their LSNs sort as numbers.
 */
module Segments {
  import opened Options

  const MAX_UINT64: nat := 0xFFFF_FFFF_FFFF_FFFF
  const NAME_DIGITS: nat := 20
  const SUFFIX := ".wal"

  function Power10(k: nat): (p: nat)
    ensures p > 0
  {
    if k == 0 then 1 else 10 * Power10(k - 1)
  }

  function DigitChar(d: nat): char
    requires d < 10
  {
    ['0', '1', '2', '3', '4', '5', '6', '7', '8', '9'][d]
  }

  function CharDigit(c: char): Option<nat> {
    if '0' <= c <= '9' then Some(c as int - '0' as int) else None
  }

  /** The k lowest decimal digits of n, highest first. */
  function Digits(n: nat, k: nat): (s: string)
    ensures |s| == k
  {
    if k == 0 then "" else [DigitChar(n / Power10(k - 1) % 10)] + Digits(n % Power10(k - 1), k - 1)
  }

  function FileName(lsn: nat): string {
    Digits(lsn, NAME_DIGITS) + SUFFIX
  }

  /** Reads digits onto `acc`; None if a character is not a digit. */
  function ParseDigits(s: string, acc: nat): Option<nat> {
    if s == "" then Some(acc)
    else
      match CharDigit(s[0])
      case None => None
      case Some(d) => ParseDigits(s[1..], acc * 10 + d)
  }

  function TrimSuffix(s: string, suffix: string): string {
    if |s| >= |suffix| && s[|s| - |suffix|..] == suffix then s[..|s| - |suffix|] else s
  }

  /** firstLSNFromSegmentName; None where the source panics. */
  function FirstLSN(name: string): Option<nat> {
    var digits := TrimSuffix(name, SUFFIX);
    if digits == "" then None
    else
      match ParseDigits(digits, 0)
      case None => None
      case Some(n) => if n <= MAX_UINT64 then Some(n) else None
  }

  /** The order of sort.Strings. */
  predicate Less(s: string, t: string) {
    t != "" && (s == "" || s[0] < t[0] || (s[0] == t[0] && Less(s[1..], t[1..])))
  }

  // ---- Arithmetic of a leading digit ----

  lemma SplitOrder(a: nat, b: nat, p: nat)
    requires p > 0
    ensures a < b <==> a / p < b / p || (a / p == b / p && a % p < b % p)
  {
    assert a == p * (a / p) + a % p && b == p * (b / p) + b % p;
    if a / p < b / p {
      MulMonotone(p, a / p + 1, b / p);
    } else if a / p > b / p {
      MulMonotone(p, b / p + 1, a / p);
    }
  }

  lemma MulMonotone(p: nat, x: nat, y: nat)
    requires x <= y
    ensures p * x <= p * y
  {
  }

  lemma LeadingDigit(n: nat, k: nat)
    requires 0 < k && n < Power10(k)
    ensures n / Power10(k - 1) < 10 && n / Power10(k - 1) % 10 == n / Power10(k - 1)
    ensures n % Power10(k - 1) < Power10(k - 1)
  {
    Quotient(n, Power10(k - 1));
  }

  lemma Quotient(n: nat, p: nat)
    requires 0 < p && n < 10 * p
    ensures n / p < 10 && n % p < p
  {
    assert n == p * (n / p) + n % p;
    if n / p >= 10 {
      MulMonotone(p, 10, n / p);
    }
  }

  // ---- Names and numbers ----

  /** Names of equal width sort as the numbers do. */
  lemma {:induction false} DigitsSort(a: nat, b: nat, k: nat, tail: string)
    requires a < Power10(k) && b < Power10(k)
    ensures Less(Digits(a, k) + tail, Digits(b, k) + tail) <==> a < b || (a == b && Less(tail, tail))
    decreases k
  {
    if k == 0 {
      assert Digits(a, k) + tail == tail;
    } else {
      var p := Power10(k - 1);
      LeadingDigit(a, k);
      LeadingDigit(b, k);
      SplitOrder(a, b, p);
      SplitOrder(b, a, p);
      DigitsSort(a % p, b % p, k - 1, tail);
      var s, t := Digits(a, k) + tail, Digits(b, k) + tail;
      assert s[1..] == Digits(a % p, k - 1) + tail && t[1..] == Digits(b % p, k - 1) + tail;
      assert s[0] == DigitChar(a / p) && t[0] == DigitChar(b / p);
    }
  }

  lemma {:induction false} NotLessSelf(s: string)
    ensures !Less(s, s)
  {
    if s != "" { NotLessSelf(s[1..]); }
  }

  lemma DigitRoundTrip(d: nat)
    requires d < 10
    ensures CharDigit(DigitChar(d)) == Some(d)
  {
  }

  lemma ParseOne(d: nat, rest: string, acc: nat)
    requires d < 10
    ensures ParseDigits([DigitChar(d)] + rest, acc) == ParseDigits(rest, acc * 10 + d)
  {
    DigitRoundTrip(d);
    assert ([DigitChar(d)] + rest)[1..] == rest;
  }

  lemma {:induction false} DigitsParse(n: nat, k: nat, acc: nat)
    requires n < Power10(k)
    ensures ParseDigits(Digits(n, k), acc) == Some(acc * Power10(k) + n)
    decreases k
  {
    if k > 0 {
      var p := Power10(k - 1);
      LeadingDigit(n, k);
      var d, m := n / p, n % p;
      assert n == p * d + m;
      Horner(acc, d, p, m);
      ParseOne(d, Digits(m, k - 1), acc);
      DigitsParse(m, k - 1, acc * 10 + d);
    }
  }

  lemma Horner(acc: nat, d: nat, p: nat, m: nat)
    ensures (acc * 10 + d) * p + m == acc * (10 * p) + (p * d + m)
  {
  }

  lemma TwentyDigits()
    ensures Power10(NAME_DIGITS) > MAX_UINT64
  {
    assert Power10(5) == 100000;
    assert Power10(10) == 100000 * 100000 by { assert Power10(8) == 100000000; }
    assert Power10(15) == 1000000000000000 by { assert Power10(12) == 1000000000000; }
    assert Power10(20) == 100000000000000000000 by { assert Power10(18) == 1000000000000000000; }
  }

  /** For every LSN, the name parses back to it. */
  lemma NameRoundTrip(lsn: nat)
    requires lsn <= MAX_UINT64
    ensures FirstLSN(FileName(lsn)) == Some(lsn)
  {
    TwentyDigits();
    DigitsParse(lsn, NAME_DIGITS, 0);
    assert TrimSuffix(FileName(lsn), SUFFIX) == Digits(lsn, NAME_DIGITS);
  }

  /** For every two LSNs, the names sort as the LSNs do. */
  lemma NamesSort(a: nat, b: nat)
    requires a <= MAX_UINT64 && b <= MAX_UINT64
    ensures Less(FileName(a), FileName(b)) <==> a < b
  {
    TwentyDigits();
    DigitsSort(a, b, NAME_DIGITS, SUFFIX);
    NotLessSelf(SUFFIX);
  }

  // ---- The segment manager ----

  /** The names of the given LSNs, in that order. */
  function Names(lsns: seq<nat>): (names: seq<string>)
    ensures |names| == |lsns| && forall i :: 0 <= i < |lsns| ==> names[i] == FileName(lsns[i])
  {
    if lsns == [] then [] else Names(lsns[..|lsns| - 1]) + [FileName(lsns[|lsns| - 1])]
  }

  ghost predicate Ascending(lsns: seq<nat>) {
    (forall i :: 0 <= i < |lsns| ==> lsns[i] <= MAX_UINT64) &&
    (forall i, j :: 0 <= i < j < |lsns| ==> lsns[i] < lsns[j])
  }

  ghost predicate SortedNames(names: seq<string>) {
    forall i, j :: 0 <= i < j < |names| ==> Less(names[i], names[j])
  }

  /** Listing the directory in string order lists the segments in LSN order, and the other way round. */
  lemma StringOrderIsLogOrder(lsns: seq<nat>)
    requires forall i :: 0 <= i < |lsns| ==> lsns[i] <= MAX_UINT64
    ensures SortedNames(Names(lsns)) <==> Ascending(lsns)
  {
    forall i, j | 0 <= i < j < |lsns| ensures Less(Names(lsns)[i], Names(lsns)[j]) <==> lsns[i] < lsns[j] {
      NamesSort(lsns[i], lsns[j]);
    }
  }

  /** How many leading segments end before `lsn`: each has a successor that starts at or before it. */
  function Before(lsns: seq<nat>, lsn: nat): (k: nat)
    ensures lsns != [] ==> k < |lsns|
    ensures lsns == [] ==> k == 0
    ensures forall i :: 0 < i <= k ==> lsns[i] <= lsn
    ensures k + 1 < |lsns| ==> lsns[k + 1] > lsn
  {
    if |lsns| < 2 || lsns[1] > lsn then 0 else 1 + Before(lsns[1..], lsn)
  }

  function AsSet(names: seq<string>): set<string> {
    set s | s in names
  }

  /** The list is the names of `lsns` in order, and the files exist. */
  ghost predicate Listed(lsns: seq<nat>, segs: seq<string>, disk: set<string>) {
    Ascending(lsns) && segs == Names(lsns) && forall i :: 0 <= i < |segs| ==> segs[i] in disk
  }

  class SegmentManager {
    var segments: seq<string>
    var disk: set<string>
    ghost var lsns: seq<nat>

    ghost predicate Valid()
      reads this
    {
      Listed(lsns, segments, disk)
    }

    /** DeleteSegmentsBefore: drops the leading segments that end before `lsn`,
        from the directory and from the list; the last segment always stays. */
    method DeleteSegmentsBefore(lsn: nat)
      requires Valid()
      modifies this
      ensures Valid() && lsns == old(lsns)[Before(old(lsns), lsn)..]
      ensures disk == old(disk) - AsSet(old(segments)[..Before(old(lsns), lsn)])
    {
      ghost var k, all := Before(lsns, lsn), lsns;
      NamesDistinct(all);
      ListedFrom(all, segments, disk, k);
      hide Listed, Names, Before, AsSet;
      var toDelete := PickBefore(segments, lsn, all);
      disk := disk - AsSet(toDelete);
      var kept := Keep(segments, toDelete);
      segments, lsns := kept, all[k..];
    }
  }

  method PickBefore(segs: seq<string>, lsn: nat, ghost lsns: seq<nat>) returns (toDelete: seq<string>)
    requires Ascending(lsns) && segs == Names(lsns)
    ensures toDelete == segs[..Before(lsns, lsn)]
  {
    hide FileName;
    toDelete := [];
    var i := 0;
    while i < |segs| - 1
      invariant 0 <= i <= Before(lsns, lsn) && toDelete == segs[..i]
    {
      NameRoundTrip(lsns[i + 1]);
      if FirstLSN(segs[i + 1]).value > lsn {
        return;
      }
      BeforeAtLeast(lsns, lsn, i);
      toDelete := toDelete + [segs[i]];
      i := i + 1;
    }
  }

  /** The list without its deleted front. */
  method Keep(segs: seq<string>, deleted: seq<string>) returns (kept: seq<string>)
    requires deleted <= segs && forall i, j :: 0 <= i < j < |segs| ==> segs[i] != segs[j]
    ensures kept == segs[|deleted|..]
  {
    kept := [];
    for j := 0 to |segs|
      invariant kept == if j <= |deleted| then [] else segs[|deleted|..j]
    {
      if j < |deleted| { assert segs[j] == deleted[j]; }
      if segs[j] !in deleted {
        kept := kept + [segs[j]];
      }
    }
  }

  lemma ListedFrom(lsns: seq<nat>, segs: seq<string>, disk: set<string>, k: nat)
    requires Listed(lsns, segs, disk) && k <= |segs|
    ensures Listed(lsns[k..], segs[k..], disk - AsSet(segs[..k]))
  {
    NamesDistinct(lsns);
    NamesFrom(lsns, k);
    forall i | 0 <= i < |segs[k..]| ensures segs[k..][i] !in segs[..k] {
      assert segs[k..][i] == segs[k + i];
    }
  }

  lemma NamesFrom(lsns: seq<nat>, k: nat)
    requires k <= |lsns|
    ensures Names(lsns[k..]) == Names(lsns)[k..]
  {
  }

  lemma NamesDistinct(lsns: seq<nat>)
    requires Ascending(lsns)
    ensures forall i, j :: 0 <= i < j < |lsns| ==> Names(lsns)[i] != Names(lsns)[j]
  {
    forall i, j | 0 <= i < j < |lsns| ensures Names(lsns)[i] != Names(lsns)[j] {
      NameRoundTrip(lsns[i]);
      NameRoundTrip(lsns[j]);
    }
  }

  lemma BeforeAtLeast(lsns: seq<nat>, lsn: nat, i: nat)
    requires i < |lsns| - 1 && lsns[i + 1] <= lsn && i <= Before(lsns, lsn)
    ensures i < Before(lsns, lsn)
  {
  }
}
