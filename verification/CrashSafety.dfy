/**
  Crash safety of the checkpoint protocol: an invariant that every step keeps,
  and its consequence, what every restart comes up with.
 */
module CrashSafety {
  import opened Options
  import opened Records
  import LS = LiveState
  import Replay
  import R = Reader
  import opened CompactionLaws
  import opened CheckpointLaw
  import opened ReplayLaw
  import opened LogView
  import opened Protocol

  // ---- Segments ----

  /** A segment holds the stretch of the history that starts at its name. */
  ghost predicate SegmentOk(history: seq<Record>, seg: Segment) {
    && 0 < seg.first && seg.first - 1 + |seg.recs| <= |history|
    && seg.recs == history[seg.first - 1..seg.first - 1 + |seg.recs|]
  }

  ghost predicate SegmentsOk(history: seq<Record>, segs: seq<Segment>) {
    && (forall i :: 0 <= i < |segs| ==> SegmentOk(history, segs[i]))
    && (forall i, j :: 0 <= i < j < |segs| ==> segs[i].recs != [] && segs[i].first + |segs[i].recs| <= segs[j].first)
    && (segs == [] ==> history == [])
    && (segs != [] ==> segs[|segs| - 1].first + |segs[|segs| - 1].recs| == |history| + 1)
  }

  ghost predicate InSegment(seg: Segment, n: nat) {
    seg.first <= n < seg.first + |seg.recs|
  }

  ghost predicate InSegments(segs: seq<Segment>, n: nat) {
    exists i :: 0 <= i < |segs| && InSegment(segs[i], n)
  }

  /** No record from `low` on is missing. */
  ghost predicate Covers(history: seq<Record>, segs: seq<Segment>, low: nat) {
    forall n: nat :: low <= n <= |history| && 0 < n ==> InSegments(segs, n)
  }

  /** Records of the history, in order, with LSNs below `bound`. */
  ghost predicate FlatOk(history: seq<Record>, flat: seq<Record>, bound: nat) {
    && R.Increasing(flat)
    && forall i :: 0 <= i < |flat| ==>
         flat[i].lsn < bound && flat[i].lsn <= |history| && flat[i] == history[flat[i].lsn - 1]
  }

  lemma FlatOkSnoc(history: seq<Record>, flat: seq<Record>, seg: Segment)
    requires Numbered(history) && FlatOk(history, flat, seg.first) && SegmentOk(history, seg)
    ensures FlatOk(history, flat + seg.recs, seg.first + |seg.recs|)
  {
    assert forall i :: 0 <= i < |seg.recs| ==> seg.recs[i].lsn == seg.first + i;
    var next := flat + seg.recs;
    forall i | 0 <= i < |next|
      ensures 0 < next[i].lsn < seg.first + |seg.recs|
      ensures next[i].lsn <= |history| && next[i] == history[next[i].lsn - 1]
    {
      if i >= |flat| { assert next[i] == seg.recs[i - |flat|]; }
    }
    forall i, j | 0 <= i < j < |next| ensures next[i].lsn < next[j].lsn {
      if i >= |flat| { assert next[i] == seg.recs[i - |flat|]; }
      if j >= |flat| { assert next[j] == seg.recs[j - |flat|]; }
    }
  }

  lemma FlatSnoc(segs: seq<Segment>, k: int)
    requires 0 < k <= |segs|
    ensures Flat(segs[..k]) == Flat(segs[..k - 1]) + segs[k - 1].recs
  {
    assert segs[..k][..k - 1] == segs[..k - 1];
  }

  lemma {:induction false} FlatIsOk(history: seq<Record>, segs: seq<Segment>, k: int)
    requires Numbered(history) && SegmentsOk(history, segs) && 0 <= k <= |segs|
    ensures FlatOk(history, Flat(segs[..k]), if k < |segs| then segs[k].first else |history| + 1)
    decreases k
  {
    if k > 0 {
      FlatIsOk(history, segs, k - 1);
      FlatSnoc(segs, k);
      assert SegmentOk(history, segs[k - 1]);
      FlatOkSnoc(history, Flat(segs[..k - 1]), segs[k - 1]);
    }
  }

  lemma InOwnSegment(history: seq<Record>, segs: seq<Segment>, i: int, n: nat)
    requires Numbered(history) && SegmentsOk(history, segs) && 0 <= i < |segs| && InSegment(segs[i], n)
    ensures 0 <= n - segs[i].first < |segs[i].recs| && segs[i].recs[n - segs[i].first].lsn == n
  {
    assert SegmentOk(history, segs[i]);
  }

  lemma {:induction false} FlatHas(history: seq<Record>, segs: seq<Segment>, k: int, i: int, n: nat)
    requires Numbered(history) && SegmentsOk(history, segs) && 0 <= i < k <= |segs| && InSegment(segs[i], n)
    ensures Present(Flat(segs[..k]), n)
    decreases k
  {
    hide Flat, Numbered;
    var before := Flat(segs[..k - 1]);
    FlatSnoc(segs, k);
    if i < k - 1 {
      FlatHas(history, segs, k - 1, i, n);
      var p :| 0 <= p < |before| && before[p].lsn == n;
      assert Flat(segs[..k])[p] == before[p];
    } else {
      InOwnSegment(history, segs, i, n);
      assert Flat(segs[..k])[|before| + n - segs[i].first] == segs[i].recs[n - segs[i].first];
    }
  }

  /** What the segments hold, read in order, is what the history says is stored. */
  lemma FlatIsStored(history: seq<Record>, segs: seq<Segment>, low: nat)
    requires Numbered(history) && SegmentsOk(history, segs) && Covers(history, segs, low)
    ensures Stored(history, Flat(segs), low)
  {
    FlatIsOk(history, segs, |segs|);
    assert segs[..|segs|] == segs;
    forall n: nat | low <= n <= |history| && 0 < n ensures Present(Flat(segs), n) {
      assert InSegments(segs, n);
      var i :| 0 <= i < |segs| && InSegment(segs[i], n);
      FlatHas(history, segs, |segs|, i, n);
    }
  }

  // ---- The invariant ----

  ghost predicate HistoryOk(history: seq<Record>) {
    Numbered(history) && OwnFiles(history) && LS.ServedLog(history)
  }

  ghost predicate NotNamed(history: seq<Record>, name: string) {
    forall i :: 0 <= i < |history| && history[i].op.EndCheckpoint? ==> history[i].op.fileName != name
  }

  /** The checkpoint with BEGIN at b is the only one under way, and newer than the base. */
  ghost predicate InProgress(s: System, b: nat) {
    && 0 < b <= |s.history| && s.history[b - 1].op.BeginCheckpoint?
    && (forall n :: b <= n < |s.history| ==> !s.history[n].op.BeginCheckpoint?)
    && (s.base.Base? ==> s.base.e < b)
  }

  /** What is to be deleted lies before the base's BEGIN and is not the last segment. */
  ghost predicate DoomedOk(segs: seq<Segment>, base: Base, doomed: set<nat>) {
    && (forall d :: d in doomed ==> base.Base? && d < base.b)
    && forall i :: 0 <= i < |segs| && segs[i].first in doomed ==>
      i < |segs| - 1 && base.Base? && segs[i].first + |segs[i].recs| <= base.b
  }

  ghost predicate CheckpointOk(s: System, c: Checkpoint) {
    match c
    case Idle => true
    case Begun(b) => InProgress(s, b)
    case Derived(b, out) => InProgress(s, b) && IsCheckpointOf(s.history, b, out)
    case Written(b, out, name) => InProgress(s, b) && IsCheckpointOf(s.history, b, out) && NotNamed(s.history, name)
    case Renamed(b, name) =>
      && InProgress(s, b) && NotNamed(s.history, name)
      && name in s.disk.files && s.disk.files[name].decoded.Some?
      && IsCheckpointOf(s.history, b, s.disk.files[name].decoded.value)
    case Ended(b, name, doomed) =>
      s.base.Base? && s.base.b == b && s.base.name == name && DoomedOk(s.disk.segs, s.base, doomed)
  }

  ghost predicate PhaseOk(s: System) {
    match s.phase
    case Down => true
    case Serving(c) => !s.disk.torn && s.disk.segs != [] && CheckpointOk(s, c)
    case Starting(records, keep, doomed) =>
      && !s.disk.torn && s.disk.segs != []
      && StartOf(s.base) <= |s.history|
      && Replay.Recovered(records) == (if ComesUp(s.history, s.base) then Some(LS.Run(LS.NOTHING, s.history)) else None)
      && keep == (if s.base.NoBase? then "" else s.base.name)
      && DoomedOk(s.disk.segs, s.base, doomed)
  }

  ghost predicate Inv(s: System) {
    && HistoryOk(s.history)
    && SegmentsOk(s.history, s.disk.segs) && Covers(s.history, s.disk.segs, Low(s.base))
    && BaseOk(s.history, s.disk.files, s.base)
    && PhaseOk(s)
  }

  lemma InvIsView(s: System)
    requires Inv(s)
    ensures View(s.history, Flat(s.disk.segs), s.disk.files, s.base)
  {
    FlatIsStored(s.history, s.disk.segs, Low(s.base));
  }

  // ---- Appending a record ----

  lemma LoggedHistory(history: seq<Record>, r: Record)
    requires HistoryOk(history) && r.lsn == |history| + 1 && LS.Served(LS.Run(LS.NOTHING, history), r)
    requires r.op.EndCheckpoint? ==> NotNamed(history, r.op.fileName)
    ensures HistoryOk(history + [r])
  {
    LS.RunSnoc(LS.NOTHING, history, r);
    hide LS.ServedFrom, LS.Run, LS.Served;
    OwnFilesSnoc(history, r);
  }

  lemma OwnFilesSnoc(history: seq<Record>, r: Record)
    requires OwnFiles(history) && (r.op.EndCheckpoint? ==> NotNamed(history, r.op.fileName))
    ensures OwnFiles(history + [r])
  {
  }

  lemma LoggedSegments(history: seq<Record>, segs: seq<Segment>, r: Record, low: nat)
    requires SegmentsOk(history, segs) && segs != [] && Covers(history, segs, low)
    ensures SegmentsOk(history + [r], Extended(segs, r)) && Covers(history + [r], Extended(segs, r), low)
  {
    var segs' := Extended(segs, r);
    forall i | 0 <= i < |segs| ensures SegmentOk(history + [r], segs'[i]) {
      SegmentGrows(history, segs, r, i);
    }
    LoggedCovers(history, segs, r, low);
    hide Covers, SegmentOk;
  }

  lemma SegmentGrows(history: seq<Record>, segs: seq<Segment>, r: Record, i: nat)
    requires SegmentsOk(history, segs) && i < |segs|
    ensures SegmentOk(history + [r], Extended(segs, r)[i])
  {
    assert SegmentOk(history, segs[i]);
    var a := segs[i].first - 1;
    var b := a + |segs[i].recs|;
    if i < |segs| - 1 {
      assert (history + [r])[a..b] == history[a..b];
    } else {
      assert (history + [r])[a..b + 1] == history[a..b] + [r];
    }
  }

  lemma LoggedCovers(history: seq<Record>, segs: seq<Segment>, r: Record, low: nat)
    requires SegmentsOk(history, segs) && segs != [] && Covers(history, segs, low)
    ensures Covers(history + [r], Extended(segs, r), low)
  {
    hide SegmentOk;
    var n, segs' := |segs| - 1, Extended(segs, r);
    forall m: nat | low <= m <= |history| + 1 && 0 < m ensures InSegments(segs', m) {
      if m <= |history| {
        assert InSegments(segs, m);
        var i :| 0 <= i < |segs| && InSegment(segs[i], m);
        assert InSegment(segs'[i], m);
      } else {
        assert InSegment(segs'[n], m);
      }
    }
  }

  lemma CheckpointOfGrows(history: seq<Record>, r: Record, b: nat, recs: seq<Record>)
    requires IsCheckpointOf(history, b, recs)
    ensures IsCheckpointOf(history + [r], b, recs)
  {
    assert (history + [r])[..b] == history[..b];
  }

  /** A record that is not an END leaves the base as good as it was. */
  lemma LoggedBase(history: seq<Record>, r: Record, files: R.Files, base: Base)
    requires BaseOk(history, files, base) && !r.op.EndCheckpoint?
    ensures BaseOk(history + [r], files, base)
  {
    forall i ensures HasFile(history + [r], files, i) <==> HasFile(history, files, i) {}
    if base.Base? {
      CheckpointOfGrows(history, r, base.b, files[base.name].decoded.value);
      SupersededGrows(history, r, files, base.b, base.e);
    }
  }

  lemma SupersededGrows(history: seq<Record>, r: Record, files: R.Files, b: nat, e: nat)
    requires Superseded(history, files, b, e) && !r.op.EndCheckpoint?
    ensures Superseded(history + [r], files, b, e)
  {
    forall i | HasFile(history + [r], files, i)
      ensures i < e && FileOk(files[(history + [r])[i].op.fileName], (history + [r])[i].op.fileChecksum, b)
    {
      assert HasFile(history, files, i) && (history + [r])[i] == history[i];
    }
  }

  /** The part of a serving state's invariant that an ordinary record keeps. */
  lemma LoggedCheckpoint(s: System, r: Record, c: Checkpoint)
    requires s.disk.segs != [] && CheckpointOk(s, c) && !r.op.BeginCheckpoint? && !r.op.EndCheckpoint?
    ensures CheckpointOk(Logged(s, r), c)
  {
    match c {
      case Idle =>
      case Begun(b) =>
      case Derived(b, out) => CheckpointOfGrows(s.history, r, b, out);
      case Written(b, out, _) => CheckpointOfGrows(s.history, r, b, out);
      case Renamed(b, name) => CheckpointOfGrows(s.history, r, b, s.disk.files[name].decoded.value);
      case Ended(_, _, _) =>
    }
  }

  lemma AppendKeeps(s: System, s': System, r: Record)
    requires Inv(s) && Append(s, s', r)
    ensures Inv(s')
  {
    LoggedHistory(s.history, r);
    LoggedSegments(s.history, s.disk.segs, r, Low(s.base));
    LoggedBase(s.history, r, s.disk.files, s.base);
    LoggedCheckpoint(s, r, s.phase.ckpt);
  }

  lemma BeginKeeps(s: System, s': System)
    requires Inv(s) && Begin(s, s')
    ensures Inv(s')
  {
    var r := Record(NextLSN(s), "", BeginCheckpoint);
    LoggedHistory(s.history, r);
    LoggedSegments(s.history, s.disk.segs, r, Low(s.base));
    LoggedBase(s.history, r, s.disk.files, s.base);
  }

  lemma RolledCovers(history: seq<Record>, segs: seq<Segment>, seg: Segment, low: nat)
    requires Covers(history, segs, low)
    ensures Covers(history, segs + [seg], low)
  {
    forall n: nat | low <= n <= |history| && 0 < n ensures InSegments(segs + [seg], n) {
      assert InSegments(segs, n);
      var i :| 0 <= i < |segs| && InSegment(segs[i], n);
      assert InSegment((segs + [seg])[i], n);
    }
  }

  lemma RolledSegments(history: seq<Record>, segs: seq<Segment>)
    requires SegmentsOk(history, segs) && segs != [] && segs[|segs| - 1].recs != []
    ensures SegmentsOk(history, segs + [Segment(|history| + 1, [])])
  {
    var segs' := segs + [Segment(|history| + 1, [])];
    forall i | 0 <= i < |segs'| ensures SegmentOk(history, segs'[i]) {
      assert i < |segs| ==> SegmentOk(history, segs[i]);
    }
    hide SegmentOk;
    forall i, j | 0 <= i < j < |segs'|
      ensures segs'[i].recs != [] && segs'[i].first + |segs'[i].recs| <= segs'[j].first
    {
      EndsInTime(history, segs, i);
    }
  }

  lemma EndsInTime(history: seq<Record>, segs: seq<Segment>, i: nat)
    requires SegmentsOk(history, segs) && i < |segs| && segs[|segs| - 1].recs != []
    ensures segs[i].recs != [] && segs[i].first + |segs[i].recs| <= |history| + 1
  {
    assert SegmentOk(history, segs[i]);
    assert i < |segs| - 1 ==> segs[i].first + |segs[i].recs| <= segs[|segs| - 1].first;
  }

  lemma RollKeeps(s: System, s': System)
    requires Inv(s) && Roll(s, s')
    ensures Inv(s')
  {
    hide HistoryOk, SegmentsOk, Covers, BaseOk, IsCheckpointOf;
    var seg := Segment(NextLSN(s), []);
    RolledCovers(s.history, s.disk.segs, seg, Low(s.base));
    RolledSegments(s.history, s.disk.segs);
    BaseIsPast(s);
    RolledPhase(s, s');
  }

  lemma BaseIsPast(s: System)
    requires BaseOk(s.history, s.disk.files, s.base)
    ensures s.base.Base? ==> s.base.b < NextLSN(s)
  {
  }

  lemma RolledPhase(s: System, s': System)
    requires PhaseOk(s) && Roll(s, s') && (s.base.Base? ==> s.base.b < NextLSN(s))
    ensures PhaseOk(s')
  {
    hide IsCheckpointOf;
  }

  /** Where the record with LSN b stands, the scan up to b stops. */
  lemma StopsAtBegin(log: seq<Record>, b: nat, k: int)
    requires R.Increasing(log) && Present(log, b) && R.StopsAfter(log, Some(b), k)
    ensures forall i :: 0 <= i < k ==> log[i].lsn <= b
    ensures forall i :: k <= i < |log| ==> log[i].lsn > b
  {
    var p :| 0 <= p < |log| && log[p].lsn == b;
    assert p >= k - 1;
    assert 0 < k && log[k - 1].lsn == b;
  }

  /** The checkpoint reads and compacts exactly the live state at its BEGIN. */
  lemma DerivedIsCheckpoint(s: System, b: nat, k: nat, out: seq<Record>)
    requires View(s.history, Flat(s.disk.segs), s.disk.files, s.base) && InProgress(s, b)
    requires R.StopsAfter(Flat(s.disk.segs), Some(b), k)
    requires Compacts(R.Run(s.disk.files, Flat(s.disk.segs)[..k]).records, out)
    ensures IsCheckpointOf(s.history, b, out)
  {
    var log := Flat(s.disk.segs);
    assert Present(log, b);
    StopsAtBegin(log, b, k);
    ViewAt(s.history, log, s.disk.files, s.base, b, k);
    ViewReads(s.history[..b], log[..k], s.disk.files, s.base);
    var fetched := R.Run(s.disk.files, log[..k]).records;
    hide R.Run, Compacts, LS.Run, LS.ServedFrom, LS.LegalFrom, Replay.Run, View;
    CompactedIsLegal(fetched, out);
    CompactedAreInputs(fetched, out);
    CheckpointHolds(fetched, out);
  }

  lemma DeriveKeeps(s: System, s': System, k: nat, out: seq<Record>)
    requires Inv(s) && Derive(s, s', k, out)
    ensures Inv(s')
  {
    InvIsView(s);
    DerivedIsCheckpoint(s, s.phase.ckpt.b, k, out);
  }

  lemma RenameKeeps(s: System, s': System, checksum: string)
    requires Inv(s) && Rename(s, s', checksum)
    ensures Inv(s')
  {
    var name := s.phase.ckpt.name;
    forall i ensures HasFile(s'.history, s'.disk.files, i) <==> HasFile(s.history, s.disk.files, i) {}
    if s.base.Base? {
      assert s.base.name != name;
      forall i | HasFile(s'.history, s'.disk.files, i)
        ensures s'.disk.files[s'.history[i].op.fileName] == s.disk.files[s.history[i].op.fileName] {}
    }
  }

  lemma EndKeeps(s: System, s': System)
    requires Inv(s) && End(s, s')
    ensures Inv(s')
  {
    var c := s.phase.ckpt;
    var r := Record(NextLSN(s), "", EndCheckpoint(c.name, s.disk.files[c.name].checksum));
    LoggedHistory(s.history, r);
    LoggedSegments(s.history, s.disk.segs, r, Low(s.base));
    EndBase(s, r, c.b, c.name);
    assert Low(s.base) <= Low(s'.base);
  }

  lemma EndBase(s: System, r: Record, b: nat, name: string)
    requires BaseOk(s.history, s.disk.files, s.base) && InProgress(s, b) && r.lsn == NextLSN(s)
    requires name in s.disk.files && r.op == EndCheckpoint(name, s.disk.files[name].checksum)
    requires s.disk.files[name].decoded.Some? && IsCheckpointOf(s.history, b, s.disk.files[name].decoded.value)
    ensures BaseOk(s.history + [r], s.disk.files, Base(b, r.lsn, name))
  {
    CheckpointOfGrows(s.history, r, b, s.disk.files[name].decoded.value);
    EndSupersedes(s, r, b, name);
  }

  lemma EndSupersedes(s: System, r: Record, b: nat, name: string)
    requires BaseOk(s.history, s.disk.files, s.base) && InProgress(s, b) && r.lsn == NextLSN(s)
    requires name in s.disk.files && r.op == EndCheckpoint(name, s.disk.files[name].checksum)
    requires s.disk.files[name].decoded.Some? && IsCheckpointOf(s.history, b, s.disk.files[name].decoded.value)
    ensures Superseded(s.history + [r], s.disk.files, b, r.lsn)
  {
    var h := s.history + [r];
    forall i | HasFile(h, s.disk.files, i)
      ensures i < r.lsn && FileOk(s.disk.files[h[i].op.fileName], h[i].op.fileChecksum, b)
    {
      if i < |s.history| {
        assert HasFile(s.history, s.disk.files, i);
        assert FileOk(s.disk.files[h[i].op.fileName], h[i].op.fileChecksum, s.base.b);
      }
    }
  }

  lemma DoomedIsOk(history: seq<Record>, segs: seq<Segment>, base: Base, lsn: nat)
    requires SegmentsOk(history, segs) && lsn == (if base.NoBase? then 0 else base.b)
    ensures DoomedOk(segs, base, Doomed(segs, lsn))
  {
    forall i | 0 <= i < |segs| ensures SegmentOk(history, segs[i]) {}
    assert forall i, j :: 0 <= i < j < |segs| ==> segs[i].first < segs[j].first;
    forall i, j | 0 <= i < |segs| && Covered(segs, j, lsn) && segs[i].first == segs[j].first
      ensures i == j && base.Base? && segs[i].first + |segs[i].recs| <= base.b
    {
    }
  }

  lemma DeleteSegmentKeeps(s: System, s': System, i: int, keep: string, doomed: set<nat>)
    requires Inv(s) && DeleteSegment(s, s', i, keep, doomed)
    ensures Inv(s')
  {
    assert DoomedOk(s.disk.segs, s.base, doomed);
    DeletedSegments(s.history, s.disk.segs, i);
    DeletedCovers(s.history, s.disk.segs, i, Low(s.base));
    DeletedDoomed(s.disk.segs, i, s.base, doomed);
  }

  function Without<T>(s: seq<T>, i: int): (r: seq<T>)
    requires 0 <= i < |s|
    ensures |r| == |s| - 1
    ensures forall k :: 0 <= k < |r| ==> r[k] == s[if k < i then k else k + 1]
  {
    s[..i] + s[i + 1..]
  }

  lemma DeletedSegments(history: seq<Record>, segs: seq<Segment>, i: int)
    requires SegmentsOk(history, segs) && 0 <= i < |segs| - 1
    ensures SegmentsOk(history, Without(segs, i))
  {
  }

  lemma DeletedCovers(history: seq<Record>, segs: seq<Segment>, i: int, low: nat)
    requires Covers(history, segs, low) && 0 <= i < |segs| && segs[i].first + |segs[i].recs| <= low
    ensures Covers(history, Without(segs, i), low)
  {
    forall n: nat | low <= n <= |history| && 0 < n ensures InSegments(Without(segs, i), n) {
      assert InSegments(segs, n);
      var k :| 0 <= k < |segs| && InSegment(segs[k], n);
      assert Without(segs, i)[if k < i then k else k - 1] == segs[k];
    }
  }

  lemma DeletedDoomed(segs: seq<Segment>, i: int, base: Base, doomed: set<nat>)
    requires DoomedOk(segs, base, doomed) && 0 <= i < |segs| - 1
    ensures DoomedOk(Without(segs, i), base, doomed)
  {
  }

  lemma DeleteFileKeeps(s: System, s': System, name: string, keep: string, doomed: set<nat>)
    requires Inv(s) && DeleteFile(s, s', name, keep, doomed)
    ensures Inv(s')
  {
    forall i | HasFile(s'.history, s'.disk.files, i) ensures HasFile(s.history, s.disk.files, i) {}
  }

  lemma OpenedSegments(history: seq<Record>, segs: seq<Segment>, low: nat)
    requires SegmentsOk(history, segs) && Covers(history, segs, low)
    ensures
      var segs0 := if segs == [] then [Segment(1, [])] else segs;
      SegmentsOk(history, segs0) && Covers(history, segs0, low)
  {
    if segs == [] { assert SegmentOk(history, Segment(1, [])); }
  }

  lemma ReopenKeeps(s: System, s': System)
    requires Inv(s) && Reopen(s, s')
    ensures Inv(s')
  {
    OpenedSegments(s.history, s.disk.segs, Low(s.base));
    var segs := s'.disk.segs;
    FlatIsStored(s.history, segs, Low(s.base));
    var scan := R.Run(s.disk.files, Flat(segs));
    ReopenReads(s.history, Flat(segs), s.disk.files, s.base);
    DoomedIsOk(s.history, segs, s.base, scan.ckptLSN);
  }

  lemma ReopenReads(history: seq<Record>, stored: seq<Record>, files: R.Files, base: Base)
    requires View(history, stored, files, base)
    ensures StartOf(base) <= |history|
    ensures
      var scan := R.Run(files, stored);
      && Replay.Recovered(scan.records) == (if ComesUp(history, base) then Some(LS.Run(LS.NOTHING, history)) else None)
      && scan.files == files
      && scan.name == (if base.NoBase? then "" else base.name) && scan.ckptLSN == StartOf(base)
  {
    ViewReads(history, stored, files, base);
    ViewKeepsFiles(history, stored, files, base);
    ViewRecovers(history, stored, files, base);
  }

  lemma WriteTmpKeeps(s: System, s': System, name: string)
    requires Inv(s) && WriteTmp(s, s', name)
    ensures Inv(s')
  {
    hide HistoryOk, SegmentsOk, Covers, BaseOk, IsCheckpointOf, InProgress;
    assert InProgress(s', s.phase.ckpt.b) by { ProgressFrame(s, s', s.phase.ckpt.b); }
  }

  lemma ProgressFrame(s: System, s': System, b: nat)
    requires InProgress(s, b) && s'.history == s.history && s'.base == s.base
    ensures InProgress(s', b)
  {
  }

  lemma PickDoomedKeeps(s: System, s': System)
    requires Inv(s) && PickDoomed(s, s')
    ensures Inv(s')
  {
    DoomedIsOk(s.history, s.disk.segs, s.base, s.base.b);
    hide HistoryOk, SegmentsOk, Covers, BaseOk, DoomedOk, Doomed;
  }

  /** Steps that touch neither segments nor checkpoint files. */
  lemma QuietKeeps(s: System, s': System, ev: Event)
    requires Inv(s) && Next(s, s', ev) && (ev.DeleteTmpEvent? || ev.GiveUpEvent? || ev.CrashEvent? || ev.ServeEvent?)
    ensures Inv(s')
  {
    hide HistoryOk, SegmentsOk, Covers, BaseOk, DoomedOk, IsCheckpointOf, Replay.Recovered;
  }

  /** Every step keeps the invariant. */
  lemma NextKeeps(s: System, s': System, ev: Event)
    requires Inv(s) && Next(s, s', ev)
    ensures Inv(s')
  {
    hide Inv, Append, Roll, Begin, Derive, WriteTmp, Rename, End, PickDoomed, DeleteSegment, DeleteFile, DeleteTmp,
      GiveUp, Crash, Reopen, Serve;
    match ev {
      case AppendEvent(r) => AppendKeeps(s, s', r);
      case RollEvent => RollKeeps(s, s');
      case BeginEvent => BeginKeeps(s, s');
      case DeriveEvent(k, out) => DeriveKeeps(s, s', k, out);
      case WriteTmpEvent(name) => WriteTmpKeeps(s, s', name);
      case RenameEvent(checksum) => RenameKeeps(s, s', checksum);
      case EndEvent => EndKeeps(s, s');
      case PickDoomedEvent => PickDoomedKeeps(s, s');
      case DeleteSegmentEvent(i, keep, doomed) => DeleteSegmentKeeps(s, s', i, keep, doomed);
      case DeleteFileEvent(name, keep, doomed) => DeleteFileKeeps(s, s', name, keep, doomed);
      case DeleteTmpEvent(name) => QuietKeeps(s, s', ev);
      case GiveUpEvent => QuietKeeps(s, s', ev);
      case CrashEvent(torn) => QuietKeeps(s, s', ev);
      case ReopenEvent => ReopenKeeps(s, s');
      case ServeEvent => QuietKeeps(s, s', ev);
    }
  }

  lemma InitIsOk()
    ensures Inv(INIT)
  {
  }

  lemma {:induction false} RunKeeps(states: seq<System>, events: seq<Event>, i: int)
    requires IsRun(states, events) && 0 <= i < |states|
    ensures Inv(states[i])
    decreases i
  {
    hide Inv, Next;
    if i == 0 {
      InitIsOk();
    } else {
      RunKeeps(states, events, i - 1);
      NextKeeps(states[i - 1], states[i], events[i - 1]);
    }
  }

  /** Crash safety: at any point of any run, what ReadAll would read now comes up with the live state of every record
      ever fully written, or does not come up. It does if and only if every ack since the base's BEGIN is for a message
      that was pending then or enqueued since; and whenever no ack ever named a message that nobody waited for. */
  lemma RestartRecoversHistory(states: seq<System>, events: seq<Event>, i: int)
    requires IsRun(states, events) && 0 <= i < |states|
    ensures
      var s := states[i];
      && LS.ServedLog(s.history) && StartOf(s.base) <= |s.history|
      && Replay.Recovered(R.Run(s.disk.files, Flat(s.disk.segs)).records) ==
         (if ComesUp(s.history, s.base) then Some(LS.Run(LS.NOTHING, s.history)) else None)
      && (LS.LegalLog(s.history) ==> ComesUp(s.history, s.base))
      && Replay.Recovered(s.history) == (if AllReplay(s.history) then Some(LS.Run(LS.NOTHING, s.history)) else None)
  {
    var s := states[i];
    RunKeeps(states, events, i);
    InvIsView(s);
    hide Inv, IsRun, R.Run, LS.Run, LS.ServedFrom, LS.LegalFrom, ComesUp, AllReplay, Replay.Recovered;
    ViewRecovers(s.history, Flat(s.disk.segs), s.disk.files, s.base);
    ServedLogRecovers(s.history);
  }
}
