/**
  What a sweep achieves: when a checkpoint or a startup has picked the segments
  to delete and all of them are gone, no segment is left that lies wholly before
  the base checkpoint's BEGIN.
 */
module Cleanup {
  import opened Records
  import LS = LiveState
  import Replay
  import R = Reader
  import opened LogView
  import opened Protocol
  import C = CrashSafety

  /** Every segment with a successor at or before `lsn` has been picked. */
  ghost predicate AllPicked(segs: seq<Segment>, lsn: nat, doomed: set<nat>) {
    forall i :: Covered(segs, i, lsn) ==> segs[i].first in doomed
  }

  lemma ExtendedPicked(segs: seq<Segment>, r: Record, lsn: nat, doomed: set<nat>)
    requires AllPicked(segs, lsn, doomed) && segs != []
    ensures AllPicked(Extended(segs, r), lsn, doomed)
  {
    forall i | Covered(Extended(segs, r), i, lsn) ensures Extended(segs, r)[i].first in doomed {
      assert Covered(segs, i, lsn);
    }
  }

  lemma RolledPicked(segs: seq<Segment>, next: nat, lsn: nat, doomed: set<nat>)
    requires AllPicked(segs, lsn, doomed) && lsn < next
    ensures AllPicked(segs + [Segment(next, [])], lsn, doomed)
  {
    var segs' := segs + [Segment(next, [])];
    forall i | Covered(segs', i, lsn) ensures segs'[i].first in doomed {
      assert Covered(segs, i, lsn);
    }
  }

  ghost predicate Ascending(segs: seq<Segment>) {
    forall i, j :: 0 <= i < j < |segs| ==> segs[i].first < segs[j].first
  }

  lemma SegmentsAscend(history: seq<Record>, segs: seq<Segment>)
    requires C.SegmentsOk(history, segs)
    ensures Ascending(segs)
  {
    hide C.SegmentOk;
  }

  lemma DeletedPicked(segs: seq<Segment>, k: int, lsn: nat, doomed: set<nat>)
    requires AllPicked(segs, lsn, doomed) && Ascending(segs) && 0 <= k < |segs|
    ensures AllPicked(C.Without(segs, k), lsn, doomed)
  {
    hide C.Without;
    var segs' := C.Without(segs, k);
    forall i | Covered(segs', i, lsn) ensures segs'[i].first in doomed {
      var was := if i < k then i else i + 1;
      if i == k - 1 { assert segs[k].first < segs[k + 1].first; }
      assert Covered(segs, was, lsn);
    }
  }

  /** While the sweep goes on, whatever else happens, there is nothing more to pick. */
  lemma PickedStays(s: System, s': System, ev: Event, keep: string, doomed: set<nat>)
    requires C.Inv(s) && Next(s, s', ev) && Sweeping(s.phase, keep, doomed) && Sweeping(s'.phase, keep, doomed)
    requires AllPicked(s.disk.segs, StartOf(s.base), doomed)
    ensures s'.base == s.base && AllPicked(s'.disk.segs, StartOf(s'.base), doomed)
  {
    C.BaseIsPast(s);
    SegmentsAscend(s.history, s.disk.segs);
    PickedAlong(s, s', ev, keep, doomed);
  }

  lemma PickedAlong(s: System, s': System, ev: Event, keep: string, doomed: set<nat>)
    requires Next(s, s', ev) && Sweeping(s.phase, keep, doomed) && Sweeping(s'.phase, keep, doomed)
    requires AllPicked(s.disk.segs, StartOf(s.base), doomed) && Ascending(s.disk.segs)
    requires StartOf(s.base) < NextLSN(s)
    ensures s'.base == s.base && AllPicked(s'.disk.segs, StartOf(s'.base), doomed)
  {
    hide LS.Served, LS.Run, R.Run, Doomed, AllPicked, Replay.Recovered, Flat, Extended, Ascending;
    match ev
    case AppendEvent(r) => ExtendedPicked(s.disk.segs, r, StartOf(s.base), doomed);
    case RollEvent => RolledPicked(s.disk.segs, NextLSN(s), StartOf(s.base), doomed);
    case DeleteSegmentEvent(i, _, _) => DeletedPicked(s.disk.segs, i, StartOf(s.base), doomed);
    case _ =>
  }

  lemma DoomedIsAll(segs: seq<Segment>, lsn: nat)
    ensures AllPicked(segs, lsn, Doomed(segs, lsn))
  {
  }

  /** A checkpoint sweeps by the LSN of its own BEGIN, which is the base's. */
  lemma CheckpointPicks(s: System, s': System, keep: string, doomed: set<nat>)
    requires C.Inv(s) && PickDoomed(s, s') && Sweeping(s'.phase, keep, doomed)
    ensures AllPicked(s'.disk.segs, StartOf(s'.base), doomed)
  {
    assert s.phase.ckpt.b == StartOf(s.base) by {
      hide C.HistoryOk, C.SegmentsOk, C.Covers, BaseOk;
    }
    hide C.Inv, Doomed, AllPicked;
    DoomedIsAll(s.disk.segs, StartOf(s.base));
  }

  /** A startup sweeps by the LSN that its scan of the log ends with. */
  lemma ScanEndsAtBase(s: System, segs: seq<Segment>)
    requires C.Inv(s) && s.phase.Down? && segs == if s.disk.segs == [] then [Segment(1, [])] else s.disk.segs
    ensures R.Run(s.disk.files, Flat(segs)).ckptLSN == StartOf(s.base)
  {
    hide R.Run, Flat, C.SegmentsOk, C.Covers, C.PhaseOk;
    C.OpenedSegments(s.history, s.disk.segs, Low(s.base));
    C.FlatIsStored(s.history, segs, Low(s.base));
    ViewReads(s.history, Flat(segs), s.disk.files, s.base);
  }

  lemma StartupPicks(s: System, s': System, keep: string, doomed: set<nat>)
    requires C.Inv(s) && Reopen(s, s') && Sweeping(s'.phase, keep, doomed)
    ensures AllPicked(s'.disk.segs, StartOf(s'.base), doomed)
  {
    hide C.Inv, R.Run, Flat, Doomed, AllPicked;
    ScanEndsAtBase(s, s'.disk.segs);
    DoomedIsAll(s'.disk.segs, StartOf(s.base));
  }

  /** What is picked at the start of a sweep is all there is to pick. */
  lemma PickedFirst(s: System, s': System, ev: Event, keep: string, doomed: set<nat>)
    requires C.Inv(s) && Next(s, s', ev) && (ev.PickDoomedEvent? || ev.ReopenEvent?)
    requires Sweeping(s'.phase, keep, doomed)
    ensures AllPicked(s'.disk.segs, StartOf(s'.base), doomed)
  {
    hide C.Inv, PickDoomed, Reopen, Sweeping, AllPicked;
    if ev.PickDoomedEvent? {
      CheckpointPicks(s, s', keep, doomed);
    } else {
      StartupPicks(s, s', keep, doomed);
    }
  }

  lemma {:induction false} PickedUntil(states: seq<System>, events: seq<Event>, p: nat, j: nat, keep: string,
                                       doomed: set<nat>)
    requires IsRun(states, events) && p < j < |states| && (events[p].PickDoomedEvent? || events[p].ReopenEvent?)
    requires forall x :: p < x <= j ==> Sweeping(states[x].phase, keep, doomed)
    ensures AllPicked(states[j].disk.segs, StartOf(states[j].base), doomed)
    decreases j
  {
    hide C.Inv, Next, AllPicked;
    C.RunKeeps(states, events, j - 1);
    C.RunKeeps(states, events, j);
    if j == p + 1 {
      PickedFirst(states[p], states[j], events[p], keep, doomed);
    } else {
      PickedUntil(states, events, p, j - 1, keep, doomed);
      PickedStays(states[j - 1], states[j], events[j - 1], keep, doomed);
    }
  }

  /** In every run: a checkpoint or a startup picks what to delete, and goes on sweeping, whatever is appended
      meanwhile, until nothing it picked is left. Then no segment lies wholly before the base's BEGIN. */
  lemma SweepFreesSegments(states: seq<System>, events: seq<Event>, p: nat, j: nat, keep: string, doomed: set<nat>)
    requires IsRun(states, events) && p < j < |states| && (events[p].PickDoomedEvent? || events[p].ReopenEvent?)
    requires forall x :: p < x <= j ==> Sweeping(states[x].phase, keep, doomed)
    requires forall i :: 0 <= i < |states[j].disk.segs| ==> states[j].disk.segs[i].first !in doomed
    ensures forall i :: 0 <= i < |states[j].disk.segs| ==>
              states[j].disk.segs[i].first + |states[j].disk.segs[i].recs| > StartOf(states[j].base)
  {
    PickedUntil(states, events, p, j, keep, doomed);
    C.RunKeeps(states, events, j);
    hide IsRun;
    var s := states[j];
    forall i | 0 <= i < |s.disk.segs| ensures s.disk.segs[i].first + |s.disk.segs[i].recs| > StartOf(s.base) {
      EndsBeyond(s, i);
    }
  }

  lemma EndsBeyond(s: System, i: nat)
    requires C.Inv(s) && i < |s.disk.segs| && !Covered(s.disk.segs, i, StartOf(s.base))
    ensures s.disk.segs[i].first + |s.disk.segs[i].recs| > StartOf(s.base)
  {
    C.BaseIsPast(s);
    hide C.HistoryOk, C.PhaseOk, BaseOk, C.SegmentOk, C.InSegment;
    var segs, b := s.disk.segs, StartOf(s.base);
    assert C.SegmentOk(s.history, segs[i]);
    if s.base.NoBase? {
      FirstIsPositive(s.history, segs[i]);
    } else if i < |segs| - 1 {
      assert C.InSegments(segs, b);
      var k :| 0 <= k < |segs| && C.InSegment(segs[k], b);
      HeldBefore(s.history, segs, i, k, b);
    }
  }

  lemma FirstIsPositive(history: seq<Record>, seg: Segment)
    requires C.SegmentOk(history, seg)
    ensures seg.first > 0
  {
  }

  /** If b is stored, and not behind segment i, then segment i reaches up to it. */
  lemma HeldBefore(history: seq<Record>, segs: seq<Segment>, i: nat, k: nat, b: nat)
    requires C.SegmentsOk(history, segs) && i < |segs| - 1 && k < |segs|
    requires b < segs[i + 1].first && C.InSegment(segs[k], b)
    ensures segs[i].first + |segs[i].recs| > b
  {
    hide C.SegmentOk;
    SegmentsAscend(history, segs);
  }
}
