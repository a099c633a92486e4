/**
  What a restart reads. `history` is every record ever fully written, `stored`
  is what is still in the segments, and `base` is the last checkpoint whose END
  is in the history. Reading the stored part yields the history's meaning, or
  an ack logged since the base's BEGIN stops the replay.
 */
module LogView {
  import opened Options
  import opened Records
  import LS = LiveState
  import Replay
  import R = Reader
  import opened CheckpointLaw

  /** The checkpoint with BEGIN at LSN `b`, END at LSN `e`, in file `name`. */
  datatype Base = NoBase | Base(b: nat, e: nat, name: string)

  /** LSNs are consecutive from 1. */
  ghost predicate Numbered(history: seq<Record>) {
    forall i :: 0 <= i < |history| ==> history[i].lsn == i + 1
  }

  /** The lowest LSN that must still be stored. */
  function Low(base: Base): nat {
    if base.NoBase? then 1 else base.b
  }

  ghost predicate Present(stored: seq<Record>, lsn: nat) {
    exists i :: 0 <= i < |stored| && stored[i].lsn == lsn
  }

  /** `stored` holds records of the history in order, and all of them from `low` on. */
  ghost predicate Stored(history: seq<Record>, stored: seq<Record>, low: nat) {
    && R.Increasing(stored)
    && (forall i :: 0 <= i < |stored| ==> stored[i].lsn <= |history| && stored[i] == history[stored[i].lsn - 1])
    && (forall n :: low <= n <= |history| && 0 < n ==> Present(stored, n))
  }

  /** The replay of `recs` knows the pending messages and no others. */
  ghost predicate KnowsOnlyPending(recs: seq<Record>) {
    && Replay.Run(Replay.INIT, recs).Some?
    && Replay.KeysOf(Replay.Run(Replay.INIT, recs).value.queues) == LS.Run(LS.NOTHING, recs).pending.Keys
  }

  /** A checkpoint of the first `b` records: a legal log with their live state, none newer than `b`. */
  ghost predicate IsCheckpointOf(history: seq<Record>, b: nat, recs: seq<Record>) {
    && b <= |history|
    && LS.LegalLog(recs) && LS.Run(LS.NOTHING, recs) == LS.Run(LS.NOTHING, history[..b]) && KnowsOnlyPending(recs)
    && forall r :: r in recs ==> r.lsn <= b
  }

  /** Where the records begin that a restart replays one by one. */
  function StartOf(base: Base): nat {
    if base.NoBase? then 0 else base.b
  }

  /** Whether a restart comes up: every ack since the base's BEGIN is for a message that was pending then or was
      enqueued since, on a queue not deleted since. */
  ghost predicate ComesUp(history: seq<Record>, base: Base)
    requires StartOf(base) <= |history|
  {
    AcksKnown(LS.Run(LS.NOTHING, history[..StartOf(base)]).pending.Keys, history[StartOf(base)..])
  }

  /** No two ENDs name the same file. */
  ghost predicate OwnFiles(history: seq<Record>) {
    forall i, j :: 0 <= i < j < |history| && history[i].op.EndCheckpoint? && history[j].op.EndCheckpoint?
      ==> history[i].op.fileName != history[j].op.fileName
  }

  /** The END at position i still has its file. */
  ghost predicate HasFile(history: seq<Record>, files: R.Files, i: int) {
    0 <= i < |history| && history[i].op.EndCheckpoint? && history[i].op.fileName in files
  }

  /** A file as its END promised it, with no record newer than `b`. */
  ghost predicate FileOk(f: R.CkptFile, checksum: string, b: nat) {
    f.checksum == checksum && f.decoded.Some? && forall r :: r in f.decoded.value ==> r.lsn <= b
  }

  /** Every END that still has its file is no later than the base, and that file's records no newer than its BEGIN. */
  ghost predicate Superseded(history: seq<Record>, files: R.Files, b: nat, e: nat) {
    forall i :: HasFile(history, files, i) ==>
      i < e && FileOk(files[history[i].op.fileName], history[i].op.fileChecksum, b)
  }

  ghost predicate BaseOk(history: seq<Record>, files: R.Files, base: Base) {
    match base
    case NoBase => forall i :: !HasFile(history, files, i)
    case Base(b, e, name) =>
      && 0 < b < e <= |history|
      && history[b - 1].op.BeginCheckpoint?
      && (forall n :: b <= n < e - 1 ==> !history[n].op.BeginCheckpoint?)
      && history[e - 1].op.EndCheckpoint? && history[e - 1].op.fileName == name
      && name in files && files[name].checksum == history[e - 1].op.fileChecksum
      && files[name].decoded.Some? && IsCheckpointOf(history, b, files[name].decoded.value)
      && Superseded(history, files, b, e)
  }

  /** All that a restart relies on. */
  ghost predicate View(history: seq<Record>, stored: seq<Record>, files: R.Files, base: Base) {
    && Numbered(history) && OwnFiles(history) && LS.ServedLog(history)
    && Stored(history, stored, Low(base)) && BaseOk(history, files, base)
  }

  // ---- Stored records and the history ----

  /** From `b` on nothing is missing, so what is newer than `b` is the history's own tail. */
  lemma {:induction false} StoredTail(history: seq<Record>, stored: seq<Record>, b: nat)
    requires Numbered(history) && Stored(history, stored, b + 1) && b <= |history|
    ensures R.After(stored, b) == history[b..]
    decreases |stored|
  {
    var h := |history|;
    if b == h {
      R.AfterIsSuffix(stored, b, |stored|);
    } else {
      assert Present(stored, h);
      var i :| 0 <= i < |stored| && stored[i].lsn == h;
      var n := |stored| - 1;
      assert i == n && stored[n] == history[h - 1];
      StoredPrefix(history, stored, b + 1, h - 1, n);
      StoredTail(history[..h - 1], stored[..n], b);
      assert history[b..] == history[..h - 1][b..] + [history[h - 1]];
    }
  }

  /** Cutting the history at LSN `u` cuts the stored records where LSN u is reached. */
  lemma StoredPrefix(history: seq<Record>, stored: seq<Record>, low: nat, u: nat, k: nat)
    requires Stored(history, stored, low) && u <= |history| && k <= |stored|
    requires forall i :: 0 <= i < k ==> stored[i].lsn <= u
    requires forall i :: k <= i < |stored| ==> stored[i].lsn > u
    ensures Stored(history[..u], stored[..k], low)
  {
    forall n | low <= n <= u && 0 < n ensures Present(stored[..k], n) {
      assert Present(stored, n);
      var i :| 0 <= i < |stored| && stored[i].lsn == n;
      assert stored[..k][i].lsn == n;
    }
  }

  lemma {:induction false} LastBeginIs(log: seq<Record>, b: nat)
    requires R.Increasing(log)
    requires exists i :: 0 <= i < |log| && log[i].lsn == b && log[i].op.BeginCheckpoint?
    requires forall i :: 0 <= i < |log| && log[i].op.BeginCheckpoint? ==> log[i].lsn <= b
    ensures R.LastBegin(log) == b
    decreases |log|
  {
    var n := |log| - 1;
    var i :| 0 <= i < |log| && log[i].lsn == b && log[i].op.BeginCheckpoint?;
    if i < n {
      assert log[..n][i] == log[i];
      LastBeginIs(log[..n], b);
    }
  }

  /** An END resolves exactly when it has its file, with the checksum it names. */
  lemma ResolvesIff(history: seq<Record>, stored: seq<Record>, files: R.Files, i: int)
    requires Numbered(history) && OwnFiles(history) && Stored(history, stored, |history| + 1) && 0 <= i < |stored|
    ensures R.Resolves(files, stored, i) <==>
              stored[i].op.EndCheckpoint? && R.Resolve(files, stored[i].op).Some?
  {
    if stored[i].op.EndCheckpoint? {
      forall j | 0 <= j < i && stored[j].op.EndCheckpoint? ensures stored[j].op.fileName != stored[i].op.fileName {
        assert history[stored[j].lsn - 1] == stored[j] && history[stored[i].lsn - 1] == stored[i];
      }
    }
  }

  lemma NoBaseReads(history: seq<Record>, stored: seq<Record>, files: R.Files)
    requires View(history, stored, files, NoBase)
    ensures R.Run(files, stored).records == history
    ensures R.Run(files, stored).name == "" && R.Run(files, stored).ckptLSN == 0
  {
    forall j ensures !R.Resolves(files, stored, j) {
      if 0 <= j < |stored| {
        assert history[stored[j].lsn - 1] == stored[j];
        assert !HasFile(history, files, stored[j].lsn - 1);
      }
    }
    R.NothingResolves(files, stored);
    StoredTail(history, stored, 0);
    assert history[0..] == history;
    R.AfterIsSuffix(stored, 0, 0);
  }

  /** Where the base's END is stored, and that it is the last to resolve. */
  lemma BaseResolves(history: seq<Record>, stored: seq<Record>, files: R.Files, base: Base) returns (i: int)
    requires View(history, stored, files, base) && base.Base?
    ensures R.LastResolving(files, stored, i) && stored[i].lsn == base.e
    ensures R.Contents(files, stored, i) == files[base.name].decoded.value
  {
    assert Present(stored, base.e);
    i :| 0 <= i < |stored| && stored[i].lsn == base.e;
    ResolvesIff(history, stored, files, i);
    forall j | i < j < |stored| ensures !R.Resolves(files, stored, j) {
      assert history[stored[j].lsn - 1] == stored[j];
      assert !HasFile(history, files, stored[j].lsn - 1);
    }
  }

  lemma BaseBegins(history: seq<Record>, stored: seq<Record>, files: R.Files, base: Base, i: int)
    requires View(history, stored, files, base) && base.Base? && 0 <= i < |stored| && stored[i].lsn == base.e
    ensures R.LastBegin(stored[..i]) == base.b
  {
    assert Present(stored, base.b);
    var k :| 0 <= k < |stored| && stored[k].lsn == base.b;
    assert k < i && stored[..i][k] == stored[k] == history[base.b - 1];
    forall j | 0 <= j < i && stored[..i][j].op.BeginCheckpoint? ensures stored[..i][j].lsn <= base.b {
      assert stored[..i][j] == stored[j] == history[stored[j].lsn - 1];
    }
    LastBeginIs(stored[..i], base.b);
  }

  lemma BaseFilesWithin(history: seq<Record>, stored: seq<Record>, files: R.Files, base: Base, i: int)
    requires View(history, stored, files, base) && base.Base? && 0 <= i <= |stored|
    ensures R.FilesWithin(files, stored[..i], base.b)
  {
    forall j, r | R.Resolves(files, stored[..i], j) && r in R.Contents(files, stored[..i], j) ensures r.lsn <= base.b {
      assert stored[..i][j] == stored[j] == history[stored[j].lsn - 1];
      assert HasFile(history, files, stored[j].lsn - 1);
    }
  }

  lemma BaseReads(history: seq<Record>, stored: seq<Record>, files: R.Files, base: Base)
    requires View(history, stored, files, base) && base.Base?
    ensures R.Run(files, stored).records == files[base.name].decoded.value + history[base.b..]
    ensures R.Run(files, stored).name == base.name && R.Run(files, stored).ckptLSN == base.b
  {
    var i := BaseResolves(history, stored, files, base);
    BaseBegins(history, stored, files, base, i);
    BaseFilesWithin(history, stored, files, base, i);
    R.ScanMeaning(files, stored, i);
    StoredTail(history, stored, base.b);
    assert stored[i] == history[base.e - 1];
  }

  /** A checkpoint followed by the rest of the history is as good as the history. */
  lemma CheckpointContinues(history: seq<Record>, b: nat, recs: seq<Record>)
    requires LS.ServedLog(history) && IsCheckpointOf(history, b, recs)
    ensures LS.ServedLog(recs + history[b..]) && (LS.LegalLog(history) ==> LS.LegalLog(recs + history[b..]))
    ensures LS.Run(LS.NOTHING, recs + history[b..]) == LS.Run(LS.NOTHING, history)
  {
    assert history == history[..b] + history[b..];
    LS.LegalIsServed(LS.NOTHING, recs);
    hide LS.ServedFrom, LS.LegalFrom, LS.Run, KnowsOnlyPending;
    LS.RunConcat(LS.NOTHING, history[..b], history[b..]);
    LS.RunConcat(LS.NOTHING, recs, history[b..]);
  }

  /** Reading the stored records yields a log that is as legal as the history, with its live state. */
  lemma ViewReads(history: seq<Record>, stored: seq<Record>, files: R.Files, base: Base)
    requires View(history, stored, files, base)
    ensures
      var s := R.Run(files, stored);
      && LS.ServedLog(s.records) && (LS.LegalLog(history) ==> LS.LegalLog(s.records))
      && LS.Run(LS.NOTHING, s.records) == LS.Run(LS.NOTHING, history)
      && s.name == (if base.NoBase? then "" else base.name) && s.ckptLSN == StartOf(base)
      && forall r :: r in s.records ==> r.lsn <= |history|
  {
    hide R.Run, LS.ServedFrom, LS.LegalFrom, LS.Run, KnowsOnlyPending;
    if base.NoBase? {
      NoBaseReads(history, stored, files);
    } else {
      BaseReads(history, stored, files, base);
      CheckpointContinues(history, base.b, files[base.name].decoded.value);
    }
  }

  lemma BaseRecovers(history: seq<Record>, b: nat, recs: seq<Record>)
    requires LS.ServedLog(history) && IsCheckpointOf(history, b, recs)
    ensures Replay.Recovered(recs + history[b..]) ==
            if AcksKnown(LS.Run(LS.NOTHING, history[..b]).pending.Keys, history[b..])
            then Some(LS.Run(LS.NOTHING, history)) else None
  {
    assert history == history[..b] + history[b..];
    LS.RunConcat(LS.NOTHING, history[..b], history[b..]);
    Replay.LiveOfInit();
    Replay.ReplaySimulates(Replay.INIT, recs);
    var st := Replay.Run(Replay.INIT, recs).value;
    hide Replay.LiveOf, Replay.KeysOf, AcksKnown, LS.Run, LS.ServedFrom, LS.LegalFrom;
    Replay.RunConcat(Replay.INIT, recs, history[b..]);
    RunsIff(st, history[b..]);
    Replay.ServedRun(st, history[b..]);
  }

  /** What a restart comes up with: the live state of the whole history, if and only if no ack since the base's BEGIN
      stops it. A legal history always comes up. */
  lemma ViewRecovers(history: seq<Record>, stored: seq<Record>, files: R.Files, base: Base)
    requires View(history, stored, files, base)
    ensures StartOf(base) <= |history|
    ensures Replay.Recovered(R.Run(files, stored).records) ==
            if ComesUp(history, base) then Some(LS.Run(LS.NOTHING, history)) else None
    ensures LS.LegalLog(history) ==> ComesUp(history, base)
  {
    ViewReads(history, stored, files, base);
    hide R.Run, AcksKnown, LS.ServedFrom, LS.LegalFrom, LS.Run, KnowsOnlyPending, Replay.Recovered;
    if LS.LegalLog(history) { Replay.LegalLogRecovers(R.Run(files, stored).records); }
    if base.NoBase? {
      NoBaseReads(history, stored, files);
      NoBaseRecovers(history);
    } else {
      BaseReads(history, stored, files, base);
      BaseRecovers(history, base.b, files[base.name].decoded.value);
    }
  }

  lemma NoBaseRecovers(history: seq<Record>)
    requires LS.ServedLog(history)
    ensures Replay.Recovered(history) ==
            if AcksKnown(LS.Run(LS.NOTHING, history[..0]).pending.Keys, history[0..])
            then Some(LS.Run(LS.NOTHING, history)) else None
  {
    assert history[..0] == [] && history[0..] == history && LS.Run(LS.NOTHING, []).pending.Keys == {};
    hide AcksKnown, LS.ServedFrom;
    ServedLogRecovers(history);
    OnlyAcksStop(history);
  }

  /** The scan finds nothing to delete as corrupt. */
  lemma ViewKeepsFiles(history: seq<Record>, stored: seq<Record>, files: R.Files, base: Base)
    requires View(history, stored, files, base)
    ensures R.Run(files, stored).files == files
  {
    forall name: string ensures name in R.Run(files, stored).files <==> name in files {
      R.FilesAlong(files, stored, name);
      forall j | R.IsEnd(stored, j) && stored[j].op.fileName == name && name in files
        ensures stored[j].op.fileChecksum == files[name].checksum
      {
        assert stored[j] == history[stored[j].lsn - 1];
        assert HasFile(history, files, stored[j].lsn - 1);
      }
    }
    forall name | name in files ensures R.Run(files, stored).files[name] == files[name] {
      R.FilesAlong(files, stored, name);
    }
  }

  lemma BaseAt(history: seq<Record>, files: R.Files, base: Base, u: nat)
    requires BaseOk(history, files, base) && u <= |history| && (base.Base? ==> base.e <= u)
    ensures BaseOk(history[..u], files, base)
  {
    var h := history[..u];
    forall i | HasFile(h, files, i) ensures HasFile(history, files, i) && h[i] == history[i] {}
    if base.Base? {
      assert h[..base.b] == history[..base.b];
      assert h[base.e - 1] == history[base.e - 1] && h[base.b - 1] == history[base.b - 1];
    }
  }

  lemma HistoryAt(history: seq<Record>, u: nat)
    requires Numbered(history) && OwnFiles(history) && LS.ServedLog(history) && u <= |history|
    ensures Numbered(history[..u]) && OwnFiles(history[..u]) && LS.ServedLog(history[..u])
  {
    assert history == history[..u] + history[u..];
    LS.RunConcat(LS.NOTHING, history[..u], history[u..]);
    hide LS.ServedFrom, LS.Run;
    assert forall i :: 0 <= i < u ==> history[..u][i] == history[i];
  }

  /** The view as of an earlier LSN that is past the base. */
  lemma ViewAt(history: seq<Record>, stored: seq<Record>, files: R.Files, base: Base, u: nat, k: nat)
    requires View(history, stored, files, base) && u <= |history| && k <= |stored|
    requires base.Base? ==> base.e <= u
    requires forall i :: 0 <= i < k ==> stored[i].lsn <= u
    requires forall i :: k <= i < |stored| ==> stored[i].lsn > u
    ensures View(history[..u], stored[..k], files, base)
  {
    StoredPrefix(history, stored, Low(base), u, k);
    HistoryAt(history, u);
    BaseAt(history, files, base, u);
  }
}
