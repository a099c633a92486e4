/**
  When a log replays: the exact condition on its records, whoever appended them,
  and the reachable log that does not meet it.
 */
module ReplayLaw {
  import opened Records
  import LS = LiveState
  import opened Replay
  import opened CompactionLaws

  // ---- The condition, read off the records ----

  ghost predicate DeletesQueue(recs: seq<Record>, i: int, q: string) {
    0 <= i < |recs| && recs[i].op.DeleteQueue? && recs[i].queueName == q
  }

  ghost predicate CreatesQueue(recs: seq<Record>, i: int, q: string) {
    0 <= i < |recs| && recs[i].op.CreateQueue? && recs[i].queueName == q
  }

  ghost predicate EnqueuesMessage(recs: seq<Record>, i: int, q: string, id: string) {
    0 <= i < |recs| && recs[i].op.Enqueue? && recs[i].op.msgId == id && recs[i].queueName == q
  }

  /** Queue q exists before position n: created, and not deleted since. */
  ghost predicate Exists(recs: seq<Record>, n: int, q: string) {
    exists c :: c < n && CreatesQueue(recs, c, q) && forall d :: c < d < n ==> !DeletesQueue(recs, d, q)
  }

  /** The message is known before position n: enqueued on q, and q not deleted since. */
  ghost predicate Known(recs: seq<Record>, n: int, q: string, id: string) {
    exists e :: e < n && EnqueuesMessage(recs, e, q, id) && forall d :: e < d < n ==> !DeletesQueue(recs, d, q)
  }

  /** The record at position i does not stop the replay. */
  ghost predicate Replays(recs: seq<Record>, i: int)
    requires 0 <= i < |recs|
  {
    var q := recs[i].queueName;
    match recs[i].op
    case Ack(id, _) => Known(recs, i, q, id)
    case UpdateSubPolicy(_) => Exists(recs, i, q)
    case DeleteSubPolicy(_) => Exists(recs, i, q)
    case Undecodable(kind) => kind == EndPayload
    case Unknown => false
    case _ => true
  }

  ghost predicate AllReplay(recs: seq<Record>) {
    forall i :: 0 <= i < |recs| ==> Replays(recs, i)
  }

  // ---- Prefixes ----

  lemma ExistsPrefix(recs: seq<Record>, m: nat, n: int, q: string)
    requires n <= m <= |recs|
    ensures Exists(recs[..m], n, q) <==> Exists(recs, n, q)
  {
    var short := recs[..m];
    forall i | i < n
      ensures CreatesQueue(short, i, q) == CreatesQueue(recs, i, q)
      ensures DeletesQueue(short, i, q) == DeletesQueue(recs, i, q)
    {}
    if Exists(short, n, q) {
      var c :| c < n && CreatesQueue(short, c, q) && forall d :: c < d < n ==> !DeletesQueue(short, d, q);
      assert CreatesQueue(recs, c, q);
    }
    if Exists(recs, n, q) {
      var c :| c < n && CreatesQueue(recs, c, q) && forall d :: c < d < n ==> !DeletesQueue(recs, d, q);
      assert CreatesQueue(short, c, q);
    }
  }

  lemma KnownPrefix(recs: seq<Record>, m: nat, n: int, q: string, id: string)
    requires n <= m <= |recs|
    ensures Known(recs[..m], n, q, id) <==> Known(recs, n, q, id)
  {
    var short := recs[..m];
    forall i | i < n
      ensures EnqueuesMessage(short, i, q, id) == EnqueuesMessage(recs, i, q, id)
      ensures DeletesQueue(short, i, q) == DeletesQueue(recs, i, q)
    {}
    if Known(short, n, q, id) {
      var e :| e < n && EnqueuesMessage(short, e, q, id) && forall d :: e < d < n ==> !DeletesQueue(short, d, q);
      assert EnqueuesMessage(recs, e, q, id);
    }
    if Known(recs, n, q, id) {
      var e :| e < n && EnqueuesMessage(recs, e, q, id) && forall d :: e < d < n ==> !DeletesQueue(recs, d, q);
      assert EnqueuesMessage(short, e, q, id);
    }
  }

  lemma ReplaysPrefix(recs: seq<Record>, m: nat, i: nat)
    requires i < m <= |recs|
    ensures Replays(recs[..m], i) <==> Replays(recs, i)
  {
    var q := recs[i].queueName;
    ExistsPrefix(recs, m, i, q);
    if recs[i].op.Ack? { KnownPrefix(recs, m, i, q, recs[i].op.ackedId); }
  }

  lemma AllReplaySnoc(recs: seq<Record>)
    requires recs != []
    ensures AllReplay(recs) <==> AllReplay(recs[..|recs| - 1]) && Replays(recs, |recs| - 1)
  {
    hide Replays;
    var n := |recs| - 1;
    forall i | 0 <= i < n ensures Replays(recs[..n], i) <==> Replays(recs, i) {
      ReplaysPrefix(recs, n, i);
    }
  }

  // ---- One record ----

  lemma ExistsSnoc(recs: seq<Record>, q: string)
    requires recs != []
    ensures
      var n := |recs| - 1;
      Exists(recs, n + 1, q) <==> CreatesQueue(recs, n, q) || (Exists(recs, n, q) && !DeletesQueue(recs, n, q))
  {
    var n := |recs| - 1;
    if Exists(recs, n + 1, q) && !CreatesQueue(recs, n, q) {
      var c :| c < n + 1 && CreatesQueue(recs, c, q) && forall d :: c < d < n + 1 ==> !DeletesQueue(recs, d, q);
      assert c < n;
    }
    if Exists(recs, n, q) && !DeletesQueue(recs, n, q) {
      var c :| c < n && CreatesQueue(recs, c, q) && forall d :: c < d < n ==> !DeletesQueue(recs, d, q);
      assert forall d :: c < d < n + 1 ==> !DeletesQueue(recs, d, q);
    }
  }

  lemma KnownSnoc(recs: seq<Record>, q: string, id: string)
    requires recs != []
    ensures
      var n := |recs| - 1;
      Known(recs, n + 1, q, id) <==>
      EnqueuesMessage(recs, n, q, id) || (Known(recs, n, q, id) && !DeletesQueue(recs, n, q))
  {
    var n := |recs| - 1;
    if Known(recs, n + 1, q, id) && !EnqueuesMessage(recs, n, q, id) {
      var e :| e < n + 1 && EnqueuesMessage(recs, e, q, id) && forall d :: e < d < n + 1 ==> !DeletesQueue(recs, d, q);
      assert e < n;
    }
    if Known(recs, n, q, id) && !DeletesQueue(recs, n, q) {
      var e :| e < n && EnqueuesMessage(recs, e, q, id) && forall d :: e < d < n ==> !DeletesQueue(recs, d, q);
      assert forall d :: e < d < n + 1 ==> !DeletesQueue(recs, d, q);
    }
  }

  /** What one record that replays does to the queues and messages the replay knows. */
  lemma StepKnows(st: State, r: Record, q: string, id: string)
    requires Step(st, r).Some?
    ensures
      var st' := Step(st, r).value;
      && (q in st'.catalog <==>
            || (r.op.CreateQueue? && r.queueName == q)
            || (q in st.catalog && !(r.op.DeleteQueue? && r.queueName == q)))
      && (HasMessage(st', q, id) <==>
            || (r.op.Enqueue? && r.op.msgId == id && r.queueName == q)
            || (HasMessage(st, q, id) && !(r.op.DeleteQueue? && r.queueName == q)))
  {
  }

  /** The law: replay succeeds if and only if every ack's message was enqueued on its queue since that queue's last
      deletion, every policy record's queue exists, and no record is undecodable or unknown. What it then knows is
      what the records say. */
  lemma {:induction false} RunMatchesLog(recs: seq<Record>)
    ensures Run(INIT, recs).Some? <==> AllReplay(recs)
    ensures Run(INIT, recs).Some? ==>
              && (forall q :: q in Run(INIT, recs).value.catalog <==> Exists(recs, |recs|, q))
              && (forall q, id :: HasMessage(Run(INIT, recs).value, q, id) <==> Known(recs, |recs|, q, id))
    decreases |recs|
  {
    if recs != [] {
      var n := |recs| - 1;
      RunMatchesLog(recs[..n]);
      AllReplaySnoc(recs);
      if AllReplay(recs[..n]) {
        LastReplays(recs);
        if Run(INIT, recs).Some? { KnownAfter(recs); }
      }
    }
  }

  lemma LastReplays(recs: seq<Record>)
    requires recs != []
    requires
      var before := Run(INIT, recs[..|recs| - 1]);
      && before.Some?
      && (forall q :: q in before.value.catalog <==> Exists(recs[..|recs| - 1], |recs| - 1, q))
      && (forall q, id :: HasMessage(before.value, q, id) <==> Known(recs[..|recs| - 1], |recs| - 1, q, id))
    ensures Run(INIT, recs).Some? <==> Replays(recs, |recs| - 1)
  {
    hide Exists, Known;
    var n, r := |recs| - 1, recs[|recs| - 1];
    ExistsPrefix(recs, n, n, r.queueName);
    if r.op.Ack? {
      KnownPrefix(recs, n, n, r.queueName, r.op.ackedId);
      assert HasMessage(Run(INIT, recs[..n]).value, r.queueName, r.op.ackedId) <==>
        Known(recs[..n], n, r.queueName, r.op.ackedId);
    }
  }

  lemma KnownAfter(recs: seq<Record>)
    requires recs != [] && Run(INIT, recs).Some? && Run(INIT, recs[..|recs| - 1]).Some?
    requires
      var before := Run(INIT, recs[..|recs| - 1]).value;
      && (forall q :: q in before.catalog <==> Exists(recs[..|recs| - 1], |recs| - 1, q))
      && (forall q, id :: HasMessage(before, q, id) <==> Known(recs[..|recs| - 1], |recs| - 1, q, id))
    ensures forall q :: q in Run(INIT, recs).value.catalog <==> Exists(recs, |recs|, q)
    ensures forall q, id :: HasMessage(Run(INIT, recs).value, q, id) <==> Known(recs, |recs|, q, id)
  {
    hide Exists, Known;
    var n := |recs| - 1;
    var before := Run(INIT, recs[..n]).value;
    forall q ensures q in Run(INIT, recs).value.catalog <==> Exists(recs, n + 1, q) {
      StepKnows(before, recs[n], q, "");
      ExistsPrefix(recs, n, n, q);
      ExistsSnoc(recs, q);
    }
    forall q, id ensures HasMessage(Run(INIT, recs).value, q, id) <==> Known(recs, n + 1, q, id) {
      StepKnows(before, recs[n], q, id);
      KnownPrefix(recs, n, n, q, id);
      KnownSnoc(recs, q, id);
    }
  }

  lemma ReplaysIff(recs: seq<Record>)
    ensures Recovered(recs).Some? <==> AllReplay(recs)
  {
    RunMatchesLog(recs);
  }

  // ---- Acks ----

  /** An ack keeps a log replayable if and only if its message is known; whether it has settled does not matter. */
  lemma AckReplaysIffKnown(log: seq<Record>, r: Record)
    requires Recovered(log).Some? && r.op.Ack?
    ensures Recovered(log + [r]).Some? <==> Known(log, |log|, r.queueName, r.op.ackedId)
  {
    RunMatchesLog(log);
    assert (log + [r])[..|log|] == log;
    assert HasMessage(Run(INIT, log).value, r.queueName, r.op.ackedId) <==>
      Known(log, |log|, r.queueName, r.op.ackedId);
  }

  /** The difference a checkpoint makes to one more ack, whatever was served before. The log goes on replaying and its
      checkpoint stops if and only if the log replays and the message is known to it but no longer pending. The
      checkpoint goes on and the log does not if and only if the log had stopped before and the message is pending. */
  lemma CheckpointForgetsSettled(past: seq<Record>, out: seq<Record>, r: Record)
    requires LS.ServedLog(past) && Compacts(past, out) && r.op.Ack?
    ensures Recovered(past + [r]).Some? && Recovered(out + [r]).None? <==>
            && AllReplay(past) && Known(past, |past|, r.queueName, r.op.ackedId)
            && LS.Key(r.queueName, r.op.ackedId) !in LS.Run(LS.NOTHING, past).pending
    ensures Recovered(past + [r]).None? && Recovered(out + [r]).Some? <==>
            !AllReplay(past) && LS.Key(r.queueName, r.op.ackedId) in LS.Run(LS.NOTHING, past).pending
  {
    AckReplaysIffPending(past, out, r);
    ReplaysIff(past);
    hide AllReplay, Recovered, LS.ServedFrom, LS.Run, Compacts, Known;
    if AllReplay(past) {
      AckReplaysIffKnown(past, r);
      if LS.Key(r.queueName, r.op.ackedId) in LS.Run(LS.NOTHING, past).pending { PendingIsKnown(past, r); }
    } else {
      StoppedStays(past, [r]);
    }
  }

  lemma StoppedStays(log: seq<Record>, more: seq<Record>)
    requires Recovered(log).None?
    ensures Recovered(log + more).None?
  {
    RunConcat(INIT, log, more);
  }

  /** In a served log that replays, a pending message is known. */
  lemma PendingIsKnown(log: seq<Record>, r: Record)
    requires LS.ServedLog(log) && AllReplay(log) && r.op.Ack?
    requires LS.Key(r.queueName, r.op.ackedId) in LS.Run(LS.NOTHING, log).pending
    ensures Known(log, |log|, r.queueName, r.op.ackedId)
  {
    RunMatchesLog(log);
    LiveOfInit();
    ServedRun(INIT, log);
    LivePending(Run(INIT, log).value, LS.Key(r.queueName, r.op.ackedId));
    assert HasMessage(Run(INIT, log).value, r.queueName, r.op.ackedId);
  }

  /** A queue is created, gets a subscriber and a message, and is deleted while its worker still holds the message. */
  function DeletedLog(q: string, id: string, content: string, p: SubPolicy): seq<Record> {
    [Record(1, q, CreateQueue), Record(2, q, UpdateSubPolicy(p)),
     Record(3, q, Enqueue(id, content, map[p.subName := p])), Record(4, q, DeleteQueue)]
  }

  /** The log alone does not always replay: the ack that the worker then logs stops it. What a checkpoint
      taken in time makes of it is `CheckpointLaw.DrainedBacklogHeals`. */
  lemma DrainedBacklogStopsReplay(q: string, id: string, content: string, p: SubPolicy, sub: string)
    ensures Recovered(DeletedLog(q, id, content, p)).Some?
    ensures Recovered(DeletedLog(q, id, content, p) + [Record(5, q, Ack(id, sub))]).None?
  {
    var log := DeletedLog(q, id, content, p);
    assert CreatesQueue(log, 0, q) && Exists(log, 1, q);
    assert AllReplay(log);
    ReplaysIff(log);
    assert DeletesQueue(log, 3, q);
    AckReplaysIffKnown(log, Record(5, q, Ack(id, sub)));
  }
}
