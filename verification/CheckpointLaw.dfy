/**
  A log against its checkpoint, whatever was served: when each of them comes up,
  with what, and exactly when it makes no difference which of them is there.
 */
module CheckpointLaw {
  import opened Options
  import opened Records
  import LS = LiveState
  import opened Replay
  import C = Compaction
  import opened CompactionLaws
  import opened ReplayLaw

  // ---- The condition, read off the records ----

  /** Before position n of `recs` the message is known: `held` has it and its queue was not deleted, or it was
      enqueued and its queue not deleted since. */
  ghost predicate KnownSince(held: set<LS.Key>, recs: seq<Record>, n: int, q: string, id: string) {
    Known(recs, n, q, id) || (LS.Key(q, id) in held && forall d :: d < n ==> !DeletesQueue(recs, d, q))
  }

  /** The record at position i is no ack, or its message is known. */
  ghost predicate AckKnown(held: set<LS.Key>, recs: seq<Record>, i: int)
    requires 0 <= i < |recs|
  {
    recs[i].op.Ack? ==> KnownSince(held, recs, i, recs[i].queueName, recs[i].op.ackedId)
  }

  ghost predicate AcksKnown(held: set<LS.Key>, recs: seq<Record>) {
    forall i :: 0 <= i < |recs| ==> AckKnown(held, recs, i)
  }

  // ---- One record at a time ----

  lemma KnownSincePrefix(held: set<LS.Key>, recs: seq<Record>, m: nat, n: int, q: string, id: string)
    requires n <= m <= |recs|
    ensures KnownSince(held, recs[..m], n, q, id) <==> KnownSince(held, recs, n, q, id)
  {
    KnownPrefix(recs, m, n, q, id);
    hide Known;
    forall d | d < n ensures DeletesQueue(recs[..m], d, q) == DeletesQueue(recs, d, q) {}
  }

  lemma KnownSinceSnoc(held: set<LS.Key>, recs: seq<Record>, q: string, id: string)
    requires recs != []
    ensures
      var n := |recs| - 1;
      KnownSince(held, recs, n + 1, q, id) <==>
      EnqueuesMessage(recs, n, q, id) || (KnownSince(held, recs, n, q, id) && !DeletesQueue(recs, n, q))
  {
    KnownSnoc(recs, q, id);
    hide Known, DeletesQueue, EnqueuesMessage;
    var n := |recs| - 1;
    assert (forall d :: d < n + 1 ==> !DeletesQueue(recs, d, q)) <==>
           (forall d :: d < n ==> !DeletesQueue(recs, d, q)) && !DeletesQueue(recs, n, q);
  }

  lemma AcksKnownSnoc(held: set<LS.Key>, recs: seq<Record>)
    requires recs != []
    ensures
      var n := |recs| - 1;
      AcksKnown(held, recs) <==> AcksKnown(held, recs[..n]) && AckKnown(held, recs, n)
  {
    var n := |recs| - 1;
    hide KnownSince;
    forall i | 0 <= i < n ensures AckKnown(held, recs[..n], i) <==> AckKnown(held, recs, i) {
      if recs[i].op.Ack? { KnownSincePrefix(held, recs, n, i, recs[i].queueName, recs[i].op.ackedId); }
    }
    hide AckKnown;
  }

  /** What the replay of `recs` from `st` knows is what the records say, with what `st` held. */
  ghost predicate Knows(st: State, held: set<LS.Key>, recs: seq<Record>) {
    forall q, id :: HasMessage(st, q, id) <==> KnownSince(held, recs, |recs|, q, id)
  }

  lemma KnowsSnoc(st: State, held: set<LS.Key>, recs: seq<Record>)
    requires recs != [] && Knows(st, held, recs[..|recs| - 1]) && Step(st, recs[|recs| - 1]).Some?
    ensures Knows(Step(st, recs[|recs| - 1]).value, held, recs)
  {
    var n, r := |recs| - 1, recs[|recs| - 1];
    hide KnownSince, HasMessage, Step;
    forall q, id ensures HasMessage(Step(st, r).value, q, id) <==> KnownSince(held, recs, |recs|, q, id) {
      assert HasMessage(st, q, id) <==> KnownSince(held, recs[..n], n, q, id);
      StepKnows(st, r, q, id);
      KnownSincePrefix(held, recs, n, n, q, id);
      KnownSinceSnoc(held, recs, q, id);
    }
  }

  lemma NothingForgotten(st: State)
    ensures Knows(st, KeysOf(st.queues), [])
  {
    forall q, id ensures HasMessage(st, q, id) <==> KnownSince(KeysOf(st.queues), [], 0, q, id) {
      assert LS.Key(q, id) in KeysOf(st.queues) <==> HasMessage(st, q, id);
    }
  }

  /** From any clean state: what was served replays if and only if the message of every ack is known. */
  lemma {:induction false} RunsIff(st: State, recs: seq<Record>)
    requires Clean(st) && LS.ServedFrom(LiveOf(st), recs)
    ensures Run(st, recs).Some? <==> AcksKnown(KeysOf(st.queues), recs)
    ensures Run(st, recs).Some? ==> Knows(Run(st, recs).value, KeysOf(st.queues), recs)
    decreases |recs|
  {
    hide Knows, AckKnown;
    NothingForgotten(st);
    if recs != [] {
      var n, held := |recs| - 1, KeysOf(st.queues);
      hide LiveOf, KeysOf;
      RunsIff(st, recs[..n]);
      AcksKnownSnoc(held, recs);
      if Run(st, recs[..n]).Some? { LastRuns(st, held, recs); }
    }
  }

  lemma LastRuns(st: State, held: set<LS.Key>, recs: seq<Record>)
    requires recs != [] && Clean(st) && LS.ServedFrom(LiveOf(st), recs) && Run(st, recs[..|recs| - 1]).Some?
    requires Knows(Run(st, recs[..|recs| - 1]).value, held, recs[..|recs| - 1])
    ensures Run(st, recs).Some? <==> AckKnown(held, recs, |recs| - 1)
    ensures Run(st, recs).Some? ==> Knows(Run(st, recs).value, held, recs)
  {
    var n, r := |recs| - 1, recs[|recs| - 1];
    var before := Run(st, recs[..n]).value;
    ServedRun(st, recs[..n]);
    ServedSimulates(before, r);
    if r.op.Ack? {
      assert HasMessage(before, r.queueName, r.op.ackedId) <==>
        KnownSince(held, recs[..n], n, r.queueName, r.op.ackedId);
      KnownSincePrefix(held, recs, n, n, r.queueName, r.op.ackedId);
    }
    hide Step, LiveOf, KnownSince, HasMessage;
    if Step(before, r).Some? { KnowsSnoc(before, held, recs); }
  }

  // ---- The log ----

  /** What a served log comes up with: the live state it stands for, or nothing if the replay stops. */
  lemma ServedLogRecovers(log: seq<Record>)
    requires LS.ServedLog(log)
    ensures Recovered(log) == if AllReplay(log) then Some(LS.Run(LS.NOTHING, log)) else None
  {
    ReplaysIff(log);
    LiveOfInit();
    ServedRun(INIT, log);
  }

  /** In a served log only an ack can stop the replay. */
  lemma OnlyAcksStop(log: seq<Record>)
    requires LS.ServedLog(log)
    ensures AllReplay(log) <==> AcksKnown({}, log)
  {
    ReplaysIff(log);
    LiveOfInit();
    RunsIff(INIT, log);
    assert KeysOf(INIT.queues) == {};
  }

  // ---- Its checkpoint ----

  /** What the replay of a checkpoint knows are the messages that were pending. */
  lemma CheckpointHolds(past: seq<Record>, out: seq<Record>)
    requires LS.ServedLog(past) && Compacts(past, out)
    ensures Run(INIT, out).Some? && Clean(Run(INIT, out).value)
    ensures LiveOf(Run(INIT, out).value) == LS.Run(LS.NOTHING, past)
    ensures KeysOf(Run(INIT, out).value.queues) == LS.Run(LS.NOTHING, past).pending.Keys
  {
    hide C.Fold;
    CompactedIsLegal(past, out);
    hide Compacts;
    LiveOfInit();
    ReplaySimulates(INIT, out);
    var st := Run(INIT, out).value;
    forall k ensures k in KeysOf(st.queues) <==> k in LS.Run(LS.NOTHING, past).pending {
      LivePending(st, k);
      if k in KeysOf(st.queues) {
        var i := HeldWasEnqueued(out, k);
        EmittedIsPending(past, out, i);
      }
    }
  }

  /** What a checkpoint and whatever is served after it come up with: the live state of the whole, if and only if
      every later ack is for a message that was pending at the checkpoint or enqueued since, on a queue not deleted
      since. */
  lemma CheckpointRecovers(past: seq<Record>, future: seq<Record>, out: seq<Record>)
    requires LS.ServedLog(past + future) && Compacts(past, out)
    ensures Recovered(out + future) ==
            if AcksKnown(LS.Run(LS.NOTHING, past).pending.Keys, future)
            then Some(LS.Run(LS.NOTHING, past + future)) else None
  {
    LS.RunConcat(LS.NOTHING, past, future);
    CheckpointHolds(past, out);
    RunConcat(INIT, out, future);
    var st := Run(INIT, out).value;
    hide Compacts, LiveOf, KeysOf, AcksKnown, LS.Run, LS.ServedFrom;
    RunsIff(st, future);
    ServedRun(st, future);
  }

  /** "A checkpoint is an optimization": it makes no difference to what comes up, for a past and a future, if and only
      if both of these hold or neither does: the log replays, and every ack since the checkpoint is for a message that
      was pending then or enqueued since. */
  lemma OptimizationIff(past: seq<Record>, future: seq<Record>, out: seq<Record>)
    requires LS.ServedLog(past + future) && Compacts(past, out)
    ensures Recovered(out + future) == Recovered(past + future) <==>
            (AllReplay(past + future) <==> AcksKnown(LS.Run(LS.NOTHING, past).pending.Keys, future))
  {
    hide LS.ServedFrom, LS.Run, Compacts, AcksKnown, AllReplay, Recovered;
    CheckpointRecovers(past, future, out);
    ServedLogRecovers(past + future);
  }

  /** A checkpoint always comes up, with the live state of what it was taken of; the log does if and only if it
      replays, and then with the same. */
  lemma CheckpointHealsLog(log: seq<Record>, out: seq<Record>)
    requires LS.ServedLog(log) && Compacts(log, out)
    ensures Recovered(out) == Some(LS.Run(LS.NOTHING, log))
    ensures Recovered(out) == Recovered(log) <==> AllReplay(log)
  {
    assert log + [] == log && out + [] == out;
    hide LS.ServedFrom, LS.Run, Compacts, AllReplay, Recovered;
    CheckpointRecovers(log, [], out);
    ServedLogRecovers(log);
  }

  // ---- And it happens ----

  /** The drained backlog, with the ack that stops its replay. */
  function DrainedLog(q: string, id: string, content: string, p: SubPolicy, sub: string): seq<Record> {
    DeletedLog(q, id, content, p) + [Record(5, q, Ack(id, sub))]
  }

  lemma DrainedIsServed(q: string, id: string, content: string, p: SubPolicy, sub: string)
    ensures LS.ServedLog(DrainedLog(q, id, content, p, sub))
    ensures LS.Run(LS.NOTHING, DrainedLog(q, id, content, p, sub)) == LS.NOTHING
  {
    var log := DeletedLog(q, id, content, p);
    var a, b, c, d, e := log[0], log[1], log[2], log[3], Record(5, q, Ack(id, sub));
    assert [a] == [] + [a] && [a, b] == [a] + [b] && [a, b, c] == [a, b] + [c] && log == [a, b, c] + [d];
    LS.RunSnoc(LS.NOTHING, [], a);
    LS.RunSnoc(LS.NOTHING, [a], b);
    LS.RunSnoc(LS.NOTHING, [a, b], c);
    LS.RunSnoc(LS.NOTHING, [a, b, c], d);
    LS.RunSnoc(LS.NOTHING, log, e);
    var l := LS.Run(LS.NOTHING, [a, b, c]);
    assert p.subName in c.op.subList;
    assert l.catalog.Keys == {q} && l.pending.Keys == {LS.Key(q, id)};
    assert l.catalog - {q} == map[] && LS.DropQueue(l.pending, q) == map[];
  }

  /** The drained backlog stops the replay of the log; a checkpoint of that log comes up, and with nothing in it. */
  lemma DrainedBacklogHeals(q: string, id: string, content: string, p: SubPolicy, sub: string, out: seq<Record>)
    requires Compacts(DrainedLog(q, id, content, p, sub), out)
    ensures Recovered(DrainedLog(q, id, content, p, sub)) == None
    ensures Recovered(out) == Some(LS.NOTHING)
  {
    hide LS.ServedFrom, LS.Run, Compacts, Recovered, DeletedLog;
    DrainedBacklogStopsReplay(q, id, content, p, sub);
    DrainedIsServed(q, id, content, p, sub);
    CheckpointHealsLog(DrainedLog(q, id, content, p, sub), out);
  }
}
