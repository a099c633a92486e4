/**
  durable-mq's delivery worker: one pass over a message, each settled subscriber
  acked in the log on its own. While its queue lives, everything the worker logs
  is legal, and its memory and the log agree on who has settled. Once the queue
  is deleted, what it logs stops the replay of that log, until a checkpoint
  compacts it away.
 */
module DurableWorker {
  import opened Options
  import opened Records
  import opened Coordination
  import opened Worker
  import LS = LiveState
  import R = Replay
  import L = ReplayLaw
  import CL = CompactionLaws
  import CheckpointLaw

  // ---- What a pass logs ----

  /** The ack records of the subscribers in `order`, numbered from `first` on. */
  function Acks(c: Copy, order: seq<string>, first: nat): (rs: seq<Record>)
    ensures |rs| == |order|
  {
    seq(|order|, i requires 0 <= i < |order| => Record(first + i, c.queue, Op.Ack(c.id, order[i])))
  }

  lemma AcksSnoc(c: Copy, order: seq<string>, s: string, first: nat)
    ensures Acks(c, order + [s], first) == Acks(c, order, first) + [Record(first + |order|, c.queue, Op.Ack(c.id, s))]
  {
  }

  /** Each of the subscribers in `names`, once. */
  ghost predicate Enumerates(order: seq<string>, names: set<string>) {
    && (forall i, j :: 0 <= i < j < |order| ==> order[i] != order[j])
    && forall s :: s in order <==> s in names
  }

  lemma EnumeratesSnoc(order: seq<string>, names: set<string>, name: string)
    requires Enumerates(order, names) && name !in names
    ensures Enumerates(order + [name], names + {name})
  {
    assert name !in order;
  }

  // ---- While the queue lives ----

  /** The copy in memory is the log's view of a message that still waits for someone. */
  ghost predicate InStep(l: LS.Live, c: Copy) {
    var k := LS.Key(c.queue, c.id);
    && k in l.pending && l.pending[k].subList == c.subList && l.pending[k].acked == c.acked
    && c.acked <= c.subList.Keys && Pending(c) != {}
  }

  /** `l` is `before` with exactly `acked` of message k settled. */
  ghost predicate Tracks(before: LS.Live, l: LS.Live, k: LS.Key, acked: set<string>)
    requires k in before.pending
  {
    && l.catalog == before.catalog
    && l.pending == if before.pending[k].subList.Keys <= acked then before.pending - {k}
                    else before.pending[k := before.pending[k].(acked := acked)]
  }

  lemma TracksStart(l: LS.Live, k: LS.Key)
    requires k in l.pending && l.pending[k].Unsettled()
    ensures Tracks(l, l, k, l.pending[k].acked)
  {
    assert l.pending[k].(acked := l.pending[k].acked) == l.pending[k];
  }

  lemma TracksAck(before: LS.Live, l: LS.Live, k: LS.Key, acked: set<string>, s: string, r: Record)
    requires k in before.pending && Tracks(before, l, k, acked) && s in before.pending[k].subList && s !in acked
    requires r.op == Op.Ack(k.id, s) && r.queueName == k.queue
    ensures LS.Legal(l, r) && Tracks(before, LS.Step(l, r), k, acked + {s})
  {
    var m := before.pending[k].(acked := acked);
    assert l.pending[k] == m && m.Settle(s) == m.(acked := acked + {s});
  }

  function AsSet(order: seq<string>): set<string> {
    set s | s in order
  }

  /** The log `next` is a served one, and legal if `log` is. */
  ghost predicate AsLegal(next: seq<Record>, log: seq<Record>) {
    LS.ServedLog(next) && (LS.LegalLog(log) ==> LS.LegalLog(next))
  }

  /** The acks of any pending subscribers, each once, are legal where they stand and settle exactly them. */
  lemma {:induction false} AcksAreLegal(log: seq<Record>, c: Copy, order: seq<string>, first: nat)
    requires LS.ServedLog(log) && InStep(LS.Run(LS.NOTHING, log), c)
    requires forall i, j :: 0 <= i < j < |order| ==> order[i] != order[j]
    requires forall s :: s in order ==> s in Pending(c)
    ensures AsLegal(log + Acks(c, order, first), log)
    ensures Tracks(LS.Run(LS.NOTHING, log), LS.Run(LS.NOTHING, log + Acks(c, order, first)), LS.Key(c.queue, c.id),
                   c.acked + AsSet(order))
    decreases |order|
  {
    var before, k := LS.Run(LS.NOTHING, log), LS.Key(c.queue, c.id);
    if order == [] {
      assert log + Acks(c, order, first) == log && c.acked + AsSet(order) == c.acked;
      StillWaits(before, c);
      TracksStart(before, k);
    } else {
      hide Tracks, LS.Run, LS.ServedFrom, AsLegal, InStep, Acks, AsSet;
      var n := |order| - 1;
      var front, s := order[..n], order[n];
      assert order == front + [s] && s !in front && s in order;
      AcksAreLegal(log, c, front, first);
      OneMoreAck(log, c, front, s, first);
    }
  }

  lemma OneMoreAck(log: seq<Record>, c: Copy, front: seq<string>, s: string, first: nat)
    requires InStep(LS.Run(LS.NOTHING, log), c) && s in Pending(c) && s !in front
    requires AsLegal(log + Acks(c, front, first), log)
    requires Tracks(LS.Run(LS.NOTHING, log), LS.Run(LS.NOTHING, log + Acks(c, front, first)), LS.Key(c.queue, c.id),
                    c.acked + AsSet(front))
    ensures AsLegal(log + Acks(c, front + [s], first), log)
    ensures Tracks(LS.Run(LS.NOTHING, log), LS.Run(LS.NOTHING, log + Acks(c, front + [s], first)),
                   LS.Key(c.queue, c.id), c.acked + AsSet(front + [s]))
  {
    hide Tracks, LS.Legal, LS.Step, LS.Run, LS.LegalFrom, LS.ServedFrom, Acks;
    var so, r := log + Acks(c, front, first), Record(first + |front|, c.queue, Op.Ack(c.id, s));
    AcksSnoc(c, front, s, first);
    assert log + Acks(c, front + [s], first) == so + [r];
    TracksAck(LS.Run(LS.NOTHING, log), LS.Run(LS.NOTHING, so), LS.Key(c.queue, c.id), c.acked + AsSet(front), s, r);
    LS.RunSnoc(LS.NOTHING, so, r);
    assert c.acked + AsSet(front) + {s} == c.acked + AsSet(front + [s]);
  }

  lemma StillWaits(l: LS.Live, c: Copy)
    requires InStep(l, c)
    ensures l.pending[LS.Key(c.queue, c.id)].Unsettled()
  {
    var s :| s in Pending(c);
  }

  // ---- Once it is deleted ----

  /** The first ack for a message that the log does not know any more stops the replay, and nothing after it helps. */
  lemma AcksStopReplay(log: seq<Record>, c: Copy, order: seq<string>, first: nat)
    requires R.Recovered(log).Some? && !L.Known(log, |log|, c.queue, c.id)
    ensures R.Recovered(log + Acks(c, order, first)).Some? <==> order == []
  {
    hide L.Known, R.Recovered;
    var acks := Acks(c, order, first);
    if order == [] {
      assert log + acks == log;
    } else {
      AckStopsReplay(log, acks[0], acks[1..]);
      assert log + acks == log + [acks[0]] + acks[1..];
    }
  }

  lemma AckStopsReplay(log: seq<Record>, r: Record, more: seq<Record>)
    requires R.Recovered(log).Some? && r.op.Ack? && !L.Known(log, |log|, r.queueName, r.op.ackedId)
    ensures R.Recovered(log + [r] + more).None?
  {
    hide R.Recovered, L.Known;
    L.AckReplaysIffKnown(log, r);
    L.StoppedStays(log + [r], more);
  }

  // ---- One pass ----

  /** What a pass leaves in memory: the counts of the sends, and those acks that could be logged. */
  function Passed(c: Copy, accepting: set<string>, failing: set<string>): Copy {
    AfterSends(c, accepting).(acked := c.acked + (Finished(c, accepting) - failing))
  }

  /** Against dist-mq's pass, in which all acks commit or none: the counts are the same, and who is left is who that
      pass leaves and those whose ack could not be logged. With all acks logged the two passes are one, so the retry
      laws of Worker hold here. */
  lemma PassedAgainstPass(c: Copy, accepting: set<string>, failing: set<string>)
    ensures Passed(c, accepting, failing).retries == Pass(c, accepting).retries
    ensures Pending(Passed(c, accepting, failing)) ==
            Pending(Pass(c, accepting)) + (Finished(c, accepting) * failing - c.acked)
    ensures Finished(c, accepting) !! failing ==> Passed(c, accepting, failing) == Pass(c, accepting)
  {
    if Finished(c, accepting) !! failing {
      assert Finished(c, accepting) - failing == Finished(c, accepting);
    }
  }

  /** Where the result loop stands when the names in `todo` are still to come. */
  ghost predicate Halfway(c: Copy, accepting: set<string>, failing: set<string>, todo: set<string>, acked: set<string>,
                          retries: map<string, nat>)
  {
    && acked == c.acked + (Finished(c, accepting) - failing - todo)
    && (forall s :: s in retries <==> s in c.retries || (s in Pending(c) && s !in todo && s !in accepting))
    && (forall s :: s in retries ==>
          retries[s] == Tries(c, s) + if s in Pending(c) && s !in todo && s !in accepting then 1 else 0)
  }

  lemma HalfwayStart(c: Copy, accepting: set<string>, failing: set<string>)
    ensures Halfway(c, accepting, failing, Pending(c), c.acked, c.retries)
  {
  }

  lemma HalfwayNext(c: Copy, accepting: set<string>, failing: set<string>, todo: set<string>, acked: set<string>,
                    retries: map<string, nat>, name: string, retries': map<string, nat>)
    requires Halfway(c, accepting, failing, todo, acked, retries) && name in todo && todo <= Pending(c)
    requires retries' == if name in accepting then retries
                         else retries[name := (if name in retries then retries[name] else 0) + 1]
    ensures name in Finished(c, accepting) <==> name in accepting || retries'[name] >= c.subList[name].numberOfRetries
    ensures Halfway(c, accepting, failing, todo - {name},
                    if name in Finished(c, accepting) && name !in failing then acked + {name} else acked, retries')
  {
    assert Tries(c, name) == if name in retries then retries[name] else 0;
  }

  lemma HalfwayEnds(c: Copy, accepting: set<string>, failing: set<string>, acked: set<string>,
                    retries: map<string, nat>)
    requires Halfway(c, accepting, failing, {}, acked, retries)
    ensures Copy(c.queue, c.id, c.payload, c.subList, acked, retries) == Passed(c, accepting, failing)
  {
    assert retries == AfterSends(c, accepting).retries;
  }

  /** onAck: the append fails, or logs the ack. */
  method OnAck(co: Coordinator, queueName: string, msgID: string, s: string, fails: bool) returns (ok: bool)
    modifies co
    ensures ok == !fails
    ensures co.log == old(co.log) + if ok then [Record(|old(co.log)| + 1, queueName, Op.Ack(msgID, s))] else []
  {
    if fails {
      return false;
    }
    co.Ack(queueName, msgID, s);
    return true;
  }

  /** One result: count a failure, and ack a subscriber that was reached or is out of retries. Memory takes the ack
      exactly when the log has. */
  method TakeResult(co: Coordinator, msg: QueueMsg, name: string, policy: SubPolicy, accepting: set<string>,
                    failing: set<string>, ghost c: Copy, ghost todo: set<string>)
    returns (left: bool)
    requires Halfway(c, accepting, failing, todo, msg.ackedSubs, msg.retryMap) && msg.subList == c.subList
    requires name in todo && todo <= Pending(c) && policy == c.subList[name]
    modifies co, msg
    ensures Halfway(c, accepting, failing, todo - {name}, msg.ackedSubs, msg.retryMap)
    ensures left <==> name !in Finished(c, accepting) - failing
    ensures msg.ackedSubs == if left then old(msg.ackedSubs) else old(msg.ackedSubs) + {name}
    ensures co.log == old(co.log) + if left then [] else [Record(|old(co.log)| + 1, msg.queue, Op.Ack(msg.msgID, name))]
  {
    hide Halfway, AfterSends, Finished;
    ghost var acked, retries := msg.ackedSubs, msg.retryMap;
    if name !in accepting {
      msg.retryMap := msg.retryMap[name := (if name in msg.retryMap then msg.retryMap[name] else 0) + 1];
    }
    HalfwayNext(c, accepting, failing, todo, acked, retries, name, msg.retryMap);
    if name in accepting || msg.retryMap[name] >= policy.numberOfRetries {
      var ok := OnAck(co, msg.queue, msg.msgID, name, name in failing);
      if ok {
        msg.ackedSubs := msg.ackedSubs + {name};
        return false;
      }
    }
    return true;
  }

  /** ProcessMsg: one pass, whatever has become of the queue. `accepting` are the subscribers whose sends succeed,
      `failing` those whose ack cannot be logged. The result says whether the message goes back into the queue. */
  method ProcessMsg(co: Coordinator, msg: QueueMsg, accepting: set<string>, failing: set<string>)
    returns (requeue: bool, ghost order: seq<string>)
    modifies co, msg
    ensures msg.Value() == Passed(old(msg.Value()), accepting, failing)
    ensures requeue <==> Pending(msg.Value()) != {}
    ensures Enumerates(order, Finished(old(msg.Value()), accepting) - failing)
    ensures co.log == old(co.log) + Acks(old(msg.Value()), order, |old(co.log)| + 1)
  {
    var policyByName := msg.PendingSubs();
    ghost var c, log := msg.Value(), co.log;
    order, requeue := [], false;
    if policyByName == map[] {
      NobodyPending(c, accepting, failing);
      assert log + Acks(c, order, |log| + 1) == log;
      return;
    }
    HalfwayStart(c, accepting, failing);
    hide Halfway, AfterSends, Finished, Passed, Enumerates, Acks;
    NothingYet(c, accepting, failing);
    assert Enumerates([], Finished(c, accepting) - failing - policyByName.Keys);
    var todo := policyByName.Keys;
    assert log + Acks(c, [], |log| + 1) == log by { assert Acks(c, [], |log| + 1) == []; }
    while todo != {}
      invariant todo <= policyByName.Keys && Halfway(c, accepting, failing, todo, msg.ackedSubs, msg.retryMap)
      invariant Enumerates(order, Finished(c, accepting) - failing - todo)
      invariant co.log == log + Acks(c, order, |log| + 1)
      invariant msg.ackedSubs == c.acked + AsSet(order)
      invariant requeue <==> exists s :: s in policyByName && s !in todo && s !in msg.ackedSubs
      decreases todo
    {
      var name :| name in todo;
      ghost var acked := msg.ackedSubs;
      var left := TakeResult(co, msg, name, policyByName[name], accepting, failing, c, todo);
      assert Finished(c, accepting) - failing - (todo - {name}) ==
             Finished(c, accepting) - failing - todo + if left then {} else {name};
      if !left {
        AcksSnoc(c, order, name, |log| + 1);
        EnumeratesSnoc(order, Finished(c, accepting) - failing - todo, name);
        assert AsSet(order + [name]) == AsSet(order) + {name};
        order := order + [name];
      }
      todo := todo - {name};
      assert forall s :: s != name ==> (s in msg.ackedSubs <==> s in acked);
      requeue := requeue || left;
    }
    HalfwayEnds(c, accepting, failing, msg.ackedSubs, msg.retryMap);
    assert Finished(c, accepting) - failing - {} == Finished(c, accepting) - failing;
  }

  lemma NothingYet(c: Copy, accepting: set<string>, failing: set<string>)
    ensures Enumerates([], Finished(c, accepting) - failing - Pending(c))
  {
  }

  lemma NobodyPending(c: Copy, accepting: set<string>, failing: set<string>)
    requires Pending(c) == {}
    ensures Passed(c, accepting, failing) == c && Finished(c, accepting) == {}
  {
    assert AfterSends(c, accepting).retries == c.retries;
  }

  // ---- What a pass means for the log ----

  /** While the queue lives, a pass keeps the log legal; afterwards memory and log agree on who settled, a message
      that goes back is in step, one that does not has left the live state, and nothing else has changed. */
  lemma PassKeepsLegal(log: seq<Record>, c: Copy, accepting: set<string>, failing: set<string>, order: seq<string>,
                       first: nat)
    requires LS.ServedLog(log) && InStep(LS.Run(LS.NOTHING, log), c)
    requires Enumerates(order, Finished(c, accepting) - failing)
    ensures
      var log' := log + Acks(c, order, first);
      var l, l', c' := LS.Run(LS.NOTHING, log), LS.Run(LS.NOTHING, log'), Passed(c, accepting, failing);
      && AsLegal(log', log)
      && (if Pending(c') != {} then InStep(l', c') else LS.Key(c.queue, c.id) !in l'.pending)
      && l'.catalog == l.catalog
      && forall k :: k != LS.Key(c.queue, c.id) ==>
           (k in l'.pending <==> k in l.pending) && (k in l'.pending ==> l'.pending[k] == l.pending[k])
  {
    AcksAreLegal(log, c, order, first);
    var c' := Passed(c, accepting, failing);
    assert c.acked + AsSet(order) == c'.acked;
    assert c'.acked <= c'.subList.Keys;
    TracksEnds(LS.Run(LS.NOTHING, log), LS.Run(LS.NOTHING, log + Acks(c, order, first)), c');
  }

  lemma TracksEnds(before: LS.Live, l: LS.Live, c: Copy)
    requires LS.Key(c.queue, c.id) in before.pending && Tracks(before, l, LS.Key(c.queue, c.id), c.acked)
    requires before.pending[LS.Key(c.queue, c.id)].subList == c.subList && c.acked <= c.subList.Keys
    ensures if Pending(c) != {} then InStep(l, c) else LS.Key(c.queue, c.id) !in l.pending
    ensures l.catalog == before.catalog
    ensures forall k :: k != LS.Key(c.queue, c.id) ==>
              (k in l.pending <==> k in before.pending) && (k in l.pending ==> l.pending[k] == before.pending[k])
  {
    assert forall s :: s in c.subList.Keys ==> s in c.acked || s in Pending(c);
  }

  /** After the queue was deleted, a worker that drains its backlog stops the replay of the log exactly when the pass
      settles some subscriber and manages to log it. */
  lemma DrainingStopsReplay(log: seq<Record>, c: Copy, accepting: set<string>, failing: set<string>, order: seq<string>,
                            first: nat)
    requires R.Recovered(log).Some? && !L.Known(log, |log|, c.queue, c.id)
    requires Enumerates(order, Finished(c, accepting) - failing)
    ensures R.Recovered(log + Acks(c, order, first)).None? <==> !(Finished(c, accepting) <= failing)
  {
    hide L.Known, R.Recovered;
    AcksStopReplay(log, c, order, first);
    var logged := Finished(c, accepting) - failing;
    assert Finished(c, accepting) <= failing <==> logged == {} by { SubsetMeans(Finished(c, accepting), failing); }
    if order != [] {
      assert order[0] in order && order[0] in logged;
    } else {
      assert forall s :: s in logged ==> s in order;
    }
  }

  lemma SubsetMeans(a: set<string>, b: set<string>)
    ensures a <= b <==> a - b == {}
  {
    if a - b == {} {
      forall x | x in a ensures x in b { assert x !in a - b; }
    }
  }

  /** A checkpoint taken after that comes up all the same, with the live state from before the pass. */
  lemma DrainingIsCompacted(log: seq<Record>, c: Copy, order: seq<string>, first: nat, out: seq<Record>)
    requires LS.ServedLog(log) && forall k :: k in LS.Run(LS.NOTHING, log).pending ==> k.id != c.id
    requires CL.Compacts(log + Acks(c, order, first), out)
    ensures LS.ServedLog(log + Acks(c, order, first))
    ensures R.Recovered(out) == Some(LS.Run(LS.NOTHING, log))
  {
    hide CL.Compacts, R.Recovered, LS.Run, LS.ServedFrom;
    LateAcksServed(log, c, order, first);
    CheckpointLaw.CheckpointHealsLog(log + Acks(c, order, first), out);
  }

  lemma {:induction false} LateAcksServed(log: seq<Record>, c: Copy, order: seq<string>, first: nat)
    requires LS.ServedLog(log) && forall k :: k in LS.Run(LS.NOTHING, log).pending ==> k.id != c.id
    ensures LS.ServedLog(log + Acks(c, order, first))
    ensures LS.Run(LS.NOTHING, log + Acks(c, order, first)) == LS.Run(LS.NOTHING, log)
    decreases |order|
  {
    if order == [] {
      assert log + Acks(c, order, first) == log;
    } else {
      hide LS.Run, LS.ServedFrom, Acks;
      var front, s := order[..|order| - 1], order[|order| - 1];
      assert order == front + [s];
      LateAcksServed(log, c, front, first);
      AcksSnoc(c, front, s, first);
      var so, r := log + Acks(c, front, first), Record(first + |front|, c.queue, Op.Ack(c.id, s));
      assert log + Acks(c, order, first) == so + [r];
      LS.RunSnoc(LS.NOTHING, so, r);
      assert LS.Key(c.queue, c.id) !in LS.Run(LS.NOTHING, log).pending;
    }
  }

  /** And deletion does make the log forget the message. */
  lemma DeletionForgets(log: seq<Record>, q: string, id: string, lsn: nat)
    ensures !L.Known(log + [Record(lsn, q, Op.DeleteQueue)], |log| + 1, q, id)
  {
    assert L.DeletesQueue(log + [Record(lsn, q, Op.DeleteQueue)], |log|, q);
  }
}
