/**
  Safety of durable-mq's delivery over crashes and restarts: while a process is
  up its memory holds what the log owes, and an obligation only ever disappears
  with its queue, by delivery, or when one copy used up its retries.
 */
module DurableSafety {
  import opened Records
  import LS = LiveState
  import RL = ReplayLaw
  import opened Worker
  import L = Leadership
  import D = DeliverySafety
  import opened DurableDelivery

  // ---- The log ----

  /** What is pending waits for someone, and only its addressees count as settled. */
  lemma {:induction false} PendingWaits(log: seq<Record>, k: LS.Key)
    requires k in Live(log).pending
    ensures Live(log).pending[k].Unsettled() && Live(log).pending[k].acked <= Live(log).pending[k].subList.Keys
    decreases |log|
  {
    var front, r := log[..|log| - 1], log[|log| - 1];
    if k in Live(front).pending { PendingWaits(front, k); }
    if r.op.Enqueue? && r.op.subList != map[] { var x :| x in r.op.subList; }
  }

  /** What a record other than an ack does to what is pending. */
  lemma ServedPending(l: LS.Live, r: Record, k: LS.Key)
    requires !r.op.Ack? && k in LS.Step(l, r).pending
    ensures
      var m := LS.Step(l, r).pending[k];
      || (k in l.pending && m == l.pending[k] && !(r.op.DeleteQueue? && r.queueName == k.queue))
      || (r.op.Enqueue? && k == LS.Key(r.queueName, r.op.msgId) && m == Message(r.op.content, r.op.subList, {}))
  {
  }

  /** What an ack does to what is pending. */
  lemma AckedPending(l: LS.Live, r: Record, k: LS.Key)
    requires r.op.Ack? && k in LS.Step(l, r).pending
    ensures
      && k in l.pending
      && LS.Step(l, r).pending[k] ==
         if k == LS.Key(r.queueName, r.op.ackedId) then l.pending[k].Settle(r.op.subName) else l.pending[k]
  {
  }

  /** An obligation ends with its queue or by an ack that names the subscriber. */
  ghost predicate Ends(r: Record, k: LS.Key, sub: string) {
    (r.op.DeleteQueue? && r.queueName == k.queue) || (r.op == Op.Ack(k.id, sub) && r.queueName == k.queue)
  }

  lemma OwedStep(log: seq<Record>, r: Record, k: LS.Key, sub: string)
    requires Owed(log, k, sub) && LS.Served(Live(log), r) && !Ends(r, k, sub)
    ensures Owed(log + [r], k, sub)
  {
    LS.RunSnoc(LS.NOTHING, log, r);
    hide LS.Run;
    assert sub in Live(log).pending[k].subList.Keys && sub !in Live(log).pending[k].acked;
  }

  lemma {:induction false} OwedEnds(log: seq<Record>, log': seq<Record>, k: LS.Key, sub: string) returns (d: nat)
    requires log <= log' && LS.ServedLog(log') && Owed(log, k, sub) && !Owed(log', k, sub)
    ensures |log| <= d < |log'| && Ends(log'[d], k, sub)
    decreases |log'|
  {
    var n := |log'| - 1;
    assert log' != log;
    var front := log'[..n];
    assert log <= front && log' == front + [log'[n]];
    if Owed(front, k, sub) {
      if !Ends(log'[n], k, sub) { OwedStep(front, log'[n], k, sub); }
      d := n;
    } else {
      d := OwedEnds(log, front, k, sub);
    }
  }

  // ---- The invariant ----

  /** The copy is of a message the log enqueued, with the same snapshot of subscribers. */
  ghost predicate FromLog(log: seq<Record>, c: Copy) {
    exists e :: RL.EnqueuesMessage(log, e, c.queue, c.id) && log[e].op.subList == c.subList
  }

  /** The counts are the failures the copy had, and whoever is to be acked has evidence. */
  ghost predicate SlotOk(s: Broker, u: nat)
    requires u in s.slots
  {
    var slot := s.slots[u];
    && u < s.nextUid && FromLog(s.log, slot.copy) && slot.copy.acked <= slot.copy.subList.Keys
    && (forall sub :: Tries(slot.copy, sub) == L.Failures(s.sends, u, slot.copy.queue, slot.copy.id, sub))
    && (slot.place.Sent? ==>
          && slot.place.toAck <= Pending(slot.copy)
          && forall sub :: sub in slot.place.toAck ==> Justified(s.log, s.sends, KeyOf(slot.copy), sub))
  }

  ghost predicate AcksJustified(log: seq<Record>, sends: seq<L.Send>) {
    forall i :: 0 <= i < |log| ==> AckJustified(log, sends, log[i])
  }

  ghost predicate Evidence(s: Broker) {
    && AcksJustified(s.log, s.sends)
    && (forall i :: 0 <= i < |s.sends| ==> s.sends[i].uid < s.nextUid)
    && (forall u :: u in s.slots ==> SlotOk(s, u))
  }

  /** No id was enqueued twice. */
  ghost predicate UniqueIds(log: seq<Record>) {
    forall i, j :: 0 <= i < j < |log| && log[i].op.Enqueue? && log[j].op.Enqueue? ==> log[i].op.msgId != log[j].op.msgId
  }

  /** The copy is the log's view of a message that is pending. */
  ghost predicate InStep(l: LS.Live, c: Copy) {
    KeyOf(c) in l.pending ==> l.pending[KeyOf(c)] == Message(c.payload, c.subList, c.acked)
  }

  ghost predicate HasCopy(slots: map<nat, Slot>, k: LS.Key) {
    exists u :: u in slots && KeyOf(slots[u].copy) == k
  }

  /** The pending message is one that the log enqueued and whose queue is still there. */
  ghost predicate WasEnqueued(log: seq<Record>, k: LS.Key)
    requires k in Live(log).pending
  {
    exists e :: RL.EnqueuesMessage(log, e, k.queue, k.id) && log[e].op.subList == Live(log).pending[k].subList
             && forall d :: e < d < |log| ==> !RL.DeletesQueue(log, d, k.queue)
  }

  /** Ids are unique, and whatever is pending was enqueued and its queue not deleted since. */
  ghost predicate LogOk(log: seq<Record>) {
    LS.ServedLog(log) && UniqueIds(log) && forall k :: k in Live(log).pending ==> WasEnqueued(log, k)
  }

  ghost predicate AllInStep(slots: map<nat, Slot>, l: LS.Live) {
    forall u :: u in slots ==> InStep(l, slots[u].copy)
  }

  ghost predicate OneEach(slots: map<nat, Slot>) {
    forall u, v :: u in slots && v in slots && slots[u].copy.id == slots[v].copy.id ==> u == v
  }

  ghost predicate AllHeld(slots: map<nat, Slot>, l: LS.Live) {
    forall k :: k in l.pending ==> HasCopy(slots, k)
  }

  /** While the process is up, memory holds one copy of each message, in step with the log, of all that are pending. */
  ghost predicate Memory(s: Broker) {
    && LogOk(s.log) && AllInStep(s.slots, Live(s.log)) && OneEach(s.slots)
    && (if s.up then AllHeld(s.slots, Live(s.log)) else s.slots == map[])
  }

  ghost predicate Inv(s: Broker) {
    Evidence(s) && Memory(s)
  }

  // ---- Evidence is kept ----

  lemma AckJustifiedGrows(log: seq<Record>, rs: seq<Record>, sends: seq<L.Send>, more: seq<L.Send>, r: Record)
    requires AckJustified(log, sends, r)
    ensures AckJustified(log + rs, sends + more, r)
  {
    if r.op.Ack? { JustifiedGrows(log, rs, sends, more, LS.Key(r.queueName, r.op.ackedId), r.op.subName); }
  }

  lemma AcksStayJustified(log: seq<Record>, rs: seq<Record>, sends: seq<L.Send>, more: seq<L.Send>)
    requires AcksJustified(log, sends) && forall i :: 0 <= i < |rs| ==> AckJustified(log, sends, rs[i])
    ensures AcksJustified(log + rs, sends + more)
  {
    hide AckJustified;
    forall i | 0 <= i < |log + rs| ensures AckJustified(log + rs, sends + more, (log + rs)[i]) {
      AckJustifiedGrows(log, rs, sends, more, (log + rs)[i]);
    }
  }

  lemma FromLogGrows(log: seq<Record>, rs: seq<Record>, c: Copy)
    requires FromLog(log, c)
    ensures FromLog(log + rs, c)
  {
    var e :| RL.EnqueuesMessage(log, e, c.queue, c.id) && log[e].op.subList == c.subList;
    assert (log + rs)[e] == log[e] && RL.EnqueuesMessage(log + rs, e, c.queue, c.id);
  }

  /** A slot that a step leaves alone, while the log grows. */
  lemma SlotStays(s: Broker, s': Broker, rs: seq<Record>, u: nat)
    requires u in s.slots && SlotOk(s, u) && u in s'.slots && s'.slots[u] == s.slots[u]
    requires s'.log == s.log + rs && s'.sends == s.sends && s.nextUid <= s'.nextUid
    ensures SlotOk(s', u)
  {
    hide FromLog, Justified, L.Failures;
    var slot := s.slots[u];
    FromLogGrows(s.log, rs, slot.copy);
    if slot.place.Sent? {
      forall sub | sub in slot.place.toAck ensures Justified(s'.log, s'.sends, KeyOf(slot.copy), sub) {
        JustifiedGrows(s.log, rs, s.sends, [], KeyOf(slot.copy), sub);
        assert s.sends + [] == s.sends;
      }
    }
  }

  /** A copy that no send was made from yet. */
  lemma NewSlot(s: Broker, u: nat)
    requires u in s.slots && u < s.nextUid && s.slots[u].place.InQueue? && s.slots[u].copy.retries == map[]
    requires FromLog(s.log, s.slots[u].copy) && s.slots[u].copy.acked <= s.slots[u].copy.subList.Keys
    requires forall i :: 0 <= i < |s.sends| ==> s.sends[i].uid < u
    ensures SlotOk(s, u)
  {
    hide FromLog;
    var c := s.slots[u].copy;
    forall sub: string ensures Tries(c, sub) == L.Failures(s.sends, u, c.queue, c.id, sub) {
      D.NoFailuresYet(s.sends, u, c.queue, c.id, sub);
    }
  }

  lemma ServeEvidence(s: Broker, s': Broker, r: Record)
    requires Evidence(s) && Serve(s, s', r)
    ensures Evidence(s')
  {
    hide SlotOk, LS.Served, FreshId;
    AcksStayJustified(s.log, [r], s.sends, []);
    assert s.sends + [] == s.sends;
    forall u | u in s'.slots ensures SlotOk(s', u) {
      if u in s.slots && (r.op.Enqueue? ==> u != s.nextUid) {
        SlotStays(s, s', [r], u);
      } else {
        assert RL.EnqueuesMessage(s'.log, |s.log|, r.queueName, r.op.msgId);
        NewSlot(s', u);
      }
    }
  }

  lemma RestartEvidence(s: Broker, s': Broker)
    requires Inv(s) && Restart(s, s')
    ensures Evidence(s')
  {
    hide SlotOk, AckJustified;
    forall u | u in s'.slots ensures SlotOk(s', u) {
      var k := KeyOf(s'.slots[u].copy);
      assert WasEnqueued(s.log, k);
      PendingWaits(s.log, k);
      NewSlot(s', u);
    }
  }

  // ---- A round of sends ----

  lemma OthersFail(s: Broker, u: nat, c: Copy, order: seq<string>, ok: set<string>, v: nat, d: Copy, sub: string)
    requires v != u && forall i, j :: 0 <= i < j < |order| ==> order[i] != order[j]
    ensures L.Failures(s.sends + L.SendsOf(u, c, order, ok), v, d.queue, d.id, sub) ==
            L.Failures(s.sends, v, d.queue, d.id, sub)
  {
    L.FailuresConcat(s.sends, L.SendsOf(u, c, order, ok), v, d.queue, d.id, sub);
    L.FailuresOfRound(u, c, order, ok, v, d.queue, d.id, sub);
  }

  /** Whoever a round settles has been reached, or has failed as often as its policy allows. */
  lemma FinishedIsJustified(s: Broker, u: nat, order: seq<string>, ok: set<string>, sub: string)
    requires u in s.slots && SlotOk(s, u) && sub in Finished(s.slots[u].copy, ok)
    requires forall i, j :: 0 <= i < j < |order| ==> order[i] != order[j]
    requires forall x :: x in order <==> x in Pending(s.slots[u].copy)
    ensures
      var c := s.slots[u].copy;
      Justified(s.log, s.sends + L.SendsOf(u, c, order, ok), KeyOf(c), sub)
  {
    hide L.Failures;
    var c, k := s.slots[u].copy, KeyOf(s.slots[u].copy);
    var more := L.SendsOf(u, c, order, ok);
    assert sub in order;
    var p :| 0 <= p < |order| && order[p] == sub;
    if sub in ok {
      assert (s.sends + more)[|s.sends| + p] == L.Send(u, c.queue, c.id, c.payload, sub, true);
    } else {
      L.FailuresConcat(s.sends, more, u, c.queue, c.id, sub);
      L.FailuresOfRound(u, c, order, ok, u, c.queue, c.id, sub);
      var e :| RL.EnqueuesMessage(s.log, e, c.queue, c.id) && s.log[e].op.subList == c.subList;
      assert Addresses(s.log, e, k, sub);
      assert L.Failures(s.sends + more, u, k.queue, k.id, sub) >= Attempts(s.log[e].op.subList[sub]);
    }
  }

  lemma OwnCounts(s: Broker, u: nat, order: seq<string>, ok: set<string>, sub: string)
    requires u in s.slots && SlotOk(s, u)
    requires forall i, j :: 0 <= i < j < |order| ==> order[i] != order[j]
    requires forall x :: x in order <==> x in Pending(s.slots[u].copy)
    ensures
      var c := s.slots[u].copy;
      Tries(AfterSends(c, ok), sub) == L.Failures(s.sends + L.SendsOf(u, c, order, ok), u, c.queue, c.id, sub)
  {
    hide L.Failures, FromLog, Justified;
    var c := s.slots[u].copy;
    L.FailuresConcat(s.sends, L.SendsOf(u, c, order, ok), u, c.queue, c.id, sub);
    L.FailuresOfRound(u, c, order, ok, u, c.queue, c.id, sub);
  }

  lemma AttemptSlot(s: Broker, s': Broker, u: nat, order: seq<string>, ok: set<string>, v: nat)
    requires v in s'.slots && u in s.slots && SlotOk(s, u) && (v in s.slots ==> SlotOk(s, v))
    requires Attempt(s, s', u, order, ok)
    ensures SlotOk(s', v)
  {
    hide L.Failures, FromLog, Justified, AfterSends, Finished;
    var c := s.slots[u].copy;
    if v == u {
      SameSnapshot(s.log, c, ok);
      forall sub: string
        ensures Tries(AfterSends(c, ok), sub) == L.Failures(s'.sends, u, c.queue, c.id, sub)
      {
        OwnCounts(s, u, order, ok, sub);
      }
      forall sub | sub in Finished(c, ok) ensures Justified(s'.log, s'.sends, KeyOf(c), sub) {
        FinishedIsJustified(s, u, order, ok, sub);
      }
    } else {
      var d := s.slots[v].copy;
      forall sub: string ensures Tries(d, sub) == L.Failures(s'.sends, v, d.queue, d.id, sub) {
        OthersFail(s, u, c, order, ok, v, d, sub);
      }
      if s.slots[v].place.Sent? {
        forall sub | sub in s.slots[v].place.toAck ensures Justified(s'.log, s'.sends, KeyOf(d), sub) {
          JustifiedGrows(s.log, [], s.sends, L.SendsOf(u, c, order, ok), KeyOf(d), sub);
          assert s.log + [] == s.log;
        }
      }
    }
  }

  /** Sends change the counts and nothing else. */
  lemma SameSnapshot(log: seq<Record>, c: Copy, ok: set<string>)
    requires FromLog(log, c)
    ensures FromLog(log, AfterSends(c, ok)) && Pending(AfterSends(c, ok)) == Pending(c) && Finished(c, ok) <= Pending(c)
    ensures AfterSends(c, ok).queue == c.queue && AfterSends(c, ok).id == c.id && AfterSends(c, ok).acked == c.acked
    ensures AfterSends(c, ok).subList == c.subList
  {
  }

  lemma AttemptEvidence(s: Broker, s': Broker, u: nat, order: seq<string>, ok: set<string>)
    requires Evidence(s) && Attempt(s, s', u, order, ok)
    ensures Evidence(s')
  {
    hide SlotOk, AfterSends, Finished;
    var more := L.SendsOf(u, s.slots[u].copy, order, ok);
    AcksStayJustified(s.log, [], s.sends, more);
    assert s.log + [] == s.log && SlotOk(s, u);
    forall v | v in s'.slots ensures SlotOk(s', v) {
      assert v in s.slots ==> SlotOk(s, v);
      AttemptSlot(s, s', u, order, ok, v);
    }
    UidBelow(s, u);
  }

  lemma UidBelow(s: Broker, u: nat)
    requires u in s.slots && SlotOk(s, u)
    ensures u < s.nextUid
  {
  }

  // ---- Acks ----

  lemma AckedSlot(s: Broker, s': Broker, u: nat, sub: string)
    requires u in s.slots && SlotOk(s, u) && LogAck(s, s', u, sub)
    ensures SlotOk(s', u)
  {
    hide L.Failures, FromLog, Justified;
    var c, r := s.slots[u].copy, s'.log[|s.log|];
    FromLogGrows(s.log, [r], c);
    assert FromLog(s'.log, s'.slots[u].copy) by { SameMessage(s'.log, c, s'.slots[u].copy); }
    forall x: string ensures Tries(s'.slots[u].copy, x) == Tries(c, x) {}
    forall x | x in s'.slots[u].place.toAck ensures Justified(s'.log, s'.sends, KeyOf(c), x) {
      JustifiedGrows(s.log, [r], s.sends, [], KeyOf(c), x);
      assert s.sends + [] == s.sends;
    }
  }

  lemma SameMessage(log: seq<Record>, c: Copy, c': Copy)
    requires FromLog(log, c) && c'.queue == c.queue && c'.id == c.id && c'.subList == c.subList
    ensures FromLog(log, c')
  {
  }

  lemma LogAckEvidence(s: Broker, s': Broker, u: nat, sub: string)
    requires Evidence(s) && LogAck(s, s', u, sub)
    ensures Evidence(s')
  {
    var r := s'.log[|s.log|];
    assert SlotOk(s, u) && AckJustified(s.log, s.sends, r);
    hide SlotOk, AckJustified;
    AcksStayJustified(s.log, [r], s.sends, []);
    assert s.sends + [] == s.sends;
    forall v | v in s'.slots ensures SlotOk(s', v) {
      if v == u { AckedSlot(s, s', u, sub); } else { SlotStays(s, s', [r], v); }
    }
  }

  /** The steps that neither log nor send anything. */
  lemma QuietEvidence(s: Broker, s': Broker, ev: Event)
    requires Evidence(s) && Next(s, s', ev)
    requires ev.AckFailsEvent? || ev.FinishEvent? || ev.DiscardEvent? || ev.CrashEvent?
    ensures Evidence(s')
  {
    hide FromLog, Justified, L.Failures, AckJustified, DeletedSince;
    forall v | v in s'.slots ensures SlotOk(s', v) {
      assert SlotOk(s, v);
    }
  }

  // ---- Memory is in step ----

  lemma LiveSnoc(log: seq<Record>, r: Record)
    ensures Live(log + [r]) == LS.Step(Live(log), r)
    ensures LS.ServedLog(log + [r]) <==> LS.ServedLog(log) && LS.Served(Live(log), r)
  {
    LS.RunSnoc(LS.NOTHING, log, r);
  }

  lemma UniqueSnoc(log: seq<Record>, r: Record)
    requires UniqueIds(log) && (r.op.Enqueue? ==> FreshId(log, r.op.msgId))
    ensures UniqueIds(log + [r])
  {
  }

  lemma EnqueuedStays(log: seq<Record>, r: Record, k: LS.Key)
    requires k in Live(log).pending && WasEnqueued(log, k) && k in Live(log + [r]).pending
    requires Live(log + [r]).pending[k].subList == Live(log).pending[k].subList
    requires !(r.op.DeleteQueue? && r.queueName == k.queue)
    ensures WasEnqueued(log + [r], k)
  {
    var log' := log + [r];
    hide LS.Run;
    var e :| RL.EnqueuesMessage(log, e, k.queue, k.id) && log[e].op.subList == Live(log).pending[k].subList
          && forall d :: e < d < |log| ==> !RL.DeletesQueue(log, d, k.queue);
    assert log'[e] == log[e] && RL.EnqueuesMessage(log', e, k.queue, k.id);
    forall d | e < d < |log'| ensures !RL.DeletesQueue(log', d, k.queue) {
      if d < |log| { assert log'[d] == log[d] && !RL.DeletesQueue(log, d, k.queue); }
    }
  }

  lemma EnqueuedNow(log: seq<Record>, r: Record, k: LS.Key)
    requires r.op.Enqueue? && k == LS.Key(r.queueName, r.op.msgId) && k in Live(log + [r]).pending
    requires Live(log + [r]).pending[k].subList == r.op.subList
    ensures WasEnqueued(log + [r], k)
  {
    assert RL.EnqueuesMessage(log + [r], |log|, k.queue, k.id);
  }

  /** Of pending messages and copies, an id has only one. */
  lemma SameIdSameKey(log: seq<Record>, c: Copy, k: LS.Key)
    requires UniqueIds(log) && FromLog(log, c) && k in Live(log).pending && WasEnqueued(log, k) && k.id == c.id
    ensures k == KeyOf(c)
  {
    hide LS.Run;
    var e :| RL.EnqueuesMessage(log, e, c.queue, c.id) && log[e].op.subList == c.subList;
    var e' :| RL.EnqueuesMessage(log, e', k.queue, k.id) && log[e'].op.subList == Live(log).pending[k].subList;
    assert e == e';
  }

  lemma FreshForCopies(log: seq<Record>, c: Copy, id: string)
    requires FromLog(log, c) && FreshId(log, id)
    ensures c.id != id
  {
    var e :| RL.EnqueuesMessage(log, e, c.queue, c.id) && log[e].op.subList == c.subList;
  }

  lemma CopyIsFromLog(s: Broker, u: nat)
    requires Evidence(s) && u in s.slots
    ensures FromLog(s.log, s.slots[u].copy)
  {
    hide AcksJustified, FromLog, Justified, L.Failures;
    assert SlotOk(s, u);
  }

  lemma ServeInStep(s: Broker, s': Broker, r: Record, u: nat)
    requires Inv(s) && Serve(s, s', r) && u in s.slots
    ensures InStep(Live(s'.log), s.slots[u].copy)
  {
    var c := s.slots[u].copy;
    CopyIsFromLog(s, u);
    LiveSnoc(s.log, r);
    assert InStep(Live(s.log), c);
    hide LS.Run, LS.Step, LS.Served, Evidence, Memory, FromLog, FreshId;
    if KeyOf(c) in Live(s'.log).pending {
      ServedPending(Live(s.log), r, KeyOf(c));
      if r.op.Enqueue? { FreshForCopies(s.log, c, r.op.msgId); }
    }
  }

  lemma ServeEnqueued(s: Broker, r: Record, k: LS.Key)
    requires LogOk(s.log) && !r.op.Ack? && k in Live(s.log + [r]).pending
    ensures WasEnqueued(s.log + [r], k)
    ensures k in Live(s.log).pending || (r.op.Enqueue? && k == LS.Key(r.queueName, r.op.msgId))
  {
    LiveSnoc(s.log, r);
    hide LS.Run, LS.Step, WasEnqueued;
    ServedPending(Live(s.log), r, k);
    if k in Live(s.log).pending && Live(s.log + [r]).pending[k] == Live(s.log).pending[k]
       && !(r.op.DeleteQueue? && r.queueName == k.queue) {
      EnqueuedStays(s.log, r, k);
    } else {
      EnqueuedNow(s.log, r, k);
    }
  }

  lemma ServeLogOk(s: Broker, s': Broker, r: Record)
    requires LogOk(s.log) && Serve(s, s', r)
    ensures LogOk(s'.log)
  {
    hide LS.Run, LS.ServedFrom, LS.Served, WasEnqueued, UniqueIds, FreshId;
    LiveSnoc(s.log, r);
    UniqueSnoc(s.log, r);
    forall k | k in Live(s'.log).pending ensures WasEnqueued(s'.log, k) { ServeEnqueued(s, r, k); }
  }

  lemma ServeAllInStep(s: Broker, s': Broker, r: Record)
    requires Inv(s) && Serve(s, s', r)
    ensures AllInStep(s'.slots, Live(s'.log))
  {
    forall u | u in s.slots ensures InStep(Live(s'.log), s.slots[u].copy) { ServeInStep(s, s', r, u); }
    hide Inv, LS.Run, LS.Served, FreshId, InStep;
    if r.op.Enqueue? { NewInStep(s.log, r); }
  }

  lemma ServeOneEach(s: Broker, s': Broker, r: Record)
    requires Evidence(s) && OneEach(s.slots) && Serve(s, s', r)
    ensures OneEach(s'.slots)
  {
    hide Evidence, LS.Run, LS.Served, FreshId, FromLog;
    if r.op.Enqueue? {
      forall u | u in s.slots ensures s.slots[u].copy.id != r.op.msgId {
        CopyIsFromLog(s, u);
        FreshForCopies(s.log, s.slots[u].copy, r.op.msgId);
      }
    }
  }

  lemma ServeMemory(s: Broker, s': Broker, r: Record)
    requires Inv(s) && Serve(s, s', r)
    ensures Memory(s')
  {
    UidsBelow(s);
    ServeLogOk(s, s', r);
    ServeAllInStep(s, s', r);
    ServeOneEach(s, s', r);
    hide Evidence, LogOk, AllInStep, OneEach, LS.Run, LS.Served, FreshId;
    forall k | k in Live(s'.log).pending
      ensures k in Live(s.log).pending || (r.op.Enqueue? && k == LS.Key(r.queueName, r.op.msgId))
    {
      ServeEnqueued(s, r, k);
    }
    ServeHasCopies(s, s', r);
  }

  lemma UidsBelow(s: Broker)
    requires Evidence(s)
    ensures forall u :: u in s.slots ==> u < s.nextUid
  {
    hide AcksJustified, FromLog, Justified, L.Failures;
    forall u | u in s.slots ensures u < s.nextUid { assert SlotOk(s, u); }
  }

  lemma NewInStep(log: seq<Record>, r: Record)
    requires r.op.Enqueue? && LS.Served(Live(log), r)
    ensures InStep(Live(log + [r]), NewCopy(r))
  {
    LiveSnoc(log, r);
    hide LS.Run;
    var k := LS.Key(r.queueName, r.op.msgId);
    assert k !in Live(log).pending;
  }

  lemma ServeHasCopies(s: Broker, s': Broker, r: Record)
    requires Serve(s, s', r) && forall u :: u in s.slots ==> u < s.nextUid
    requires forall k :: k in Live(s.log).pending ==> HasCopy(s.slots, k)
    requires forall k :: k in Live(s'.log).pending ==>
               k in Live(s.log).pending || (r.op.Enqueue? && k == LS.Key(r.queueName, r.op.msgId))
    ensures forall k :: k in Live(s'.log).pending ==> HasCopy(s'.slots, k)
  {
    hide LS.Run, LS.Served, FreshId;
    forall k | k in Live(s'.log).pending ensures HasCopy(s'.slots, k) {
      if k in Live(s.log).pending {
        var u :| u in s.slots && KeyOf(s.slots[u].copy) == k;
        assert u in s'.slots && s'.slots[u] == s.slots[u];
      } else {
        assert s.nextUid in s'.slots && KeyOf(s'.slots[s.nextUid].copy) == k;
      }
    }
  }

  // ---- Acks and memory ----

  /** A worker's ack is for a message that is pending on its queue, or for one that nobody waits for. */
  lemma AckIsServed(s: Broker, u: nat, r: Record)
    requires Inv(s) && u in s.slots && r.op.Ack?
    requires r.op.ackedId == s.slots[u].copy.id && r.queueName == s.slots[u].copy.queue
    ensures LS.Served(Live(s.log), r)
  {
    var c := s.slots[u].copy;
    CopyIsFromLog(s, u);
    hide Evidence, LS.Run, FromLog, WasEnqueued, UniqueIds;
    forall k | k in Live(s.log).pending && k.id == c.id ensures k == KeyOf(c) { SameIdSameKey(s.log, c, k); }
  }

  lemma AckLogOk(log: seq<Record>, r: Record)
    requires LogOk(log) && r.op.Ack? && LS.Served(Live(log), r)
    ensures LogOk(log + [r])
    ensures forall k :: k in Live(log + [r]).pending ==> k in Live(log).pending
  {
    hide LS.Run, LS.ServedFrom, LS.Served, WasEnqueued, UniqueIds, LS.Step;
    LiveSnoc(log, r);
    UniqueSnoc(log, r);
    forall k | k in Live(log + [r]).pending ensures k in Live(log).pending && WasEnqueued(log + [r], k) {
      AckedPending(Live(log), r, k);
      EnqueuedStays(log, r, k);
    }
  }

  lemma AckInStep(l: LS.Live, r: Record, c: Copy, sub: string)
    requires InStep(l, c) && r.op == Op.Ack(c.id, sub) && r.queueName == c.queue && sub in Pending(c)
    ensures InStep(LS.Step(l, r), c.(acked := c.acked + {sub}))
  {
    if KeyOf(c) in LS.Step(l, r).pending { AckedPending(l, r, KeyOf(c)); }
  }

  lemma OthersInStep(l: LS.Live, r: Record, c: Copy)
    requires InStep(l, c) && r.op.Ack? && r.op.ackedId != c.id
    ensures InStep(LS.Step(l, r), c)
  {
    if KeyOf(c) in LS.Step(l, r).pending { AckedPending(l, r, KeyOf(c)); }
  }

  lemma LogAckAllInStep(s: Broker, s': Broker, u: nat, sub: string)
    requires AllInStep(s.slots, Live(s.log)) && OneEach(s.slots) && LogAck(s, s', u, sub)
    requires sub in Pending(s.slots[u].copy)
    ensures AllInStep(s'.slots, Live(s'.log))
  {
    var r := s'.log[|s.log|];
    LiveSnoc(s.log, r);
    hide LS.Run, LS.Step, InStep;
    forall v | v in s'.slots ensures InStep(Live(s'.log), s'.slots[v].copy) {
      if v == u {
        AckInStep(Live(s.log), r, s.slots[u].copy, sub);
      } else {
        OthersInStep(Live(s.log), r, s.slots[v].copy);
      }
    }
  }

  /** A step that moves one slot, keeping its message, keeps everything held. */
  lemma MovedHolds(slots: map<nat, Slot>, u: nat, slot: Slot, k: LS.Key)
    requires u in slots && KeyOf(slot.copy) == KeyOf(slots[u].copy) && HasCopy(slots, k)
    ensures HasCopy(slots[u := slot], k)
  {
    var v :| v in slots && KeyOf(slots[v].copy) == k;
    assert v in slots[u := slot] && KeyOf(slots[u := slot][v].copy) == k;
  }

  lemma MovedOneEach(slots: map<nat, Slot>, u: nat, slot: Slot)
    requires u in slots && slot.copy.id == slots[u].copy.id && OneEach(slots)
    ensures OneEach(slots[u := slot])
  {
  }

  lemma DownIsEmpty(s: Broker, u: nat)
    requires Memory(s) && u in s.slots
    ensures s.up
  {
    hide LogOk, AllInStep, OneEach, AllHeld;
  }

  lemma ToAckIsPending(s: Broker, u: nat, sub: string)
    requires Evidence(s) && u in s.slots && s.slots[u].place.Sent? && sub in s.slots[u].place.toAck
    ensures sub in Pending(s.slots[u].copy)
  {
    hide AcksJustified, FromLog, Justified, L.Failures;
    assert SlotOk(s, u);
  }

  lemma LogAckMemory(s: Broker, s': Broker, u: nat, sub: string)
    requires Inv(s) && LogAck(s, s', u, sub)
    ensures Memory(s')
  {
    var r := s'.log[|s.log|];
    ToAckIsPending(s, u, sub);
    AckIsServed(s, u, r);
    DownIsEmpty(s, u);
    hide Evidence, LogOk, AllInStep, OneEach, LS.Run, LS.Served, HasCopy;
    AckLogOk(s.log, r);
    LogAckAllInStep(s, s', u, sub);
    MovedOneEach(s.slots, u, s'.slots[u]);
    forall k | k in Live(s'.log).pending ensures HasCopy(s'.slots, k) {
      MovedHolds(s.slots, u, s'.slots[u], k);
    }
  }

  // ---- The other steps ----

  /** The slot changes place or counts; the log stays. */
  lemma MovedMemory(s: Broker, s': Broker, u: nat, slot: Slot)
    requires Memory(s) && u in s.slots && s'.log == s.log && s'.up == s.up && s'.slots == s.slots[u := slot]
    requires slot.copy == s.slots[u].copy.(retries := slot.copy.retries)
    ensures Memory(s')
  {
    DownIsEmpty(s, u);
    hide LogOk, LS.Run, HasCopy;
    MovedOneEach(s.slots, u, slot);
    forall k | k in Live(s'.log).pending ensures HasCopy(s'.slots, k) { MovedHolds(s.slots, u, slot, k); }
  }

  /** The slot goes; its message is not pending. */
  lemma RemovedMemory(s: Broker, s': Broker, u: nat)
    requires Memory(s) && u in s.slots && s' == s.(slots := s.slots - {u})
    requires KeyOf(s.slots[u].copy) !in Live(s.log).pending
    ensures Memory(s')
  {
    DownIsEmpty(s, u);
    hide LogOk, LS.Run;
    forall k | k in Live(s'.log).pending ensures HasCopy(s'.slots, k) {
      var v :| v in s.slots && KeyOf(s.slots[v].copy) == k;
      assert v in s'.slots;
    }
  }

  lemma FinishMemory(s: Broker, s': Broker, u: nat)
    requires Inv(s) && Finish(s, s', u)
    ensures Memory(s')
  {
    var c := s.slots[u].copy;
    hide Evidence, LogOk, OneEach, AllHeld, LS.Run;
    if Pending(c) == {} {
      DoneIsNotPending(s.log, c);
      RemovedMemory(s, s', u);
    } else {
      MovedMemory(s, s', u, Slot(InQueue, c));
    }
  }

  lemma DoneIsNotPending(log: seq<Record>, c: Copy)
    requires InStep(Live(log), c) && Pending(c) == {}
    ensures KeyOf(c) !in Live(log).pending
  {
    hide LS.Run;
    if KeyOf(c) in Live(log).pending {
      NoneLeft(c);
      PendingWaits(log, KeyOf(c));
    }
  }

  lemma NoneLeft(c: Copy)
    requires Pending(c) == {}
    ensures c.subList.Keys <= c.acked
  {
    forall x | x in c.subList.Keys ensures x in c.acked { assert x !in Pending(c); }
  }

  lemma DiscardMemory(s: Broker, s': Broker, u: nat)
    requires Inv(s) && Discard(s, s', u)
    ensures Memory(s')
  {
    var k := KeyOf(s.slots[u].copy);
    if k in Live(s.log).pending { NotDeleted(s.log, k); }
    hide Inv, LS.Run, DeletedSince;
    RemovedMemory(s, s', u);
  }

  lemma NotDeleted(log: seq<Record>, k: LS.Key)
    requires LogOk(log) && k in Live(log).pending
    ensures !DeletedSince(log, k)
  {
    hide LS.Run;
    assert WasEnqueued(log, k);
    var e :| RL.EnqueuesMessage(log, e, k.queue, k.id) && log[e].op.subList == Live(log).pending[k].subList
          && forall d :: e < d < |log| ==> !RL.DeletesQueue(log, d, k.queue);
    forall e', d | e' < d && RL.EnqueuesMessage(log, e', k.queue, k.id) ensures !RL.DeletesQueue(log, d, k.queue) {
      OneEnqueue(log, e, e', k);
    }
  }

  lemma OneEnqueue(log: seq<Record>, e: int, e': int, k: LS.Key)
    requires UniqueIds(log) && RL.EnqueuesMessage(log, e, k.queue, k.id) && RL.EnqueuesMessage(log, e', k.queue, k.id)
    ensures e == e'
  {
  }

  lemma RestartMemory(s: Broker, s': Broker)
    requires Inv(s) && Restart(s, s')
    ensures Memory(s')
  {
    hide Evidence, LS.Run, LS.ServedFrom;
    forall u, v | u in s'.slots && v in s'.slots && s'.slots[u].copy.id == s'.slots[v].copy.id ensures u == v {
      OneKey(s.log, KeyOf(s'.slots[u].copy), KeyOf(s'.slots[v].copy));
    }
    hide LogOk;
  }

  lemma OneKey(log: seq<Record>, k: LS.Key, k': LS.Key)
    requires LogOk(log) && k in Live(log).pending && k' in Live(log).pending && k.id == k'.id
    ensures k == k'
  {
    hide LS.Run;
    assert WasEnqueued(log, k) && WasEnqueued(log, k');
    var e :| RL.EnqueuesMessage(log, e, k.queue, k.id);
    var e' :| RL.EnqueuesMessage(log, e', k'.queue, k'.id);
    assert e == e';
  }

  lemma NextKeeps(s: Broker, s': Broker, ev: Event)
    requires Inv(s) && Next(s, s', ev)
    ensures Inv(s')
  {
    assert Evidence(s) && Memory(s);
    hide Evidence, Memory, Serve, LogAck, Restart, AfterSends, Finished, DeletedSince;
    match ev
    case ServeEvent(r) => ServeEvidence(s, s', r); ServeMemory(s, s', r);
    case AttemptEvent(u, order, ok) =>
      AttemptEvidence(s, s', u, order, ok);
      SendsKeepCopy(s.slots[u].copy, ok);
      MovedMemory(s, s', u, s'.slots[u]);
    case LogAckEvent(u, sub) => LogAckEvidence(s, s', u, sub); LogAckMemory(s, s', u, sub);
    case AckFailsEvent(u, sub) => QuietEvidence(s, s', ev); MovedMemory(s, s', u, s'.slots[u]);
    case FinishEvent(u) => QuietEvidence(s, s', ev); FinishMemory(s, s', u);
    case DiscardEvent(u) => QuietEvidence(s, s', ev); DiscardMemory(s, s', u);
    case CrashEvent => QuietEvidence(s, s', ev); CrashMemory(s, s');
    case RestartEvent => RestartEvidence(s, s'); RestartMemory(s, s');
  }

  lemma SendsKeepCopy(c: Copy, ok: set<string>)
    ensures AfterSends(c, ok) == c.(retries := AfterSends(c, ok).retries)
  {
  }

  lemma CrashMemory(s: Broker, s': Broker)
    requires Memory(s) && Crash(s, s')
    ensures Memory(s')
  {
    hide LogOk;
  }

  lemma {:induction false} RunKeeps(states: seq<Broker>, events: seq<Event>, i: nat)
    requires IsRun(states, events) && i < |states|
    ensures Inv(states[i])
  {
    hide Inv, Next;
    if i > 0 {
      RunKeeps(states, events, i - 1);
      NextKeeps(states[i - 1], states[i], events[i - 1]);
    } else {
      InitIsOk();
    }
  }

  lemma InitIsOk()
    ensures Inv(INIT)
  {
  }

  // ---- The theorems ----

  lemma NextGrows(s: Broker, s': Broker, ev: Event)
    requires Next(s, s', ev)
    ensures s.log <= s'.log
  {
    hide LS.Run, LS.Served, FreshId, AfterSends, Finished, Restores, DeletedSince;
  }

  lemma {:induction false} RunGrows(states: seq<Broker>, events: seq<Event>, i: nat, j: nat)
    requires IsRun(states, events) && i <= j < |states|
    ensures states[i].log <= states[j].log
    decreases j - i
  {
    hide Next;
    if i < j {
      RunGrows(states, events, i, j - 1);
      NextGrows(states[j - 1], states[j], events[j - 1]);
    }
  }

  /** At least once, over any number of crashes and restarts: a subscriber that was owed a message and is not any more
      lost it with its queue, or got it, or failed it, within one process, as often as the enqueued policy allows. */
  lemma AtLeastOnce(states: seq<Broker>, events: seq<Event>, i: nat, j: nat, k: LS.Key, sub: string)
    requires IsRun(states, events) && i <= j < |states|
    requires Owed(states[i].log, k, sub) && !Owed(states[j].log, k, sub)
    ensures
      || (exists d :: |states[i].log| <= d < |states[j].log| && RL.DeletesQueue(states[j].log, d, k.queue))
      || L.Delivered(states[j].sends, k.queue, k.id, sub)
      || Exhausted(states[j].log, states[j].sends, k, sub)
  {
    RunGrows(states, events, i, j);
    RunKeeps(states, events, j);
    hide IsRun, Owed, LS.ServedFrom, UniqueIds, AllInStep, OneEach, AllHeld, SlotOk, L.Delivered, Exhausted;
    var log := states[j].log;
    var d := OwedEnds(states[i].log, log, k, sub);
    if log[d].op.DeleteQueue? {
      assert RL.DeletesQueue(log, d, k.queue);
    } else {
      assert AckJustified(log, states[j].sends, log[d]);
    }
  }

  /** Nothing owed is out of sight: while a process is up, whoever the log owes a message is pending in the one copy of
      it in memory, in its queue or with the worker. */
  lemma OwedIsInMemory(states: seq<Broker>, events: seq<Event>, i: nat, k: LS.Key, sub: string)
    requires IsRun(states, events) && i < |states| && states[i].up && Owed(states[i].log, k, sub)
    ensures
      var slots := states[i].slots;
      exists u :: u in slots && KeyOf(slots[u].copy) == k && sub in Pending(slots[u].copy)
    ensures OneEach(states[i].slots)
  {
    RunKeeps(states, events, i);
    hide IsRun, Evidence, LogOk, LS.Run;
    var s := states[i];
    assert HasCopy(s.slots, k);
    var u :| u in s.slots && KeyOf(s.slots[u].copy) == k;
    assert InStep(Live(s.log), s.slots[u].copy);
  }

  /** The uids in memory are no lower than `low`, nor are those to come. */
  ghost predicate From(s: Broker, low: nat) {
    low <= s.nextUid && forall u :: u in s.slots ==> low <= u
  }

  lemma NextFrom(s: Broker, s': Broker, ev: Event, low: nat)
    requires Next(s, s', ev) && From(s, low)
    ensures From(s', low)
  {
    hide LS.Run, LS.Served, FreshId, AfterSends, Finished, DeletedSince;
  }

  /** A copy belongs to one process: after a crash none of the copies made before it is ever in memory again, so every
      send from a copy was made by the process that made the copy. */
  lemma {:induction false} CopyDiesWithItsProcess(states: seq<Broker>, events: seq<Event>, c: nat, j: nat, u: nat)
    requires IsRun(states, events) && c < j < |states| && events[c] == CrashEvent && u < states[c].nextUid
    ensures u !in states[j].slots && From(states[j], states[c].nextUid)
    decreases j
  {
    if j == c + 1 {
      assert Next(states[c], states[j], events[c]);
    } else {
      CopyDiesWithItsProcess(states, events, c, j - 1, u);
      NextFrom(states[j - 1], states[j], events[j - 1], states[c].nextUid);
    }
  }
}
