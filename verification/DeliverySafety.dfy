/**
  Safety of delivery across terms: every node holds one copy of what it has
  scheduled, no ack is held that is not committed, and an obligation only ever
  disappears with its queue, by delivery, or when one copy used up its retries.
 */
module DeliverySafety {
  import opened Storage
  import opened History
  import opened Worker
  import opened Leadership

  // ---- Invariant ----

  /** There is evidence that this subscriber may be settled. */
  ghost predicate Justified(log: seq<Command>, sends: seq<Send>, q: string, id: string, sub: string) {
    Delivered(sends, q, id, sub) || Exhausted(log, sends, q, id, sub)
  }

  ghost predicate AckJustified(log: seq<Command>, sends: seq<Send>, c: Command) {
    c.Ack? ==> forall sub :: sub in c.subNames ==> Justified(log, sends, c.queue, c.msgID, sub)
  }

  /** An ack for this subscriber is in the log, after the enqueue that addressed it. */
  ghost predicate Committed(log: seq<Command>, q: string, id: string, sub: string) {
    exists e, j :: e < j && Addresses(log, e, q, id, sub) && Settles(log, j, q, id, sub)
  }

  /** The copy is of a message the log enqueued, with the same snapshot of subscribers. */
  ghost predicate FromLog(log: seq<Command>, c: Copy) {
    exists i :: 0 <= i < |log| && log[i].Enqueue? && log[i].queue == c.queue && log[i].msgID == c.id &&
      log[i].subList == c.subList
  }

  /** What holds of every copy: it still owes someone, its acks are committed, its counts are the failures it had. */
  ghost predicate CopyOk(log: seq<Command>, sends: seq<Send>, u: nat, c: Copy) {
    && FromLog(log, c)
    && c.acked < c.subList.Keys
    && (forall sub :: sub in c.acked ==> Committed(log, c.queue, c.id, sub))
    && (forall sub :: Tries(c, sub) == Failures(sends, u, c.queue, c.id, sub))
  }

  ghost predicate SlotOk(s: Cluster, u: nat)
    requires u in s.slots
  {
    var slot := s.slots[u];
    && u < s.nextUid && slot.node in s.nodes && slot.term <= s.nodes[slot.node].term
    && (slot.place.InQueue? ==> Current(s, u, slot.node))
    && CopyOk(s.log, s.sends, u, slot.copy)
    && (slot.place.Sent? ==>
          && slot.place.finished <= Pending(slot.copy)
          && forall sub :: sub in slot.place.finished ==> Justified(s.log, s.sends, slot.copy.queue, slot.copy.id, sub))
  }

  /** The dedupe set of a node is exactly the ids of its present term's copies, and no id has two. */
  ghost predicate OneCopy(s: Cluster, n: nat)
    requires n in s.nodes
  {
    && (!s.nodes[n].running ==> s.nodes[n].inFlight == {})
    && (forall u :: Current(s, u, n) ==> s.slots[u].copy.id in s.nodes[n].inFlight)
    && (forall id :: id in s.nodes[n].inFlight ==> exists u :: Current(s, u, n) && s.slots[u].copy.id == id)
    && (forall u, v :: Current(s, u, n) && Current(s, v, n) && s.slots[u].copy.id == s.slots[v].copy.id ==> u == v)
  }

  /** Every ack that is, or may come to be, in the log has its evidence. */
  ghost predicate Evidence(log: seq<Command>, proposed: set<Command>, sends: seq<Send>) {
    && FreshIds(log)
    && (forall j :: 0 <= j < |log| ==> AckJustified(log, sends, log[j]))
    && (forall c :: c in proposed ==> c.Ack? && AckJustified(log, sends, c))
  }

  ghost predicate Inv(s: Cluster) {
    && Evidence(s.log, s.proposed, s.sends)
    && (forall k :: 0 <= k < |s.sends| ==> s.sends[k].uid < s.nextUid)
    && (forall u :: u in s.slots ==> SlotOk(s, u))
    && (forall n :: n in s.nodes ==> OneCopy(s, n))
  }

  // ---- Evidence never goes away ----

  lemma JustifiedGrows(log: seq<Command>, sends: seq<Send>, cs: seq<Command>, more: seq<Send>, q: string, id: string,
                       sub: string)
    requires Justified(log, sends, q, id, sub)
    ensures Justified(log + cs, sends + more, q, id, sub)
  {
    if Delivered(sends, q, id, sub) {
      var k :| 0 <= k < |sends| && sends[k].queue == q && sends[k].id == id && sends[k].sub == sub && sends[k].ok;
      assert (sends + more)[k] == sends[k];
    } else {
      var i, u :| Addresses(log, i, q, id, sub) && Failures(sends, u, q, id, sub) >= Attempts(log[i].subList[sub]);
      assert (log + cs)[i] == log[i] && Addresses(log + cs, i, q, id, sub);
      FailuresConcat(sends, more, u, q, id, sub);
    }
  }

  lemma AckJustifiedGrows(log: seq<Command>, sends: seq<Send>, cs: seq<Command>, more: seq<Send>, c: Command)
    requires AckJustified(log, sends, c)
    ensures AckJustified(log + cs, sends + more, c)
  {
    if c.Ack? {
      forall sub | sub in c.subNames ensures Justified(log + cs, sends + more, c.queue, c.msgID, sub) {
        JustifiedGrows(log, sends, cs, more, c.queue, c.msgID, sub);
      }
    }
  }

  lemma CommittedGrows(log: seq<Command>, cs: seq<Command>, q: string, id: string, sub: string)
    requires Committed(log, q, id, sub)
    ensures Committed(log + cs, q, id, sub)
  {
    var e, j :| e < j && Addresses(log, e, q, id, sub) && Settles(log, j, q, id, sub);
    assert Addresses(log + cs, e, q, id, sub) && Settles(log + cs, j, q, id, sub);
  }

  lemma CopyOkOnLog(log: seq<Command>, sends: seq<Send>, cs: seq<Command>, u: nat, c: Copy)
    requires CopyOk(log, sends, u, c)
    ensures CopyOk(log + cs, sends, u, c)
  {
    var i :| 0 <= i < |log| && log[i].Enqueue? && log[i].queue == c.queue && log[i].msgID == c.id &&
      log[i].subList == c.subList;
    assert (log + cs)[i] == log[i];
    forall sub | sub in c.acked ensures Committed(log + cs, c.queue, c.id, sub) {
      CommittedGrows(log, cs, c.queue, c.id, sub);
    }
  }

  /** Appending to the log keeps the invariant of every slot. */
  lemma SlotOkOnLog(s: Cluster, cs: seq<Command>, u: nat)
    requires u in s.slots && SlotOk(s, u)
    ensures SlotOk(s.(log := s.log + cs), u)
  {
    var slot := s.slots[u];
    CopyOkOnLog(s.log, s.sends, cs, u, slot.copy);
    if slot.place.Sent? {
      forall sub | sub in slot.place.finished
        ensures Justified(s.log + cs, s.sends, slot.copy.queue, slot.copy.id, sub)
      {
        JustifiedGrows(s.log, s.sends, cs, [], slot.copy.queue, slot.copy.id, sub);
        assert s.sends + [] == s.sends;
      }
    }
  }

  lemma FreshSnoc(log: seq<Command>, c: Command)
    requires FreshIds(log)
    requires c.Enqueue? ==>
               forall i :: 0 <= i < |log| && log[i].Enqueue? ==> log[i].queue != c.queue || log[i].msgID != c.msgID
    ensures FreshIds(log + [c])
  {
  }

  lemma EvidenceGrows(log: seq<Command>, proposed: set<Command>, sends: seq<Send>, c: Command)
    requires Evidence(log, proposed, sends) && FreshIds(log + [c]) && AckJustified(log, sends, c)
    ensures Evidence(log + [c], proposed, sends)
  {
    hide Justified, FreshIds;
    var log' := log + [c];
    assert sends + [] == sends;
    forall d | AckJustified(log, sends, d) ensures AckJustified(log', sends, d) {
      AckJustifiedGrows(log, sends, [c], [], d);
    }
    forall j | 0 <= j < |log'| ensures AckJustified(log', sends, log'[j]) {
      assert log'[j] == if j < |log| then log[j] else c;
    }
  }

  /** More sends on record leave every ack its evidence. */
  lemma EvidenceOnSends(log: seq<Command>, proposed: set<Command>, sends: seq<Send>, more: seq<Send>)
    requires Evidence(log, proposed, sends)
    ensures Evidence(log, proposed, sends + more)
  {
    hide Justified, FreshIds;
    assert log + [] == log;
    forall d | AckJustified(log, sends, d) ensures AckJustified(log, sends + more, d) {
      AckJustifiedGrows(log, sends, [], more, d);
    }
  }

  /** A commit of a justified command keeps the invariant. */
  lemma CommitKeeps(s: Cluster, c: Command)
    requires Inv(s) && FreshIds(s.log + [c]) && AckJustified(s.log, s.sends, c)
    ensures Inv(s.(log := s.log + [c]))
  {
    hide FreshIds, AckJustified, SlotOk;
    var s' := s.(log := s.log + [c]);
    EvidenceGrows(s.log, s.proposed, s.sends, c);
    forall u | u in s'.slots ensures SlotOk(s', u) {
      SlotOkOnLog(s, [c], u);
    }
    forall n | n in s'.nodes ensures OneCopy(s', n) {
      OneCopyFrame(s, s', n);
    }
  }

  // ---- Leadership ----

  /** The one-copy law is about what is current: a change that leaves node m's dedupe set and its
      current copies alone keeps it. */
  lemma OneCopyFrame(s: Cluster, s': Cluster, m: nat)
    requires m in s.nodes && m in s'.nodes && OneCopy(s, m)
    requires s'.nodes[m].inFlight == s.nodes[m].inFlight && s'.nodes[m].running == s.nodes[m].running
    requires forall u :: Current(s', u, m) <==> Current(s, u, m)
    requires forall u :: Current(s, u, m) ==> u in s'.slots && s'.slots[u].copy.id == s.slots[u].copy.id
    ensures OneCopy(s', m)
  {
  }

  lemma DemoteSlot(s: Cluster, s': Cluster, n: nat, u: nat)
    requires Demote(s, s', n) && u in s'.slots && SlotOk(s, u)
    ensures SlotOk(s', u)
  {
    hide CopyOk, Justified;
  }

  lemma DemoteNode(s: Cluster, s': Cluster, n: nat, m: nat)
    requires Demote(s, s', n) && m in s.nodes && OneCopy(s, m)
    ensures OneCopy(s', m)
  {
    if m != n {
      OneCopyFrame(s, s', m);
    }
  }

  lemma DemoteKeeps(s: Cluster, s': Cluster, n: nat)
    requires Inv(s) && Demote(s, s', n)
    ensures Inv(s')
  {
    hide SlotOk, OneCopy, Evidence;
    forall u | u in s'.slots ensures SlotOk(s', u) {
      DemoteSlot(s, s', n, u);
    }
    forall m | m in s'.nodes ensures OneCopy(s', m) {
      DemoteNode(s, s', n, m);
    }
  }

  lemma StartKeeps(s: Cluster, s': Cluster, n: nat)
    requires Inv(s) && Start(s, s', n)
    ensures Inv(s')
  {
    hide CopyOk, Evidence, Justified;
    forall u | u in s'.slots ensures SlotOk(s', u) && !Current(s', u, n) {
      assert SlotOk(s, u);
    }
    forall m | m in s'.nodes && m != n ensures OneCopy(s', m) {
      OneCopyFrame(s, s', m);
    }
    assert OneCopy(s, n);
  }

  lemma CatchUpKeeps(s: Cluster, s': Cluster, n: nat, upTo: nat)
    requires Inv(s) && CatchUp(s, s', n, upTo)
    ensures Inv(s')
  {
    hide Inv;
    AppliedKeeps(s, s', n, upTo);
  }

  lemma AppliedKeeps(s: Cluster, s': Cluster, n: nat, upTo: nat)
    requires Inv(s) && n in s.nodes && s' == s.(nodes := s.nodes[n := s.nodes[n].(applied := upTo)])
    ensures Inv(s')
  {
    hide CopyOk, Evidence, Justified;
    forall u | u in s'.slots ensures SlotOk(s', u) {
      assert SlotOk(s, u);
    }
    forall m | m in s'.nodes ensures OneCopy(s', m) {
      OneCopyFrame(s, s', m);
    }
  }

  // ---- Scheduling ----

  /** An ack that storage holds was committed. */
  lemma {:induction false} StoredAckWasCommitted(log: seq<Command>, q: string, id: string, sub: string)
    requires Holds(Run(EMPTY, log), q, id) && sub in MessageAt(Run(EMPTY, log), q, id).acked
    ensures Committed(log, q, id, sub)
    decreases |log|
  {
    var n := |log| - 1;
    var s := Run(EMPTY, log[..n]);
    RunKeepsInv(log[..n]);
    HoldsAfter(s, log[n], q, id);
    assert log[..n] + [log[n]] == log;
    if sub in MessageAt(s, q, id).acked {
      StoredAckWasCommitted(log[..n], q, id, sub);
      CommittedGrows(log[..n], [log[n]], q, id, sub);
    } else {
      var e := HeldWasEnqueued(log[..n], q, id);
      RunKeepsInv(log);
      assert MessageOk(MessageAt(Run(EMPTY, log), q, id), id, Run(EMPTY, log).nextSeq);
      assert Addresses(log, e, q, id, sub) && Settles(log, n, q, id, sub);
    }
  }

  lemma {:induction false} NoFailuresYet(sends: seq<Send>, u: nat, q: string, id: string, sub: string)
    requires forall k :: 0 <= k < |sends| ==> sends[k].uid < u
    ensures Failures(sends, u, q, id, sub) == 0
    decreases |sends|
  {
    if sends != [] { NoFailuresYet(sends[..|sends| - 1], u, q, id, sub); }
  }

  /** A message just presented by storage makes a proper copy, however stale. */
  lemma PresentedIsOk(log: seq<Command>, sends: seq<Send>, u: nat, k: nat, q: string, id: string)
    requires k <= |log| && Holds(Run(EMPTY, log[..k]), q, id)
    requires forall j :: 0 <= j < |sends| ==> sends[j].uid < u
    ensures CopyOk(log, sends, u, Presented(log, k, q, id))
    ensures Presented(log, k, q, id).id == id && Pending(Presented(log, k, q, id)) != {}
  {
    var c, short := Presented(log, k, q, id), log[..k];
    var i := HeldWasEnqueued(short, q, id);
    assert short[i] == log[i] && short + log[k..] == log;
    RunKeepsInv(short);
    assert MessageOk(MessageAt(Run(EMPTY, short), q, id), id, Run(EMPTY, short).nextSeq);
    forall sub | sub in c.acked ensures Committed(log, q, id, sub) {
      StoredAckWasCommitted(short, q, id, sub);
      CommittedGrows(short, log[k..], q, id, sub);
    }
    forall sub: string ensures Failures(sends, u, q, id, sub) == 0 {
      NoFailuresYet(sends, u, q, id, sub);
    }
    var sub :| sub in c.subList && sub !in c.acked;
    assert sub in Pending(c);
  }

  /** Adding a copy under a new number and noting its id. */
  lemma ScheduledOneCopy(s: Cluster, s': Cluster, n: nat, m: nat, c: Copy)
    requires n in s.nodes && m in s.nodes && OneCopy(s, m) && s.nextUid !in s.slots
    requires s.nodes[n].running && c.id !in s.nodes[n].inFlight
    requires s'.nodes == s.nodes[n := s.nodes[n].(inFlight := s.nodes[n].inFlight + {c.id})]
    requires s'.slots == s.slots[s.nextUid := Slot(n, s.nodes[n].term, InQueue, c)]
    ensures OneCopy(s', m)
  {
    var u0 := s.nextUid;
    if m != n {
      OneCopyFrame(s, s', m);
    } else {
      forall u ensures Current(s', u, n) <==> u == u0 || Current(s, u, n) {}
      forall x | x in s'.nodes[n].inFlight ensures exists u :: Current(s', u, n) && s'.slots[u].copy.id == x {
        if x == c.id {
          assert Current(s', u0, n);
        } else {
          var u :| Current(s, u, n) && s.slots[u].copy.id == x;
          assert Current(s', u, n);
        }
      }
    }
  }

  lemma ScheduleKeeps(s: Cluster, s': Cluster, n: nat, k: nat, q: string, id: string)
    requires Inv(s) && Schedule(s, s', n, k, q, id)
    ensures Inv(s')
  {
    hide CopyOk, Evidence, Justified, OneCopy, Holds, Run;
    if s' != s {
      var u0, c := s.nextUid, Presented(s.log, k, q, id);
      PresentedIsOk(s.log, s.sends, u0, k, q, id);
      forall u | u in s'.slots ensures SlotOk(s', u) {
        if u != u0 { assert SlotOk(s, u); }
      }
      assert u0 in s.slots ==> SlotOk(s, u0);
      forall m | m in s'.nodes ensures OneCopy(s', m) {
        ScheduledOneCopy(s, s', n, m, c);
      }
    }
  }

  // ---- Delivering ----

  /** Moving one slot, its message and owner unchanged. */
  lemma MovedOneCopy(s: Cluster, s': Cluster, u: nat, place: Place, c: Copy, m: nat)
    requires u in s.slots && m in s.nodes && OneCopy(s, m) && c.id == s.slots[u].copy.id
    requires s'.nodes == s.nodes && s'.slots == Moved(s, u, place, c).slots
    ensures OneCopy(s', m)
  {
    OneCopyFrame(s, s', m);
  }

  lemma TakeKeeps(s: Cluster, s': Cluster, u: nat)
    requires Inv(s) && Take(s, s', u)
    ensures Inv(s')
  {
    hide CopyOk, Evidence, Justified, OneCopy;
    forall v | v in s'.slots ensures SlotOk(s', v) {
      assert SlotOk(s, v);
    }
    forall m | m in s'.nodes ensures OneCopy(s', m) {
      MovedOneCopy(s, s', u, InHand, s.slots[u].copy, m);
    }
  }

  /** The copy after its sends: its counts are the failures on record. */
  lemma AttemptCopy(log: seq<Command>, sends: seq<Send>, u: nat, c: Copy, order: seq<string>, ok: set<string>)
    requires CopyOk(log, sends, u, c)
    requires forall i, j :: 0 <= i < j < |order| ==> order[i] != order[j]
    requires forall x :: x in order <==> x in Pending(c)
    ensures CopyOk(log, sends + SendsOf(u, c, order, ok), u, AfterSends(c, ok))
  {
    hide Failures;
    var c', more := AfterSends(c, ok), SendsOf(u, c, order, ok);
    forall sub: string ensures Tries(c', sub) == Failures(sends + more, u, c.queue, c.id, sub) {
      FailuresConcat(sends, more, u, c.queue, c.id, sub);
      FailuresOfRound(u, c, order, ok, u, c.queue, c.id, sub);
    }
  }

  /** Another copy is not touched by these sends. */
  lemma OtherCopy(log: seq<Command>, sends: seq<Send>, u: nat, c: Copy, order: seq<string>, ok: set<string>, v: nat,
                  d: Copy)
    requires CopyOk(log, sends, v, d) && v != u
    requires forall i, j :: 0 <= i < j < |order| ==> order[i] != order[j]
    ensures CopyOk(log, sends + SendsOf(u, c, order, ok), v, d)
  {
    hide Failures;
    var more := SendsOf(u, c, order, ok);
    forall sub: string ensures Tries(d, sub) == Failures(sends + more, v, d.queue, d.id, sub) {
      FailuresConcat(sends, more, v, d.queue, d.id, sub);
      FailuresOfRound(u, c, order, ok, v, d.queue, d.id, sub);
    }
  }

  /** Whoever a pass settles has been reached, or has failed as often as its policy allows. */
  lemma FinishedIsJustified(log: seq<Command>, sends: seq<Send>, u: nat, c: Copy, order: seq<string>, ok: set<string>,
                            sub: string)
    requires CopyOk(log, sends, u, c) && sub in Finished(c, ok)
    requires forall i, j :: 0 <= i < j < |order| ==> order[i] != order[j]
    requires forall x :: x in order <==> x in Pending(c)
    ensures Justified(log, sends + SendsOf(u, c, order, ok), c.queue, c.id, sub)
  {
    hide Failures;
    var more := SendsOf(u, c, order, ok);
    assert sub in order;
    var p :| 0 <= p < |order| && order[p] == sub;
    if sub in ok {
      assert (sends + more)[|sends| + p] == Send(u, c.queue, c.id, c.payload, sub, true);
    } else {
      FailuresConcat(sends, more, u, c.queue, c.id, sub);
      FailuresOfRound(u, c, order, ok, u, c.queue, c.id, sub);
      var i :| 0 <= i < |log| && log[i].Enqueue? && log[i].queue == c.queue && log[i].msgID == c.id &&
        log[i].subList == c.subList;
      assert Addresses(log, i, c.queue, c.id, sub);
      assert Failures(sends + more, u, c.queue, c.id, sub) == Tries(c, sub) + 1 >= Attempts(log[i].subList[sub]);
    }
  }

  lemma AttemptSlot(s: Cluster, s': Cluster, u: nat, order: seq<string>, ok: set<string>, v: nat)
    requires u in s.slots && v in s.slots && SlotOk(s, u) && SlotOk(s, v) && Attempt(s, s', u, order, ok)
    ensures SlotOk(s', v)
  {
    var slot, c := s.slots[v], s.slots[u].copy;
    var more := SendsOf(u, c, order, ok);
    if v == u {
      AttemptCopy(s.log, s.sends, u, c, order, ok);
      forall sub | sub in Finished(c, ok) ensures Justified(s'.log, s'.sends, c.queue, c.id, sub) {
        FinishedIsJustified(s.log, s.sends, u, c, order, ok, sub);
      }
      hide CopyOk, Justified;
      assert Pending(AfterSends(c, ok)) == Pending(c);
    } else {
      OtherCopy(s.log, s.sends, u, c, order, ok, v, slot.copy);
      hide CopyOk, Justified;
      if slot.place.Sent? {
        forall sub | sub in slot.place.finished
          ensures Justified(s'.log, s'.sends, slot.copy.queue, slot.copy.id, sub)
        {
          JustifiedGrows(s.log, s.sends, [], more, slot.copy.queue, slot.copy.id, sub);
          assert s.log + [] == s.log;
        }
      }
    }
  }

  lemma AttemptKeeps(s: Cluster, s': Cluster, u: nat, order: seq<string>, ok: set<string>)
    requires Inv(s) && Attempt(s, s', u, order, ok)
    ensures Inv(s')
  {
    hide SlotOk, OneCopy, Evidence;
    var c := s.slots[u].copy;
    EvidenceOnSends(s.log, s.proposed, s.sends, SendsOf(u, c, order, ok));
    forall v | v in s'.slots ensures SlotOk(s', v) {
      AttemptSlot(s, s', u, order, ok, v);
    }
    forall m | m in s'.nodes ensures OneCopy(s', m) {
      MovedOneCopy(s, s', u, Sent(Finished(c, ok)), AfterSends(c, ok), m);
    }
    assert s.slots[u].copy == c;
    UidOfSlot(s, u);
  }

  lemma UidOfSlot(s: Cluster, u: nat)
    requires u in s.slots && SlotOk(s, u)
    ensures u < s.nextUid
  {
  }

  lemma AbandonKeeps(s: Cluster, s': Cluster, u: nat)
    requires Inv(s) && Abandon(s, s', u)
    ensures Inv(s')
  {
    hide CopyOk, Evidence, Justified, OneCopy;
    forall v | v in s'.slots ensures SlotOk(s', v) {
      assert SlotOk(s, v);
    }
    forall m | m in s'.nodes ensures OneCopy(s', m) {
      OneCopyFrame(s, s', m);
    }
  }

  // ---- Settling ----

  lemma CommittedByAck(log: seq<Command>, c: Copy, names: seq<string>, sub: string)
    requires FromLog(log, c) && sub in names && sub in c.subList
    ensures Committed(log + [Ack(c.queue, c.id, names)], c.queue, c.id, sub)
  {
    var log' := log + [Ack(c.queue, c.id, names)];
    var e :| 0 <= e < |log| && log[e].Enqueue? && log[e].queue == c.queue && log[e].msgID == c.id &&
      log[e].subList == c.subList;
    assert Addresses(log', e, c.queue, c.id, sub) && Settles(log', |log|, c.queue, c.id, sub);
  }

  /** Removing the one copy of an id and the id. */
  lemma RemovedOneCopy(s: Cluster, s': Cluster, u: nat, n: nat, m: nat)
    requires u in s.slots && m in s.nodes && OneCopy(s, m) && Current(s, u, n)
    requires s'.nodes == s.nodes[n := s.nodes[n].(inFlight := s.nodes[n].inFlight - {s.slots[u].copy.id})]
    requires s'.slots == s.slots - {u}
    ensures OneCopy(s', m)
  {
    if m != n {
      OneCopyFrame(s, s', m);
    } else {
      var id := s.slots[u].copy.id;
      forall v ensures Current(s', v, n) <==> v != u && Current(s, v, n) {}
      forall x | x in s'.nodes[n].inFlight ensures exists v :: Current(s', v, n) && s'.slots[v].copy.id == x {
        var v :| Current(s, v, n) && s.slots[v].copy.id == x;
        assert Current(s', v, n);
      }
    }
  }

  /** The copy with the settled subscribers added, when some subscriber is left. */
  lemma SettledCopy(log: seq<Command>, sends: seq<Send>, u: nat, c: Copy, f: set<string>)
    requires CopyOk(log, sends, u, c) && f <= Pending(c) && !Done(c.(acked := c.acked + f))
    requires forall sub :: sub in f ==> Committed(log, c.queue, c.id, sub)
    ensures CopyOk(log, sends, u, c.(acked := c.acked + f))
  {
    hide Failures, Committed;
    var c' := c.(acked := c.acked + f);
    DoneMeansNonePending(c');
    forall sub ensures Tries(c', sub) == Tries(c, sub) {}
  }

  /** The rest of a pass, once the ack of `f` is in the log. */
  lemma FinishPass(s: Cluster, s': Cluster, u: nat, f: set<string>)
    requires Inv(s) && u in s.slots && Current(s, u, s.slots[u].node) && f <= Pending(s.slots[u].copy)
    requires forall sub :: sub in f ==> Committed(s.log, s.slots[u].copy.queue, s.slots[u].copy.id, sub)
    requires s' == Finish(s, u, f)
    ensures Inv(s')
  {
    hide CopyOk, Evidence, Justified, OneCopy, Committed;
    var c, n := s.slots[u].copy, s.slots[u].node;
    var c' := c.(acked := c.acked + f);
    if !Done(c') {
      assert SlotOk(s, u);
      SettledCopy(s.log, s.sends, u, c, f);
    }
    forall v | v in s'.slots ensures SlotOk(s', v) {
      assert SlotOk(s, v);
    }
    forall m | m in s'.nodes ensures OneCopy(s', m) {
      if Done(c') { RemovedOneCopy(s, s', u, n, m); } else { MovedOneCopy(s, s', u, InQueue, c', m); }
    }
  }

  lemma CopyIsFromLog(s: Cluster, u: nat)
    requires u in s.slots && SlotOk(s, u)
    ensures FromLog(s.log, s.slots[u].copy)
  {
  }

  /** The ack a worker sends has its evidence. */
  lemma WorkerAckIsJustified(s: Cluster, u: nat, names: seq<string>)
    requires u in s.slots && SlotOk(s, u) && s.slots[u].place.Sent? && Named(names) == s.slots[u].place.finished
    ensures AckJustified(s.log, s.sends, Ack(s.slots[u].copy.queue, s.slots[u].copy.id, names))
  {
    hide CopyOk, Justified;
    assert forall sub :: sub in names ==> sub in Named(names);
  }

  /** The ack is in the log, and the worker's node has applied it. */
  lemma AckCommits(s: Cluster, s1: Cluster, u: nat, names: seq<string>)
    requires Inv(s) && u in s.slots && s.slots[u].place.Sent? && s.slots[u].node in s.nodes
    requires Named(names) == s.slots[u].place.finished && s1 == Acknowledged(s, u, names)
    ensures Inv(s1)
    ensures forall sub :: sub in s.slots[u].place.finished ==>
              Committed(s1.log, s.slots[u].copy.queue, s.slots[u].copy.id, sub)
  {
    hide CopyOk, Justified, OneCopy, AckJustified, FreshIds;
    var c, n := s.slots[u].copy, s.slots[u].node;
    var ack := Ack(c.queue, c.id, names);
    assert SlotOk(s, u);
    WorkerAckIsJustified(s, u, names);
    FreshSnoc(s.log, ack);
    CommitKeeps(s, ack);
    CopyIsFromLog(s, u);
    forall sub | sub in s.slots[u].place.finished ensures Committed(s1.log, c.queue, c.id, sub) {
      CommittedByAck(s.log, c, names, sub);
    }
    hide Inv, Committed;
    AppliedKeeps(s.(log := s.log + [ack]), s1, n, |s.log| + 1);
  }

  lemma FinishedArePending(s: Cluster, u: nat)
    requires Inv(s) && u in s.slots && s.slots[u].place.Sent?
    ensures s.slots[u].place.finished <= Pending(s.slots[u].copy)
  {
    hide CopyOk, Justified, OneCopy, Evidence;
    assert SlotOk(s, u);
  }

  lemma SettleKeeps(s: Cluster, s': Cluster, u: nat, names: seq<string>)
    requires Inv(s) && Settle(s, s', u, names)
    ensures Inv(s')
  {
    var f := s.slots[u].place.finished;
    FinishedArePending(s, u);
    hide Inv, Committed, Named, Finish;
    if f == {} {
      FinishPass(s, s', u, f);
    } else {
      var s1 := Acknowledged(s, u, names);
      AckCommits(s, s1, u, names);
      FinishPass(s1, s', u, f);
    }
  }

  lemma AckFailsKeeps(s: Cluster, s': Cluster, u: nat, names: seq<string>)
    requires Inv(s) && AckFails(s, s', u, names)
    ensures Inv(s')
  {
    hide CopyOk, Justified, OneCopy, FreshIds, AckJustified;
    WorkerAckIsJustified(s, u, names);
    forall v | v in s'.slots ensures SlotOk(s', v) {
      assert SlotOk(s, v);
    }
    forall m | m in s'.nodes ensures OneCopy(s', m) {
      MovedOneCopy(s, s', u, InQueue, s.slots[u].copy, m);
    }
  }

  // ---- Every run ----

  lemma NextKeeps(s: Cluster, s': Cluster, ev: Event)
    requires Inv(s) && Next(s, s', ev)
    ensures Inv(s')
  {
    hide SlotOk, OneCopy, AckJustified, FreshIds, CatchUp, Demote, Start, Schedule, Take, Attempt, Abandon, Settle,
      AckFails;
    match ev
    case CommitEvent(c) => FreshSnoc(s.log, c); JustifiedTrivially(s, c); CommitKeeps(s, c);
    case CommitLateEvent(c) => FreshSnoc(s.log, c); CommitKeeps(s, c);
    case CatchUpEvent(n, upTo) => CatchUpKeeps(s, s', n, upTo);
    case DemoteEvent(n) => DemoteKeeps(s, s', n);
    case StartEvent(n) => StartKeeps(s, s', n);
    case ScheduleEvent(n, k, q, id) => ScheduleKeeps(s, s', n, k, q, id);
    case TakeEvent(u) => TakeKeeps(s, s', u);
    case AttemptEvent(u, order, ok) => AttemptKeeps(s, s', u, order, ok);
    case AbandonEvent(u) => AbandonKeeps(s, s', u);
    case SettleEvent(u, names) => SettleKeeps(s, s', u, names);
    case AckFailsEvent(u, names) => AckFailsKeeps(s, s', u, names);
  }

  lemma JustifiedTrivially(s: Cluster, c: Command)
    requires !c.Ack?
    ensures AckJustified(s.log, s.sends, c)
  {
  }

  lemma {:induction false} RunKeeps(states: seq<Cluster>, events: seq<Event>, i: nat)
    requires IsRun(states, events) && i < |states|
    ensures Inv(states[i])
  {
    if i > 0 {
      RunKeeps(states, events, i - 1);
      NextKeeps(states[i - 1], states[i], events[i - 1]);
    }
  }

  // ---- What a run promises ----

  /** At least once: an obligation that was open when its message was enqueued, and is not owed any more,
      went with its queue, or was delivered, or failed as often in one term as its retry policy allows. */
  lemma AtLeastOnce(states: seq<Cluster>, events: seq<Event>, i: nat, e: int, q: string, id: string, sub: string)
    requires IsRun(states, events) && i < |states|
    requires Addresses(states[i].log, e, q, id, sub) && LiveAt(states[i].log, e, q)
    requires !Owed(Run(EMPTY, states[i].log), q, id, sub)
    ensures
      || (exists d :: e < d < |states[i].log| && Deletes(states[i].log, d, q))
      || Delivered(states[i].sends, q, id, sub)
      || Exhausted(states[i].log, states[i].sends, q, id, sub)
  {
    var s := states[i];
    RunKeeps(states, events, i);
    OwedMatchesLog(s.log, q, id, sub);
    assert !OpenSince(s.log, e, q, id, sub);
    if !(exists d :: e < d < |s.log| && Deletes(s.log, d, q)) {
      var j :| e < j < |s.log| && Settles(s.log, j, q, id, sub);
      assert AckJustified(s.log, s.sends, s.log[j]);
    }
  }

  /** In every reachable state a node has at most one copy of a message in its present term, has one exactly
      when the dedupe set says so, and once demoted has none left in a queue. */
  lemma OneCopyPerTerm(states: seq<Cluster>, events: seq<Event>, i: nat, n: nat)
    requires IsRun(states, events) && i < |states| && n in states[i].nodes
    ensures
      var s := states[i];
      && (forall id :: id in s.nodes[n].inFlight <==> exists u :: Current(s, u, n) && s.slots[u].copy.id == id)
      && (forall u, v :: Current(s, u, n) && Current(s, v, n) && s.slots[u].copy.id == s.slots[v].copy.id ==> u == v)
      && (!s.nodes[n].running ==>
            && s.nodes[n].inFlight == {}
            && forall u :: u in s.slots && s.slots[u].node == n ==> !s.slots[u].place.InQueue?)
  {
    hide CopyOk, Evidence, Justified;
    RunKeeps(states, events, i);
    var s := states[i];
    assert OneCopy(s, n);
    forall u | u in s.slots && s.slots[u].node == n && !s.nodes[n].running ensures !s.slots[u].place.InQueue? {
      assert SlotOk(s, u);
    }
  }

  /** No copy runs ahead of the log: an ack held in memory is committed, every copy still owes someone,
      and who it owes is what the enqueue's snapshot addressed. */
  lemma MemoryFollowsLog(states: seq<Cluster>, events: seq<Event>, i: nat, u: nat, sub: string)
    requires IsRun(states, events) && i < |states| && u in states[i].slots
    ensures
      var s := states[i];
      var c := s.slots[u].copy;
      && Pending(c) != {}
      && (sub in c.acked ==> Committed(s.log, c.queue, c.id, sub))
      && (sub in Pending(c) ==> exists e :: Addresses(s.log, e, c.queue, c.id, sub))
  {
    RunKeeps(states, events, i);
    var s := states[i];
    var c := s.slots[u].copy;
    assert SlotOk(s, u);
    var x :| x in c.subList && x !in c.acked;
    assert x in Pending(c);
    var e :| 0 <= e < |s.log| && s.log[e].Enqueue? && s.log[e].queue == c.queue && s.log[e].msgID == c.id &&
      s.log[e].subList == c.subList;
    if sub in Pending(c) {
      assert Addresses(s.log, e, c.queue, c.id, sub);
    }
  }

  /** A message all of whose subscribers have committed acks is owed to nobody. */
  lemma AllCommittedOwesNobody(log: seq<Command>, c: Copy, sub: string)
    requires FreshIds(log) && FromLog(log, c) && forall x :: x in c.subList ==> Committed(log, c.queue, c.id, x)
    ensures !Owed(Run(EMPTY, log), c.queue, c.id, sub)
  {
    OwedMatchesLog(log, c.queue, c.id, sub);
    forall i | Addresses(log, i, c.queue, c.id, sub) ensures !OpenSince(log, i, c.queue, c.id, sub) {
      var e :| 0 <= e < |log| && log[e].Enqueue? && log[e].queue == c.queue && log[e].msgID == c.id &&
        log[e].subList == c.subList;
      assert e == i;
      assert Committed(log, c.queue, c.id, sub);
    }
  }

  /** While a node keeps running, only a worker that settles takes an id out of its set. */
  lemma OnlySettleForgets(s: Cluster, s': Cluster, ev: Event, n: nat, id: string)
    requires Next(s, s', ev) && n in s.nodes && n in s'.nodes && s'.nodes[n].running
    requires id in s.nodes[n].inFlight && id !in s'.nodes[n].inFlight
    ensures
      && ev.SettleEvent? && Current(s, ev.u, n) && s.slots[ev.u].place.Sent? && s.slots[ev.u].copy.id == id
      && Done(s.slots[ev.u].copy.(acked := s.slots[ev.u].copy.acked + s.slots[ev.u].place.finished))
  {
    hide Run, Holds, Presented, SendsOf, AfterSends, Finished, Named;
  }

  /** What a worker's last pass leaves behind in the log. */
  lemma LastPassCommits(s: Cluster, s': Cluster, u: nat, names: seq<string>, x: string)
    requires u in s.slots && SlotOk(s, u) && Settle(s, s', u, names) && x in s.slots[u].copy.subList
    requires Done(s.slots[u].copy.(acked := s.slots[u].copy.acked + s.slots[u].place.finished))
    ensures Committed(s'.log, s.slots[u].copy.queue, s.slots[u].copy.id, x)
  {
    hide Justified, Failures, Done;
    var c, f := s.slots[u].copy, s.slots[u].place.finished;
    var c' := c.(acked := c.acked + f);
    DoneMeansNonePending(c');
    assert x in c.acked || x in f by { assert x !in Pending(c'); }
    var cs := if f == {} then [] else [Ack(c.queue, c.id, names)];
    assert s'.log == s.log + cs;
    if x in c.acked {
      CommittedGrows(s.log, cs, c.queue, c.id, x);
    } else {
      CommittedByAck(s.log, c, names, x);
    }
  }

  lemma LastPassOwesNobody(s: Cluster, s': Cluster, u: nat, names: seq<string>, sub: string)
    requires u in s.slots && SlotOk(s, u) && Settle(s, s', u, names) && FreshIds(s'.log)
    requires Done(s.slots[u].copy.(acked := s.slots[u].copy.acked + s.slots[u].place.finished))
    ensures !Owed(Run(EMPTY, s'.log), s.slots[u].copy.queue, s.slots[u].copy.id, sub)
  {
    var c := s.slots[u].copy;
    hide SlotOk, Run, Holds, FreshIds, Committed;
    forall x | x in c.subList ensures Committed(s'.log, c.queue, c.id, x) {
      LastPassCommits(s, s', u, names, x);
    }
    CopyIsFromLog(s, u);
    FromLogStays(s.log, s'.log, c);
    AllCommittedOwesNobody(s'.log, c, sub);
  }

  /** Two current slots of one node with one id are one slot. */
  lemma SameCopy(s: Cluster, n: nat, u: nat, v: nat)
    requires Inv(s) && Current(s, u, n) && Current(s, v, n) && s.slots[u].copy.id == s.slots[v].copy.id
    ensures u == v && s.slots[u].copy.id in s.nodes[n].inFlight && SlotOk(s, u)
  {
    hide SlotOk, Evidence;
    assert OneCopy(s, n);
  }

  /** Nothing is forgotten while it is owed: when an id leaves a running node's set, the log owes that
      message to nobody. */
  lemma ForgottenMeansSettled(states: seq<Cluster>, events: seq<Event>, i: nat, n: nat, u: nat, sub: string)
    requires IsRun(states, events) && i < |events| && Current(states[i], u, n)
    requires n in states[i + 1].nodes && states[i + 1].nodes[n].running
    requires states[i].slots[u].copy.id !in states[i + 1].nodes[n].inFlight
    ensures !Owed(Run(EMPTY, states[i + 1].log), states[i].slots[u].copy.queue, states[i].slots[u].copy.id, sub)
  {
    hide SlotOk, OneCopy, AckJustified, Run, Holds, FreshIds, Settle, Commit, CommitLate, CatchUp, Demote, Start,
      Schedule, Take, Attempt, Abandon, AckFails;
    var s, s', ev := states[i], states[i + 1], events[i];
    RunKeeps(states, events, i);
    RunKeeps(states, events, i + 1);
    SameCopy(s, n, u, u);
    OnlySettleForgets(s, s', ev, n, s.slots[u].copy.id);
    SameCopy(s, n, u, ev.u);
    LastPassOwesNobody(s, s', u, ev.names, sub);
  }

  lemma FromLogStays(log: seq<Command>, log': seq<Command>, c: Copy)
    requires FromLog(log, c) && log <= log'
    ensures FromLog(log', c)
  {
    var e :| 0 <= e < |log| && log[e].Enqueue? && log[e].queue == c.queue && log[e].msgID == c.id &&
      log[e].subList == c.subList;
    assert log'[e] == log[e];
  }
}
