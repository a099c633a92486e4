/**
  Which compactions are minimal, told by the records alone: an ack from outside
  its message's snapshot costs a record for as long as the message is pending.
 */
module StrayAcks {
  import opened Options
  import opened Records
  import LS = LiveState
  import R = Replay
  import C = Compaction
  import opened Emission
  import opened CompactionLaws
  import opened Minimality

  /** The record starts message `id` afresh, or ends everything on queue q. */
  ghost predicate Resets(r: Record, q: string, id: string) {
    (r.op.Enqueue? && r.op.msgId == id) || (r.op.DeleteQueue? && r.queueName == q)
  }

  /** Position i acks subscriber s of the message, and the message has not been reset since. */
  ghost predicate AckedAt(recs: seq<Record>, i: int, q: string, id: string, s: string) {
    && 0 <= i < |recs| && recs[i].op == Ack(id, s) && recs[i].queueName == q
    && forall j :: i < j < |recs| ==> !Resets(recs[j], q, id)
  }

  ghost predicate Acked(recs: seq<Record>, q: string, id: string, s: string) {
    exists i :: AckedAt(recs, i, q, id, s)
  }

  /** Position i acks a message that is pending at the end, for a subscriber that the message was not addressed to. */
  ghost predicate StrayAt(recs: seq<Record>, i: int) {
    && 0 <= i < |recs| && recs[i].op.Ack?
    && var k, p := LS.Key(recs[i].queueName, recs[i].op.ackedId), LS.Run(LS.NOTHING, recs).pending;
    && k in p && recs[i].op.subName !in p[k].subList
    && AckedAt(recs, i, k.queue, k.id, recs[i].op.subName)
  }

  // ---- The acks that compaction keeps ----

  lemma AckedSnoc(recs: seq<Record>, r: Record, q: string, id: string, s: string)
    ensures Acked(recs + [r], q, id, s) <==>
            !Resets(r, q, id) && (Acked(recs, q, id, s) || (r.op == Ack(id, s) && r.queueName == q))
  {
    var n, next := |recs|, recs + [r];
    if Acked(next, q, id, s) {
      var i :| AckedAt(next, i, q, id, s);
      if i < n {
        forall j | i < j < n ensures !Resets(recs[j], q, id) { assert next[j] == recs[j]; }
        assert next[n] == r && AckedAt(recs, i, q, id, s);
      }
    }
    if !Resets(r, q, id) && Acked(recs, q, id, s) {
      var i :| AckedAt(recs, i, q, id, s);
      forall j | i < j < |next| ensures !Resets(next[j], q, id) { assert j < n ==> next[j] == recs[j]; }
      assert AckedAt(next, i, q, id, s);
    }
    if r.op == Ack(id, s) && r.queueName == q {
      assert AckedAt(next, n, q, id, s);
    }
  }

  /** The acks kept for message `id` after record r, in terms of those before. */
  ghost predicate Stepped(cs: C.State, cs': C.State, r: Record, id: string, s: string)
    requires id in cs'.msgs
  {
    var q := cs'.msgs[id].queueName;
    && ((id in cs.msgs && cs.msgs[id].queueName == q) || (r.op.Enqueue? && r.op.msgId == id && r.queueName == q))
    && (s in C.AcksOf(cs', id) <==>
          !Resets(r, q, id) && (s in C.AcksOf(cs, id) || (r.op == Ack(id, s) && r.queueName == q)))
  }

  lemma EnqueueStepped(cs: C.State, r: Record, id: string, s: string)
    requires r.op.Enqueue? && r.op.msgId !in cs.msgs && cs.acks.Keys <= cs.msgs.Keys
    requires id in C.AppliedEnqueue(cs, r).msgs
    ensures Stepped(cs, C.AppliedEnqueue(cs, r), r, id, s)
  {
    hide C.SubNames;
  }

  lemma AckStepped(cs: C.State, r: Record, id: string, s: string)
    requires r.op.Ack? && (r.op.ackedId in cs.msgs ==> cs.msgs[r.op.ackedId].queueName == r.queueName)
    requires id in C.AppliedAck(cs, r).msgs
    ensures Stepped(cs, C.AppliedAck(cs, r), r, id, s)
  {
    var cs' := C.AppliedAck(cs, r);
    assert id in cs.msgs && cs'.msgs[id] == cs.msgs[id];
    if id == r.op.ackedId {
      assert C.AcksOf(cs', id) == C.AcksOf(cs, id)[r.op.subName := r];
    } else {
      C.AppliedAckElsewhere(cs, r, id);
    }
  }

  lemma DeleteStepped(cs: C.State, r: Record, id: string, s: string)
    requires r.op.DeleteQueue? && id in C.AppliedDeleteQueue(cs, r.queueName).msgs
    ensures Stepped(cs, C.AppliedDeleteQueue(cs, r.queueName), r, id, s)
  {
  }

  lemma OtherStepped(cs: C.State, cs': C.State, r: Record, id: string, s: string)
    requires !r.op.Enqueue? && !r.op.Ack? && !r.op.DeleteQueue? && cs'.msgs == cs.msgs && cs'.acks == cs.acks
    requires id in cs'.msgs
    ensures Stepped(cs, cs', r, id, s)
  {
  }

  lemma StepAcks(cs: C.State, r: Record, id: string, s: string)
    requires C.Inv(cs) && LS.Served(C.LiveOf(cs), r) && id in C.Step(cs, r).msgs
    ensures Stepped(cs, C.Step(cs, r), r, id, s)
  {
    hide C.Inv, C.LiveOf, C.PendingOf, LS.Served, C.AppliedEnqueue, C.AppliedAck, C.AppliedDeleteQueue, Stepped;
    ServedIds(cs, r);
    match r.op {
      case Enqueue(_, _, _) => EnqueueStepped(cs, r, id, s);
      case Ack(_, _) => AckStepped(cs, r, id, s);
      case DeleteQueue => DeleteStepped(cs, r, id, s);
      case _ => OtherStepped(cs, C.Step(cs, r), r, id, s);
    }
  }

  lemma ServedIds(cs: C.State, r: Record)
    requires C.Inv(cs) && LS.Served(C.LiveOf(cs), r)
    ensures cs.acks.Keys <= cs.msgs.Keys
    ensures r.op.Enqueue? ==> r.op.msgId !in cs.msgs
    ensures r.op.Ack? && r.op.ackedId in cs.msgs ==> cs.msgs[r.op.ackedId].queueName == r.queueName
  {
    ServedTarget(cs, r);
  }

  /** The acks that compaction keeps for a pending message are the ones logged since the message began. */
  lemma {:induction false} AcksMatchLog(recs: seq<Record>, id: string, s: string)
    requires LS.ServedLog(recs) && id in C.Fold(C.INIT, recs).msgs
    ensures
      var cs := C.Fold(C.INIT, recs);
      s in C.AcksOf(cs, id) <==> Acked(recs, cs.msgs[id].queueName, id, s)
    decreases |recs|
  {
    var n := |recs| - 1;
    var front, r := recs[..n], recs[n];
    var cs, cs' := C.Fold(C.INIT, front), C.Fold(C.INIT, recs);
    var q := cs'.msgs[id].queueName;
    assert recs == front + [r];
    C.FoldOfServed(front);
    hide C.Inv, C.Step, C.LiveOf, LS.Served, LS.Run, Resets;
    StepAcks(cs, r, id, s);
    AckedSnoc(front, r, q, id, s);
    if id in cs.msgs && cs.msgs[id].queueName == q {
      AcksMatchLog(front, id, s);
    } else {
      assert Resets(r, q, id) by { EnqueueResets(r, q, id); }
    }
  }

  lemma EnqueueResets(r: Record, q: string, id: string)
    requires r.op.Enqueue? && r.op.msgId == id
    ensures Resets(r, q, id)
  {
  }

  // ---- The condition ----

  lemma StrayIffLogged(recs: seq<Record>)
    requires LS.ServedLog(recs)
    ensures NoStray(C.Fold(C.INIT, recs)) <==> forall i :: !StrayAt(recs, i)
  {
    var cs := C.Fold(C.INIT, recs);
    C.FoldOfServed(recs);
    if NoStray(cs) {
      forall i ensures !StrayAt(recs, i) { NoStrayAt(recs, i); }
    } else {
      var f :| Has(cs, f) && Stray(cs, f);
      StrayIsLogged(recs, f);
    }
  }

  lemma NoStrayAt(recs: seq<Record>, i: int)
    requires LS.ServedLog(recs) && NoStray(C.Fold(C.INIT, recs))
    ensures !StrayAt(recs, i)
  {
    if StrayAt(recs, i) {
      var cs := C.Fold(C.INIT, recs);
      C.FoldOfServed(recs);
      var k, s := LS.Key(recs[i].queueName, recs[i].op.ackedId), recs[i].op.subName;
      C.PendingAt(cs, k);
      assert Acked(recs, k.queue, k.id, s);
      AcksMatchLog(recs, k.id, s);
      assert C.MessageInv(cs, k.id) && C.AcksInv(cs, k.id);
      var f := AckFact(cs.acks[k.id][s].queueName, k.id, s);
      assert Has(cs, f) && Stray(cs, f);
    }
  }

  lemma StrayIsLogged(recs: seq<Record>, f: Fact)
    requires LS.ServedLog(recs) && Has(C.Fold(C.INIT, recs), f) && Stray(C.Fold(C.INIT, recs), f)
    ensures exists i :: StrayAt(recs, i)
  {
    var cs := C.Fold(C.INIT, recs);
    C.FoldOfServed(recs);
    assert C.AcksInv(cs, f.id) && C.MessageInv(cs, f.id);
    var k := LS.Key(cs.msgs[f.id].queueName, f.id);
    AcksMatchLog(recs, f.id, f.sub);
    var i :| AckedAt(recs, i, k.queue, f.id, f.sub);
    C.PendingAt(cs, k);
    assert StrayAt(recs, i);
  }

  /** The minimality law, on the records: compaction gives the smallest record sequence with the same meaning if and
      only if no message that is pending at the end was, since it began, acked for a subscriber that it was not
      addressed to. */
  lemma MinimalIffNoneStray(recs: seq<Record>, out: seq<Record>)
    requires LS.ServedLog(recs) && Compacts(recs, out)
    ensures (forall i :: !StrayAt(recs, i)) <==>
            (forall other :: R.Recovered(other) == Some(LS.Run(LS.NOTHING, recs)) ==> |out| <= |other|)
  {
    hide NoStray, StrayAt, R.Recovered, Compacts;
    StrayIffLogged(recs);
    MinimalIffNoStray(recs, out);
  }

  // ---- A log that compacts to more than it needs ----

  function StrayLog(q: string, id: string, p: SubPolicy, sub: string): seq<Record> {
    [Record(1, q, CreateQueue), Record(2, q, UpdateSubPolicy(p)), Record(3, q, Enqueue(id, "", map[p.subName := p])),
     Record(4, q, Ack(id, sub))]
  }

  lemma StrayLogFolds(q: string, id: string, p: SubPolicy, sub: string)
    requires sub != p.subName
    ensures
      var recs := StrayLog(q, id, p, sub);
      C.Fold(C.INIT, recs) ==
      C.State(map[q := recs[0]], map[q := map[p.subName := recs[1]]], map[id := recs[2]], map[id := {p.subName}],
              map[id := map[sub := recs[3]]])
  {
    var recs := StrayLog(q, id, p, sub);
    var a, b, c, d := recs[0], recs[1], recs[2], recs[3];
    assert recs == [a, b, c] + [d] && [a, b, c] == [a, b] + [c] && [a, b] == [a] + [b] && [a] == [] + [a];
    C.FoldSnoc(C.INIT, [], a);
    C.FoldSnoc(C.INIT, [a], b);
    assert map[q := map[]][q := map[][p.subName := b]] == map[q := map[p.subName := b]];
    C.FoldSnoc(C.INIT, [a, b], c);
    C.FoldSnoc(C.INIT, [a, b, c], d);
    OneName(p);
    assert {p.subName} - {sub} == {p.subName};
  }

  lemma OneName(p: SubPolicy)
    ensures C.SubNames(map[p.subName := p]) == {p.subName}
  {
    var subs := map[p.subName := p];
    assert p.subName in subs && subs[p.subName].subName in C.SubNames(subs);
  }

  /** Four records where three would do. */
  lemma StrayAckIsNotMinimal(q: string, id: string, p: SubPolicy, sub: string, out: seq<Record>)
    requires sub != p.subName && Compacts(StrayLog(q, id, p, sub), out)
    ensures LS.LegalLog(StrayLog(q, id, p, sub)) && |out| == 4
    ensures R.Recovered(StrayLog(q, id, p, sub)[..3]) == R.Recovered(StrayLog(q, id, p, sub))
  {
    hide C.Fold, Facts, R.Recovered, LS.LegalFrom, LS.Run, Compacts;
    var recs := StrayLog(q, id, p, sub);
    StrayLogFolds(q, id, p, sub);
    FourFacts(C.Fold(C.INIT, recs), q, id, p.subName, sub, recs);
    AsManyAsFacts(recs, out);
    StrayLogIsLegal(q, id, p, sub);
    R.LegalLogRecovers(recs);
    R.LegalLogRecovers(recs[..3]);
  }

  lemma AsManyAsFacts(recs: seq<Record>, out: seq<Record>)
    requires Compacts(recs, out)
    ensures |out| == |Facts(C.Fold(C.INIT, recs))|
  {
    hide C.Fold, Facts;
    var cs := C.Fold(C.INIT, recs);
    var order :| IsOrder(cs, order) && out == Emit(cs, order);
    DistinctSize(order);
  }

  lemma FourFacts(cs: C.State, q: string, id: string, name: string, sub: string, recs: seq<Record>)
    requires |recs| == 4 && recs[2].queueName == q && recs[3].queueName == q
    requires cs.queues == map[q := recs[0]] && cs.subs == map[q := map[name := recs[1]]]
    requires cs.msgs == map[id := recs[2]] && cs.acks == map[id := map[sub := recs[3]]]
    ensures Facts(cs) == {QueueFact(q), PolicyFact(q, name), MessageFact(q, id), AckFact(q, id, sub)}
  {
    forall f: Fact
      ensures f in Facts(cs) <==> f in {QueueFact(q), PolicyFact(q, name), MessageFact(q, id), AckFact(q, id, sub)}
    {
      FactsAre(cs, f);
    }
  }

  lemma StrayLogIsLegal(q: string, id: string, p: SubPolicy, sub: string)
    requires sub != p.subName
    ensures LS.LegalLog(StrayLog(q, id, p, sub)) && LS.LegalLog(StrayLog(q, id, p, sub)[..3])
    ensures LS.Run(LS.NOTHING, StrayLog(q, id, p, sub)) == LS.Run(LS.NOTHING, StrayLog(q, id, p, sub)[..3])
  {
    var recs := StrayLog(q, id, p, sub);
    var a, b, c, d := recs[0], recs[1], recs[2], recs[3];
    assert recs == [a, b, c] + [d] && recs[..3] == [a, b, c] == [a, b] + [c] && [a, b] == [a] + [b] && [a] == [] + [a];
    LS.RunSnoc(LS.NOTHING, [], a);
    LS.RunSnoc(LS.NOTHING, [a], b);
    LS.RunSnoc(LS.NOTHING, [a, b], c);
    LS.RunSnoc(LS.NOTHING, [a, b, c], d);
    var m := Message("", map[p.subName := p], {});
    assert p.subName in m.subList && m.Unsettled();
    assert LS.Run(LS.NOTHING, [a, b, c]).pending == map[LS.Key(q, id) := m];
  }
}
