/**
  The laws of checkpoint compaction: whatever was served, its output is a legal
  log with the same live state; it preserves meaning under every legal
  continuation, and compacting twice changes nothing.
 */
module CompactionLaws {
  import opened Options
  import opened Records
  import LS = LiveState
  import R = Replay
  import C = Compaction
  import opened Emission

  /** `out` is a possible result of CompactRecords(recs): some walk of the maps emits it. */
  ghost predicate Compacts(recs: seq<Record>, out: seq<Record>) {
    exists order :: IsOrder(C.Fold(C.INIT, recs), order) && out == Emit(C.Fold(C.INIT, recs), order)
  }

  /** Compaction of whatever was served, late acks included, is a legal log with the same live state. */
  lemma CompactedIsLegal(recs: seq<Record>, out: seq<Record>)
    requires LS.ServedLog(recs) && Compacts(recs, out)
    ensures LS.LegalLog(out) && LS.Run(LS.NOTHING, out) == LS.Run(LS.NOTHING, recs)
  {
    var cs := C.Fold(C.INIT, recs);
    var order :| IsOrder(cs, order) && out == Emit(cs, order);
    C.FoldOfServed(recs);
    EmissionRebuilds(cs, order);
  }

  /** Compaction preserves meaning: for every legal history past + future, the
      compacted past followed by the future replays, to the same live state. */
  lemma CompactionPreservesMeaning(past: seq<Record>, future: seq<Record>, out: seq<Record>)
    requires LS.LegalLog(past + future) && Compacts(past, out)
    ensures LS.LegalLog(out + future)
    ensures R.Recovered(out + future).Some? && R.Recovered(out + future) == R.Recovered(past + future)
  {
    LS.RunConcat(LS.NOTHING, past, future);
    LS.LegalIsServed(LS.NOTHING, past);
    CompactedIsLegal(past, out);
    LS.RunConcat(LS.NOTHING, out, future);
    R.LegalLogRecovers(out + future);
    R.LegalLogRecovers(past + future);
  }

  /** Compacting an output again yields the same records, in any order of the maps. */
  lemma CompactionIsFixpoint(recs: seq<Record>, out: seq<Record>, again: seq<Record>)
    requires LS.ServedLog(recs) && Compacts(recs, out) && Compacts(out, again)
    ensures C.Fold(C.INIT, out) == C.Fold(C.INIT, recs)
    ensures multiset(again) == multiset(out)
  {
    var cs := C.Fold(C.INIT, recs);
    var order :| IsOrder(cs, order) && out == Emit(cs, order);
    C.FoldOfServed(recs);
    EmissionRebuilds(cs, order);
    var order' :| IsOrder(cs, order') && again == Emit(cs, order');
    SameMembers(order, order');
    EmitPermutes(cs, order, order');
  }

  lemma {:induction false} SameMembers(a: seq<Fact>, b: seq<Fact>)
    requires Distinct(a) && Distinct(b) && Members(a) == Members(b)
    ensures multiset(a) == multiset(b)
  {
    forall f: Fact ensures multiset(a)[f] == multiset(b)[f] {
      OnceEach(a, f);
      OnceEach(b, f);
      assert f in a <==> f in Members(a);
      assert f in b <==> f in Members(b);
    }
  }

  lemma {:induction false} OnceEach(a: seq<Fact>, f: Fact)
    requires Distinct(a)
    ensures multiset(a)[f] == if f in a then 1 else 0
  {
    if a != [] {
      var n := |a| - 1;
      assert a == a[..n] + [a[n]];
      OnceEach(a[..n], f);
    }
  }

  lemma {:induction false} EmitPermutes(cs: C.State, a: seq<Fact>, b: seq<Fact>)
    requires multiset(a) == multiset(b)
    ensures multiset(Emit(cs, a)) == multiset(Emit(cs, b))
    decreases |a|
  {
    assert |multiset(a)| == |a| && |multiset(b)| == |b|;
    if a != [] {
      var n, f := |a| - 1, a[|a| - 1];
      assert f in multiset(b);
      var j :| 0 <= j < |b| && b[j] == f;
      var b' := b[..j] + b[j + 1..];
      assert a == a[..n] + [f];
      assert b == b[..j] + [f] + b[j + 1..];
      assert multiset(b') == multiset(b) - multiset{f};
      EmitPermutes(cs, a[..n], b');
      EmitSplit(cs, a[..n], [f]);
      EmitSplit(cs, b[..j], [f]);
      EmitSplit(cs, b[..j] + [f], b[j + 1..]);
      EmitSplit(cs, b[..j], b[j + 1..]);
    }
  }

  lemma EmitSplit(cs: C.State, a: seq<Fact>, b: seq<Fact>)
    ensures Emit(cs, a + b) == Emit(cs, a) + Emit(cs, b)
  {
  }

  // ---- Every emitted record is one of the records compacted ----

  lemma AckKeepsRecords(cs: C.State, r: Record, f: Fact)
    requires r.op.Ack? && Has(C.AppliedAck(cs, r), f)
    ensures
      var cs' := C.AppliedAck(cs, r);
      RecordFor(cs', f) == r || (Has(cs, f) && RecordFor(cs, f) == RecordFor(cs', f))
  {
  }

  lemma DeleteKeepsRecords(cs: C.State, r: Record, f: Fact)
    requires r.op.DeleteQueue? && Has(C.Step(cs, r), f)
    ensures Has(cs, f) && RecordFor(cs, f) == RecordFor(C.Step(cs, r), f)
  {
    assert C.Step(cs, r) == C.AppliedDeleteQueue(cs, r.queueName);
  }

  lemma EnqueueKeepsRecords(cs: C.State, r: Record, f: Fact)
    requires r.op.Enqueue? && Has(C.AppliedEnqueue(cs, r), f)
    ensures
      var cs' := C.AppliedEnqueue(cs, r);
      RecordFor(cs', f) == r || (Has(cs, f) && RecordFor(cs, f) == RecordFor(cs', f))
  {
    hide C.SubNames;
  }

  lemma CatalogKeepsRecords(cs: C.State, r: Record, f: Fact)
    requires !r.op.Ack? && !r.op.DeleteQueue? && !r.op.Enqueue? && Has(C.Step(cs, r), f)
    ensures RecordFor(C.Step(cs, r), f) == r || (Has(cs, f) && RecordFor(cs, f) == RecordFor(C.Step(cs, r), f))
  {
    CatalogRecords(cs, r);
    hide C.Step;
    if f.PolicyFact? { assert f.queue in C.Step(cs, r).subs; }
  }

  /** A record of the catalog is new, or was there before. */
  lemma CatalogRecords(cs: C.State, r: Record)
    requires !r.op.Ack? && !r.op.DeleteQueue? && !r.op.Enqueue?
    ensures
      var cs' := C.Step(cs, r);
      && cs'.msgs == cs.msgs && cs'.acks == cs.acks
      && (forall q :: q in cs'.queues ==> cs'.queues[q] == r || (q in cs.queues && cs'.queues[q] == cs.queues[q]))
      && (forall q, s :: q in cs'.subs && s in cs'.subs[q] ==>
            cs'.subs[q][s] == r || (q in cs.subs && s in cs.subs[q] && cs'.subs[q][s] == cs.subs[q][s]))
  {
    match r.op {
      case CreateQueue => assert C.Step(cs, r).subs == cs.subs[r.queueName := map[]];
      case UpdateSubPolicy(p) => PoliciesChange(cs, r, p.subName);
      case DeleteSubPolicy(p) => PoliciesChange(cs, r, p.subName);
      case _ =>
    }
  }

  lemma PoliciesChange(cs: C.State, r: Record, sub: string)
    requires (r.op.UpdateSubPolicy? && r.op.policy.subName == sub) ||
             (r.op.DeleteSubPolicy? && r.op.removed.subName == sub)
    ensures
      var cs' := C.Step(cs, r);
      cs'.queues == cs.queues && cs'.msgs == cs.msgs && cs'.acks == cs.acks && cs'.subs.Keys == cs.subs.Keys
    ensures forall q :: q in cs.subs && q != r.queueName ==> C.Step(cs, r).subs[q] == cs.subs[q]
    ensures r.queueName in cs.subs ==>
              C.Step(cs, r).subs[r.queueName] ==
              if r.op.UpdateSubPolicy? then cs.subs[r.queueName][sub := r] else cs.subs[r.queueName] - {sub}
  {
  }

  lemma StepKeepsRecords(cs: C.State, r: Record, f: Fact)
    requires Has(C.Step(cs, r), f)
    ensures RecordFor(C.Step(cs, r), f) == r || (Has(cs, f) && RecordFor(cs, f) == RecordFor(C.Step(cs, r), f))
  {
    hide Has, RecordFor;
    match r.op {
      case Ack(_, _) => AckKeepsRecords(cs, r, f);
      case DeleteQueue => DeleteKeepsRecords(cs, r, f);
      case Enqueue(_, _, _) => EnqueueKeepsRecords(cs, r, f);
      case _ => CatalogKeepsRecords(cs, r, f);
    }
  }

  lemma {:induction false} FoldKeepsRecords(recs: seq<Record>, f: Fact)
    requires Has(C.Fold(C.INIT, recs), f)
    ensures RecordFor(C.Fold(C.INIT, recs), f) in recs
    decreases |recs|
  {
    if recs != [] {
      var n := |recs| - 1;
      StepKeepsRecords(C.Fold(C.INIT, recs[..n]), recs[n], f);
      if RecordFor(C.Fold(C.INIT, recs), f) != recs[n] {
        FoldKeepsRecords(recs[..n], f);
      }
    }
  }

  lemma CompactedAreInputs(recs: seq<Record>, out: seq<Record>)
    requires Compacts(recs, out)
    ensures forall r :: r in out ==> r in recs
  {
    var cs := C.Fold(C.INIT, recs);
    var order :| IsOrder(cs, order) && out == Emit(cs, order);
    forall i | 0 <= i < |out| ensures out[i] in recs {
      assert order[i] in Members(order);
      FactsAre(cs, order[i]);
      FoldKeepsRecords(recs, order[i]);
    }
  }

  // ---- What happens to an ack that comes too late ----

  /** Replay only holds messages that some record enqueued. */
  lemma {:induction false} HeldWasEnqueued(recs: seq<Record>, k: LS.Key) returns (i: nat)
    requires R.Run(R.INIT, recs).Some? && k in R.KeysOf(R.Run(R.INIT, recs).value.queues)
    ensures i < |recs| && recs[i].op.Enqueue? && recs[i].op.msgId == k.id && recs[i].queueName == k.queue
    decreases |recs|
  {
    var n := |recs| - 1;
    var r := recs[n];
    if r.op.Enqueue? && r.op.msgId == k.id && r.queueName == k.queue {
      i := n;
    } else {
      var st := R.Run(R.INIT, recs[..n]).value;
      assert k in R.KeysOf(st.queues);
      i := HeldWasEnqueued(recs[..n], k);
    }
  }

  /** After a checkpoint, an ack replays if and only if its message is still
      pending: the settled messages it could have named are gone. */
  lemma AckReplaysIffPending(past: seq<Record>, out: seq<Record>, r: Record)
    requires LS.ServedLog(past) && Compacts(past, out) && r.op.Ack?
    ensures R.Recovered(out + [r]).Some? <==> LS.Key(r.queueName, r.op.ackedId) in LS.Run(LS.NOTHING, past).pending
  {
    var k := LS.Key(r.queueName, r.op.ackedId);
    CompactedIsLegal(past, out);
    R.LegalLogRecovers(out);
    var st := R.Run(R.INIT, out).value;
    R.RunConcat(R.INIT, out, [r]);
    assert R.Run(st, [r]) == R.Step(st, r) by {
      assert [r][..0] == [];
    }
    R.LivePending(st, k);
    if k in R.KeysOf(st.queues) {
      var i := HeldWasEnqueued(out, k);
      EmittedIsPending(past, out, i);
    }
  }

  /** A fact's record is an enqueue exactly when the fact is a message, and names it. */
  lemma RecordKinds(cs: C.State, f: Fact)
    requires C.Inv(cs) && Has(cs, f)
    ensures RecordFor(cs, f).op.Enqueue? <==> f.MessageFact?
    ensures f.MessageFact? ==> RecordFor(cs, f).op.msgId == f.id && RecordFor(cs, f).queueName == f.queue
  {
    match f {
      case QueueFact(q) => assert C.IsCreate(cs.queues[q], q);
      case PolicyFact(q, s) => assert C.PoliciesInv(cs.subs[q], q) && C.IsPolicy(cs.subs[q][s], q, s);
      case AckFact(q, id, s) => assert C.AcksInv(cs, id) && C.IsAck(cs.acks[id][s], q, id, s);
      case MessageFact(q, id) => assert C.MessageInv(cs, id);
    }
  }

  lemma EmittedIsPending(past: seq<Record>, out: seq<Record>, i: nat)
    requires LS.ServedLog(past) && Compacts(past, out) && i < |out| && out[i].op.Enqueue?
    ensures LS.Key(out[i].queueName, out[i].op.msgId) in LS.Run(LS.NOTHING, past).pending
  {
    var cs := C.Fold(C.INIT, past);
    var order :| IsOrder(cs, order) && out == Emit(cs, order);
    C.FoldOfServed(past);
    OrderIsBuildable(cs, order);
    RecordKinds(cs, order[i]);
    C.PendingAt(cs, LS.Key(out[i].queueName, out[i].op.msgId));
  }

  /** The law above has teeth: a repeated ack of a settled message replays from
      the log itself and stops the replay of its checkpoint. */
  lemma LateAckBreaksCheckpoint(q: string, id: string, p: SubPolicy, out: seq<Record>)
    requires
      var past := LateAckLog(q, id, p);
      Compacts(past, out)
    ensures LS.LegalLog(LateAckLog(q, id, p))
    ensures
      var late := Record(5, q, Ack(id, p.subName));
      R.Recovered(LateAckLog(q, id, p) + [late]).Some? && R.Recovered(out + [late]).None?
  {
    var past := LateAckLog(q, id, p);
    var late := Record(5, q, Ack(id, p.subName));
    LateAckFacts(q, id, p);
    LS.LegalIsServed(LS.NOTHING, past);
    AckReplaysIffPending(past, out, late);
  }

  function LateAckLog(q: string, id: string, p: SubPolicy): seq<Record> {
    [Record(1, q, CreateQueue), Record(2, q, UpdateSubPolicy(p)),
     Record(3, q, Enqueue(id, "", map[p.subName := p])), Record(4, q, Ack(id, p.subName))]
  }

  lemma LateAckFacts(q: string, id: string, p: SubPolicy)
    ensures
      var log := LateAckLog(q, id, p);
      && LS.LegalLog(log) && LS.Run(LS.NOTHING, log).pending == map[]
      && R.Recovered(log + [Record(5, q, Ack(id, p.subName))]).Some?
  {
    var a, b, c, d := Record(1, q, CreateQueue), Record(2, q, UpdateSubPolicy(p)),
      Record(3, q, Enqueue(id, "", map[p.subName := p])), Record(4, q, Ack(id, p.subName));
    var e := Record(5, q, Ack(id, p.subName));
    var m := Message("", map[p.subName := p], {});
    LS.RunSnoc(LS.NOTHING, [], a);
    assert [] + [a] == [a];
    LS.RunSnoc(LS.NOTHING, [a], b);
    assert [a] + [b] == [a, b];
    LS.RunSnoc(LS.NOTHING, [a, b], c);
    assert [a, b] + [c] == [a, b, c];
    assert p.subName in m.subList && m.Unsettled() && !m.Settle(p.subName).Unsettled();
    assert LS.Run(LS.NOTHING, [a, b, c]) == LS.Live(map[q := map[p.subName := p]], map[LS.Key(q, id) := m]);
    LS.RunSnoc(LS.NOTHING, [a, b, c], d);
    assert [a, b, c] + [d] == LateAckLog(q, id, p);
    LateAckReplays(q, id, p);
  }

  lemma LateAckReplays(q: string, id: string, p: SubPolicy)
    ensures R.Recovered(LateAckLog(q, id, p) + [Record(5, q, Ack(id, p.subName))]).Some?
  {
    var log := LateAckLog(q, id, p);
    var late := Record(5, q, Ack(id, p.subName));
    var st1 := R.State(map[q := map[]], map[]);
    var st2 := R.State(map[q := map[p.subName := p]], map[]);
    var m := Message("", map[p.subName := p], {});
    var st3 := R.State(st2.catalog, map[q := map[id := m]]);
    assert log[..1][..0] == [] && R.Run(R.INIT, log[..1]) == Some(st1);
    assert map[q := map[]][q := map[][p.subName := p]] == st2.catalog;
    assert R.Step(st1, log[1]) == Some(st2);
    assert log[..2][..1] == log[..1] && R.Run(R.INIT, log[..2]) == Some(st2);
    assert log[..3][..2] == log[..2] && R.Run(R.INIT, log[..3]) == Some(st3);
    assert log[..3] == log[..|log| - 1];
    assert R.Run(R.INIT, log) == R.Step(st3, log[3]);
    assert (log + [late])[..4] == log;
  }
}
